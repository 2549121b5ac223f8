/** Single steps and short runs of the parser, in the shapes that the grammar proofs use. */
module JsonSteps {
  import opened Wrappers
  import opened JsonTables
  import opened JsonSpec
  import opened JsonGrammar
  import opened Unicode

  lemma {:induction false} BlankClass(c: int)
    requires IsBlankCode(c)
    ensures ClassOf(c) == Some(SPACE) || ClassOf(c) == Some(WHITE)
  {
  }

  lemma {:induction false} DigitClass(c: int)
    requires IsDigitCode(c)
    ensures ClassOf(c) == Some(if c == ZERO_CODE then ZERO else DIGIT) && c % 256 == c
  {
  }

  lemma {:induction false} HexCodeClass(c: int)
    requires IsHexCode(c)
    ensures ClassOf(c).Some? && IsHexClass(ClassOf(c).value)
    ensures c % 256 == c && HexOf(c) == HexDigitValue(c) && 0 <= HexOf(c) < 16
  {
  }

  lemma {:induction false} PlainClass(c: int)
    requires IsPlainCode(c)
    ensures ClassOf(c).Some? && Transition(ST, ClassOf(c).value) == To(ST)
  {
  }

  /** No escape, comment or surrogate is in progress. */
  predicate Steady(p: Parser) { !p.escaped && !p.comment && p.high == 0 }

  lemma {:induction false} RunCons(cfg: Config, p: Parser, c: int, s: seq<int>)
    ensures Run(cfg, p, [c] + s) ==
            match Step(cfg, p, c)
            case Go(q) => Run(cfg, q, s)
            case stop => stop
  {
    hide Step;
    assert ([c] + s)[1..] == s;
  }

  /** A stored character that only moves the control state. */
  lemma {:induction false} StepTo(cfg: Config, p: Parser, c: nat, k: Class, t: State)
    requires ClassOf(c) == Some(k) && Transition(p.state, k) == To(t)
    requires !p.escaped && !p.comment && p.token != NoToken
    ensures Step(cfg, p, c) == Go(p.(buf := p.buf + [c % 256], state := t))
  {
    hide ClassOf, Transition;
  }

  // ----- blanks

  /** The number of blanks at the front of a text. */
  function BlankLength(s: seq<int>): (n: nat)
    ensures n <= |s| && IsBlank(s[..n]) && (n < |s| ==> !IsBlankCode(s[n]))
  {
    if s == [] || !IsBlankCode(s[0]) then 0 else
      var n := 1 + BlankLength(s[1..]);
      assert forall i :: 1 <= i < n ==> s[i] == s[1..][i - 1];
      n
  }

  /** The states that wait for the next token and stay put on a blank. */
  predicate Waiting(s: State) {
    s == GO || s == OK || s == OB || s == KE || s == CO || s == VA || s == AR
  }

  lemma {:induction false} StepBlankIdle(cfg: Config, p: Parser, c: int)
    requires IsBlankCode(c) && Waiting(p.state) && Steady(p) && p.token == NoToken
    ensures Step(cfg, p, c) == Go(p)
  {
    hide ClassOf;
    BlankClass(c);
  }

  lemma {:induction false} RunBlankIdle(cfg: Config, p: Parser, s: seq<int>)
    requires IsBlank(s) && Waiting(p.state) && Steady(p) && p.token == NoToken
    ensures Run(cfg, p, s) == Go(p)
    decreases |s|
  {
    hide Step;
    if s != [] {
      StepBlankIdle(cfg, p, s[0]);
      RunBlankIdle(cfg, p, s[1..]);
    }
  }

  /** The states in which a value may have just ended. */
  predicate Ending(s: State) {
    s == OK || s == ZE || s == IT || s == FX || s == FR || s == E3
  }

  lemma {:induction false} EndingTable(s: State, k: Class)
    requires Ending(s) && (IsWhite(k) || k == RCURB || k == RSQRB || k == COMMA)
    ensures Transition(s, k) == AfterValue(k, true)
  {
    hide AfterValue, FractionRow, BeforeValue, IsHexClass, IsSimpleEscape;
    EndingFraction(k);
    EndingRows(s, k);
  }

  lemma EndingRows(s: State, k: Class)
    requires IsWhite(k) || k == RCURB || k == RSQRB || k == COMMA
    ensures s == OK || s == ZE || s == IT ==> Transition(s, k) == AfterValue(k, true)
  {
    hide AfterValue, FractionRow, BeforeValue;
  }

  lemma EndingFraction(k: Class)
    requires IsWhite(k) || k == RCURB || k == RSQRB || k == COMMA
    ensures FractionRow(k, true) == FractionRow(k, false) == AfterValue(k, true) == AfterValue(k, false)
  {
  }

  lemma BracketClasses()
    ensures ClassOf('[' as int) == Some(LSQRB) && ClassOf(']' as int) == Some(RSQRB)
    ensures ClassOf('{' as int) == Some(LCURB) && ClassOf('}' as int) == Some(RCURB)
  {
  }

  lemma MarkClasses()
    ensures ClassOf(',' as int) == Some(COMMA) && ClassOf(':' as int) == Some(COLON) && ClassOf('"' as int) == Some(QUOTE)
  {
  }

  lemma OpeningRows(s: State)
    requires s == VA || s == AR || s == GO
    ensures Transition(s, LSQRB) == ArrayBegin && Transition(s, LCURB) == ObjectBegin
  {
  }

  lemma QuoteRows(s: State)
    requires s == VA || s == AR || s == OB || s == KE || s == ST
    ensures Transition(s, QUOTE) == if s == ST then StringEnd else StringBegin
  {
  }

  lemma ClosingRows()
    ensures Transition(AR, RSQRB) == ArrayEnd && Transition(OB, RCURB) == EmptyObjectEnd && Transition(CO, COLON) == Colon
  {
  }

  lemma {:induction false} StepBlankPending(cfg: Config, p: Parser, c: int)
    requires IsBlankCode(c) && Ending(p.state) && Steady(p) && p.token != NoToken
    ensures Step(cfg, p, c) == Go(p.(state := OK, buf := p.buf + [c]))
  {
    hide ClassOf, Transition;
    BlankClass(c);
    EndingTable(p.state, ClassOf(c).value);
    StepTo(cfg, p, c, ClassOf(c).value, OK);
  }

  lemma {:induction false} RunBlankPending(cfg: Config, p: Parser, s: seq<int>)
    requires IsBlank(s) && Ending(p.state) && Steady(p) && p.token != NoToken
    ensures Run(cfg, p, s) ==
            Go(p.(state := if s == [] then p.state else OK, buf := p.buf + s))
    decreases |s|
  {
    hide Step;
    if s == [] {
      assert p.buf + s == p.buf;
    } else {
      StepBlankPending(cfg, p, s[0]);
      RunBlankPending(cfg, p.(state := OK, buf := p.buf + [s[0]]), s[1..]);
      assert p.buf + [s[0]] + s[1..] == p.buf + s;
    }
  }

  // ----- strings

  lemma {:induction false} StepPlain(cfg: Config, p: Parser, c: int)
    requires p.state == ST && Steady(p) && p.token == StringToken && IsPlainCode(c)
    ensures Step(cfg, p, c) == Go(p.(buf := p.buf + [c % 256]))
  {
    PlainClass(c);
    StepTo(cfg, p, c, ClassOf(c).value, ST);
  }

  lemma {:induction false} StepBackslash(cfg: Config, p: Parser)
    requires p.state == ST && Steady(p) && p.token == StringToken
    ensures Step(cfg, p, '\\' as int) ==
            Go(p.(buf := p.buf + ['\\' as int], escaped := true, state := ES))
  {
  }

  lemma {:induction false} StepSimple(cfg: Config, p: Parser, c: int)
    requires p.state == ES && p.escaped && p.buf != [] && SimpleMeaning(c).Some?
    ensures Step(cfg, p, c) == Go(p.(buf := p.buf[..|p.buf| - 1] + [SimpleMeaning(c).value],
                                     escaped := false, state := ST))
  {
  }

  lemma {:induction false} StepEscapedU(cfg: Config, p: Parser)
    requires p.state == ES && p.escaped && p.buf != []
    ensures Step(cfg, p, 'u' as int) == Go(p.(buf := p.buf[..|p.buf| - 1] + ['\\' as int, 'u' as int],
                                              escaped := false, state := U1))
  {
  }

  lemma {:induction false} RunSimple(cfg: Config, p: Parser, c: int)
    requires p.state == ST && Steady(p) && p.token == StringToken && SimpleMeaning(c).Some?
    ensures Run(cfg, p, ['\\' as int, c]) == Go(p.(buf := p.buf + [SimpleMeaning(c).value]))
  {
    hide Step;
    var q := p.(buf := p.buf + ['\\' as int], escaped := true, state := ES);
    StepBackslash(cfg, p);
    StepSimple(cfg, q, c);
    RunCons(cfg, p, '\\' as int, [c]);
    RunOne(cfg, q, c);
    assert ['\\' as int, c] == ['\\' as int] + [c];
    assert q.buf[..|q.buf| - 1] == p.buf;
  }

  lemma {:induction false} StepLowHead(cfg: Config, p: Parser)
    requires !p.escaped && !p.comment && p.token == StringToken && p.state == D1
    ensures Step(cfg, p, '\\' as int) == Go(p.(buf := p.buf + ['\\' as int], state := D2))
  {
    StepTo(cfg, p, '\\' as int, BACKS, D2);
  }

  lemma {:induction false} StepLowU(cfg: Config, p: Parser)
    requires !p.escaped && !p.comment && p.token == StringToken && p.state == D2
    ensures Step(cfg, p, 'u' as int) == Go(p.(buf := p.buf + ['u' as int], state := U1))
  {
    StepTo(cfg, p, 'u' as int, LOW_U, U1);
  }

  /** A backslash and 'u', either in plain text or where a low half is awaited. */
  lemma {:induction false} RunEscapeHead(cfg: Config, p: Parser)
    requires !p.escaped && !p.comment && p.token == StringToken
    requires p.state == (if p.high == 0 then ST else D1)
    ensures Run(cfg, p, ['\\' as int, 'u' as int]) ==
            Go(p.(buf := p.buf + ['\\' as int, 'u' as int], state := U1))
  {
    hide Step, ClassOf, Transition;
    var s := ['\\' as int, 'u' as int];
    assert s == ['\\' as int] + ['u' as int];
    RunCons(cfg, p, '\\' as int, ['u' as int]);
    var q := p.(buf := p.buf + ['\\' as int],
                escaped := p.high == 0, state := if p.high == 0 then ES else D2);
    if p.high == 0 {
      StepBackslash(cfg, p);
      StepEscapedU(cfg, q);
    } else {
      StepLowHead(cfg, p);
      StepLowU(cfg, q);
    }
    RunOne(cfg, q, 'u' as int);
    assert q.buf[..|q.buf| - 1] == p.buf;
    assert q.buf + ['u' as int] == p.buf + s;
  }

  function NextHexState(s: State): State {
    if s == U1 then U2 else if s == U2 then U3 else U4
  }

  lemma {:induction false} StepHex(cfg: Config, p: Parser, c: int)
    requires p.state == U1 || p.state == U2 || p.state == U3
    requires !p.escaped && !p.comment && p.token == StringToken && IsHexCode(c)
    ensures Step(cfg, p, c) == Go(p.(buf := p.buf + [c], state := NextHexState(p.state)))
  {
    hide ClassOf, HexOf, IsHexClass;
    HexCodeClass(c);
    StepTo(cfg, p, c, ClassOf(c).value, NextHexState(p.state));
  }

  lemma {:induction false} StepLastHex(cfg: Config, p: Parser, c: int)
    requires p.state == U4 && !p.escaped && !p.comment && p.token == StringToken && IsHexCode(c)
    ensures Step(cfg, p, c) == ReadUnicode(p.(buf := p.buf + [c]))
  {
    hide ClassOf, HexOf, IsHexClass, ReadUnicode;
    HexCodeClass(c);
  }

  /** Four hexadecimal digits bring the decoder to a buffer that ends with them. */
  lemma {:induction false} RunHex4(cfg: Config, p: Parser, h: seq<int>)
    requires p.state == U1 && !p.escaped && !p.comment && p.token == StringToken && AreHex4(h)
    ensures Run(cfg, p, h) == ReadUnicode(p.(buf := p.buf + h, state := U4))
  {
    hide Step, ReadUnicode;
    var p1 := p.(buf := p.buf + [h[0]], state := U2);
    var p2 := p1.(buf := p1.buf + [h[1]], state := U3);
    var p3 := p2.(buf := p2.buf + [h[2]], state := U4);
    StepHex(cfg, p, h[0]);
    StepHex(cfg, p1, h[1]);
    StepHex(cfg, p2, h[2]);
    StepLastHex(cfg, p3, h[3]);
    assert h == [h[0]] + ([h[1]] + ([h[2]] + [h[3]]));
    RunCons(cfg, p, h[0], [h[1]] + ([h[2]] + [h[3]]));
    RunCons(cfg, p1, h[1], [h[2]] + [h[3]]);
    RunCons(cfg, p2, h[2], [h[3]]);
    RunOne(cfg, p3, h[3]);
    assert p3.buf + [h[3]] == p.buf + h;
  }

  /** What the decoder makes of an escape whose six characters end the buffer. */
  lemma {:induction false} DecodeEscape(p: Parser, kept: seq<int>, h: seq<int>)
    requires AreHex4(h) && p.buf == kept + ['\\' as int, 'u' as int] + h
    ensures 0 <= Hex4Value(h) < 0x10000
    ensures ReadUnicode(p) ==
            var u := Hex4Value(h);
            if p.high != 0 then
              if IsLowSurrogate(u)
              then Go(p.(high := 0, state := ST, buf := kept + Encoded(SurrogatePair(p.high, u), 3)))
              else Refused(p.log)
            else if IsHighSurrogate(u) then Go(p.(high := u, state := D1, buf := kept))
            else if IsLowSurrogate(u) then Refused(p.log)
            else Go(p.(state := ST, buf := kept + Utf8(u)))
  {
    hide HexOf, HexDigitValue, Encoded, Utf8;
    HexCodeClass(h[0]);
    HexCodeClass(h[1]);
    HexCodeClass(h[2]);
    HexCodeClass(h[3]);
    assert p.buf[|p.buf| - 4..] == h;
    assert p.buf[..|p.buf| - 6] == kept;
    var u := Hex4Value(h);
    assert CodeUnit(h) == u;
    EncodedIsUtf8(u);
  }

  lemma {:induction false} RunUnit(cfg: Config, p: Parser, h: seq<int>)
    requires !p.escaped && !p.comment && p.token == StringToken && AreHex4(h)
    requires p.state == (if p.high == 0 then ST else D1)
    ensures Run(cfg, p, ['\\' as int, 'u' as int] + h) ==
            var u := Hex4Value(h);
            if p.high != 0 then
              if IsLowSurrogate(u)
              then Go(p.(high := 0, state := ST, buf := p.buf + Encoded(SurrogatePair(p.high, u), 3)))
              else Refused(p.log)
            else if IsHighSurrogate(u) then Go(p.(high := u, state := D1))
            else if IsLowSurrogate(u) then Refused(p.log)
            else Go(p.(state := ST, buf := p.buf + Utf8(u)))
  {
    hide Step, ReadUnicode, Encoded, Utf8, Hex4Value;
    var head := ['\\' as int, 'u' as int];
    RunConcat(cfg, p, head, h);
    RunEscapeHead(cfg, p);
    var q := p.(buf := p.buf + head, state := U1);
    RunHex4(cfg, q, h);
    DecodeEscape(q.(buf := q.buf + h, state := U4), p.buf, h);
  }

  lemma {:induction false} RunItem(cfg: Config, p: Parser, x: Item)
    requires p.state == ST && Steady(p) && p.token == StringToken && WfItem(x)
    ensures Run(cfg, p, ItemText(x)) == Go(p.(buf := p.buf + ItemBytes(x)))
  {
    hide Step, Encoded, Utf8, Hex4Value, IsPlainCode;
    var head := ['\\' as int, 'u' as int];
    match x
    case Plain(c) =>
      StepPlain(cfg, p, c);
      RunOne(cfg, p, c);
    case Simple(c) => RunSimple(cfg, p, c);
    case Unit(h) => RunUnit(cfg, p, h);
    case Pair(h, l) =>
      RunConcat(cfg, p, head + h, head + l);
      RunUnit(cfg, p, h);
      RunUnit(cfg, p.(high := Hex4Value(h), state := D1), l);
      PairIsScalar(Hex4Value(h), Hex4Value(l));
      EncodedIsUtf8(SurrogatePair(Hex4Value(h), Hex4Value(l)));
  }

  lemma {:induction false} RunItems(cfg: Config, p: Parser, items: seq<Item>)
    requires p.state == ST && Steady(p) && p.token == StringToken && WfItems(items)
    ensures Run(cfg, p, ItemsText(items)) == Go(p.(buf := p.buf + ItemsBytes(items)))
    decreases |items|
  {
    hide Step, WfItem, ItemText, ItemBytes;
    var q := if items == [] then p else p.(buf := p.buf + ItemBytes(items[0]));
    if items == [] {
      assert p.buf + [] == p.buf;
    } else {
      RunConcat(cfg, p, ItemText(items[0]), ItemsText(items[1..]));
      RunItem(cfg, p, items[0]);
      RunItems(cfg, q, items[1..]);
      assert q.buf + ItemsBytes(items[1..]) == p.buf + ItemsBytes(items);
    }
  }
}
