/** Every text that the parser accepts is a text of the grammar: the syntax tree is read off
    the accepting run. */
module JsonSound {
  import opened Wrappers
  import opened JsonTables
  import opened JsonSpec
  import opened JsonInvariant
  import opened JsonGrammar
  import opened JsonSteps
  import opened JsonNumbers
  import opened JsonComplete
  import opened JsonInversion

  lemma {:induction false} AcceptedStep(cfg: Config, p: Parser, s: seq<int>)
    requires Accepted(cfg, p, s)
    ensures s == [] ==> Finished(p)
    ensures s != [] ==> Step(cfg, p, s[0]).Go? && Accepted(cfg, Step(cfg, p, s[0]).next, s[1..])
  {
    hide Step;
  }

  /** A prefix whose run is known can be taken off an accepted text. */
  lemma {:induction false} AcceptedRest(cfg: Config, p: Parser, a: seq<int>, s: seq<int>)
    requires Accepted(cfg, p, s) && a <= s
    ensures Run(cfg, p, a).Go? && Accepted(cfg, Run(cfg, p, a).next, s[|a|..])
  {
    hide Step, Run;
    assert s == a + s[|a|..];
    RunConcat(cfg, p, a, s[|a|..]);
  }

  // ----- blanks

  lemma {:induction false} SoundBlank(cfg: Config, p: Parser, s: seq<int>) returns (blank: seq<int>, rest: seq<int>)
    requires Waiting(p.state) && Steady(p) && p.token == NoToken && Accepted(cfg, p, s)
    ensures IsBlank(blank) && s == blank + rest && Accepted(cfg, p, rest) && |blank| == BlankLength(s)
    ensures rest != [] ==> !IsBlankCode(rest[0])
  {
    hide Step, Run;
    var n := BlankLength(s);
    blank, rest := s[..n], s[n..];
    AcceptedRest(cfg, p, blank, s);
    RunBlankIdle(cfg, p, blank);
  }

  // ----- strings

  /** The state of a parser inside a string. */
  predicate Quoted(p: Parser) { p.state == ST && Steady(p) && p.token == StringToken }

  /** Where a \uXXXX escape may begin. */
  predicate Escapable(p: Parser) {
    !p.escaped && !p.comment && p.token == StringToken && p.state == (if p.high == 0 then ST else D1)
  }

  lemma {:induction false} SoundHexFrom(cfg: Config, p: Parser, s: seq<int>)
    requires p.state == U1 || p.state == U2 || p.state == U3 || p.state == U4
    requires !p.escaped && !p.comment && p.token == StringToken && Accepted(cfg, p, s)
    ensures s != [] && IsHexCode(s[0])
    ensures p.state != U4 ==>
              Accepted(cfg, p.(buf := p.buf + [s[0]], state := NextHexState(p.state)), s[1..])
  {
    hide Step, Run;
    AcceptedStep(cfg, p, s);
    HexTakes(cfg, p, s[0]);
    if p.state != U4 { StepHex(cfg, p, s[0]); }
  }

  /** After a backslash and 'u' an accepted text has four hexadecimal digits. */
  lemma {:induction false} SoundHex4(cfg: Config, p: Parser, s: seq<int>)
    requires p.state == U1 && !p.escaped && !p.comment && p.token == StringToken && Accepted(cfg, p, s)
    ensures |s| >= 4 && AreHex4(s[..4])
  {
    hide Step, Run, IsHexCode, Accepted;
    SoundHexFrom(cfg, p, s);
    var p1 := p.(buf := p.buf + [s[0]], state := U2);
    SoundHexFrom(cfg, p1, s[1..]);
    var p2 := p1.(buf := p1.buf + [s[1]], state := U3);
    assert s[1..][1..] == s[2..];
    SoundHexFrom(cfg, p2, s[2..]);
    var p3 := p2.(buf := p2.buf + [s[2]], state := U4);
    assert s[2..][1..] == s[3..];
    SoundHexFrom(cfg, p3, s[3..]);
  }

  /** A backslash is followed by a known character. */
  lemma {:induction false} SoundEscapeHead(cfg: Config, p: Parser, s: seq<int>)
    requires Escapable(p) && Accepted(cfg, p, s) && s != [] && s[0] == '\\' as int
    ensures |s| >= 2
    ensures p.high == 0 ==> SimpleMeaning(s[1]).Some? || s[1] == 'u' as int
    ensures p.high != 0 ==> s[1] == 'u' as int
  {
    hide Step, Run;
    AcceptedStep(cfg, p, s);
    var q := p.(buf := p.buf + ['\\' as int],
                escaped := p.high == 0, state := if p.high == 0 then ES else D2);
    if p.high == 0 { StepBackslash(cfg, p); } else { StepLowHead(cfg, p); }
    AcceptedStep(cfg, q, s[1..]);
    if p.high == 0 { EscapeTakes(cfg, q, s[1]); } else { LowHeadTakes(cfg, q, s[1]); }
  }

  /** A \u escape is complete, and the run over it goes on. */
  lemma {:induction false} SoundUnit(cfg: Config, p: Parser, s: seq<int>) returns (h: seq<int>, q: Parser)
    requires Escapable(p) && Accepted(cfg, p, s)
    requires |s| >= 2 && s[0] == '\\' as int && s[1] == 'u' as int
    ensures AreHex4(h) && |s| >= 6 && s[..6] == ['\\' as int, 'u' as int] + h
    ensures Run(cfg, p, ['\\' as int, 'u' as int] + h) == Go(q) && Accepted(cfg, q, s[6..])
  {
    hide Step, Run, AreHex4;
    var head := ['\\' as int, 'u' as int];
    assert s[..2] == head;
    RunEscapeHead(cfg, p);
    AcceptedRest(cfg, p, head, s);
    SoundHex4(cfg, p.(buf := p.buf + head, state := U1), s[2..]);
    h := s[2..][..4];
    assert s[..6] == head + h;
    AcceptedRest(cfg, p, head + h, s);
    q := Run(cfg, p, head + h).next;
  }

  /** A surrogate escape in an accepted text is a high half followed by its low half. */
  lemma {:induction false} SoundUnicode(cfg: Config, p: Parser, s: seq<int>) returns (x: Item)
    requires Quoted(p) && Accepted(cfg, p, s)
    requires |s| >= 2 && s[0] == '\\' as int && s[1] == 'u' as int
    ensures WfItem(x) && ItemText(x) <= s
  {
    hide Step, Run, Hex4Value, AreHex4;
    var h, q := SoundUnit(cfg, p, s);
    AreHex4Length(h);
    RunUnit(cfg, p, h);
    if IsHighSurrogate(Hex4Value(h)) {
      AcceptedStep(cfg, q, s[6..]);
      LowHeadTakes(cfg, q, s[6]);
      SoundEscapeHead(cfg, q, s[6..]);
      var l, r := SoundUnit(cfg, q, s[6..]);
      AreHex4Length(l);
      RunUnit(cfg, q, l);
      x := Pair(h, l);
      assert ItemText(x) == s[..6] + s[6..][..6];
    } else {
      x := Unit(h);
      assert ItemText(x) == s[..6];
    }
  }

  lemma AreHex4Length(h: seq<int>)
    requires AreHex4(h)
    ensures |h| == 4
  {
  }

  lemma {:induction false} SoundItem(cfg: Config, p: Parser, s: seq<int>) returns (x: Item)
    requires Quoted(p) && Accepted(cfg, p, s) && s != [] && s[0] != '"' as int
    ensures WfItem(x) && ItemText(x) <= s
    ensures Accepted(cfg, p.(buf := p.buf + ItemBytes(x)), s[|ItemText(x)|..])
  {
    hide Step, Run, ItemBytes, IsPlainCode;
    AcceptedStep(cfg, p, s);
    TextTakes(cfg, p, s[0]);
    if s[0] == '\\' as int {
      SoundEscapeHead(cfg, p, s);
      if s[1] == 'u' as int {
        x := SoundUnicode(cfg, p, s);
      } else {
        x := Simple(s[1]);
        assert ItemText(x) == s[..2];
      }
    } else {
      x := Plain(s[0]);
      assert ItemText(x) == s[..1];
    }
    RunItem(cfg, p, x);
    AcceptedRest(cfg, p, ItemText(x), s);
  }

  lemma ItemTextNotEmpty(x: Item)
    ensures ItemText(x) != []
  {
  }

  lemma {:induction false} SoundItems(cfg: Config, p: Parser, s: seq<int>) returns (items: seq<Item>, rest: seq<int>)
    requires Quoted(p) && Accepted(cfg, p, s)
    ensures WfItems(items) && s == ItemsText(items) + ['"' as int] + rest
    decreases |s|
  {
    hide Step, Run, ItemBytes, ItemText, WfItem;
    AcceptedStep(cfg, p, s);
    if s[0] == '"' as int {
      items, rest := [], s[1..];
      assert s == [s[0]] + s[1..];
    } else {
      var x := SoundItem(cfg, p, s);
      ItemTextNotEmpty(x);
      var more;
      more, rest := SoundItems(cfg, p.(buf := p.buf + ItemBytes(x)), s[|ItemText(x)|..]);
      items := [x] + more;
      assert items[1..] == more;
      assert s == ItemText(x) + s[|ItemText(x)|..];
    }
  }

  // ----- numbers

  function DigitLength(s: seq<int>): (n: nat)
    ensures n <= |s| && AreDigits(s[..n]) && (n < |s| ==> !IsDigitCode(s[n]))
  {
    if s == [] || !IsDigitCode(s[0]) then 0 else
      var n := 1 + DigitLength(s[1..]);
      assert forall i :: 1 <= i < n ==> s[i] == s[1..][i - 1];
      n
  }

  /** The longest whole part of a number at the front of an accepted text. */
  lemma {:induction false} SoundWhole(cfg: Config, p: Parser, s: seq<int>) returns (minus: bool, whole: seq<int>)
    requires Slot(p) && Accepted(cfg, p, s) && s != [] && (s[0] == '-' as int || IsDigitCode(s[0]))
    ensures WfWhole(whole) && MinusText(minus) + whole <= s
    ensures var rest := s[|MinusText(minus) + whole|..];
            && Accepted(cfg, p.(state := WholeEnd(whole), token := IntegerToken,
                                buf := MinusText(minus) + whole), rest)
            && (rest != [] ==> whole == [ZERO_CODE] || !IsDigitCode(rest[0]))
  {
    hide Step, Run, AreDigits, IsDigitCode;
    AcceptedStep(cfg, p, s);
    minus := s[0] == '-' as int;
    var t := if minus then s[1..] else s;
    if minus {
      StepMinus(cfg, p);
      AcceptedStep(cfg, p.(state := MI, token := IntegerToken, buf := ['-' as int]), t);
      NumberTakes(cfg, p.(state := MI, token := IntegerToken, buf := ['-' as int]), t[0]);
    }
    whole := if t[0] == ZERO_CODE then [ZERO_CODE] else t[..DigitLength(t)];
    WholeIsWf(t);
    assert MinusText(minus) + whole == s[..|MinusText(minus) + whole|];
    RunWhole(cfg, p, minus, whole);
    AcceptedRest(cfg, p, MinusText(minus) + whole, s);
  }

  lemma WholeIsWf(t: seq<int>)
    requires t != [] && IsDigitCode(t[0])
    ensures t[0] == ZERO_CODE ==> WfWhole([ZERO_CODE])
    ensures t[0] != ZERO_CODE ==> DigitLength(t) > 0 && WfWhole(t[..DigitLength(t)])
    ensures t[0] != ZERO_CODE ==>
              (DigitLength(t) < |t| ==> !IsDigitCode(t[DigitLength(t)]))
  {
  }

  lemma {:induction false} SoundFraction(cfg: Config, p: Parser, s: seq<int>) returns (fraction: Option<seq<int>>)
    requires (p.state == ZE || p.state == IT) && Steady(p) && p.token == IntegerToken && Accepted(cfg, p, s)
    ensures fraction.Some? ==> AreDigits(fraction.value)
    ensures FractionText(fraction, POINT_CODE) <= s
    ensures var rest := s[|FractionText(fraction, POINT_CODE)|..];
            && Accepted(cfg, p.(state := FractionEnd(p.state, fraction),
                                token := if fraction.Some? then FloatToken else IntegerToken,
                                buf := p.buf + FractionText(fraction, PointCode(cfg))), rest)
            && (rest != [] && fraction.Some? ==> !IsDigitCode(rest[0]))
            && (rest != [] && fraction.None? ==> rest[0] != POINT_CODE)
  {
    hide Step, Run, AreDigits, IsDigitCode, PointCode;
    if s != [] && s[0] == POINT_CODE {
      var n := DigitLength(s[1..]);
      fraction := Some(s[1..][..n]);
      assert FractionText(fraction, POINT_CODE) == s[..n + 1];
      assert n < |s[1..]| ==> s[1..][n] == s[n + 1..][0];
    } else {
      fraction := None;
    }
    RunFraction(cfg, p, fraction);
    AcceptedRest(cfg, p, FractionText(fraction, POINT_CODE), s);
  }

  lemma {:induction false} SoundExponent(cfg: Config, p: Parser, s: seq<int>) returns (x: Exponent)
    requires p.state == IT || p.state == FX || p.state == FR
    requires Steady(p) && p.token == (if p.state == IT then IntegerToken else FloatToken)
    requires Accepted(cfg, p, s) && s != [] && IsMark(s[0])
    ensures WfExponent(x) && ExponentText(x) <= s
    ensures var rest := s[|ExponentText(x)|..];
            && Accepted(cfg, p.(state := E3, token := FloatToken, buf := p.buf + ExponentText(x)), rest)
            && (rest != [] ==> !IsDigitCode(rest[0]))
  {
    hide Step, Run, AreDigits, IsDigitCode, IsMark, Accepted, Waiting;
    AcceptedStep(cfg, p, s);
    StepMark(cfg, p, s[0]);
    var q := p.(state := E1, token := FloatToken, buf := p.buf + [s[0]]);
    var t := s[1..];
    AcceptedStep(cfg, q, t);
    NumberTakes(cfg, q, t[0]);
    var sign := if IsDigitCode(t[0]) then [] else [t[0]];
    var u := t[|sign|..];
    if sign != [] {
      StepSign(cfg, q, t[0]);
      AcceptedStep(cfg, q.(state := E2, buf := q.buf + [t[0]]), u);
      NumberTakes(cfg, q.(state := E2, buf := q.buf + [t[0]]), u[0]);
    }
    var n := DigitLength(u);
    assert n > 0;
    x := Exponent(s[0], sign, u[..n]);
    assert ExponentText(x) == s[..1 + |sign| + n];
    assert n < |u| ==> u[n] == s[1 + |sign| + n..][0];
    RunExponent(cfg, p, x);
    AcceptedRest(cfg, p, ExponentText(x), s);
  }

  /** When a number has been read as far as it goes, the next character cannot carry it on. */
  lemma NumberStops(n: Number, c: int)
    requires n.exponent.Some? || n.fraction.Some? || n.whole != [ZERO_CODE] ==> !IsDigitCode(c)
    requires n.exponent.None? ==> !IsMark(c) || (n.fraction.None? && n.whole == [ZERO_CODE])
    requires n.exponent.None? && n.fraction.None? ==> c != POINT_CODE
    ensures !Continues(NumberEnd(n), c)
  {
  }

  lemma WholeEnds(whole: seq<int>)
    ensures WholeEnd(whole) == if whole == [ZERO_CODE] then ZE else IT
  {
  }

  lemma FractionEnds(here: State, fraction: Option<seq<int>>)
    ensures fraction.None? ==> FractionEnd(here, fraction) == here
    ensures fraction.Some? ==> FractionEnd(here, fraction) == FX || FractionEnd(here, fraction) == FR
  {
  }

  /** A number without its exponent, at the front of an accepted text. */
  lemma SoundSignificand(cfg: Config, p: Parser, s: seq<int>) returns (n: Number, q: Parser, rest: seq<int>)
    requires Slot(p) && Accepted(cfg, p, s) && s != [] && (s[0] == '-' as int || IsDigitCode(s[0]))
    ensures n.exponent.None? && WfNumber(n) && s == NumberText(n, POINT_CODE) + rest && Accepted(cfg, q, rest)
    ensures q.state == NumberEnd(n) && Steady(q) && q.token == if n.fraction.Some? then FloatToken else IntegerToken
    ensures q.state == if n.fraction.Some? then q.state else if n.whole == [ZERO_CODE] then ZE else IT
    ensures n.fraction.Some? ==> q.state == FX || q.state == FR
    ensures rest != [] && (n.fraction.Some? || n.whole != [ZERO_CODE]) ==> !IsDigitCode(rest[0])
    ensures rest != [] && n.fraction.None? ==> rest[0] != POINT_CODE
  {
    hide Step, Run, AreDigits, IsDigitCode, PointCode, Accepted, MinusText, FractionText, WholeEnd, FractionEnd;
    var minus, whole := SoundWhole(cfg, p, s);
    var a := MinusText(minus) + whole;
    WholeEnds(whole);
    var p1 := p.(state := WholeEnd(whole), token := IntegerToken, buf := a);
    var s1 := s[|a|..];
    var fraction := SoundFraction(cfg, p1, s1);
    FractionEnds(p1.state, fraction);
    var b := FractionText(fraction, POINT_CODE);
    n := Number(minus, whole, fraction, None);
    q := p1.(state := FractionEnd(p1.state, fraction), token := if fraction.Some? then FloatToken else IntegerToken,
             buf := p1.buf + FractionText(fraction, PointCode(cfg)));
    rest := s1[|b|..];
    NoExponentText(n);
    Rejoined(s, a, b);
  }

  lemma NoExponentText(n: Number)
    requires n.exponent.None?
    ensures NumberText(n, POINT_CODE) == MinusText(n.minus) + n.whole + FractionText(n.fraction, POINT_CODE)
  {
  }

  lemma Rejoined<T>(s: seq<T>, a: seq<T>, b: seq<T>)
    requires a <= s && b <= s[|a|..]
    ensures s == a + b + s[|a|..][|b|..]
  {
  }

  lemma WithExponentText(n: Number, x: Exponent)
    requires n.exponent.None?
    ensures NumberText(n.(exponent := Some(x)), POINT_CODE) == NumberText(n, POINT_CODE) + ExponentText(x)
  {
    hide ExponentText;
  }

  /** The longest number at the front of an accepted text is a number of the grammar. */
  lemma {:induction false} SoundNumber(cfg: Config, p: Parser, s: seq<int>) returns (n: Number)
    requires Slot(p) && Accepted(cfg, p, s) && s != [] && (s[0] == '-' as int || IsDigitCode(s[0]))
    ensures WfNumber(n) && NumberText(n, POINT_CODE) <= s
    ensures var rest := s[|NumberText(n, POINT_CODE)|..];
            rest != [] ==> !Continues(NumberEnd(n), rest[0])
  {
    hide Step, Run, AreDigits, IsDigitCode, ExponentText, WfExponent, Accepted, Continues, NumberText, IsMark,
      NumberEnd;
    var q, rest;
    n, q, rest := SoundSignificand(cfg, p, s);
    assert rest == s[|NumberText(n, POINT_CODE)|..];
    if rest != [] && IsMark(rest[0]) && q.state != ZE {
      var x := SoundExponent(cfg, q, rest);
      WithExponentText(n, x);
      Rejoined(s, NumberText(n, POINT_CODE), ExponentText(x));
      n := n.(exponent := Some(x));
      assert s[|NumberText(n, POINT_CODE)|..] == rest[|ExponentText(x)|..];
    }
    if s != NumberText(n, POINT_CODE) {
      NumberStops(n, s[|NumberText(n, POINT_CODE)|..][0]);
    }
  }

  // ----- literals

  lemma {:induction false} SoundLetters(cfg: Config, p: Parser, w: Word, i: nat, s: seq<int>)
    requires 1 <= i <= |WordText(w)| && !cfg.comments
    requires p.state == WordStates(w)[i - 1] && Steady(p) && p.token == WordToken(w) && InContainer(Top(p))
    requires Accepted(cfg, p, s)
    ensures WordText(w)[i..] <= s
    decreases |WordText(w)| - i
  {
    hide Step, Run, WordStates, WordText, Accepted;
    WordShape(w);
    if i < |WordText(w)| {
      AcceptedStep(cfg, p, s);
      LetterTakes(cfg, p, w, i, s[0]);
      StepLetter(cfg, p, w, i);
      SoundLetters(cfg, p.(state := WordStates(w)[i], buf := p.buf + [s[0]]), w, i + 1, s[1..]);
      assert s == [s[0]] + s[1..];
      assert WordText(w)[i..] == [s[0]] + WordText(w)[i + 1..];
    }
  }

  lemma {:induction false} SoundWord(cfg: Config, p: Parser, s: seq<int>, w: Word)
    requires Slot(p) && !cfg.comments && Accepted(cfg, p, s) && s != [] && s[0] == WordText(w)[0]
    ensures WordText(w) <= s
    ensures Accepted(cfg, p.(state := OK, token := WordToken(w), buf := WordText(w)), s[|WordText(w)|..])
  {
    hide Step, Run;
    AcceptedStep(cfg, p, s);
    StepFirstLetter(cfg, p, w);
    var q := p.(state := WordStates(w)[0], token := WordToken(w), buf := [WordText(w)[0]]);
    SoundLetters(cfg, q, w, 1, s[1..]);
    assert s == [s[0]] + s[1..];
    assert WordText(w) == [s[0]] + WordText(w)[1..];
    RunWord(cfg, p, w);
    AcceptedRest(cfg, p, WordText(w), s);
  }

  // ----- values

  /** What may follow a complete value in a container. */
  predicate Separates(p: Parser, rest: seq<int>) {
    && rest != []
    && (rest[0] == ',' as int
        || (rest[0] == ']' as int && Top(p) == ArrayMode)
        || (rest[0] == '}' as int && Top(p) == ObjectMode))
  }

  lemma {:induction false} SoundSeparator(cfg: Config, p: Parser, rest: seq<int>)
    requires Ending(p.state) && Steady(p) && InContainer(Top(p)) && !cfg.comments && Accepted(cfg, p, rest)
    requires rest != [] ==> !IsBlankCode(rest[0]) && !Continues(p.state, rest[0])
    ensures Separates(p, rest)
    ensures !(cfg.listening && IsLiteral(p.token))
  {
    hide Step, Run, Continues;
    AcceptedStep(cfg, p, rest);
    EndingTakes(cfg, p, rest[0]);
    SeparatorFits(cfg, p, rest[0]);
  }

  /** What is known about a value read off the front of a text. */
  ghost predicate ReadOff(cfg: Config, p: Parser, s: seq<int>, v: Value, after: seq<int>, rest: seq<int>) {
    && IsBlank(after) && s == (ValueText(v) + after) + rest && Separates(p, rest)
    && Reads(cfg, p, v, after) && Accepted(cfg, Run(cfg, p, ValueText(v) + after).next, rest)
  }

  ghost predicate Fits(cfg: Config, p: Parser, v: Value) {
    WfValue(v) && Speakable(cfg, v) && |p.modes| + Height(v) <= cfg.depth + 1
  }

  lemma {:induction false} SoundTail(cfg: Config, p: Parser, s: seq<int>, v: Value)
    returns (after: seq<int>, rest: seq<int>)
    requires ConfigOk(cfg) && !cfg.comments && Slot(p) && p.modes != [] && Accepted(cfg, p, s)
    requires Fits(cfg, p, v) && ValueText(v) <= s
    requires var r := s[|ValueText(v)|..];
             v.Num? && r != [] ==> !Continues(NumberEnd(v.number), r[0])
    ensures ReadOff(cfg, p, s, v, after, rest)
  {
    hide Step, Run, ValueText, WfValue, Height, LiteralFree, Events, IsBlank, IsBlankCode, Slot, Accepted, Continues,
      NumberEnd;
    var r := s[|ValueText(v)|..];
    var n := BlankLength(r);
    after, rest := r[..n], r[n..];
    assert s == (ValueText(v) + after) + rest && (after == [] ==> rest == r);
    RunValue(cfg, p, v, after);
    AcceptedRest(cfg, p, ValueText(v) + after, s);
    assert s[|ValueText(v) + after|..] == rest;
    SlotContainer(p);
    if rest != [] { OkIsEnd(rest[0]); }
    SoundSeparator(cfg, Run(cfg, p, ValueText(v) + after).next, rest);
  }

  lemma OkIsEnd(c: int)
    ensures !Continues(OK, c)
  {
  }

  lemma SlotContainer(p: Parser)
    requires Slot(p)
    ensures InContainer(Top(p))
  {
  }

  lemma {:induction false} SoundText(cfg: Config, p: Parser, s: seq<int>) returns (items: seq<Item>)
    requires Slot(p) || KeySlot(p)
    requires Accepted(cfg, p, s) && s != [] && s[0] == '"' as int
    ensures WfItems(items) && QuotedText(items) <= s
  {
    hide Step, Run, ItemsText, WfItem;
    AcceptedStep(cfg, p, s);
    StepOpenQuote(cfg, p);
    var rest;
    items, rest := SoundItems(cfg, p.(state := ST, token := StringToken, buf := []), s[1..]);
    assert s == [s[0]] + s[1..];
    assert s == QuotedText(items) + rest;
  }

  lemma {:induction false} SoundSpeech(cfg: Config, p: Parser, s: seq<int>, w: Word)
    requires Slot(p) && !cfg.comments
    requires Accepted(cfg, p.(state := OK, token := WordToken(w), buf := WordText(w)), s)
    ensures !cfg.listening
  {
    hide Step, Run, WordText, IsBlankCode;
    var q := p.(state := OK, token := WordToken(w), buf := WordText(w));
    var n := BlankLength(s);
    AcceptedRest(cfg, q, s[..n], s);
    RunBlankPending(cfg, q, s[..n]);
    SoundSeparator(cfg, Run(cfg, q, s[..n]).next, s[n..]);
  }

  function FirstWord(c: int): Word {
    if c == 't' as int then TrueWord else if c == 'f' as int then FalseWord else NullWord
  }

  /** A value at the front of an accepted text is a value of the grammar. */
  lemma {:induction false} SoundValue(cfg: Config, p: Parser, s: seq<int>)
    returns (v: Value, after: seq<int>, rest: seq<int>)
    requires ConfigOk(cfg) && !cfg.comments && Slot(p) && 0 < |p.modes| <= cfg.depth + 1
    requires Accepted(cfg, p, s) && s != [] && StartsValue(s[0])
    ensures Fits(cfg, p, v) && ReadOff(cfg, p, s, v, after, rest)
    decreases |s|, 1
  {
    hide Step, Run, IsDigitCode, ReadOff, WordText, WfNumber, NumberText, ItemsText, WfItem, Continues, Slot,
      ElementsText, MembersText;
    if s[0] == '[' as int || s[0] == '{' as int {
      SlotOpens(p);
      v := SoundContainer(cfg, p, s);
    } else if s[0] == '"' as int {
      var items := SoundText(cfg, p, s);
      v := Text(items);
    } else if s[0] == '-' as int || IsDigitCode(s[0]) {
      var n := SoundNumber(cfg, p, s);
      v := Num(n);
    } else {
      var w := FirstWord(s[0]);
      FirstLetter(w);
      SoundWord(cfg, p, s, w);
      SoundSpeech(cfg, p, s[|WordText(w)|..], w);
      v := Literal(w);
    }
    after, rest := SoundTail(cfg, p, s, v);
  }

  lemma FirstLetter(w: Word)
    ensures WordText(w) != []
    ensures WordText(w)[0] ==
            match w case TrueWord => 't' as int case FalseWord => 'f' as int case NullWord => 'n' as int
  {
  }

  lemma SlotOpens(p: Parser)
    requires Slot(p) && p.modes != []
    ensures OpenSlot(p)
  {
  }

  /** An opening bracket in an accepted text begins a container of the grammar. */
  lemma {:induction false} SoundContainer(cfg: Config, p: Parser, s: seq<int>) returns (v: Value)
    requires ConfigOk(cfg) && !cfg.comments && OpenSlot(p) && 0 < |p.modes| <= cfg.depth + 1
    requires Accepted(cfg, p, s) && s != [] && (s[0] == '[' as int || s[0] == '{' as int)
    ensures IsContainer(v) && Fits(cfg, p, v) && ValueText(v) <= s
    decreases |s|, 0, 1
  {
    hide Step, Run, OpenSlot, Slot, KeySlot, IsBlankCode, IsBlank, Accepted;
    AcceptedStep(cfg, p, s);
    OpenFits(cfg, p, s[0]);
    if s[0] == '[' as int {
      v := SoundArray(cfg, p, s);
    } else {
      v := SoundObject(cfg, p, s);
    }
  }

  lemma EmptyArrayFits(cfg: Config, p: Parser, b: seq<int>, rest: seq<int>)
    requires IsBlank(b) && |p.modes| <= cfg.depth
    ensures IsContainer(EmptyArray(b)) && Fits(cfg, p, EmptyArray(b))
    ensures ValueText(EmptyArray(b)) <= ['[' as int] + (b + ([']' as int] + rest))
  {
    hide IsBlank;
    assert ['[' as int] + (b + ([']' as int] + rest)) == ValueText(EmptyArray(b)) + rest;
  }

  lemma ArrayFits(cfg: Config, p: Parser, es: Elements, rest: seq<int>)
    requires WfElements(es) && |p.modes| + 1 + ElementsHeight(es) <= cfg.depth + 1
    requires cfg.listening ==> ElementsLiteralFree(es)
    ensures IsContainer(Array(es)) && Fits(cfg, p, Array(es))
    ensures ValueText(Array(es)) <= ['[' as int] + (ElementsText(es) + rest)
  {
    hide ElementsText, WfElements, ElementsHeight, ElementsLiteralFree;
    assert ['[' as int] + (ElementsText(es) + rest) == ValueText(Array(es)) + rest;
  }

  lemma {:induction false} SoundArray(cfg: Config, p: Parser, s: seq<int>) returns (v: Value)
    requires ConfigOk(cfg) && !cfg.comments && OpenSlot(p) && 0 < |p.modes| <= cfg.depth
    requires Accepted(cfg, p, s) && s != [] && s[0] == '[' as int
    ensures IsContainer(v) && Fits(cfg, p, v) && ValueText(v) <= s
    decreases |s|, 0, 0
  {
    hide Step, Run, OpenSlot, Slot, KeySlot, IsBlankCode, IsBlank, Accepted, ElementsText, WfElements,
      ElementsHeight, ElementsLiteralFree, Fits, ValueText, IsContainer, ConfigOk;
    AcceptedStep(cfg, p, s);
    StepOpen(cfg, p, true);
    OpenedSlot(cfg, p, true);
    var q := Advance(cfg, p, [BeginArray]).(state := AR, modes := p.modes + [ArrayMode]);
    SlotWaits(q);
    var b, r := SoundBlank(cfg, q, s[1..]);
    SlotAccepts(cfg, q, r);
    assert s == [s[0]] + s[1..];
    if r[0] == ']' as int {
      v := EmptyArray(b);
      assert r == [r[0]] + r[1..];
      EmptyArrayFits(cfg, p, b, r[1..]);
    } else {
      var es, rest := SoundElements(cfg, q, s[1..]);
      v := Array(es);
      ArrayFits(cfg, p, es, rest);
    }
  }

  lemma EmptyObjectFits(cfg: Config, p: Parser, b: seq<int>, rest: seq<int>)
    requires IsBlank(b) && |p.modes| <= cfg.depth
    ensures IsContainer(EmptyObject(b)) && Fits(cfg, p, EmptyObject(b))
    ensures ValueText(EmptyObject(b)) <= ['{' as int] + (b + (['}' as int] + rest))
  {
    hide IsBlank;
    assert ['{' as int] + (b + (['}' as int] + rest)) == ValueText(EmptyObject(b)) + rest;
  }

  lemma ObjectFits(cfg: Config, p: Parser, ms: Members, rest: seq<int>)
    requires WfMembers(ms) && |p.modes| + 1 + MembersHeight(ms) <= cfg.depth + 1
    requires cfg.listening ==> MembersLiteralFree(ms)
    ensures IsContainer(Object(ms)) && Fits(cfg, p, Object(ms))
    ensures ValueText(Object(ms)) <= ['{' as int] + (MembersText(ms) + rest)
  {
    hide MembersText, WfMembers, MembersHeight, MembersLiteralFree;
    assert ['{' as int] + (MembersText(ms) + rest) == ValueText(Object(ms)) + rest;
  }

  lemma {:induction false} SoundObject(cfg: Config, p: Parser, s: seq<int>) returns (v: Value)
    requires ConfigOk(cfg) && !cfg.comments && OpenSlot(p) && 0 < |p.modes| <= cfg.depth
    requires Accepted(cfg, p, s) && s != [] && s[0] == '{' as int
    ensures IsContainer(v) && Fits(cfg, p, v) && ValueText(v) <= s
    decreases |s|, 0, 0
  {
    hide Step, Run, OpenSlot, Slot, KeySlot, IsBlankCode, IsBlank, Accepted, MembersText, WfMembers,
      MembersHeight, MembersLiteralFree, Fits, ValueText, IsContainer, ConfigOk;
    AcceptedStep(cfg, p, s);
    StepOpen(cfg, p, false);
    OpenedSlot(cfg, p, false);
    var q := Advance(cfg, p, [BeginObject]).(state := OB, modes := p.modes + [KeyMode]);
    KeySlotWaits(q);
    var b, r := SoundBlank(cfg, q, s[1..]);
    KeySlotAccepts(cfg, q, r);
    assert s == [s[0]] + s[1..];
    if r[0] == '}' as int {
      v := EmptyObject(b);
      assert r == [r[0]] + r[1..];
      EmptyObjectFits(cfg, p, b, r[1..]);
    } else {
      var ms, rest := SoundMembers(cfg, q, s[1..]);
      v := Object(ms);
      ObjectFits(cfg, p, ms, rest);
    }
  }

  lemma SlotWaits(p: Parser)
    requires Slot(p)
    ensures Waiting(p.state) && Steady(p) && p.token == NoToken
  {
  }

  lemma KeySlotWaits(p: Parser)
    requires KeySlot(p)
    ensures Waiting(p.state) && Steady(p) && p.token == NoToken
  {
  }

  lemma {:induction false} SlotAccepts(cfg: Config, p: Parser, s: seq<int>)
    requires Slot(p) && !cfg.comments && Accepted(cfg, p, s) && (s != [] ==> !IsBlankCode(s[0]))
    ensures s != [] && (StartsValue(s[0]) || (p.state == AR && s[0] == ']' as int))
  {
    hide Step, Run;
    AcceptedStep(cfg, p, s);
    SlotTakes(cfg, p, s[0]);
  }

  lemma {:induction false} KeySlotAccepts(cfg: Config, p: Parser, s: seq<int>)
    requires KeySlot(p) && !cfg.comments && Accepted(cfg, p, s) && (s != [] ==> !IsBlankCode(s[0]))
    ensures s != [] && (s[0] == '"' as int || (p.state == OB && s[0] == '}' as int))
  {
    hide Step, Run;
    AcceptedStep(cfg, p, s);
    KeySlotTakes(cfg, p, s[0]);
  }

  lemma {:induction false} SoundElements(cfg: Config, p: Parser, s: seq<int>)
    returns (es: Elements, rest: seq<int>)
    requires ConfigOk(cfg) && !cfg.comments && Slot(p) && 0 < |p.modes| <= cfg.depth + 1 && Top(p) == ArrayMode
    requires Accepted(cfg, p, s)
    requires var n := BlankLength(s); p.state == AR && n < |s| ==> s[n] != ']' as int
    ensures WfElements(es) && s == ElementsText(es) + rest
    ensures |p.modes| + ElementsHeight(es) <= cfg.depth + 1
    ensures cfg.listening ==> ElementsLiteralFree(es)
    decreases |s|, 2
  {
    hide Step, Run, WfValue, Height, LiteralFree, IsBlankCode, IsBlank, ValueText, Slot, ReadOff, ConfigOk, Accepted,
      StartsValue;
    SlotWaits(p);
    var before, t := SoundBlank(cfg, p, s);
    SlotAccepts(cfg, p, t);
    var v, after, r := SoundValue(cfg, p, t);
    ReadOffText(cfg, p, t, v, after, r);
    var body := before + (ValueText(v) + after);
    if r[0] == ',' as int {
      var next := AfterComma(cfg, p, t, v, after, r);
      var more;
      more, rest := SoundElements(cfg, next, r[1..]);
      es := MoreElements(before, v, after, more);
      JoinTail(s, body, r, ElementsText(more), rest);
    } else {
      es, rest := LastElement(before, v, after), r[1..];
      assert s == body + [r[0]] + rest;
    }
  }

  lemma ReadOffText(cfg: Config, p: Parser, s: seq<int>, v: Value, after: seq<int>, rest: seq<int>)
    requires ReadOff(cfg, p, s, v, after, rest) && Slot(p)
    ensures IsBlank(after) && s == (ValueText(v) + after) + rest && rest != [] && rest == [rest[0]] + rest[1..]
    ensures rest[0] == ',' as int || rest[0] == if Top(p) == ArrayMode then ']' as int else '}' as int
  {
    hide Step, Run, Accepted, Reads, ValueText, IsBlank;
  }

  /** In a list the parser goes on with the next value after a comma. */
  lemma AfterComma(cfg: Config, p: Parser, s: seq<int>, v: Value, after: seq<int>, r: seq<int>) returns (next: Parser)
    requires !cfg.comments && Slot(p) && Top(p) == ArrayMode
    requires ReadOff(cfg, p, s, v, after, r) && r[0] == ',' as int
    ensures Slot(next) && next.state == VA && next.modes == p.modes && Accepted(cfg, next, r[1..])
  {
    hide Step, Run, ValueText, Slot, Events, Ended, Accepted, IsBlank;
    var events := Events(cfg, v, after);
    var q := Run(cfg, p, ValueText(v) + after).next;
    AcceptedStep(cfg, q, r);
    StepComma(cfg, p, q, events);
    SlotNext(cfg, p, events);
    next := Advance(cfg, p, events).(state := VA);
  }

  lemma JoinTail(s: seq<int>, body: seq<int>, r: seq<int>, more: seq<int>, rest: seq<int>)
    requires s == body + r && r != [] && r[1..] == more + rest
    ensures s == body + [r[0]] + more + rest
  {
    assert r == [r[0]] + r[1..];
  }

  lemma SlotNext(cfg: Config, p: Parser, events: seq<Event>)
    requires Slot(p)
    ensures Slot(Advance(cfg, p, events).(state := VA))
    ensures Advance(cfg, p, events).modes == p.modes
  {
  }

  lemma {:induction false} SoundName(cfg: Config, p: Parser, s: seq<int>) returns (name: Name)
    requires !cfg.comments && KeySlot(p) && |p.modes| <= cfg.depth + 1 && Accepted(cfg, p, s)
    requires var n := BlankLength(s); p.state == OB && n < |s| ==> s[n] != '}' as int
    ensures WfName(name) && NameText(name) <= s
  {
    hide Step, Run, KeySlot, IsBlankCode, QuotedText, WfItem, NameText, Accepted, Waiting, Steady;
    KeySlotWaits(p);
    var before, t := SoundBlank(cfg, p, s);
    KeySlotAccepts(cfg, p, t);
    var items := SoundText(cfg, p, t);
    var q := RunQuoted(cfg, p, t, items);
    var u := t[|QuotedText(items)|..];
    var after, w := SoundBlank(cfg, q, u);
    AcceptedStep(cfg, q, w);
    ColonTaken(cfg, q, w[0]);
    name := Name(before, items, after);
    NameTextIsPrefix(name, s, t, u, w);
  }

  lemma NameTextIsPrefix(x: Name, s: seq<int>, t: seq<int>, u: seq<int>, w: seq<int>)
    requires s == x.before + t && QuotedText(x.items) <= t && u == t[|QuotedText(x.items)|..]
    requires u == x.after + w && w != [] && w[0] == ':' as int
    ensures NameText(x) <= s
  {
    hide QuotedText;
    assert t == QuotedText(x.items) + u;
    assert w == [':' as int] + w[1..];
    assert s == NameText(x) + w[1..];
  }

  /** After a key the parser waits for the colon. */
  lemma {:induction false} RunQuoted(cfg: Config, p: Parser, t: seq<int>, items: seq<Item>) returns (q: Parser)
    requires KeySlot(p) && WfItems(items) && QuotedText(items) <= t && Accepted(cfg, p, t)
    ensures q.state == CO && Waiting(q.state) && Steady(q) && q.token == NoToken
    ensures Accepted(cfg, q, t[|QuotedText(items)|..])
  {
    hide Step, Run, ItemsText, WfItem, ItemsBytes;
    var body := ['"' as int] + ItemsText(items);
    q := Advance(cfg, p, [KeyName(ItemsBytes(items))]).(state := CO);
    RunConcat(cfg, p, body, ['"' as int]);
    RunQuotedBody(cfg, p, items);
    StepEndKey(cfg, p, ItemsBytes(items));
    RunOne(cfg, p.(state := ST, token := StringToken, buf := ItemsBytes(items)), '"' as int);
    AcceptedRest(cfg, p, QuotedText(items), t);
  }

  /** A key, its colon and the blanks before the member's value. */
  lemma {:induction false} SoundNameThenBlank(cfg: Config, p: Parser, s: seq<int>)
    returns (name: Name, q: Parser, before: seq<int>, t: seq<int>)
    requires !cfg.comments && KeySlot(p) && 0 < |p.modes| <= cfg.depth + 1 && Accepted(cfg, p, s)
    requires var n := BlankLength(s); p.state == OB && n < |s| ==> s[n] != '}' as int
    ensures WfName(name) && IsBlank(before) && s == NameText(name) + (before + t)
    ensures q == Advance(cfg, p, [KeyName(ItemsBytes(name.items))])
                   .(state := VA, modes := Popped(p.modes) + [ObjectMode])
    ensures Slot(q) && Accepted(cfg, q, t) && t != [] && StartsValue(t[0])
  {
    hide Step, Run, IsBlankCode, NameText, ItemsBytes, WfName, StartsValue;
    name := SoundName(cfg, p, s);
    q := Advance(cfg, p, [KeyName(ItemsBytes(name.items))])
           .(state := VA, modes := Popped(p.modes) + [ObjectMode]);
    RunName(cfg, p, name);
    AcceptedRest(cfg, p, NameText(name), s);
    before, t := SoundBlank(cfg, q, s[|NameText(name)|..]);
    SlotAccepts(cfg, q, t);
  }

  lemma {:induction false} SoundMembers(cfg: Config, p: Parser, s: seq<int>)
    returns (ms: Members, rest: seq<int>)
    requires ConfigOk(cfg) && !cfg.comments && KeySlot(p) && 0 < |p.modes| <= cfg.depth + 1
    requires Accepted(cfg, p, s)
    requires var n := BlankLength(s); p.state == OB && n < |s| ==> s[n] != '}' as int
    ensures WfMembers(ms) && s == MembersText(ms) + rest
    ensures |p.modes| + MembersHeight(ms) <= cfg.depth + 1
    ensures cfg.listening ==> MembersLiteralFree(ms)
    decreases |s|, 2
  {
    hide Step, Run, WfValue, Height, LiteralFree, IsBlankCode, IsBlank, ValueText, Slot, ReadOff, NameText, WfName,
      KeySlot, ItemsBytes, ConfigOk, Accepted, StartsValue;
    var name, p1, before, t := SoundNameThenBlank(cfg, p, s);
    NameTextNotEmpty(name);
    var v, after, r := SoundValue(cfg, p1, t);
    ReadOffText(cfg, p1, t, v, after, r);
    var body := NameText(name) + (before + (ValueText(v) + after));
    if r[0] == ',' as int {
      var next := AfterMember(cfg, p1, t, v, after, r);
      var more;
      more, rest := SoundMembers(cfg, next, r[1..]);
      ms := MoreMembers(name, before, v, after, more);
      JoinTail(s, body, r, MembersText(more), rest);
    } else {
      ms, rest := LastMember(name, before, v, after), r[1..];
      assert s == body + [r[0]] + rest;
    }
  }

  /** In an object the parser goes on with the next name after a comma. */
  lemma AfterMember(cfg: Config, p: Parser, s: seq<int>, v: Value, after: seq<int>, r: seq<int>) returns (next: Parser)
    requires !cfg.comments && Slot(p) && Top(p) == ObjectMode && 0 < |p.modes| <= cfg.depth + 1
    requires ReadOff(cfg, p, s, v, after, r) && r[0] == ',' as int
    ensures KeySlot(next) && next.state == KE && |next.modes| == |p.modes| && Accepted(cfg, next, r[1..])
  {
    hide Step, Run, ValueText, Slot, Events, Ended, Accepted, IsBlank, KeySlot;
    var events := Events(cfg, v, after);
    var q := Run(cfg, p, ValueText(v) + after).next;
    AcceptedStep(cfg, q, r);
    StepNextMember(cfg, p, q, events);
    KeySlotNext(cfg, p, events);
    next := Advance(cfg, p, events).(state := KE, modes := Popped(p.modes) + [KeyMode]);
  }

  lemma NameTextNotEmpty(x: Name)
    ensures NameText(x) != []
  {
    assert NameText(x)[|NameText(x)| - 1] == ':' as int;
  }

  lemma KeySlotNext(cfg: Config, p: Parser, events: seq<Event>)
    requires Slot(p) && p.modes != []
    ensures KeySlot(Advance(cfg, p, events).(state := KE, modes := Popped(p.modes) + [KeyMode]))
    ensures |Popped(p.modes) + [KeyMode]| == |p.modes|
  {
  }

  // ----- texts

  /** An accepted text is a text of the grammar, no deeper than the parser's depth. */
  lemma {:induction false} SoundDoc(cfg: Config, s: seq<int>) returns (d: Doc)
    requires ConfigOk(cfg) && !cfg.comments && Accepted(cfg, Initial, s)
    ensures WfDoc(d) && DocText(d) == s && DocHeight(d) <= cfg.depth
    ensures cfg.listening ==> DocLiteralFree(d)
  {
    hide Step, Run, IsBlank, IsBlankCode, WfValue, ValueText, Height, LiteralFree, Events;
    var before, t := SoundBlank(cfg, Initial, s);
    if t == [] {
      d := BlankDoc(before);
      assert s == before;
    } else {
      AcceptedStep(cfg, Initial, t);
      StartTakes(cfg, Initial, t[0]);
      var v := SoundContainer(cfg, Initial, t);
      RunContainer(cfg, Initial, v, []);
      AcceptedRest(cfg, Initial, ValueText(v), t);
      var q := Advance(cfg, Initial, Events(cfg, v, [])).(state := OK);
      var u := t[|ValueText(v)|..];
      var after, rest := SoundBlank(cfg, q, u);
      NothingFollows(cfg, q, rest);
      d := RootedDoc(before, v, after);
      assert t == ValueText(v) + u;
      assert s == before + ValueText(v) + after;
    }
  }

  /** Outside all containers only blanks may follow. */
  lemma {:induction false} NothingFollows(cfg: Config, p: Parser, s: seq<int>)
    requires p.state == OK && Steady(p) && p.token == NoToken && Top(p) == DoneMode && !cfg.comments
    requires Accepted(cfg, p, s) && (s != [] ==> !IsBlankCode(s[0]))
    ensures s == []
  {
    hide Step, Run;
    if s != [] {
      AcceptedStep(cfg, p, s);
      EndingTakes(cfg, p, s[0]);
      SeparatorFits(cfg, p, s[0]);
    }
  }

  /** The exact language: without comments the parser accepts a text if and only if it is a
      text of the grammar nested no deeper than `depth` and, when a callback listens, free
      of literals. */
  lemma {:induction false} AcceptedIffInGrammar(cfg: Config, s: seq<int>)
    requires ConfigOk(cfg) && !cfg.comments
    ensures Accepted(cfg, Initial, s) <==>
            exists d :: WfDoc(d) && DocText(d) == s && DocHeight(d) <= cfg.depth
                        && (cfg.listening ==> DocLiteralFree(d))
  {
    hide Step, Run, WfDoc, DocText, DocHeight, DocLiteralFree, Accepted;
    if Accepted(cfg, Initial, s) {
      var d := SoundDoc(cfg, s);
    }
    forall d | WfDoc(d) && DocText(d) == s && DocHeight(d) <= cfg.depth
               && (cfg.listening ==> DocLiteralFree(d))
      ensures Accepted(cfg, Initial, s)
    {
      RunDoc(cfg, d);
    }
  }

  /** An accepted text has a syntax tree, and the callback has heard exactly its events. */
  lemma AcceptedEvents(cfg: Config, s: seq<int>) returns (d: Doc)
    requires ConfigOk(cfg) && !cfg.comments && Accepted(cfg, Initial, s)
    ensures WfDoc(d) && DocText(d) == s && DocHeight(d) <= cfg.depth
    ensures Run(cfg, Initial, s).next.log == Told(cfg, DocEvents(cfg, d))
  {
    hide Step, Run, WfDoc, DocText, DocHeight, DocLiteralFree, Accepted, DocEvents;
    d := SoundDoc(cfg, s);
    RunDoc(cfg, d);
  }
}
