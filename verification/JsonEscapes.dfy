/** What \uXXXX escapes in a string do to the token buffer, and which of them are refused, in
    every configuration. */
module JsonEscapes {
  import opened Wrappers
  import opened JsonTables
  import opened JsonSpec
  import opened JsonGrammar
  import opened JsonInversion
  import opened JsonSteps
  import opened JsonPrint
  import opened JsonSound
  import opened Unicode

  /** Scalar values written as escapes leave exactly their UTF-8 form in the token buffer. */
  lemma EscapedScalarsRun(cfg: Config, p: Parser, us: seq<int>)
    requires Quoted(p) && forall i :: 0 <= i < |us| ==> IsScalar(us[i])
    ensures Run(cfg, p, ItemsText(SpellScalars(us))) == Go(p.(buf := p.buf + Utf8All(us)))
  {
    hide Run, WfItem, ItemsText, ItemsBytes, SpellScalars, IsScalar;
    EscapedScalarsMean(us);
    RunItems(cfg, p, SpellScalars(us));
  }

  /** The four hexadecimal digits of an escape. */
  type Digits = h: seq<int> | AreHex4(h) witness ['0' as int, '0' as int, '0' as int, '0' as int]

  /** The code unit that they denote. */
  function UnitOf(h: Digits): int { Hex4Value(h) }

  predicate IsHigh(h: Digits) { IsHighSurrogate(UnitOf(h)) }

  predicate IsLow(h: Digits) { IsLowSurrogate(UnitOf(h)) }

  function EscapeText(h: Digits): seq<int> { ['\\' as int, 'u' as int] + h }

  function EscapesText(hs: seq<Digits>): seq<int> {
    if hs == [] then [] else EscapeText(hs[0]) + EscapesText(hs[1..])
  }

  /** The scalar values that the code units stand for (section 2.2 of RFC 2781), if no surrogate
      is alone or out of order. */
  function DecodeUnits(hs: seq<Digits>): Option<seq<int>> {
    if hs == [] then Some([])
    else if IsLow(hs[0]) then None
    else if !IsHigh(hs[0]) then Preceded(UnitOf(hs[0]), DecodeUnits(hs[1..]))
    else if |hs| == 1 || !IsLow(hs[1]) then None
    else Preceded(SurrogatePair(UnitOf(hs[0]), UnitOf(hs[1])), DecodeUnits(hs[2..]))
  }

  function Preceded(u: int, rest: Option<seq<int>>): Option<seq<int>> {
    if rest.Some? then Some([u] + rest.value) else None
  }

  /** A low surrogate that no high one precedes is refused. */
  lemma LoneLowIsRefused(cfg: Config, p: Parser, h: Digits, rest: seq<int>)
    requires Quoted(p) && IsLow(h)
    ensures !Accepted(cfg, p, EscapeText(h) + rest)
  {
    hide Run, AreHex4, Hex4Value;
    AreHex4Length(h);
    RunUnit(cfg, p, h);
    RunConcat(cfg, p, EscapeText(h), rest);
  }

  /** What follows a high surrogate in an accepted text is the escape of a low one. */
  lemma HighNeedsLow(cfg: Config, p: Parser, h: Digits, rest: seq<int>) returns (l: Digits)
    requires Quoted(p) && IsHigh(h) && Accepted(cfg, p, EscapeText(h) + rest)
    ensures IsLow(l) && EscapeText(l) <= rest
  {
    hide Step, Run, AreHex4, Hex4Value;
    AreHex4Length(h);
    RunUnit(cfg, p, h);
    RunConcat(cfg, p, EscapeText(h), rest);
    var q := p.(high := UnitOf(h), state := D1);
    AcceptedStep(cfg, q, rest);
    LowHeadTakes(cfg, q, rest[0]);
    SoundEscapeHead(cfg, q, rest);
    var digits, r := SoundUnit(cfg, q, rest);
    l := digits;
    AreHex4Length(l);
    RunUnit(cfg, q, l);
  }

  /** Escapes whose code units are well-formed UTF-16 leave the UTF-8 form of their scalar values
      in the token buffer; any others are part of no accepted text. */
  ghost predicate Decoded(cfg: Config, p: Parser, hs: seq<Digits>, rest: seq<int>) {
    match DecodeUnits(hs)
    case Some(us) => Run(cfg, p, EscapesText(hs)) == Go(p.(buf := p.buf + Utf8All(us)))
    case None => !Accepted(cfg, p, EscapesText(hs) + rest)
  }

  /** Any sequence of escapes in a string, up to what is no escape. */
  lemma {:induction false} EscapesDecode(cfg: Config, p: Parser, hs: seq<Digits>, rest: seq<int>)
    requires Quoted(p) && (rest == [] || rest[0] != '\\' as int)
    ensures Decoded(cfg, p, hs, rest)
    decreases |hs|
  {
    hide Run, Accepted, AreHex4, UnitOf, IsHigh, IsLow, Utf8, Decoded, EscapesText, WfItem, ItemBytes;
    if hs == [] {
      NothingDecoded(cfg, p, rest);
    } else if IsLow(hs[0]) {
      LowDecoded(cfg, p, hs, rest);
    } else if !IsHigh(hs[0]) {
      EscapesDecode(cfg, p.(buf := p.buf + Utf8(UnitOf(hs[0]))), hs[1..], rest);
      UnitDecoded(cfg, p, hs, rest);
    } else if |hs| == 1 || !IsLow(hs[1]) {
      HighDecoded(cfg, p, hs, rest);
    } else {
      EscapesDecode(cfg, p.(buf := p.buf + Utf8(SurrogatePair(UnitOf(hs[0]), UnitOf(hs[1])))), hs[2..], rest);
      PairDecoded(cfg, p, hs, rest);
    }
  }

  lemma NothingDecoded(cfg: Config, p: Parser, rest: seq<int>)
    ensures Decoded(cfg, p, [], rest)
  {
    assert p.buf + [] == p.buf;
  }

  lemma {:induction false} FirstEscape(hs: seq<Digits>, rest: seq<int>)
    requires hs != []
    ensures EscapesText(hs) == EscapeText(hs[0]) + EscapesText(hs[1..])
    ensures EscapesText(hs) + rest == EscapeText(hs[0]) + (EscapesText(hs[1..]) + rest)
    ensures |hs| == 1 ==> EscapesText(hs[1..]) + rest == rest
  {
    hide AreHex4, EscapeText;
    var first, more := EscapeText(hs[0]), EscapesText(hs[1..]);
    assert EscapesText(hs) == first + more;
    assert first + more + rest == first + (more + rest);
    if |hs| == 1 { assert hs[1..] == []; }
  }

  lemma LowDecoded(cfg: Config, p: Parser, hs: seq<Digits>, rest: seq<int>)
    requires Quoted(p) && hs != [] && IsLow(hs[0])
    ensures Decoded(cfg, p, hs, rest)
  {
    hide Run, Accepted, EscapesText, EscapeText, IsLow;
    FirstEscape(hs, rest);
    LoneLowIsRefused(cfg, p, hs[0], EscapesText(hs[1..]) + rest);
  }

  lemma HighDecoded(cfg: Config, p: Parser, hs: seq<Digits>, rest: seq<int>)
    requires Quoted(p) && hs != [] && IsHigh(hs[0]) && !IsLow(hs[0]) && (|hs| == 1 || !IsLow(hs[1]))
    requires rest == [] || rest[0] != '\\' as int
    ensures Decoded(cfg, p, hs, rest)
  {
    hide Run, Accepted, EscapesText, EscapeText, IsLow, IsHigh, UnitOf;
    var more := EscapesText(hs[1..]) + rest;
    FirstEscape(hs, rest);
    if Accepted(cfg, p, EscapeText(hs[0]) + more) {
      var l := HighNeedsLow(cfg, p, hs[0], more);
      if |hs| > 1 {
        FirstEscape(hs[1..], rest);
        SameEscape(l, hs[1], more);
      } else {
        NoEscape(l, rest);
      }
    }
  }

  lemma SameEscape(h: Digits, l: Digits, text: seq<int>)
    requires EscapeText(h) <= text && EscapeText(l) <= text
    ensures h == l
  {
    assert |h| == |l| == 4;
    assert h == text[..6][2..] == l;
  }

  lemma NoEscape(h: Digits, rest: seq<int>)
    requires rest == [] || rest[0] != '\\' as int
    ensures !(EscapeText(h) <= rest)
  {
  }

  lemma UnitDecoded(cfg: Config, p: Parser, hs: seq<Digits>, rest: seq<int>)
    requires Quoted(p) && hs != [] && !IsLow(hs[0]) && !IsHigh(hs[0])
    requires Decoded(cfg, p.(buf := p.buf + Utf8(UnitOf(hs[0]))), hs[1..], rest)
    ensures Decoded(cfg, p, hs, rest)
  {
    hide Run, Accepted, AreHex4, Hex4Value, Utf8, EscapesText, Decoded;
    AreHex4Length(hs[0]);
    FirstEscape(hs, []);
    ItemDecoded(cfg, p, Unit(hs[0]), UnitOf(hs[0]), hs, hs[1..], rest);
  }

  lemma PairDecoded(cfg: Config, p: Parser, hs: seq<Digits>, rest: seq<int>)
    requires Quoted(p) && |hs| > 1 && IsHigh(hs[0]) && !IsLow(hs[0]) && IsLow(hs[1])
    requires Decoded(cfg, p.(buf := p.buf + Utf8(SurrogatePair(UnitOf(hs[0]), UnitOf(hs[1])))), hs[2..], rest)
    ensures Decoded(cfg, p, hs, rest)
  {
    hide Run, Accepted, AreHex4, Hex4Value, Utf8, EscapesText, Decoded;
    AreHex4Length(hs[0]);
    AreHex4Length(hs[1]);
    assert hs[1..][1..] == hs[2..];
    FirstEscape(hs, []);
    FirstEscape(hs[1..], []);
    var text := EscapesText(hs[2..]);
    assert EscapesText(hs) == EscapeText(hs[0]) + (EscapeText(hs[1]) + text);
    ItemDecoded(cfg, p, Pair(hs[0], hs[1]), SurrogatePair(UnitOf(hs[0]), UnitOf(hs[1])), hs, hs[2..], rest);
  }

  /** One escape, or a pair of them, and then the rest. */
  lemma ItemDecoded(cfg: Config, p: Parser, x: Item, u: int, hs: seq<Digits>, more: seq<Digits>, rest: seq<int>)
    requires Quoted(p) && WfItem(x) && ItemBytes(x) == Utf8(u)
    requires EscapesText(hs) == ItemText(x) + EscapesText(more)
    requires DecodeUnits(hs) == Preceded(u, DecodeUnits(more))
    requires Decoded(cfg, p.(buf := p.buf + Utf8(u)), more, rest)
    ensures Decoded(cfg, p, hs, rest)
  {
    hide Run, Finished, EscapesText, DecodeUnits, ItemText, ItemBytes, WfItem, Utf8;
    RunItem(cfg, p, x);
    RunConcat(cfg, p, ItemText(x), EscapesText(more));
    RunConcat(cfg, p, ItemText(x), EscapesText(more) + rest);
    assert ItemText(x) + EscapesText(more) + rest == ItemText(x) + (EscapesText(more) + rest);
    if DecodeUnits(more).Some? {
      var us := DecodeUnits(more).value;
      assert ([u] + us)[1..] == us;
      assert p.buf + Utf8(u) + Utf8All(us) == p.buf + Utf8All([u] + us);
    }
  }
}
