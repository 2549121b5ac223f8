/** UTF-8 as section 3 of RFC 3629 defines it, UTF-16 surrogates as section 2.2 of RFC 2781
    does, and the parser's own encoder measured against them. */
module Unicode {
  import opened Wrappers
  import opened JsonSpec

  predicate IsScalar(u: int) {
    0 <= u < 0x110000 && !IsHighSurrogate(u) && !IsLowSurrogate(u)
  }

  /** The UTF-8 form of a scalar value. */
  function Utf8(u: int): seq<int> {
    if u < 0x80 then [u]
    else if u < 0x800 then [0xC0 + u / 0x40, 0x80 + u % 0x40]
    else if u < 0x10000 then [0xE0 + u / 0x1000, 0x80 + u / 0x40 % 0x40, 0x80 + u % 0x40]
    else [0xF0 + u / 0x40000, 0x80 + u / 0x1000 % 0x40, 0x80 + u / 0x40 % 0x40, 0x80 + u % 0x40]
  }

  function Utf8All(us: seq<int>): seq<int> {
    if us == [] then [] else Utf8(us[0]) + Utf8All(us[1..])
  }

  predicate IsTail(b: int) { 0x80 <= b < 0xC0 }

  /** An independent decoder: the first scalar value of a byte string and the rest of it.
      It refuses overlong forms, surrogates and values above 0x10FFFF. */
  function FirstScalar(s: seq<int>): Option<(int, seq<int>)> {
    if s == [] then None
    else if 0 <= s[0] < 0x80 then Some((s[0], s[1..]))
    else if 0xC2 <= s[0] < 0xE0 && |s| >= 2 && IsTail(s[1]) then
      Some(((s[0] - 0xC0) * 0x40 + s[1] - 0x80, s[2..]))
    else if 0xE0 <= s[0] < 0xF0 && |s| >= 3 && IsTail(s[1]) && IsTail(s[2]) then
      var u := (s[0] - 0xE0) * 0x1000 + (s[1] - 0x80) * 0x40 + s[2] - 0x80;
      if u < 0x800 || !IsScalar(u) then None else Some((u, s[3..]))
    else if 0xF0 <= s[0] < 0xF5 && |s| >= 4 && IsTail(s[1]) && IsTail(s[2]) && IsTail(s[3]) then
      var u := (s[0] - 0xF0) * 0x40000 + (s[1] - 0x80) * 0x1000 + (s[2] - 0x80) * 0x40 + s[3] - 0x80;
      if u < 0x10000 || !IsScalar(u) then None else Some((u, s[4..]))
    else None
  }

  function DecodeAll(s: seq<int>): Option<seq<int>>
    decreases |s|
  {
    if s == [] then Some([])
    else
      match FirstScalar(s)
      case None => None
      case Some((u, rest)) =>
        if |rest| >= |s| then None
        else
          match DecodeAll(rest)
          case None => None
          case Some(us) => Some([u] + us)
  }

  lemma FirstOfUtf8(u: int, rest: seq<int>)
    requires IsScalar(u)
    ensures FirstScalar(Utf8(u) + rest) == Some((u, rest))
  {
    var s := Utf8(u) + rest;
    assert s[|Utf8(u)|..] == rest;
    if u >= 0x10000 {
      FirstOfFour(u, s);
    } else if u >= 0x800 {
      FirstOfThree(u, s);
    }
  }

  lemma FirstOfThree(u: int, s: seq<int>)
    requires IsScalar(u) && 0x800 <= u < 0x10000 && Utf8(u) <= s
    ensures FirstScalar(s) == Some((u, s[3..]))
  {
    var x, y, z := u / 0x1000, u / 0x40 % 0x40, u % 0x40;
    assert u == x * 0x1000 + y * 0x40 + z;
    assert s[0] == 0xE0 + x && s[1] == 0x80 + y && s[2] == 0x80 + z;
  }

  lemma SixBitGroups(u: int)
    requires 0 <= u < 0x110000
    ensures u == u / 0x40000 * 0x40000 + u / 0x1000 % 0x40 * 0x1000 + u / 0x40 % 0x40 * 0x40 + u % 0x40
    ensures 0 <= u / 0x40000 < 5
  {
    var a := u / 0x40;
    var b := a / 0x40;
    assert b == u / 0x1000;
    assert b / 0x40 == u / 0x40000;
  }

  lemma FirstOfFour(u: int, s: seq<int>)
    requires IsScalar(u) && 0x10000 <= u && Utf8(u) <= s
    ensures FirstScalar(s) == Some((u, s[4..]))
  {
    SixBitGroups(u);
  }

  /** Decoding gives back every sequence of scalar values from its UTF-8 form. */
  lemma {:induction false} DecodeInvertsUtf8(us: seq<int>)
    requires forall i :: 0 <= i < |us| ==> IsScalar(us[i])
    ensures DecodeAll(Utf8All(us)) == Some(us)
  {
    if us != [] {
      FirstOfUtf8(us[0], Utf8All(us[1..]));
      DecodeInvertsUtf8(us[1..]);
      assert us == [us[0]] + us[1..];
    }
  }

  lemma ShiftedIs(u: int)
    requires 0 <= u
    ensures Shifted(u, 0) == u && Shifted(u, 1) == u / 0x40
    ensures Shifted(u, 2) == u / 0x1000 && Shifted(u, 3) == u / 0x40000
  {
    assert u / 0x40 / 0x40 == u / 0x1000;
    assert u / 0x1000 / 0x40 == u / 0x40000;
  }

  lemma ContinuationIs(u: int)
    ensures Continuation(u, 0) == []
    ensures Continuation(u, 1) == [0x80 + Shifted(u, 0) % 64]
    ensures Continuation(u, 2) == [0x80 + Shifted(u, 1) % 64, 0x80 + Shifted(u, 0) % 64]
    ensures Continuation(u, 3) ==
            [0x80 + Shifted(u, 2) % 64, 0x80 + Shifted(u, 1) % 64, 0x80 + Shifted(u, 0) % 64]
  {
    hide Shifted;
    assert Continuation(u, 2) == [0x80 + Shifted(u, 1) % 64] + Continuation(u, 1);
    assert Continuation(u, 3) == [0x80 + Shifted(u, 2) % 64] + Continuation(u, 2);
  }

  /** With the number of continuation bytes that the parser picks, its encoder writes UTF-8. */
  lemma EncodedIsUtf8(u: int)
    requires 0 <= u < 0x110000
    ensures Encoded(u, if u < 0x80 then 0 else if u < 0x800 then 1 else if u < 0x10000 then 2 else 3)
            == Utf8(u)
  {
    hide Continuation, Shifted;
    ContinuationIs(u);
    ShiftedIs(u);
  }

  /** A surrogate pair names a scalar value above 0xFFFF, and each such value has one pair. */
  lemma PairIsScalar(high: int, low: int)
    requires IsHighSurrogate(high) && IsLowSurrogate(low)
    ensures 0x10000 <= SurrogatePair(high, low) < 0x110000
    ensures high == HighHalf(SurrogatePair(high, low)) && low == LowHalf(SurrogatePair(high, low))
  {
  }

  function HighHalf(u: int): int { 0xD800 + (u - 0x10000) / 0x400 }

  function LowHalf(u: int): int { 0xDC00 + (u - 0x10000) % 0x400 }

  lemma HalvesArePair(u: int)
    requires 0x10000 <= u < 0x110000
    ensures IsHighSurrogate(HighHalf(u)) && IsLowSurrogate(LowHalf(u))
    ensures SurrogatePair(HighHalf(u), LowHalf(u)) == u
  {
  }
}
