/** Numbers: the parser reads exactly the grammar's numbers, and reports their value. */
module JsonNumbers {
  import opened Wrappers
  import opened JsonTables
  import opened JsonSpec
  import opened JsonInvariant
  import opened JsonGrammar
  import opened JsonSteps

  /** A place for a value: nothing pending, inside a container. */
  predicate Slot(p: Parser) {
    && (p.state == VA || p.state == AR)
    && Steady(p) && p.token == NoToken && p.buf == [] && InContainer(Top(p))
  }

  function PointCode(cfg: Config): int {
    if cfg.manualFloats then POINT_CODE else cfg.decimalPoint
  }

  predicate InDigits(s: State) { s == IT || s == FR || s == E3 }

  lemma {:induction false} RunDigits(cfg: Config, p: Parser, ds: seq<int>)
    requires InDigits(p.state) && Steady(p) && p.token != NoToken && AreDigits(ds)
    ensures Run(cfg, p, ds) == Go(p.(buf := p.buf + ds))
    decreases |ds|
  {
    hide Step, ClassOf;
    if ds == [] {
      assert p.buf + ds == p.buf;
    } else {
      DigitClass(ds[0]);
      StepTo(cfg, p, ds[0], ClassOf(ds[0]).value, p.state);
      RunDigits(cfg, p.(buf := p.buf + [ds[0]]), ds[1..]);
      assert p.buf + [ds[0]] + ds[1..] == p.buf + ds;
    }
  }

  /** Digits whose first one moves to the looping state. */
  lemma {:induction false} RunDigitsInto(cfg: Config, p: Parser, ds: seq<int>, t: State)
    requires Steady(p) && p.token != NoToken && ds != [] && AreDigits(ds) && InDigits(t)
    requires Transition(p.state, ZERO) == To(t) && Transition(p.state, DIGIT) == To(t)
    ensures Run(cfg, p, ds) == Go(p.(buf := p.buf + ds, state := t))
  {
    hide Step, ClassOf, Transition;
    DigitClass(ds[0]);
    StepTo(cfg, p, ds[0], ClassOf(ds[0]).value, t);
    RunDigits(cfg, p.(buf := p.buf + [ds[0]], state := t), ds[1..]);
    assert p.buf + [ds[0]] + ds[1..] == p.buf + ds;
  }

  function WholeEnd(whole: seq<int>): State { if whole == [ZERO_CODE] then ZE else IT }

  predicate WfWhole(whole: seq<int>) {
    whole != [] && AreDigits(whole) && (whole[0] == ZERO_CODE ==> whole == [ZERO_CODE])
  }

  lemma StepMinus(cfg: Config, p: Parser)
    requires Slot(p)
    ensures Step(cfg, p, '-' as int) ==
            Go(p.(state := MI, token := IntegerToken, buf := ['-' as int]))
  {
  }

  lemma StepFirstDigit(cfg: Config, p: Parser, c: int)
    requires Slot(p) && IsDigitCode(c)
    ensures Step(cfg, p, c) ==
            Go(p.(state := if c == ZERO_CODE then ZE else IT, token := IntegerToken, buf := [c]))
  {
    hide ClassOf;
    DigitClass(c);
  }

  lemma {:induction false} RunWhole(cfg: Config, p: Parser, minus: bool, whole: seq<int>)
    requires Slot(p) && WfWhole(whole)
    ensures Run(cfg, p, MinusText(minus) + whole) ==
            Go(p.(state := WholeEnd(whole), token := IntegerToken, buf := MinusText(minus) + whole))
  {
    hide Step, ClassOf, Transition;
    RunConcat(cfg, p, MinusText(minus), whole);
    var first := if whole[0] == ZERO_CODE then ZE else IT;
    var q := p.(state := MI, token := IntegerToken, buf := ['-' as int]);
    if minus {
      StepMinus(cfg, p);
      RunOne(cfg, p, '-' as int);
      DigitClass(whole[0]);
      MinusTable();
      StepTo(cfg, q, whole[0], ClassOf(whole[0]).value, first);
      assert Step(cfg, q, whole[0]) == Go(q.(state := first, buf := ['-' as int, whole[0]]));
    } else {
      StepFirstDigit(cfg, p, whole[0]);
    }
    var r := p.(state := first, token := IntegerToken, buf := MinusText(minus) + [whole[0]]);
    assert r.buf == if minus then ['-' as int, whole[0]] else [whole[0]];
    if whole[0] == ZERO_CODE {
      assert Run(cfg, r, whole[1..]) == Go(r);
    } else {
      RunDigits(cfg, r, whole[1..]);
      assert r.buf + whole[1..] == MinusText(minus) + whole;
    }
  }

  lemma MinusTable()
    ensures Transition(MI, ZERO) == To(ZE) && Transition(MI, DIGIT) == To(IT)
  {
  }

  // ----- fraction and exponent

  lemma StepPoint(cfg: Config, p: Parser)
    requires (p.state == ZE || p.state == IT) && Steady(p) && p.token == IntegerToken
    ensures Step(cfg, p, POINT_CODE) ==
            Go(p.(state := FX, token := FloatToken, buf := p.buf + [PointCode(cfg)]))
  {
    var stored := p.buf + [POINT_CODE];
    assert stored[|stored| - 1 := cfg.decimalPoint] == p.buf + [cfg.decimalPoint];
  }

  lemma FractionDigits()
    ensures Transition(FX, ZERO) == To(FR) && Transition(FX, DIGIT) == To(FR)
  {
  }

  lemma ExponentTable()
    ensures Transition(E1, ZERO) == To(E3) && Transition(E1, DIGIT) == To(E3)
    ensures Transition(E2, ZERO) == To(E3) && Transition(E2, DIGIT) == To(E3)
    ensures Transition(E1, PLUS) == To(E2) && Transition(E1, MINUS) == To(E2)
  {
    hide FractionRow, AfterValue, BeforeValue, IsHexClass, IsSimpleEscape;
  }

  function FractionText(fraction: Option<seq<int>>, point: int): seq<int> {
    if fraction.Some? then [point] + fraction.value else []
  }

  function FractionEnd(here: State, fraction: Option<seq<int>>): State {
    if fraction.None? then here else if fraction.value == [] then FX else FR
  }

  lemma {:induction false} RunFraction(cfg: Config, p: Parser, fraction: Option<seq<int>>)
    requires (p.state == ZE || p.state == IT) && Steady(p) && p.token == IntegerToken
    requires fraction.Some? ==> AreDigits(fraction.value)
    ensures Run(cfg, p, FractionText(fraction, POINT_CODE)) ==
            Go(p.(state := FractionEnd(p.state, fraction),
                  token := if fraction.Some? then FloatToken else IntegerToken,
                  buf := p.buf + FractionText(fraction, PointCode(cfg))))
  {
    hide Step, ClassOf, Transition, PointCode;
    if fraction.Some? {
      var q := p.(state := FX, token := FloatToken, buf := p.buf + [PointCode(cfg)]);
      StepPoint(cfg, p);
      RunCons(cfg, p, POINT_CODE, fraction.value);
      if fraction.value != [] {
        FractionDigits();
        RunDigitsInto(cfg, q, fraction.value, FR);
      }
      assert q.buf + fraction.value == p.buf + ([PointCode(cfg)] + fraction.value);
    } else {
      assert p.buf + [] == p.buf;
    }
  }

  lemma MarkClass(c: int)
    requires IsMark(c)
    ensures ClassOf(c) == Some(LOW_E) || ClassOf(c) == Some(CAP_E)
  {
  }

  lemma StepMark(cfg: Config, p: Parser, c: int)
    requires p.state == IT || p.state == FX || p.state == FR
    requires Steady(p) && p.token == (if p.state == IT then IntegerToken else FloatToken) && IsMark(c)
    ensures Step(cfg, p, c) == Go(p.(state := E1, token := FloatToken, buf := p.buf + [c]))
  {
    hide ClassOf, Transition;
    MarkClass(c);
    MarkRows(p.state);
  }

  lemma MarkRows(s: State)
    requires s == IT || s == FX || s == FR
    ensures Transition(s, LOW_E) == Transition(s, CAP_E) == if s == IT then FloatByExponent else To(E1)
  {
    hide AfterValue, BeforeValue;
  }

  lemma {:induction false} RunExponentTail(cfg: Config, p: Parser, sign: seq<int>, digits: seq<int>)
    requires p.state == E1 && Steady(p) && p.token == FloatToken
    requires IsSign(sign) && digits != [] && AreDigits(digits)
    ensures Run(cfg, p, sign + digits) == Go(p.(state := E3, buf := p.buf + (sign + digits)))
  {
    hide Step, ClassOf, Transition, AreDigits;
    ExponentTable();
    if sign == [] {
      assert sign + digits == digits;
      RunDigitsInto(cfg, p, digits, E3);
    } else {
      var q := p.(state := E2, buf := p.buf + [sign[0]]);
      StepSign(cfg, p, sign[0]);
      RunCons(cfg, p, sign[0], digits);
      assert sign + digits == [sign[0]] + digits;
      RunDigitsInto(cfg, q, digits, E3);
      assert q.buf + digits == p.buf + (sign + digits);
    }
  }

  lemma {:induction false} RunExponent(cfg: Config, p: Parser, x: Exponent)
    requires p.state == IT || p.state == FX || p.state == FR
    requires Steady(p) && p.token == (if p.state == IT then IntegerToken else FloatToken) && WfExponent(x)
    ensures Run(cfg, p, ExponentText(x)) ==
            Go(p.(state := E3, token := FloatToken, buf := p.buf + ExponentText(x)))
  {
    hide Step, Run, ClassOf, Transition, AreDigits, IsSign, IsMark;
    assert ExponentText(x) == [x.mark] + (x.sign + x.digits);
    StepMark(cfg, p, x.mark);
    RunCons(cfg, p, x.mark, x.sign + x.digits);
    var q := p.(state := E1, token := FloatToken, buf := p.buf + [x.mark]);
    RunExponentTail(cfg, q, x.sign, x.digits);
    assert q.buf + (x.sign + x.digits) == p.buf + ExponentText(x);
  }

  lemma StepSign(cfg: Config, p: Parser, c: int)
    requires p.state == E1 && Steady(p) && p.token == FloatToken && IsSign([c])
    ensures Step(cfg, p, c) == Go(p.(state := E2, buf := p.buf + [c]))
  {
    hide Transition;
    ExponentTable();
    assert [c][0] == c && ['+' as int][0] == '+' as int && ['-' as int][0] == '-' as int;
    StepTo(cfg, p, c, if c == '+' as int then PLUS else MINUS, E2);
  }

  // ----- a whole number

  function NumberEnd(n: Number): State {
    if n.exponent.Some? then E3 else FractionEnd(WholeEnd(n.whole), n.fraction)
  }

  function NumberToken(n: Number): Token { if IsFloat(n) then FloatToken else IntegerToken }

  lemma {:induction false} RunNumber(cfg: Config, p: Parser, n: Number)
    requires Slot(p) && WfNumber(n)
    ensures Run(cfg, p, NumberText(n, POINT_CODE)) ==
            Go(p.(state := NumberEnd(n), token := NumberToken(n), buf := NumberText(n, PointCode(cfg))))
    ensures Ending(NumberEnd(n))
  {
    hide Step, WfExponent, ExponentText, PointCode, Run;
    var whole := MinusText(n.minus) + n.whole;
    var fraction := FractionText(n.fraction, POINT_CODE);
    var exponent := if n.exponent.Some? then ExponentText(n.exponent.value) else [];
    var p1 := p.(state := WholeEnd(n.whole), token := IntegerToken, buf := whole);
    var p2 := p1.(state := FractionEnd(p1.state, n.fraction),
                  token := if n.fraction.Some? then FloatToken else IntegerToken,
                  buf := whole + FractionText(n.fraction, PointCode(cfg)));
    assert NumberText(n, POINT_CODE) == whole + fraction + exponent;
    RunWhole(cfg, p, n.minus, n.whole);
    RunConcat(cfg, p, whole, fraction);
    RunFraction(cfg, p1, n.fraction);
    RunConcat(cfg, p, whole + fraction, exponent);
    if n.exponent.Some? {
      RunExponent(cfg, p2, n.exponent.value);
    } else {
      RunNothing(cfg, p2);
      assert p2.buf + exponent == p2.buf;
    }
  }

  lemma {:induction false} RunNothing(cfg: Config, p: Parser)
    ensures Run(cfg, p, []) == Go(p)
  {
  }

  // ----- its value

  /** Digits read from the front with an accumulator have their decimal value. */
  lemma {:induction false} DigitsValueStops(ds: seq<int>, rest: seq<int>, acc: int)
    requires AreDigits(ds) && (rest == [] || !IsDigitCode(rest[0]))
    ensures DigitsValue(ds + rest, acc) == DigitsValue(ds, acc)
    decreases |ds|
  {
    if ds == [] {
      assert ds + rest == rest;
    } else {
      assert (ds + rest)[1..] == ds[1..] + rest;
      DigitsValueStops(ds[1..], rest, acc * 10 + (ds[0] - ZERO_CODE));
    }
  }

  lemma {:induction false} DigitsValueSnoc(ds: seq<int>, d: int, acc: int)
    requires AreDigits(ds) && IsDigitCode(d)
    ensures DigitsValue(ds + [d], acc) == DigitsValue(ds, acc) * 10 + (d - ZERO_CODE)
    decreases |ds|
  {
    if ds == [] {
      assert ds + [d] == [d];
      assert DigitsValue([d][1..], acc * 10 + (d - ZERO_CODE)) == acc * 10 + (d - ZERO_CODE);
    } else {
      assert (ds + [d])[1..] == ds[1..] + [d];
      DigitsValueSnoc(ds[1..], d, acc * 10 + (ds[0] - ZERO_CODE));
    }
  }

  lemma {:induction false} DigitsValueIsDecimal(ds: seq<int>)
    requires AreDigits(ds)
    ensures DigitsValue(ds, 0) == Decimal(ds)
    decreases |ds|
  {
    if ds != [] {
      var front, d := ds[..|ds| - 1], ds[|ds| - 1];
      assert ds == front + [d];
      DigitsValueIsDecimal(front);
      DigitsValueSnoc(front, d, 0);
    }
  }

  lemma IntegerOfText(minus: bool, whole: seq<int>, blank: seq<int>)
    requires WfWhole(whole) && IsBlank(blank)
    ensures IntegerOf(MinusText(minus) + whole + blank) ==
            if minus then -Decimal(whole) else Decimal(whole)
  {
    var s := MinusText(minus) + whole + blank;
    DigitsValueIsDecimal(whole);
    DigitsValueStops(whole, blank, 0);
    if minus {
      assert s[1..] == whole + blank;
    } else {
      assert s == whole + blank;
    }
  }

  lemma {:induction false} TrimBlanks(s: seq<int>, blank: seq<int>)
    requires IsBlank(blank) && s != [] && !IsBlankCode(s[|s| - 1])
    ensures TrimRight(s + blank) == s
    decreases |blank|
  {
    if blank == [] {
      assert s + blank == s;
    } else {
      assert (s + blank)[..|s + blank| - 1] == s + blank[..|blank| - 1];
      TrimBlanks(s, blank[..|blank| - 1]);
    }
  }

  lemma NumberTextEnd(n: Number, point: int)
    requires WfNumber(n) && !IsBlankCode(point)
    ensures NumberText(n, point) != []
    ensures !IsBlankCode(NumberText(n, point)[|NumberText(n, point)| - 1])
  {
    var s := NumberText(n, point);
    if n.exponent.Some? {
      var ds := n.exponent.value.digits;
      assert s[|s| - 1] == ds[|ds| - 1];
    } else if n.fraction.Some? {
      var ds := [point] + n.fraction.value;
      assert s[|s| - 1] == ds[|ds| - 1];
    } else {
      assert s[|s| - 1] == n.whole[|n.whole| - 1];
    }
  }

  /** The report a number's buffer yields, with the blanks that followed the number. */
  lemma NumberReported(cfg: Config, n: Number, blank: seq<int>)
    requires WfNumber(n) && IsBlank(blank) && !IsBlankCode(cfg.decimalPoint)
    ensures TokenEvent(cfg, NumberToken(n), NumberText(n, PointCode(cfg)) + blank) ==
            NumberEvent(cfg, n, blank)
  {
    hide WfExponent, ExponentText, IntegerOf, TrimRight, DigitsValue, Decimal;
    if !IsFloat(n) {
      IntegerOfText(n.minus, n.whole, blank);
      assert NumberText(n, PointCode(cfg)) == MinusText(n.minus) + n.whole;
    } else if !cfg.manualFloats {
      NumberTextEnd(n, cfg.decimalPoint);
      TrimBlanks(NumberText(n, cfg.decimalPoint), blank);
      if n.fraction.None? {
        assert NumberText(n, cfg.decimalPoint) == NumberText(n, POINT_CODE);
      }
    }
  }
}
