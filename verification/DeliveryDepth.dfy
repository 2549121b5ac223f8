/** How deep a response may be nested: nineteen containers, and no more. */
module DeliveryDepth {
  import opened JsonTables
  import opened JsonSpec
  import opened JsonGrammar
  import opened JsonComplete
  import opened JsonHeard
  import opened JsonLiterals
  import opened JsonPrint
  import opened JsonSteps
  import opened JsonDepth
  import opened Delivery
  import A = MessageAssembly

  /** So many opening brackets and as many closing ones. */
  function NestedText(n: nat): A.Bytes {
    if n == 0 then [] else ['[' as int] + NestedText(n - 1) + [']' as int]
  }

  function Nested(n: nat): Value
    requires n > 0
  {
    if n == 1 then EmptyArray([]) else Array(LastElement([], Nested(n - 1), []))
  }

  function NestedJson(n: nat): Json
    requires n > 0
  {
    JArray(if n == 1 then NoItems else OneItem(NestedJson(n - 1), NoItems))
  }

  lemma {:induction false} NestedIs(n: nat)
    requires n > 0
    ensures WfValue(Nested(n)) && IsContainer(Nested(n)) && ValueText(Nested(n)) == NestedText(n)
  {
    hide IsBlankCode;
    if n == 1 {
      assert NestedText(0) == [];
    } else {
      NestedIs(n - 1);
      OneElement(Nested(n - 1));
    }
  }

  lemma OneElement(v: Value)
    ensures ValueText(Array(LastElement([], v, []))) == ['[' as int] + ValueText(v) + [']' as int]
    ensures WfValue(v) ==> WfValue(Array(LastElement([], v, [])))
  {
    hide IsBlankCode;
    var es := LastElement([], v, []);
    assert ElementsText(es) == ValueText(v) + [']' as int];
  }

  lemma {:induction false} NestedMeans(n: nat)
    requires n > 0
    ensures Meaning(Nested(n)) == NestedJson(n) && JHeight(NestedJson(n)) == n && WordFree(NestedJson(n))
  {
    if n > 1 {
      NestedMeans(n - 1);
      assert ItemsMeaning(LastElement([], Nested(n - 1), [])) == OneItem(NestedJson(n - 1), NoItems);
    }
  }

  lemma ArrayTaken(kind: A.Kind, u: A.Unescaping, s: A.State, e: Event)
    requires e == BeginArray || e == EndArray
    ensures A.Absorb(kind, u, s, e) == (s, true)
  {
  }

  lemma {:induction false} NestedTaken(cfg: Config, kind: A.Kind, u: A.Unescaping, s: A.State, n: nat)
    requires n > 0
    ensures A.AbsorbAll(kind, u, s, ValueEvents(cfg, NestedJson(n))) == (s, true)
  {
    hide A.AbsorbAll, A.Absorb;
    ArrayTaken(kind, u, s, BeginArray);
    ArrayTaken(kind, u, s, EndArray);
    A.AbsorbOne(kind, u, s, BeginArray);
    A.AbsorbOne(kind, u, s, EndArray);
    if n == 1 {
      A.AbsorbConcat(kind, u, s, [BeginArray], [EndArray]);
    } else {
      var inner := ValueEvents(cfg, NestedJson(n - 1));
      NestedTaken(cfg, kind, u, s, n - 1);
      A.AbsorbConcat(kind, u, s, inner, [EndArray]);
      A.AbsorbConcat(kind, u, s, [BeginArray], inner + [EndArray]);
      assert ItemsEvents(cfg, OneItem(NestedJson(n - 1), NoItems)) == inner + [EndArray];
    }
  }

  // ----- too deep

  predicate OnlyBrackets(log: seq<Event>) { forall k :: 0 <= k < |log| ==> log[k] == BeginArray }

  lemma {:induction false} BracketsTell(cfg: Config, n: nat)
    requires n <= cfg.depth
    ensures var o := Run(cfg, Initial, Brackets(n));
            o.Go? && |o.next.modes| == n + 1 && OpenSlot(o.next) && OnlyBrackets(o.next.log)
  {
    hide Step, Run;
    if n == 0 {
      InitialSlot();
      assert Run(cfg, Initial, Brackets(0)) == Go(Initial) by { NothingRun(cfg); }
    } else {
      BracketsTell(cfg, n - 1);
      BracketsNest(cfg, n);
      var p := Run(cfg, Initial, Brackets(n - 1)).next;
      RunConcat(cfg, Initial, Brackets(n - 1), ['[' as int]);
      RunOne(cfg, p, '[' as int);
      StepOpen(cfg, p, true);
    }
  }

  lemma NothingRun(cfg: Config)
    ensures Run(cfg, Initial, Brackets(0)) == Go(Initial)
  {
  }

  lemma StepTooDeep(cfg: Config, p: Parser)
    requires OpenSlot(p) && |p.modes| == cfg.depth + 1
    ensures Step(cfg, p, '[' as int) == Refused(Advance(cfg, p, [BeginArray]).log)
  {
    hide Step, Transition, ClassOf;
    BracketClasses();
    OpeningRows(p.state);
    StepStored(cfg, p, '[' as int, LSQRB);
    assert (p.buf + ['[' as int])[..|p.buf|] == p.buf;
    TellIsAdvance(cfg, p, BeginArray);
  }

  /** The text up to the bracket that is too many, and the rest of it. */
  lemma {:induction false} NestedBegins(n: nat, k: nat)
    requires k <= n
    ensures |NestedText(n)| == 2 * n && NestedText(n)[..k] == Brackets(k)
  {
    if n > 0 {
      NestedBegins(n - 1, if k > 0 then k - 1 else 0);
      if k > 0 {
        BracketsFirst(k);
        assert NestedText(n)[..k] == ['[' as int] + NestedText(n - 1)[..k - 1];
      }
    }
  }

  lemma {:induction false} BracketsFirst(k: nat)
    requires k > 0
    ensures Brackets(k) == ['[' as int] + Brackets(k - 1)
  {
    if k > 1 { BracketsFirst(k - 1); }
  }

  lemma TooDeepIsRefused(cfg: Config, n: nat)
    requires n > cfg.depth
    ensures var o := Run(cfg, Initial, NestedText(n)); o.Refused? && OnlyBrackets(o.log)
  {
    hide Step, Run, Brackets, NestedText;
    var text, d := NestedText(n), cfg.depth;
    NestedBegins(n, d + 1);
    BracketsTell(cfg, d);
    var p := Run(cfg, Initial, Brackets(d)).next;
    StepTooDeep(cfg, p);
    RunOne(cfg, p, '[' as int);
    RunConcat(cfg, Initial, Brackets(d), ['[' as int]);
    assert Brackets(d + 1) == Brackets(d) + ['[' as int] by { BracketsLast(d); }
    RunConcat(cfg, Initial, text[..d + 1], text[d + 1..]);
    assert text == text[..d + 1] + text[d + 1..];
  }

  lemma BracketsLast(d: nat)
    ensures Brackets(d + 1) == Brackets(d) + ['[' as int]
  {
  }

  lemma {:induction false} BracketsTaken(kind: A.Kind, u: A.Unescaping, s: A.State, log: seq<Event>)
    requires OnlyBrackets(log)
    ensures A.AbsorbAll(kind, u, s, log) == (s, true)
    decreases |log|
  {
    hide A.Absorb;
    if log != [] {
      ArrayTaken(kind, u, s, log[0]);
      BracketsTaken(kind, u, s, log[1..]);
    }
  }

  /** Nested arrays with nothing in them: up to nineteen are read and deliver nothing; more are
      EINVAL. */
  lemma NineteenAndNoMore(kind: A.Kind, u: A.Unescaping, decimalPoint: int, n: nat)
    requires ConfigOk(A.ResponseConfig(decimalPoint)) && n > 0
    ensures A.Response(kind, u, decimalPoint, NestedText(n)) == (if n <= 19 then A.Success else A.Malformed, [])
  {
    hide Run, RunHeard, A.AbsorbAll, NestedText, Nested, NestedJson, ValueEvents, OnlyBrackets, Welcome;
    var cfg, accept := A.ResponseConfig(decimalPoint), A.Answering(kind, u);
    if n <= 19 {
      var d := RootedDoc([], Nested(n), []);
      NestedIs(n);
      NestedMeans(n);
      assert DocText(d) == NestedText(n);
      NestedTaken(cfg, kind, u, A.Empty, n);
      Delivered(kind, u, decimalPoint, d, NestedJson(n));
    } else {
      TooDeepIsRefused(cfg, n);
      RefusedIsCut(cfg, accept, Initial, NestedText(n));
      var all := LogOf(Run(cfg, Initial, NestedText(n)));
      forall k | 0 < k <= |all|
        ensures accept(all[..k])
      {
        assert OnlyBrackets(all[..k]) by { StillBrackets(all, k); }
        BracketsTaken(kind, u, A.Empty, all[..k]);
      }
      BracketsTaken(kind, u, A.Empty, all);
      InitialSlot();
    }
  }

  lemma StillBrackets(log: seq<Event>, k: nat)
    requires OnlyBrackets(log) && k <= |log|
    ensures OnlyBrackets(log[..k])
  {
  }
}
