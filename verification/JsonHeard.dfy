/** A callback that refuses an event only cuts the run short: what it has heard by then, and
    whether the text is accepted, follow from the run that nobody refuses. */
module JsonHeard {
  import opened JsonTables
  import opened JsonSpec

  lemma FlushKeepsLog(cfg: Config, p: Parser)
    ensures p.log <= LogOf(Flush(cfg, p))
  {
  }

  lemma CloseKeepsLog(cfg: Config, p: Parser, event: Event, mode: Mode)
    ensures p.log <= LogOf(Close(cfg, p, event, mode))
  {
    hide Flush;
    FlushKeepsLog(cfg, p);
  }

  lemma NextKeepsLog(cfg: Config, p: Parser)
    ensures p.log <= LogOf(NextMember(cfg, p)) && p.log <= LogOf(BeginComment(cfg, p))
  {
    hide Flush;
    FlushKeepsLog(cfg, p);
  }

  lemma StringKeepsLog(cfg: Config, p: Parser)
    ensures p.log <= LogOf(EndString(cfg, p))
  {
  }

  lemma ActKeepsLog(cfg: Config, p: Parser, entry: Entry)
    ensures p.log <= LogOf(Act(cfg, p, entry))
  {
    hide Close, NextMember, BeginComment, EndString, Decode, HexOf;
    CloseKeepsLog(cfg, p, EndArray, ArrayMode);
    CloseKeepsLog(cfg, p, EndObject, ObjectMode);
    NextKeepsLog(cfg, p);
    StringKeepsLog(cfg, p);
    if entry.UnicodeRead? { DecodeKeepsLog(p); }
  }

  lemma DecodeKeepsLog(p: Parser)
    ensures p.log == LogOf(Decode(p))
  {
  }

  /** The log only grows. */
  lemma StepKeepsLog(cfg: Config, p: Parser, c: int)
    ensures p.log <= LogOf(Step(cfg, p, c))
  {
    hide Act, ClassOf, Transition;
    if c >= 0 && ClassOf(c).Some? && AddChar(p, c, ClassOf(c).value).Go? {
      var k := ClassOf(c).value;
      ActKeepsLog(cfg, AddChar(p, c, k).next, Transition(p.state, k));
    }
  }

  lemma {:induction false} RunKeepsLog(cfg: Config, p: Parser, s: seq<int>)
    ensures p.log <= LogOf(Run(cfg, p, s))
    decreases |s|
  {
    hide Step;
    if s != [] {
      StepKeepsLog(cfg, p, s[0]);
      var o := Step(cfg, p, s[0]);
      if o.Go? { RunKeepsLog(cfg, o.next, s[1..]); }
    }
  }

  /** Hearing a whole run is hearing it step by step. */
  lemma {:induction false} RunHeardIsHeardRun(cfg: Config, accept: Verdicts, p: Parser, s: seq<int>)
    ensures RunHeard(cfg, accept, p, s) == Heard(accept, |p.log|, Run(cfg, p, s))
    decreases |s|
  {
    hide Step, Heard;
    if s == [] {
      HeardQuiet(accept, |p.log|, Go(p));
    } else {
      StepKeepsLog(cfg, p, s[0]);
      var o := Step(cfg, p, s[0]);
      if o.Go? {
        RunHeardIsHeardRun(cfg, accept, o.next, s[1..]);
        RunKeepsLog(cfg, o.next, s[1..]);
        HeardThen(accept, |p.log|, o.next, Run(cfg, o.next, s[1..]));
      }
    }
  }

  predicate AcceptedHeard(cfg: Config, accept: Verdicts, p: Parser, s: seq<int>) {
    var o := RunHeard(cfg, accept, p, s);
    o.Go? && Finished(o.next)
  }

  /** A text is accepted under a callback exactly if it is accepted without refusals and the
      callback welcomes each of its events. */
  lemma AcceptedHeardIff(cfg: Config, accept: Verdicts, p: Parser, s: seq<int>)
    ensures AcceptedHeard(cfg, accept, p, s) <==>
            Accepted(cfg, p, s) && Welcome(accept, Run(cfg, p, s).next.log, |p.log|)
    ensures AcceptedHeard(cfg, accept, p, s) ==> RunHeard(cfg, accept, p, s) == Run(cfg, p, s)
  {
    hide Run, RunHeard;
    RunHeardIsHeardRun(cfg, accept, p, s);
    RunKeepsLog(cfg, p, s);
  }

  lemma {:induction false} HeardOfIsCut(accept: Verdicts, log: seq<Event>, n: nat)
    requires n <= |log| && !Welcome(accept, log, n)
    ensures var h := HeardOf(accept, log, n);
            && n < |h| <= |log| && h == log[..|h|] && !accept(h)
            && forall k :: n < k < |h| ==> accept(log[..k])
    decreases |log| - n
  {
    if accept(log[..n + 1]) {
      var k :| n < k <= |log| && !accept(log[..k]);
      HeardOfIsCut(accept, log, n + 1);
    }
  }

  /** If the callback refuses an event, all is over with that event: what has been told is the
      shortest part of the whole log that it refuses. */
  lemma RefusedIsCut(cfg: Config, accept: Verdicts, p: Parser, s: seq<int>)
    ensures var all, o := LogOf(Run(cfg, p, s)), RunHeard(cfg, accept, p, s);
            if forall k :: |p.log| < k <= |all| ==> accept(all[..k]) then o == Run(cfg, p, s)
            else
              && o.Refused? && |p.log| < |LogOf(o)| <= |all| && LogOf(o) == all[..|LogOf(o)|] && !accept(LogOf(o))
              && forall k :: |p.log| < k < |LogOf(o)| ==> accept(all[..k])
  {
    hide Run, RunHeard;
    RunHeardIsHeardRun(cfg, accept, p, s);
    RunKeepsLog(cfg, p, s);
    var all := LogOf(Run(cfg, p, s));
    if !Welcome(accept, all, |p.log|) { HeardOfIsCut(accept, all, |p.log|); }
  }
}
