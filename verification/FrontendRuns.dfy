/** What the processing loop does turn by turn and what a call of it returns, told by the answers
    of the backend, the poll and the callbacks. */
module FrontendRuns {
  import opened Wrappers
  import opened Frontend
  import opened FrontendLaws
  import opened RequestLaws

  // ----- callbacks

  /** Every attempt of a callback is refused: a command for the given reason, processing with
      EAGAIN. */
  function Refusals(reason: Result, attempts: seq<Attempt>): seq<Mark> {
    seq(|attempts|, i requires 0 <= i < |attempts| => Answered(if attempts[i].Ask? then reason else Again))
  }

  lemma RefusalsFirst(reason: Result, attempts: seq<Attempt>)
    ensures attempts != [] ==>
              Refusals(reason, attempts)
              == [Answered(if attempts[0].Ask? then reason else Again)] + Refusals(reason, attempts[1..])
    ensures attempts == [] ==> Refusals(reason, attempts) == []
  {
  }

  /** While a command is in progress every attempt is refused. */
  lemma {:induction false} BusyCallbacks(f: Front, attempts: seq<Attempt>)
    requires f.state != Idle
    ensures AttemptedAll(f, attempts) == f.(log := f.log + Refusals(InProgress, attempts))
    decreases |attempts|
  {
    hide Refusals;
    RefusalsFirst(InProgress, attempts);
    if attempts == [] {
      assert f.log + [] == f.log;
    } else {
      var m := Answered(if attempts[0].Ask? then InProgress else Again);
      assert Attempted(f, attempts[0]) == f.(log := f.log + [m]);
      BusyCallbacks(Attempted(f, attempts[0]), attempts[1..]);
      assert f.log + [m] + Refusals(InProgress, attempts[1..]) == f.log + ([m] + Refusals(InProgress, attempts[1..]));
    }
  }

  /** The first attempt to issue a command that lacks nothing. */
  predicate IsFirst(attempts: seq<Attempt>, k: nat) {
    && k <= |attempts|
    && (k < |attempts| ==> attempts[k].Ask? && !Lacks(attempts[k].request))
    && forall j :: 0 <= j < k ==> attempts[j].Ask? ==> Lacks(attempts[j].request)
  }

  /** An idle client after callbacks whose k-th attempt is the first for a command that lacks
      nothing: this one is taken, all attempts before it are invalid and all after it in progress. */
  function AfterCallbacks(f: Front, attempts: seq<Attempt>, k: nat): Front
    requires IsFirst(attempts, k)
  {
    if k == |attempts| then f.(log := f.log + Refusals(Invalid, attempts))
    else
      var r := attempts[k].request;
      Took(f, r).(log := f.log + Refusals(Invalid, attempts[..k])
        + [Accepted(f.serial + 1, r), Answered(if f.auto then Again else Ok)]
        + Refusals(InProgress, attempts[k + 1..]))
  }

  lemma {:induction false} IdleCallbacks(f: Front, attempts: seq<Attempt>) returns (k: nat)
    requires f.state == Idle
    ensures IsFirst(attempts, k)
    ensures AttemptedAll(f, attempts) == AfterCallbacks(f, attempts, k)
    decreases |attempts|
  {
    hide Refusals, Lacks, Complete;
    RefusalsFirst(Invalid, attempts);
    if attempts == [] {
      k := 0;
      assert f.log + [] == f.log;
    } else if attempts[0].Ask? && !Lacks(attempts[0].request) {
      k := 0;
      var r := attempts[0].request;
      CompleteIffLacksNothing(r);
      var m := Answered(if f.auto then Again else Ok);
      assert Attempted(f, attempts[0]) == Took(f, r).(log := f.log + [Accepted(f.serial + 1, r)] + [m]);
      BusyCallbacks(Attempted(f, attempts[0]), attempts[1..]);
      RefusalsFirst(Invalid, attempts[..0]);
      assert f.log + [Accepted(f.serial + 1, r)] + [m] == f.log + [] + [Accepted(f.serial + 1, r), m];
    } else {
      if attempts[0].Ask? { CompleteIffLacksNothing(attempts[0].request); }
      var m := Answered(if attempts[0].Ask? then Invalid else Again);
      var g := f.(log := f.log + [m]);
      assert Attempted(f, attempts[0]) == g;
      var j := IdleCallbacks(g, attempts[1..]);
      k := j + 1;
      FirstNext(attempts, j);
      RefusalsFirst(Invalid, attempts[..k]);
      assert attempts[..k][1..] == attempts[1..][..j];
      assert attempts[1..][j..] == attempts[k..];
      assert f.log + [m] + Refusals(Invalid, attempts[1..]) == f.log + ([m] + Refusals(Invalid, attempts[1..]));
      assert f.log + [m] + Refusals(Invalid, attempts[1..][..j]) == f.log + ([m] + Refusals(Invalid, attempts[1..][..j]));
      if k < |attempts| { assert attempts[1..][j + 1..] == attempts[k + 1..]; }
    }
  }

  lemma FirstNext(attempts: seq<Attempt>, j: nat)
    requires attempts != [] && (attempts[0].Ask? ==> Lacks(attempts[0].request)) && IsFirst(attempts[1..], j)
    ensures IsFirst(attempts, j + 1)
  {
    hide Lacks;
    forall i | 0 <= i < j + 1 && attempts[i].Ask?
      ensures Lacks(attempts[i].request)
    {
      if i > 0 { assert attempts[i] == attempts[1..][i - 1]; }
    }
  }

  // ----- turns

  /** The backend is asked about a command, by its function or to go on with it, and answers. */
  predicate Asks(b: Abilities, f: Front) { (f.state == Start && f.fn.Some?) || (f.state == Ready && b.process) }

  /** What its turn adds to the log. */
  function TurnMarks(f: Front, t: Turn): seq<Mark> {
    (if f.state == Start && f.fn.Some? then [Invoked(f.serial, f.fn.value)] else [])
    + Refusals(InProgress, t.attempts) + [Replied(f.serial, t.result)]
  }

  /** The answer decides: anything but EAGAIN finishes the command; after EAGAIN the client waits
      and nothing is completed, or it gives up a backend that cannot go on. */
  lemma AnswerDecides(b: Abilities, f: Front, t: Turn, result: Result)
    requires Asks(b, f)
    ensures var g := f.(watch := f.watch + t.watched, log := f.log + TurnMarks(f, t));
            TurnTaken(b, f, t, result) ==
            if t.result != Again then Going(g.(state := Finish), t.result)
            else if b.process then Going(g.(state := Waiting), Again)
            else Leaving(g.(watch := 0, command := None, fn := None), Invalid)
  {
    hide AttemptedAll, Refusals;
    var g := if f.state == Start then Kicked(f) else f;
    BusyCallbacks(g, t.attempts);
    var first := if f.state == Start then [Invoked(f.serial, f.fn.value)] else [];
    assert g.log == f.log + first;
    assert g.log + Refusals(InProgress, t.attempts) + [Replied(f.serial, t.result)] == f.log + TurnMarks(f, t);
  }

  /** A finished command is completed; its callback may issue the next. */
  lemma CompletionDoes(b: Abilities, f: Front, t: Turn, result: Result) returns (k: nat)
    requires f.state == Finish
    ensures IsFirst(t.attempts, k)
    ensures var done := f.(state := Idle, command := None, log := f.log + [Completed(f.serial)]);
            TurnTaken(b, f, t, result) == Going(AfterCallbacks(done, t.attempts, k), result)
  {
    hide AttemptedAll, AfterCallbacks, IsFirst;
    k := IdleCallbacks(f.(state := Idle, command := None, log := f.log + [Completed(f.serial)]), t.attempts);
  }

  /** Events decide: the client is ready if the backend took one of them, it loses its command if
      the backend failed one, and all of them are watched no more. */
  lemma EventsDecide(b: Abilities, f: Front, t: Turn, result: Result)
    requires f.state == Waiting && f.watch > 0 && t.poll.Raised?
    ensures var answers := t.poll.answers;
            var g := f.(watch := if |answers| <= f.watch then f.watch - |answers| else 0,
              state := if b.events && Ok in answers then Ready else Waiting);
            TurnTaken(b, f, t, result) ==
            Going(if b.events && FailsOne(answers) then g.(command := None, fn := None) else g, Ok)
  {
    hide FailsOne, RaisingAll;
    RaisingsDo(f, t.poll.answers);
  }

  predicate FailsOne(answers: seq<Result>) { exists k :: 0 <= k < |answers| && answers[k] != Ok && answers[k] != Again }

  lemma FailsFirst(answers: seq<Result>)
    requires answers != []
    ensures FailsOne(answers) <==> (answers[0] != Ok && answers[0] != Again) || FailsOne(answers[1..])
  {
    if FailsOne(answers[1..]) {
      var k :| 0 <= k < |answers[1..]| && answers[1..][k] != Ok && answers[1..][k] != Again;
      assert answers[k + 1] == answers[1..][k];
    }
    if FailsOne(answers) && (answers[0] == Ok || answers[0] == Again) {
      var k :| 0 <= k < |answers| && answers[k] != Ok && answers[k] != Again;
      assert answers[1..][k - 1] == answers[k];
    }
  }

  lemma {:induction false} RaisingsDo(f: Front, answers: seq<Result>)
    requires f.state == Waiting || f.state == Ready
    ensures var g := RaisingAll(f, answers);
            && g.state == (if Ok in answers then Ready else f.state)
            && g.(state := f.state, watch := f.watch)
               == if FailsOne(answers) then f.(command := None, fn := None) else f
    decreases |answers|
  {
    hide FailsOne;
    if answers == [] {
      NoneFails();
    } else {
      FailsFirst(answers);
      RaisingsDo(Raising(f, answers[0]), answers[1..]);
      assert Ok in answers <==> answers[0] == Ok || Ok in answers[1..];
    }
  }

  lemma NoneFails()
    ensures !FailsOne([])
  {
  }

  // ----- what the loop returns

  /** The last answer of the backend in a log, success if there is none. */
  function LastAnswer(log: seq<Mark>): Result {
    if log == [] then Ok
    else if log[|log| - 1].Replied? then log[|log| - 1].result
    else LastAnswer(log[..|log| - 1])
  }

  lemma {:induction false} LastAnswerQuiet(log: seq<Mark>, more: seq<Mark>)
    requires forall k :: 0 <= k < |more| ==> !more[k].Replied?
    ensures LastAnswer(log + more) == LastAnswer(log)
    decreases |more|
  {
    if more == [] {
      assert log + more == log;
    } else {
      LastAnswerQuiet(log, more[..|more| - 1]);
      assert (log + more)[..|log + more| - 1] == log + more[..|more| - 1];
    }
  }

  lemma LastAnswerIs(log: seq<Mark>, n: nat, result: Result)
    ensures LastAnswer(log + [Replied(n, result)]) == result
  {
  }

  /** The marks that the loop has made since the log was `before`. */
  predicate Since(before: seq<Mark>, f: Front, news: seq<Mark>) { f.log == before + news }

  /** The result that is passed on from turn to turn is the last answer once a command is done. */
  predicate Carries(f: Front, news: seq<Mark>, result: Result) {
    f.state == Finish || f.state == Idle ==> result == LastAnswer(news) && result != Again
  }

  lemma CompletionCarries(b: Abilities, f: Front, t: Turn, before: seq<Mark>, news: seq<Mark>, result: Result)
    returns (more: seq<Mark>)
    requires f.state == Finish && Since(before, f, news) && Carries(f, news, result)
    ensures var c := TurnTaken(b, f, t, result);
            c == Going(c.front, result) && c.front.state != Finish
            && Since(before, c.front, news + more) && Carries(c.front, news + more, result)
  {
    hide LastAnswer, TurnTaken, Lacks;
    var k := CompletionDoes(b, f, t, result);
    var h := TurnTaken(b, f, t, result).front;
    more := h.log[|f.log|..];
    assert h.log == f.log + more;
    assert f.log + more == before + (news + more);
    LastAnswerQuiet(news, more);
  }

  lemma {:induction false} LoopCarries(
    b: Abilities, f: Front, turns: seq<Turn>, before: seq<Mark>, news: seq<Mark>, result: Result)
    returns (all: seq<Mark>)
    requires Since(before, f, news) && Carries(f, news, result)
    ensures var (g, e) := Looped(b, f, turns, result);
            e.AtEnd? ==> Since(before, g, all) && e.result == LastAnswer(all) && e.result != Again
    decreases |turns|
  {
    hide TurnTaken, Since, LastAnswer, TurnMarks;
    all := news;
    if f.state == Idle {
      assert Since(before, f.(processing := false), news) by { ClearedSince(before, f, news); }
    } else if turns != [] {
      var c := TurnTaken(b, f, turns[0], result);
      if c.Going? {
        var more := TurnCarries(b, f, turns[0], before, news, result);
        all := LoopCarries(b, c.front, turns[1..], before, news + more, c.result);
      }
    }
  }

  lemma ClearedSince(before: seq<Mark>, f: Front, news: seq<Mark>)
    requires Since(before, f, news)
    ensures Since(before, f.(processing := false), news)
  {
  }

  lemma TurnCarries(b: Abilities, f: Front, t: Turn, before: seq<Mark>, news: seq<Mark>, result: Result)
    returns (more: seq<Mark>)
    requires f.state != Idle && Since(before, f, news) && Carries(f, news, result) && TurnTaken(b, f, t, result).Going?
    ensures var c := TurnTaken(b, f, t, result);
            Since(before, c.front, news + more) && Carries(c.front, news + more, c.result)
  {
    hide TurnTaken, LastAnswer, AttemptedAll, RaisingAll, FailsOne, TurnMarks;
    if f.state == Finish {
      more := CompletionCarries(b, f, t, before, news, result);
    } else if Asks(b, f) {
      AnswerDecides(b, f, t, result);
      more := TurnMarks(f, t);
      assert f.log + more == before + (news + more);
      MarksEnd(f, t, news);
    } else if f.state == Waiting {
      WaitingGoesOn(b, f, t, result);
      EventsDecide(b, f, t, result);
      more := [];
      assert news + [] == news;
    } else {
      NothingToAsk(b, f, t, result);
      assert false;
    }
  }

  lemma MarksEnd(f: Front, t: Turn, news: seq<Mark>)
    ensures LastAnswer(news + TurnMarks(f, t)) == t.result
  {
    hide LastAnswer, Refusals;
    var marks := TurnMarks(f, t);
    var first := marks[..|marks| - 1];
    assert news + marks == news + first + [Replied(f.serial, t.result)];
    LastAnswerIs(news + first, f.serial, t.result);
  }

  lemma NothingToAsk(b: Abilities, f: Front, t: Turn, result: Result)
    requires (f.state == Start || f.state == Ready) && !Asks(b, f)
    ensures TurnTaken(b, f, t, result) == Crashing(f)
  {
  }

  lemma WaitingGoesOn(b: Abilities, f: Front, t: Turn, result: Result)
    requires f.state == Waiting
    ensures TurnTaken(b, f, t, result).Going? <==> f.watch > 0 && t.poll.Raised?
  {
    hide RaisingAll;
  }

  /** The client when the loop gets to a turn. */
  function ClientAt(b: Abilities, f: Front, turns: seq<Turn>, k: nat): Front
    requires k <= |turns|
  {
    Looped(b, f, turns[..k], Ok).0
  }

  /** The loop gets to the k-th turn, in which the backend cannot go on, nothing is watched, the
      poll fails, or nothing happens in time; this leaves the client so, with this result. */
  ghost predicate IsLeftAt(b: Abilities, f: Front, turns: seq<Turn>, k: nat, g: Front, result: Result) {
    && k < |turns| && Looped(b, f, turns[..k], Ok).1.Unfinished?
    && var h, t := ClientAt(b, f, turns, k), turns[k];
       var cancelled := h.(watch := 0, command := None, fn := None);
       if h.state == Start then
         t.result == Again && !b.process && h.fn.Some?
         && g == cancelled.(log := h.log + TurnMarks(h, t)) && result == Invalid
       else
         && h.state == Waiting
         && if h.watch == 0 then g == h && result == Again
            else if t.poll.PollFailed? then g == h && result == Failed(t.poll.code)
            else t.poll.PollTimedOut? && g == cancelled && result == TimedOut
  }

  lemma TurnIgnoresResult(b: Abilities, f: Front, t: Turn, result: Result)
    requires f.state != Idle
    ensures TurnTaken(b, f, t, result).front == TurnTaken(b, f, t, Ok).front
    ensures TurnTaken(b, f, t, result).Going? == TurnTaken(b, f, t, Ok).Going?
    ensures TurnTaken(b, f, t, result).Leaving? == TurnTaken(b, f, t, Ok).Leaving?
  {
    hide AttemptedAll, RaisingAll, Kicked;
  }

  lemma {:induction false} LoopIgnoresResult(b: Abilities, f: Front, turns: seq<Turn>, result: Result)
    ensures Looped(b, f, turns, result).0 == Looped(b, f, turns, Ok).0
    ensures Looped(b, f, turns, result).1.Unfinished? == Looped(b, f, turns, Ok).1.Unfinished?
    decreases |turns|
  {
    hide TurnTaken;
    if f.state != Idle && turns != [] {
      TurnIgnoresResult(b, f, turns[0], result);
      var c, d := TurnTaken(b, f, turns[0], result), TurnTaken(b, f, turns[0], Ok);
      if c.Going? {
        LoopIgnoresResult(b, c.front, turns[1..], c.result);
        LoopIgnoresResult(b, c.front, turns[1..], d.result);
      }
    }
  }

  lemma {:induction false} LoopIsLeft(b: Abilities, f: Front, turns: seq<Turn>, result: Result) returns (k: nat)
    requires Looped(b, f, turns, result).1.Early?
    ensures var (g, e) := Looped(b, f, turns, result);
            IsLeftAt(b, f, turns, k, g, e.result)
    decreases |turns|
  {
    hide TurnTaken, TurnMarks, IsLeftAt;
    var c := TurnTaken(b, f, turns[0], result);
    if c.Leaving? {
      k := 0;
      LeftNow(b, f, turns, result);
    } else {
      var j := LoopIsLeft(b, c.front, turns[1..], c.result);
      k := j + 1;
      LeftLater(b, f, turns, result, j, Looped(b, f, turns, result).0, Looped(b, f, turns, result).1.result);
    }
  }

  lemma LeftNow(b: Abilities, f: Front, turns: seq<Turn>, result: Result)
    requires f.state != Idle && turns != [] && TurnTaken(b, f, turns[0], result).Leaving?
    ensures var c := TurnTaken(b, f, turns[0], result); IsLeftAt(b, f, turns, 0, c.front, c.result)
  {
    hide TurnMarks, AttemptedAll, RaisingAll;
    assert turns[..0] == [];
    if Asks(b, f) { AnswerDecides(b, f, turns[0], result); }
  }

  lemma LeftLater(b: Abilities, f: Front, turns: seq<Turn>, result: Result, j: nat, g: Front, r: Result)
    requires f.state != Idle && turns != [] && TurnTaken(b, f, turns[0], result).Going?
    requires IsLeftAt(b, TurnTaken(b, f, turns[0], result).front, turns[1..], j, g, r)
    ensures IsLeftAt(b, f, turns, j + 1, g, r)
  {
    hide TurnTaken, TurnMarks;
    var h := TurnTaken(b, f, turns[0], result).front;
    TurnIgnoresResult(b, f, turns[0], result);
    assert turns[..j + 1][1..] == turns[1..][..j];
    LoopIgnoresResult(b, h, turns[1..][..j], TurnTaken(b, f, turns[0], Ok).result);
    assert Looped(b, f, turns[..j + 1], Ok) ==
           Looped(b, h, turns[..j + 1][1..], TurnTaken(b, f, turns[0], Ok).result);
  }

  /** What processing returns: from a loop that ends, the backend's last answer, which is not
      EAGAIN; from one that is left, what the turn that left it stands for.  From inside the loop it
      is refused and changes nothing. */
  lemma ProcessReturns(b: Abilities, f: Front, turns: seq<Turn>) returns (news: seq<Mark>, k: nat)
    ensures f.processing ==> Called(b, f, Process(turns)) == (f, Returned(Again))
    ensures var (g, answer) := Called(b, f, Process(turns));
            !f.processing && answer.Returned? ==>
              if g.processing then IsLeftAt(b, f.(processing := true), turns, k, g, answer.result)
              else g.state == Idle && g.log == f.log + news && answer.result == LastAnswer(news) && answer.result != Again
  {
    hide Looped, IsLeftAt;
    news, k := [], 0;
    if f.processing { return; }
    var start := f.(processing := true);
    LoopKeepsGuard(b, start, turns, Ok);
    var e := Looped(b, start, turns, Ok).1;
    if e.AtEnd? {
      assert Since(f.log, start, []) && LastAnswer([]) == Ok;
      news := LoopCarries(b, start, turns, f.log, [], Ok);
      EndsIdle(b, start, turns, Ok);
    } else if e.Early? {
      k := LoopIsLeft(b, start, turns, Ok);
    }
  }

  lemma {:induction false} EndsIdle(b: Abilities, f: Front, turns: seq<Turn>, result: Result)
    requires Looped(b, f, turns, result).1.AtEnd?
    ensures Looped(b, f, turns, result).0.state == Idle
    decreases |turns|
  {
    hide TurnTaken;
    if f.state != Idle {
      var c := TurnTaken(b, f, turns[0], result);
      EndsIdle(b, c.front, turns[1..], c.result);
    }
  }

  // ----- the other calls

  /** An event is ENOTCONN for a backend that knows none. Otherwise the backend's answer decides:
      success makes the client ready, and processes if it does so by itself; EAGAIN changes
      nothing; anything else is returned and cancels the command in progress, if any. */
  lemma RaiseDoes(b: Abilities, f: Front, answer: Result, turns: seq<Turn>)
    ensures var ready := f.(state := Ready);
            Called(b, f, Raise(answer, turns)) ==
            if !b.events then (f, Returned(NotConnected))
            else if answer == Ok then if f.auto then Called(b, ready, Process(turns)) else (ready, Returned(Ok))
            else if answer == Again || f.state == Idle then (f, Returned(answer))
            else (Called(b, f, Cancel).0, Returned(answer))
    ensures Called(b, f, Cancel) ==
            (if f.state == Idle then f else f.(watch := 0, command := None, fn := None), Returned(Ok))
  {
    hide Processed;
  }
}
