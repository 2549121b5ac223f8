/** The command protocol, over every backend, every user and every session. */
module FrontendLaws {
  import opened Wrappers
  import opened Frontend

  // ----- the protocol that the log follows

  /** Where a log stands: nothing in progress after n commands, the n-th accepted, with the
      backend, or done with by the backend; broken if a mark came out of turn. */
  datatype Phase = Free(n: nat) | Asked(n: nat, kind: Kind) | Busy(n: nat) | Done(n: nat) | Broken

  function Next(p: Phase, m: Mark): Phase {
    match m
    case Accepted(k, r) => if p.Free? && k == p.n + 1 && Complete(r) then Asked(k, r.kind) else Broken
    case Invoked(k, kind) => if p == Asked(k, kind) then Busy(k) else Broken
    case Replied(k, result) => if p != Busy(k) then Broken else if result == Again then p else Done(k)
    case Completed(k) => if p == Done(k) then Free(k) else Broken
    case Answered(_) => p
  }

  function PhaseOf(log: seq<Mark>): Phase {
    if log == [] then Free(0) else Next(PhaseOf(log[..|log| - 1]), log[|log| - 1])
  }

  lemma PhaseMore(log: seq<Mark>, m: Mark)
    ensures PhaseOf(log + [m]) == Next(PhaseOf(log), m)
  {
    assert (log + [m])[..|log|] == log;
  }

  /** The state agrees with the log; what is still to be called is there to be called. */
  predicate Agrees(b: Abilities, f: Front) {
    match f.state
    case Idle => PhaseOf(f.log) == Free(f.serial)
    case Start => f.fn.Some? && PhaseOf(f.log) == Asked(f.serial, f.fn.value)
    case Waiting => PhaseOf(f.log) == Busy(f.serial) && b.process
    case Ready => PhaseOf(f.log) == Busy(f.serial) && b.process
    case Finish => PhaseOf(f.log) == Done(f.serial)
  }

  lemma TakenAgrees(b: Abilities, f: Front, r: Request)
    requires Agrees(b, f)
    ensures Agrees(b, Taken(f, r).0)
    ensures Taken(f, r).1 != Ok ==> Taken(f, r).0 == f
    ensures f.state != Idle ==> Taken(f, r) == (f, InProgress)
  {
    hide PhaseOf;
    PhaseMore(f.log, Accepted(f.serial + 1, r));
  }

  lemma AttemptedAgrees(b: Abilities, f: Front, a: Attempt)
    requires Agrees(b, f)
    ensures Agrees(b, Attempted(f, a))
    ensures Attempted(f, a).processing == f.processing
  {
    hide PhaseOf;
    match a {
      case Ask(r) =>
        TakenAgrees(b, f, r);
        var (g, result) := Taken(f, r);
        PhaseMore(g.log, Answered(if result == Ok && g.auto then Again else result));
      case AskProcess => PhaseMore(f.log, Answered(Again));
    }
  }

  lemma {:induction false} AttemptsAgree(b: Abilities, f: Front, attempts: seq<Attempt>)
    requires Agrees(b, f)
    ensures Agrees(b, AttemptedAll(f, attempts)) && AttemptedAll(f, attempts).processing == f.processing
    decreases |attempts|
  {
    hide Agrees, Attempted;
    if attempts != [] {
      AttemptedAgrees(b, f, attempts[0]);
      AttemptsAgree(b, Attempted(f, attempts[0]), attempts[1..]);
    }
  }

  /** While a command is in progress the callbacks get nothing done. */
  lemma {:induction false} AttemptsInProgress(f: Front, attempts: seq<Attempt>)
    requires f.state != Idle
    ensures var g := AttemptedAll(f, attempts);
            g == f.(log := g.log) && PhaseOf(g.log) == PhaseOf(f.log)
    decreases |attempts|
  {
    hide PhaseOf;
    if attempts != [] {
      var g := Attempted(f, attempts[0]);
      PhaseMore(f.log, g.log[|g.log| - 1]);
      AttemptsInProgress(g, attempts[1..]);
    }
  }

  lemma RaisingAgrees(b: Abilities, f: Front, answer: Result)
    requires Agrees(b, f) && (f.state == Waiting || f.state == Ready)
    ensures var g := Raising(f, answer);
            && Agrees(b, g) && (g.state == Waiting || g.state == Ready)
            && g.processing == f.processing && g.log == f.log && g.serial == f.serial
  {
  }

  lemma {:induction false} RaisingsAgree(b: Abilities, f: Front, answers: seq<Result>)
    requires Agrees(b, f) && (f.state == Waiting || f.state == Ready)
    ensures var g := RaisingAll(f, answers);
            && Agrees(b, g) && (g.state == Waiting || g.state == Ready)
            && g.processing == f.processing && g.log == f.log && g.serial == f.serial
    decreases |answers|
  {
    hide Agrees, Raising;
    if answers != [] {
      RaisingAgrees(b, f, answers[0]);
      RaisingsAgree(b, Raising(f, answers[0]), answers[1..]);
    }
  }

  /** One turn: the loop goes on with everything in agreement, or is left in the middle of a
      command with a log that is in order; no missing function is called. */
  lemma TurnAgrees(b: Abilities, f: Front, t: Turn, result: Result)
    requires Agrees(b, f) && f.state != Idle
    ensures match TurnTaken(b, f, t, result)
            case Going(g, _) => Agrees(b, g) && g.processing == f.processing
            case Leaving(g, _) => g.state != Idle && PhaseOf(g.log) == Busy(g.serial) && g.processing == f.processing
            case Crashing(_) => false
  {
    hide PhaseOf, AttemptedAll, RaisingAll;
    match f.state {
      case Start =>
        var g := f.(log := f.log + [Invoked(f.serial, f.fn.value)]);
        PhaseMore(f.log, Invoked(f.serial, f.fn.value));
        AttemptsInProgress(g, t.attempts);
        PhaseMore(AttemptedAll(g, t.attempts).log, Replied(f.serial, t.result));
      case Ready =>
        AttemptsInProgress(f, t.attempts);
        PhaseMore(AttemptedAll(f, t.attempts).log, Replied(f.serial, t.result));
      case Waiting =>
        if t.poll.Raised? { RaisingsAgree(b, f, t.poll.answers); }
      case Finish =>
        var g := f.(state := Idle, command := None, log := f.log + [Completed(f.serial)]);
        PhaseMore(f.log, Completed(f.serial));
        AttemptsAgree(b, g, t.attempts);
    }
  }

  /** The loop ends idle with the guard clear, or it is left with the guard set. */
  lemma {:induction false} LoopAgrees(b: Abilities, f: Front, turns: seq<Turn>, result: Result)
    requires Agrees(b, f) && f.processing
    ensures var (g, e) := Looped(b, f, turns, result);
            && !e.Nested? && !e.Crash?
            && (e.AtEnd? ==> Agrees(b, g) && g.state == Idle && !g.processing)
            && (e.Early? ==> g.processing && g.state != Idle && PhaseOf(g.log) == Busy(g.serial))
            && (e.Unfinished? ==> g.processing && Agrees(b, g))
    decreases |turns|
  {
    hide TurnTaken, PhaseOf;
    if f.state != Idle && turns != [] {
      TurnAgrees(b, f, turns[0], result);
      match TurnTaken(b, f, turns[0], result) {
        case Leaving(g, r) =>
        case Going(g, r) => LoopAgrees(b, g, turns[1..], r);
      }
    }
  }

  // ----- sessions

  /** Between calls: in agreement with the guard clear, or left for good in a command. */
  predicate Settled(b: Abilities, f: Front) {
    if f.processing then f.state != Idle && PhaseOf(f.log) == Busy(f.serial) else Agrees(b, f) && f.state != Finish
  }

  /** Anything may be called once the loop has been left for good.  Before that, an event may
      come while the backend waits for it or has had one, and otherwise only where the backend's
      answer changes nothing; and a command may be cancelled once it has been handed on. */
  predicate Legal(b: Abilities, f: Front, c: Call) {
    !f.processing ==>
      match c
      case Issue(_, _) => true
      case Process(_) => true
      case Cancel => f.state != Start
      case Raise(answer, _) =>
        b.events ==>
          match f.state
          case Idle => answer != Ok
          case Start => answer == Again
          case Waiting => true
          case Ready => true
          case Finish => answer != Ok
  }

  lemma ProcessedSettles(b: Abilities, f: Front, turns: seq<Turn>)
    requires Settled(b, f)
    ensures var (g, e) := Processed(b, f, turns);
            && !e.Crash? && (!e.Unfinished? ==> Settled(b, g))
            && (e.Unfinished? ==> Agrees(b, g))
            && (e.AtEnd? ==> g.state == Idle)
            && (!g.processing <==> e.AtEnd?)
  {
    hide PhaseOf, Looped;
    if f.processing {
      assert Processed(b, f, turns) == (f, Nested);
    } else {
      LoopAgrees(b, f.(processing := true), turns, Ok);
      var e := Looped(b, f.(processing := true), turns, Ok).1;
      assert e.AtEnd? || e.Early? || e.Unfinished?;
    }
  }

  lemma RaisingSettles(b: Abilities, f: Front, c: Call)
    requires Settled(b, f) && c.Raise? && b.events && Legal(b, f, c)
    ensures Settled(b, Raising(f, c.answer))
  {
    hide PhaseOf;
  }

  lemma CalledSettles(b: Abilities, f: Front, c: Call)
    requires Settled(b, f) && Legal(b, f, c)
    ensures var (g, answer) := Called(b, f, c);
            !answer.Crashed? && if answer.NotReturned? then Agrees(b, g) else Settled(b, g)
  {
    hide Processed, PhaseOf;
    match c {
      case Issue(r, turns) =>
        if !f.processing { TakenAgrees(b, f, r); }
        ProcessedSettles(b, Taken(f, r).0, turns);
      case Process(turns) => ProcessedSettles(b, f, turns);
      case Raise(answer, turns) =>
        if b.events {
          RaisingSettles(b, f, c);
          ProcessedSettles(b, Raising(f, answer), turns);
        }
      case Cancel => CancelledSettles(b, f);
    }
  }

  lemma CancelledSettles(b: Abilities, f: Front)
    requires Settled(b, f) && (f.processing || f.state != Start)
    ensures Settled(b, Cancelled(f))
  {
    hide PhaseOf;
  }

  predicate AllLegal(b: Abilities, f: Front, calls: seq<Call>)
    decreases |calls|
  {
    calls == [] || (Legal(b, f, calls[0]) && AllLegal(b, Called(b, f, calls[0]).0, calls[1..]))
  }

  /** Over every session: commands are handed to the backend, answered and completed one after the
      other, each once, in the order in which they were accepted, and completed only when the
      backend has answered other than EAGAIN; no function that is missing is
      ever called; and when the client is idle every accepted command has been completed. */
  lemma {:induction false} SessionFollowsProtocol(b: Abilities, f: Front, calls: seq<Call>)
    requires Settled(b, f) && AllLegal(b, f, calls)
    ensures var (g, fate) := CalledAll(b, f, calls);
            && !PhaseOf(g.log).Broken? && !fate.OneCrashes?
            && (g.state == Idle ==> PhaseOf(g.log) == Free(g.serial))
            && (fate.AllReturn? ==> Settled(b, g))
    decreases |calls|
  {
    hide Called, PhaseOf;
    if calls != [] {
      CalledSettles(b, f, calls[0]);
      var (g, answer) := Called(b, f, calls[0]);
      if answer.Returned? { SessionFollowsProtocol(b, g, calls[1..]); }
    }
  }

  // ----- all other calls

  /** An event that the backend takes while no command is with it, if the backend can go on with
      a command: the client completes one that nobody issued or that the backend never got. */
  lemma IllegalEventBreaks(b: Abilities, f: Front)
    requires Settled(b, f) && !f.processing && (f.state == Idle || f.state == Start)
    ensures var t := Turn(Ok, 0, [], PollTimedOut);
            var (g, fate) := CalledAll(b, f, [Raise(Ok, [t, t]), Process([t, t])]);
            b.events && b.process ==> fate.AllReturn? && PhaseOf(g.log).Broken?
  {
    hide PhaseOf;
    var t := Turn(Ok, 0, [], PollTimedOut);
    var raise := Raise(Ok, [t, t]);
    if b.events && b.process {
      var g := Raising(f, Ok);
      PhaseMore(f.log, Replied(f.serial, Ok));
      PhaseMore(f.log + [Replied(f.serial, Ok)], Completed(f.serial));
      CompletedAtOnce(b, g, t);
      var first := Called(b, f, raise).0;
      assert first == if f.auto then Processed(b, g, [t, t]).0 else g;
      var last := Called(b, first, Process([t, t]));
      assert last == (Processed(b, g, [t, t]).0, Returned(Ok));
      CalledTwice(b, f, raise, Process([t, t]));
    }
  }

  lemma CalledTwice(b: Abilities, f: Front, first: Call, second: Call)
    ensures var (g, answer) := Called(b, f, first);
            var (h, next) := Called(b, g, second);
            CalledAll(b, f, [first, second]) ==
            if answer.NotReturned? then (g, OneHangs)
            else if answer.Crashed? then (g, OneCrashes)
            else (h, if next.NotReturned? then OneHangs else if next.Crashed? then OneCrashes else AllReturn)
  {
    hide Called;
    var g := Called(b, f, first).0;
    assert [second][1..] == [] && [first, second][1..] == [second];
    assert CalledAll(b, Called(b, g, second).0, []) == (Called(b, g, second).0, AllReturn);
  }

  lemma CompletedAtOnce(b: Abilities, f: Front, t: Turn)
    requires !f.processing && f.state == Ready && b.process
    requires t == Turn(Ok, 0, [], PollTimedOut)
    ensures var (g, e) := Processed(b, f, [t, t]);
            && e == AtEnd(Ok) && g.log == f.log + [Replied(f.serial, Ok)] + [Completed(f.serial)]
            && g.state == Idle && !g.processing
    ensures var (g, e) := Processed(b, f, [t, t]); Processed(b, g, [t, t]) == (g, AtEnd(Ok))
  {
    assert [t, t][1..] == [t] && [t][1..] == [];
    var f0 := f.(processing := true);
    var f1 := TurnTaken(b, f0, t, Ok).front;
    assert f1 == f0.(state := Finish, log := f.log + [Replied(f.serial, Ok)]);
    assert Looped(b, f0, [t, t], Ok) == Looped(b, f1, [t], Ok);
    var f2 := TurnTaken(b, f1, t, Ok).front;
    assert Looped(b, f1, [t], Ok) == Looped(b, f2, [], Ok);
  }

  /** The client is about to call a function that is not there. */
  predicate Doomed(b: Abilities, f: Front) {
    !f.processing && ((f.state == Start && f.fn.None?) || (f.state == Ready && !b.process))
  }

  lemma DoomedCrashes(b: Abilities, f: Front, turns: seq<Turn>)
    requires Doomed(b, f) && turns != []
    ensures Processed(b, f, turns) == (f.(processing := true), Crash)
  {
  }

  /** Every other call that is not legal, that is, an event that the backend takes while no
      command is with it, if it cannot go on with a command; one that it fails before the command
      is handed on; and a cancellation before that: processing then calls a function that is not
      there, whatever the world does, and the command is not completed. */
  lemma IllegalCallCrashes(b: Abilities, f: Front, c: Call, turns: seq<Turn>)
    requires Settled(b, f) && (f.state == Idle || f.state == Start) && !Legal(b, f, c)
    requires turns != [] && (c.Raise? ==> c.turns != [] && (c.answer == Ok ==> !b.process))
    ensures var (g, fate) := CalledAll(b, f, [c, Process(turns)]);
            fate.OneCrashes? && g.log == f.log && g.serial == f.serial
  {
    hide PhaseOf, Processed, Agrees;
    var g := if c.Cancel? then Cancelled(f) else Raising(f, c.answer);
    DoomedCrashes(b, g, turns);
    if c.Raise? { DoomedCrashes(b, g, c.turns); }
    CalledTwice(b, f, c, Process(turns));
  }

  /** Every call that is not legal leads to one or the other. */
  lemma IllegalCallFails(b: Abilities, f: Front, c: Call)
    requires Settled(b, f) && (f.state == Idle || f.state == Start) && !Legal(b, f, c)
    ensures var t := Turn(Ok, 0, [], PollTimedOut);
            var (g, fate) := CalledAll(b, f, [if c.Raise? then Raise(c.answer, [t, t]) else c, Process([t, t])]);
            if c.Raise? && c.answer == Ok && b.process then fate.AllReturn? && PhaseOf(g.log).Broken?
            else fate.OneCrashes? && g.log == f.log && g.serial == f.serial
  {
    hide PhaseOf, CalledAll, Agrees;
    var t := Turn(Ok, 0, [], PollTimedOut);
    if c.Raise? && c.answer == Ok && b.process {
      IllegalEventBreaks(b, f);
    } else {
      IllegalCallCrashes(b, f, if c.Raise? then Raise(c.answer, [t, t]) else c, [t, t]);
    }
  }

  lemma FreshIsSettled(b: Abilities, auto: bool)
    ensures Settled(b, Fresh(auto))
  {
  }

  // ----- exactly once

  function Count(log: seq<Mark>, p: Mark -> bool): nat {
    if log == [] then 0 else Count(log[..|log| - 1], p) + if p(log[|log| - 1]) then 1 else 0
  }

  function IsAccepted(n: nat): Mark -> bool { (m: Mark) => m.Accepted? && m.serial == n }

  function IsInvoked(n: nat): Mark -> bool { (m: Mark) => m.Invoked? && m.serial == n }

  /** An answer other than EAGAIN. */
  function IsConcluded(n: nat): Mark -> bool { (m: Mark) => m.Replied? && m.serial == n && m.result != Again }

  function IsCompleted(n: nat): Mark -> bool { (m: Mark) => m.Completed? && m.serial == n }

  function Reached(n: nat, last: nat, current: bool): nat {
    if 1 <= n < last || (n == last && n >= 1 && current) then 1 else 0
  }

  /** A log in order holds each command's marks exactly once. */
  lemma {:induction false} InOrderIsOnce(log: seq<Mark>, n: nat)
    requires !PhaseOf(log).Broken?
    ensures var p := PhaseOf(log);
            && Count(log, IsAccepted(n)) == Reached(n, p.n, true)
            && Count(log, IsInvoked(n)) == Reached(n, p.n, !p.Asked?)
            && Count(log, IsConcluded(n)) == Reached(n, p.n, p.Done? || p.Free?)
            && Count(log, IsCompleted(n)) == Reached(n, p.n, p.Free?)
            && (p.n == 0 ==> p.Free?)
  {
    if log != [] {
      InOrderIsOnce(log[..|log| - 1], n);
      match log[|log| - 1] {
        case Accepted(k, r) =>
        case Invoked(k, kind) =>
        case Replied(k, result) =>
        case Completed(k) =>
        case Answered(_) =>
      }
    }
  }

  /** When the client is idle, every command accepted so far, and no other, has been handed to
      the backend exactly once, concluded by one answer other than EAGAIN, and completed exactly once. */
  lemma IdleMeansAllDone(b: Abilities, auto: bool, calls: seq<Call>, n: nat)
    requires AllLegal(b, Fresh(auto), calls) && CalledAll(b, Fresh(auto), calls).0.state == Idle
    ensures var f := CalledAll(b, Fresh(auto), calls).0;
            var once := if 1 <= n <= f.serial then 1 else 0;
            && Count(f.log, IsAccepted(n)) == once
            && Count(f.log, IsInvoked(n)) == once
            && Count(f.log, IsConcluded(n)) == once
            && Count(f.log, IsCompleted(n)) == once
  {
    hide PhaseOf, Count, CalledAll, AllLegal;
    FreshIsSettled(b, auto);
    SessionFollowsProtocol(b, Fresh(auto), calls);
    InOrderIsOnce(CalledAll(b, Fresh(auto), calls).0.log, n);
  }

  // ----- leaving the loop from inside

  /** A turn that leaves the loop: the backend answers EAGAIN although it cannot go on, or
      waits while nothing is watched, or the poll fails or finds nothing in time. */
  predicate Leaves(b: Abilities, f: Front, t: Turn) {
    || (f.state == Start && f.fn.Some? && t.result == Again && !b.process)
    || (f.state == Waiting && (f.watch == 0 || !t.poll.Raised?))
  }

  /** Some turn that the loop gets to leaves it. */
  predicate ReachesLeaving(b: Abilities, f: Front, turns: seq<Turn>)
    decreases |turns|
  {
    && f.state != Idle && turns != []
    && match TurnTaken(b, f, turns[0], Ok)
       case Leaving(_, _) => Leaves(b, f, turns[0])
       case Going(g, _) => ReachesLeaving(b, g, turns[1..])
       case Crashing(_) => false
  }

  lemma TurnLeaves(b: Abilities, f: Front, t: Turn, result: Result)
    requires f.state != Idle
    ensures TurnTaken(b, f, t, result).Leaving? <==> Leaves(b, f, t)
    ensures TurnTaken(b, f, t, result).front == TurnTaken(b, f, t, Ok).front
    ensures TurnTaken(b, f, t, result).Going? <==> TurnTaken(b, f, t, Ok).Going?
  {
    hide AttemptedAll, RaisingAll, Kicked;
  }

  lemma {:induction false} LoopLeaves(b: Abilities, f: Front, turns: seq<Turn>, result: Result)
    ensures !Looped(b, f, turns, result).1.Nested?
    ensures Looped(b, f, turns, result).1.Early? <==> ReachesLeaving(b, f, turns)
    decreases |turns|
  {
    hide TurnTaken, Leaves;
    if f.state != Idle && turns != [] {
      TurnLeaves(b, f, turns[0], result);
      TurnLeaves(b, f, turns[0], Ok);
      var c := TurnTaken(b, f, turns[0], result);
      if c.Going? { LoopLeaves(b, c.front, turns[1..], c.result); }
    }
  }

  /** When a call of the processing function that is not itself refused returns, its guard is
      clear exactly if no turn that the loop got to leaves it; the client is then idle. */
  lemma GuardClearIffLoopEnds(b: Abilities, f: Front, turns: seq<Turn>)
    requires Settled(b, f)
    ensures var (g, e) := Processed(b, f, turns);
            && (!g.processing <==> e.AtEnd?) && (e.AtEnd? ==> g.state == Idle)
            && (!f.processing && !e.Unfinished? ==>
                 (!g.processing <==> !ReachesLeaving(b, f.(processing := true), turns)))
  {
    hide PhaseOf, Looped, ReachesLeaving;
    ProcessedSettles(b, f, turns);
    LoopLeaves(b, f.(processing := true), turns, Ok);
    var e := Looped(b, f.(processing := true), turns, Ok).1;
    assert e.AtEnd? || e.Early? || e.Unfinished? || e.Crash?;
  }

  // ----- the user watches the descriptors

  /** A callback issues a command that is taken, if the client is idle. */
  predicate AsksMore(attempts: seq<Attempt>) {
    exists k :: 0 <= k < |attempts| && attempts[k].Ask? && Complete(attempts[k].request)
  }

  /** In turn a command is handed to the backend and, the next turn, completed, for as long as
      the callbacks keep issuing commands: one handing over is answered EAGAIN. */
  predicate AnsweredAgain(state: State, turns: seq<Turn>)
    decreases |turns|
  {
    && turns != []
    && if state == Start then turns[0].result == Again || AnsweredAgain(Finish, turns[1..])
       else state == Finish && AsksMore(turns[0].attempts) && AnsweredAgain(Start, turns[1..])
  }

  predicate NothingWatched(turns: seq<Turn>) {
    forall k :: 0 <= k < |turns| ==> turns[k].watched == 0
  }

  lemma {:induction false} AttemptsWatch(f: Front, attempts: seq<Attempt>)
    requires f.state == Idle || f.state == Start
    ensures var g := AttemptedAll(f, attempts);
            && g.watch == f.watch && g.processing == f.processing
            && g.state == if f.state == Start || AsksMore(attempts) then Start else Idle
    decreases |attempts|
  {
    if attempts != [] {
      AttemptsWatch(Attempted(f, attempts[0]), attempts[1..]);
      AsksFirst(attempts);
    }
  }

  lemma AsksFirst(attempts: seq<Attempt>)
    requires attempts != []
    ensures AsksMore(attempts) <==> (attempts[0].Ask? && Complete(attempts[0].request)) || AsksMore(attempts[1..])
  {
    hide Complete;
    var rest := attempts[1..];
    if AsksMore(rest) {
      var k :| 0 <= k < |rest| && rest[k].Ask? && Complete(rest[k].request);
      assert attempts[k + 1] == rest[k];
    }
    if AsksMore(attempts) && !(attempts[0].Ask? && Complete(attempts[0].request)) {
      var k :| 0 <= k < |attempts| && attempts[k].Ask? && Complete(attempts[k].request);
      assert rest[k - 1] == attempts[k];
    }
  }

  lemma HandedOn(b: Abilities, f: Front, t: Turn, result: Result)
    requires f.state == Start && f.fn.Some? && f.watch == 0 && t.watched == 0
    ensures var c := TurnTaken(b, f, t, result);
            && c.front.watch == 0
            && (t.result != Again ==> c.Going? && c.front.state == Finish)
            && (t.result == Again ==> c.Leaving? || c.front.state == Waiting)
  {
    hide PhaseOf;
    AttemptsInProgress(Kicked(f), t.attempts);
  }

  lemma AllDone(b: Abilities, f: Front, t: Turn, result: Result)
    requires f.state == Finish && f.watch == 0
    ensures var c := TurnTaken(b, f, t, result);
            c.Going? && c.front.watch == 0 && c.front.state == if AsksMore(t.attempts) then Start else Idle
  {
    AttemptsWatch(f.(state := Idle, command := None, log := f.log + [Completed(f.serial)]), t.attempts);
  }

  lemma {:induction false} LoopAnswered(b: Abilities, f: Front, turns: seq<Turn>, result: Result)
    requires f.watch == 0 && NothingWatched(turns)
    requires !Looped(b, f, turns, result).1.Unfinished? && !Looped(b, f, turns, result).1.Crash?
    requires f.state == Idle || f.state == Start || f.state == Finish
    ensures Looped(b, f, turns, result).1.AtEnd? <==> !AnsweredAgain(f.state, turns)
    decreases |turns|
  {
    hide TurnTaken, AsksMore;
    if f.state != Idle {
      var c := TurnTaken(b, f, turns[0], result);
      if f.state == Finish {
        AllDone(b, f, turns[0], result);
        LoopAnswered(b, c.front, turns[1..], c.result);
      } else if f.fn.None? {
        CancelledTurn(b, f, turns[0], result);
        assert false;
      } else {
        HandedOn(b, f, turns[0], result);
        if turns[0].result != Again {
          LoopAnswered(b, c.front, turns[1..], c.result);
        } else if c.Going? {
          WaitingLeaves(b, c.front, turns[1..], c.result);
        }
      }
    }
  }

  lemma WaitingLeaves(b: Abilities, f: Front, turns: seq<Turn>, result: Result)
    requires f.state == Waiting && f.watch == 0
    ensures !Looped(b, f, turns, result).1.AtEnd?
  {
  }

  /** For a client whose user watches the descriptors, processing that returns leaves the guard
      clear exactly if no command that it hands to the backend is answered EAGAIN. */
  lemma UserWatchedGuardClearIff(b: Abilities, f: Front, turns: seq<Turn>)
    requires !f.processing && (f.state == Idle || f.state == Start || f.state == Finish)
    requires f.watch == 0 && NothingWatched(turns) && AnswerOf(Processed(b, f, turns).1).Returned?
    ensures !Processed(b, f, turns).0.processing <==> !AnsweredAgain(f.state, turns)
  {
    hide Looped, AnsweredAgain;
    LoopAnswered(b, f.(processing := true), turns, Ok);
    LoopKeepsGuard(b, f.(processing := true), turns, Ok);
  }

  lemma {:induction false} LoopKeepsGuard(b: Abilities, f: Front, turns: seq<Turn>, result: Result)
    requires f.processing
    ensures !Looped(b, f, turns, result).0.processing <==> Looped(b, f, turns, result).1.AtEnd?
    ensures !Looped(b, f, turns, result).1.Nested?
    decreases |turns|
  {
    hide TurnTaken;
    if f.state != Idle && turns != [] {
      TurnKeepsGuard(b, f, turns[0], result);
      var c := TurnTaken(b, f, turns[0], result);
      if c.Going? { LoopKeepsGuard(b, c.front, turns[1..], c.result); }
    }
  }

  lemma TurnKeepsGuard(b: Abilities, f: Front, t: Turn, result: Result)
    ensures TurnTaken(b, f, t, result).front.processing == f.processing
  {
    hide AttemptedAll, RaisingAll;
    if f.fn.Some? { AttemptsKeepProcessing(Kicked(f), t.attempts); }
    AttemptsKeepProcessing(f, t.attempts);
    AttemptsKeepProcessing(f.(state := Idle, command := None, log := f.log + [Completed(f.serial)]), t.attempts);
    if t.poll.Raised? { RaisingsKeepProcessing(f, t.poll.answers); }
  }

  /** Once the loop has been left from inside, no later call gets anything done: commands are
      refused, processing is refused, and no command is ever handed on or completed. */
  lemma {:induction false} LeftForGood(b: Abilities, f: Front, calls: seq<Call>)
    requires f.processing && f.state != Idle
    ensures var (g, fate) := CalledAll(b, f, calls);
            fate.AllReturn? && g.processing && g.state != Idle && g.log == f.log && g.serial == f.serial
    decreases |calls|
  {
    if calls != [] {
      LeftForGood(b, Called(b, f, calls[0]).0, calls[1..]);
    }
  }

  /** This happens to every command that waits for descriptors the user watches: processing
      returns EAGAIN as documented, and after the event it never runs again. */
  lemma WaitingForTheUserNeverCompletes(r: Request, t: Turn, later: seq<Call>)
    requires Complete(r) && t == Turn(Again, 0, [], PollTimedOut)
    ensures var b := Abilities(true, true);
            var (f, first) := Called(b, Fresh(true), Issue(r, [t, t]));
            && first == Returned(Again) && f.state == Waiting && f.processing
            && var (g, second) := Called(b, f, Raise(Ok, []));
            && second == Returned(Again) && g.state == Ready
            && CalledAll(b, g, later).0.log == g.log
  {
    var b := Abilities(true, true);
    var f0 := Taken(Fresh(true), r).0.(processing := true);
    assert [t, t][1..] == [t];
    assert TurnTaken(b, f0, t, Ok).Going?;
    var f1 := TurnTaken(b, f0, t, Ok).front;
    assert f1.state == Waiting && f1.watch == 0;
    assert Looped(b, f0, [t, t], Ok) == Looped(b, f1, [t], Again);
    var g := Called(b, Called(b, Fresh(true), Issue(r, [t, t])).0, Raise(Ok, [])).0;
    LeftForGood(b, g, later);
  }

  // ----- the loop ends

  /** A backend that never answers EAGAIN: the state after a turn is never a waiting one. */
  lemma PromptTurn(b: Abilities, f: Front, t: Turn, result: Result)
    requires (f.state == Start || f.state == Finish) && t.result != Again
    requires f.state == Start ==> f.fn.Some?
    ensures var c := TurnTaken(b, f, t, result);
            && c.Going?
            && (f.state == Start ==> c.front.state == Finish)
            && (f.state == Finish ==> c.front.state == Idle || (c.front.state == Start && c.front.fn.Some?))
            && (f.state == Finish && t.attempts == [] ==> c.front.state == Idle)
  {
    hide PhaseOf;
    if f.state == Start {
      AttemptsInProgress(Kicked(f), t.attempts);
    } else {
      AttemptsFromIdle(f.(state := Idle, command := None, log := f.log + [Completed(f.serial)]), t.attempts);
    }
  }

  lemma {:induction false} AttemptsFromIdle(f: Front, attempts: seq<Attempt>)
    requires f.state == Idle || (f.state == Start && f.fn.Some?)
    ensures var g := AttemptedAll(f, attempts); g.state == Idle || (g.state == Start && g.fn.Some?)
    decreases |attempts|
  {
    if attempts != [] { AttemptsFromIdle(Attempted(f, attempts[0]), attempts[1..]); }
  }

  /** If from some turn on the callbacks ask for nothing, the loop ends at most two turns later,
      unless it starts with a command that has been cancelled. */
  lemma {:induction false} LoopEnds(b: Abilities, f: Front, turns: seq<Turn>, quiet: nat, result: Result)
    requires f.state == Idle || f.state == Start || f.state == Finish
    requires forall i :: 0 <= i < |turns| ==> turns[i].result != Again
    requires forall i :: quiet <= i < |turns| ==> turns[i].attempts == []
    requires |turns| >= quiet + if f.state == Start then 2 else if f.state == Finish then 2 else 0
    ensures if f.state == Start && f.fn.None? then Looped(b, f, turns, result).1.Crash?
            else Looped(b, f, turns, result).1.AtEnd?
    decreases |turns|
  {
    hide TurnTaken;
    if f.state == Start && f.fn.None? {
      CancelledTurn(b, f, turns[0], result);
    } else if f.state != Idle && turns != [] {
      PromptTurn(b, f, turns[0], result);
      var c := TurnTaken(b, f, turns[0], result);
      if quiet > 0 {
        LoopEnds(b, c.front, turns[1..], quiet - 1, c.result);
      } else if f.state == Start {
        FinishEnds(b, c.front, turns[1..], c.result);
      } else {
        LoopEnds(b, c.front, turns[1..], 0, c.result);
      }
    }
  }

  lemma CancelledTurn(b: Abilities, f: Front, t: Turn, result: Result)
    requires f.state == Start && f.fn.None?
    ensures TurnTaken(b, f, t, result) == Crashing(f)
  {
  }

  lemma FinishEnds(b: Abilities, f: Front, turns: seq<Turn>, result: Result)
    requires f.state == Finish && turns != [] && turns[0].attempts == [] && turns[0].result != Again
    ensures Looped(b, f, turns, result).1.AtEnd?
  {
    hide TurnTaken;
    PromptTurn(b, f, turns[0], result);
    var c := TurnTaken(b, f, turns[0], result);
    assert Looped(b, f, turns, result) == Looped(b, c.front, turns[1..], c.result);
  }
}
