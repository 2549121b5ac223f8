/** The client's command state machine, as a function on values.  What the backend answers,
    what the poll finds and what the user's callbacks ask for are parameters. */
module Frontend {
  import opened Wrappers

  datatype State = Idle | Start | Waiting | Ready | Finish

  /** Return codes: success, EAGAIN, EINVAL, EINPROGRESS, ETIMEDOUT, ENOTCONN, any other. */
  datatype Result = Ok | Again | Invalid | InProgress | TimedOut | NotConnected | Failed(code: int)

  datatype Kind =
    | GetAccounts | DeleteAccounts
    | GetQueues | DeleteQueues
    | GetMessages | UpdateMessages | DeleteMessages
    | CreateMessage | GetMessage | UpdateMessage | DeleteMessage

  datatype Request = Request(
    kind: Kind, account: Option<string>, queue: Option<string>, id: Option<string>, hasBody: bool, hasAttributes: bool)

  /** The arguments that the kind of command needs are there. */
  predicate Complete(r: Request) {
    match r.kind
    case GetAccounts => true
    case DeleteAccounts => true
    case GetQueues => r.account.Some?
    case DeleteQueues => r.account.Some?
    case GetMessages => r.account.Some? && r.queue.Some?
    case DeleteMessages => r.account.Some? && r.queue.Some?
    case UpdateMessages => r.account.Some? && r.queue.Some? && r.hasAttributes
    case GetMessage => r.account.Some? && r.queue.Some? && r.id.Some?
    case DeleteMessage => r.account.Some? && r.queue.Some? && r.id.Some?
    case CreateMessage => r.account.Some? && r.queue.Some? && r.id.Some? && r.hasBody
    case UpdateMessage => r.account.Some? && r.queue.Some? && r.id.Some? && r.hasAttributes
  }

  /** Which of its optional functions a backend has. */
  datatype Abilities = Abilities(process: bool, events: bool)

  /** What a user's callback may ask for while the loop runs. */
  datatype Attempt = Ask(request: Request) | AskProcess

  /** What polling the watched descriptors finds: an error, nothing in time, or events, with
      the backend's answer to each. */
  datatype Poll = PollFailed(code: int) | PollTimedOut | Raised(answers: seq<Result>)

  /** What the world contributes to one turn of the processing loop. */
  datatype Turn = Turn(result: Result, watched: nat, attempts: seq<Attempt>, poll: Poll)

  /** What can be observed: commands accepted, handed to the backend and completed, what the
      backend's functions answered on them, and the answers that callbacks got. */
  datatype Mark =
    | Accepted(serial: nat, request: Request)
    | Invoked(serial: nat, kind: Kind)
    | Replied(serial: nat, result: Result)
    | Completed(serial: nat)
    | Answered(result: Result)

  datatype Front = Front(
    state: State, processing: bool, auto: bool, command: Option<Kind>, fn: Option<Kind>,
    serial: nat, watch: nat, log: seq<Mark>)

  function Fresh(auto: bool): Front { Front(Idle, false, auto, None, None, 0, 0, []) }

  // ----- entry points

  /** A command is taken only when none is in progress and its arguments are there. */
  function Taken(f: Front, r: Request): (Front, Result) {
    if f.state != Idle then (f, InProgress)
    else if !Complete(r) then (f, Invalid)
    else
      (f.(state := Start, command := Some(r.kind), fn := Some(r.kind), serial := f.serial + 1,
          log := f.log + [Accepted(f.serial + 1, r)]), Ok)
  }

  function Cancelled(f: Front): Front {
    if f.state == Idle then f else f.(watch := 0, command := None, fn := None)
  }

  /** A callback asks for something while the loop runs: processing is refused. */
  function Attempted(f: Front, a: Attempt): Front {
    match a
    case Ask(r) =>
      var (g, result) := Taken(f, r);
      g.(log := g.log + [Answered(if result == Ok && g.auto then Again else result)])
    case AskProcess => f.(log := f.log + [Answered(Again)])
  }

  function AttemptedAll(f: Front, attempts: seq<Attempt>): Front
    decreases |attempts|
  {
    if attempts == [] then f else AttemptedAll(Attempted(f, attempts[0]), attempts[1..])
  }

  /** An event is handed to the backend. */
  function Raising(f: Front, answer: Result): Front {
    if answer == Ok then f.(state := Ready) else if answer == Again then f else Cancelled(f)
  }

  function RaisingAll(f: Front, answers: seq<Result>): Front
    decreases |answers|
  {
    if answers == [] then f else RaisingAll(Raising(f, answers[0]), answers[1..])
  }

  // ----- the processing loop

  /** A turn goes on, leaves the loop, or calls a function that is not there. */
  datatype Course =
    | Going(front: Front, result: Result)
    | Leaving(front: Front, result: Result)
    | Crashing(front: Front)

  /** The backend's function for the command is called. */
  function Kicked(f: Front): Front
    requires f.fn.Some?
  {
    f.(log := f.log + [Invoked(f.serial, f.fn.value)])
  }

  /** One turn of the loop. */
  function TurnTaken(b: Abilities, f: Front, t: Turn, result: Result): Course {
    match f.state
    case Start =>
      if f.fn.None? then Crashing(f)
      else
        var g := AttemptedAll(Kicked(f), t.attempts);
        var h := g.(watch := g.watch + t.watched, log := g.log + [Replied(g.serial, t.result)]);
        if t.result != Again then Going(h.(state := Finish), t.result)
        else if b.process then Going(h.(state := Waiting), Again)
        else Leaving(Cancelled(h), Invalid)
    case Ready =>
      if !b.process then Crashing(f)
      else
        var g := AttemptedAll(f, t.attempts);
        var h := g.(watch := g.watch + t.watched, log := g.log + [Replied(g.serial, t.result)]);
        Going(h.(state := if t.result == Again then Waiting else Finish), t.result)
    case Waiting =>
      if f.watch == 0 then Leaving(f, Again)
      else
        (match t.poll
         case PollFailed(code) => Leaving(f, Failed(code))
         case PollTimedOut => Leaving(Cancelled(f), TimedOut)
         case Raised(answers) =>
           Going((if b.events then RaisingAll(f,
             answers) else f).(watch := if |answers| <= f.watch then f.watch - |answers| else 0), Ok))
    case Finish =>
      Going(AttemptedAll(f.(state := Idle, command := None, log := f.log + [Completed(f.serial)]), t.attempts), result)
    case Idle => Going(f, result)
  }

  /** How a call of the processing function ends: refused because one is running, by the end
      of the loop, from inside the loop, by a call of a missing function, or not yet. */
  datatype Exit = Nested | AtEnd(result: Result) | Early(result: Result) | Crash | Unfinished

  function Looped(b: Abilities, f: Front, turns: seq<Turn>, result: Result): (Front, Exit)
    decreases |turns|
  {
    if f.state == Idle then (f.(processing := false), AtEnd(result))
    else if turns == [] then (f, Unfinished)
    else
      match TurnTaken(b, f, turns[0], result)
      case Leaving(g, r) => (g, Early(r))
      case Crashing(g) => (g, Crash)
      case Going(g, r) => Looped(b, g, turns[1..], r)
  }

  function Processed(b: Abilities, f: Front, turns: seq<Turn>): (Front, Exit) {
    if f.processing then (f, Nested) else Looped(b, f.(processing := true), turns, Ok)
  }

  // ----- calls from outside

  datatype Call =
    | Issue(request: Request, turns: seq<Turn>)
    | Process(turns: seq<Turn>)
    | Raise(answer: Result, turns: seq<Turn>)
    | Cancel

  function ResultOf(e: Exit): Result
    requires !e.Unfinished? && !e.Crash?
  {
    match e
    case Nested => Again
    case AtEnd(r) => r
    case Early(r) => r
  }

  datatype Answer = Returned(result: Result) | NotReturned | Crashed

  function AnswerOf(e: Exit): Answer {
    if e.Unfinished? then NotReturned else if e.Crash? then Crashed else Returned(ResultOf(e))
  }

  function Called(b: Abilities, f: Front, c: Call): (Front, Answer) {
    match c
    case Issue(r, turns) =>
      var (g, result) := Taken(f, r);
      if result == Ok && g.auto then
        var (h, e) := Processed(b, g, turns);
        (h, AnswerOf(e))
      else (g, Returned(result))
    case Process(turns) =>
      var (h, e) := Processed(b, f, turns);
      (h, AnswerOf(e))
    case Raise(answer, turns) =>
      if !b.events then (f, Returned(NotConnected))
      else
        var g := Raising(f, answer);
        if answer == Ok && g.auto then
          var (h, e) := Processed(b, g, turns);
          (h, AnswerOf(e))
        else (g, Returned(answer))
    case Cancel => (Cancelled(f), Returned(Ok))
  }

  /** Whether all calls of a session return, one hangs, or one calls a missing function. */
  datatype Fate = AllReturn | OneHangs | OneCrashes

  /** A session ends early if a call does not return. */
  function CalledAll(b: Abilities, f: Front, calls: seq<Call>): (Front, Fate)
    decreases |calls|
  {
    if calls == [] then (f, AllReturn)
    else
      var (g, answer) := Called(b, f, calls[0]);
      match answer
      case Returned(_) => CalledAll(b, g, calls[1..])
      case NotReturned => (g, OneHangs)
      case Crashed => (g, OneCrashes)
  }

  // ----- the client

  /** How a turn of the client's loop ends. */
  datatype Way = GoesOn | Leaves | Crashes

  function CourseOf(way: Way, f: Front, r: Result): Course {
    match way
    case GoesOn => Going(f, r)
    case Leaves => Leaving(f, r)
    case Crashes => Crashing(f)
  }

  class Burrow {
    const abilities: Abilities
    var state: State
    var processing: bool
    var auto: bool
    var command: Option<Kind>
    var fn: Option<Kind>
    var serial: nat
    var watch: nat
    var log: seq<Mark>

    ghost function View(): Front
      reads this
    {
      Front(state, processing, auto, command, fn, serial, watch, log)
    }

    constructor (abilities: Abilities, auto: bool)
      ensures this.abilities == abilities && View() == Fresh(auto)
    {
      this.abilities, this.auto := abilities, auto;
      state, processing, command, fn, serial, watch, log := Idle, false, None, None, 0, 0, [];
    }

    /** Any of the eleven commands. */
    method Issue(r: Request, turns: seq<Turn>) returns (answer: Answer)
      modifies this
      ensures (View(), answer) == Called(abilities, old(View()), Call.Issue(r, turns))
      decreases !processing, 2
    {
      if state != Idle { return Returned(InProgress); }
      if !Complete(r) { return Returned(Invalid); }
      command := Some(r.kind);
      fn := Some(r.kind);
      serial := serial + 1;
      log := log + [Accepted(serial, r)];
      state := Start;
      if auto {
        var e := Process(turns);
        return AnswerOf(e);
      }
      return Returned(Ok);
    }

    method Cancel()
      modifies this
      ensures (View(), Returned(Ok)) == Called(abilities, old(View()), Call.Cancel)
    {
      if state == Idle { return; }
      watch := 0;
      command := None;
      fn := None;
    }

    /** What the user's callbacks ask for while the loop runs. */
    method Callbacks(attempts: seq<Attempt>)
      requires processing
      modifies this
      ensures View() == AttemptedAll(old(View()), attempts)
      decreases !processing, 3
    {
      var i := 0;
      assert attempts[0..] == attempts;
      while i < |attempts|
        invariant 0 <= i <= |attempts| && processing
        invariant AttemptedAll(View(), attempts[i..]) == AttemptedAll(old(View()), attempts)
      {
        ghost var before := View();
        assert attempts[i..][1..] == attempts[i + 1..];
        match attempts[i] {
          case Ask(r) =>
            var answer := Issue(r, []);
            log := log + [Answered(answer.result)];
          case AskProcess =>
            var e := Process([]);
            log := log + [Answered(ResultOf(e))];
        }
        assert View() == Attempted(before, attempts[i]);
        i := i + 1;
      }
    }

    /** The backend is told of an event. */
    method Handle(answer: Result)
      modifies this
      ensures View() == Raising(old(View()), answer)
    {
      if answer == Ok {
        state := Ready;
      } else if answer != Again {
        Cancel();
      }
    }

    method EventRaised(answer: Result, turns: seq<Turn>) returns (a: Answer)
      modifies this
      ensures (View(), a) == Called(abilities, old(View()), Call.Raise(answer, turns))
      decreases !processing, 2
    {
      if !abilities.events { return Returned(NotConnected); }
      Handle(answer);
      if answer == Ok && auto {
        var e := Process(turns);
        return AnswerOf(e);
      }
      return Returned(answer);
    }

    /** The events that a poll has found, one after the other. */
    method PollEvents(answers: seq<Result>)
      requires processing
      modifies this
      ensures View() == (if abilities.events then RaisingAll(old(View()), answers) else old(View()))
                        .(watch := if |answers| <= old(watch) then old(watch) - |answers| else 0)
      decreases !processing, 3
    {
      var size := if |answers| <= watch then watch - |answers| else 0;
      var i := 0;
      assert answers[0..] == answers;
      while i < |answers|
        invariant 0 <= i <= |answers| && processing
        invariant abilities.events ==> RaisingAll(View(), answers[i..]) == RaisingAll(old(View()), answers)
        invariant !abilities.events ==> View() == old(View())
      {
        assert answers[i..][1..] == answers[i + 1..];
        var a := EventRaised(answers[i], []);
        i := i + 1;
      }
      watch := size;
    }

    /** The command is handed to the backend. */
    method Kick(t: Turn) returns (way: Way, r: Result)
      requires processing && state == Start
      modifies this
      ensures CourseOf(way, View(), r) == TurnTaken(abilities, old(View()), t, Ok)
      ensures processing
      decreases !processing, 4
    {
      hide AttemptedAll;
      if fn.None? { return Crashes, Ok; }
      log := log + [Invoked(serial, fn.value)];
      AttemptsKeepProcessing(View(), t.attempts);
      Callbacks(t.attempts);
      watch := watch + t.watched;
      log := log + [Replied(serial, t.result)];
      r := t.result;
      if r == Again {
        if !abilities.process {
          Cancel();
          return Leaves, Invalid;
        }
        state := Waiting;
      } else {
        state := Finish;
      }
      return GoesOn, r;
    }

    /** The backend goes on with a command. */
    method Resume(t: Turn) returns (way: Way, r: Result)
      requires processing && state == Ready
      modifies this
      ensures CourseOf(way, View(), r) == TurnTaken(abilities, old(View()), t, Ok)
      ensures processing
      decreases !processing, 4
    {
      hide AttemptedAll;
      if !abilities.process { return Crashes, Ok; }
      AttemptsKeepProcessing(View(), t.attempts);
      Callbacks(t.attempts);
      watch := watch + t.watched;
      log := log + [Replied(serial, t.result)];
      r := t.result;
      state := if r == Again then Waiting else Finish;
      return GoesOn, r;
    }

    method Wait(t: Turn) returns (way: Way, r: Result)
      requires processing && state == Waiting
      modifies this
      ensures CourseOf(way, View(), r) == TurnTaken(abilities, old(View()), t, Ok)
      ensures processing
      decreases !processing, 4
    {
      hide RaisingAll;
      if watch == 0 { return Leaves, Again; }
      match t.poll {
        case PollFailed(code) => return Leaves, Failed(code);
        case PollTimedOut =>
          Cancel();
          return Leaves, TimedOut;
        case Raised(answers) =>
          RaisingsKeepProcessing(View(), answers);
          PollEvents(answers);
          return GoesOn, Ok;
      }
    }

    method Conclude(t: Turn, result: Result)
      requires processing && state == Finish
      modifies this
      ensures Going(View(), result) == TurnTaken(abilities, old(View()), t, result) && processing
      decreases !processing, 4
    {
      hide AttemptedAll;
      state := Idle;
      command := None;
      log := log + [Completed(serial)];
      AttemptsKeepProcessing(View(), t.attempts);
      Callbacks(t.attempts);
    }

    /** One turn of the processing loop. */
    method TakeTurn(t: Turn, result: Result) returns (way: Way, r: Result)
      requires processing && state != Idle
      modifies this
      ensures CourseOf(way, View(), r) == TurnTaken(abilities, old(View()), t, result)
      ensures processing
      decreases !processing, 5
    {
      hide TurnTaken;
      ResultMatters(abilities, View(), t, result);
      way, r := GoesOn, result;
      match state {
        case Start => way, r := Kick(t);
        case Ready => way, r := Resume(t);
        case Waiting => way, r := Wait(t);
        case Finish => Conclude(t, result);
      }
    }

    /** The processing loop, as far as the given turns of the world go. */
    method Process(turns: seq<Turn>) returns (e: Exit)
      modifies this
      ensures (View(), e) == Processed(abilities, old(View()), turns)
      decreases !processing, 1
    {
      hide TurnTaken;
      if processing { return Nested; }
      processing := true;
      var result := Ok;
      var i := 0;
      assert turns[0..] == turns;
      while state != Idle
        invariant 0 <= i <= |turns| && processing
        invariant Looped(abilities, View(), turns[i..], result) == Processed(abilities, old(View()), turns)
        decreases |turns| - i
      {
        if i == |turns| { return Unfinished; }
        assert turns[i..][1..] == turns[i + 1..];
        var way, r := TakeTurn(turns[i], result);
        if way == Crashes { return Crash; }
        if way == Leaves { return Early(r); }
        result := r;
        i := i + 1;
      }
      processing := false;
      return AtEnd(result);
    }
  }

  lemma {:induction false} AttemptsKeepProcessing(f: Front, attempts: seq<Attempt>)
    ensures AttemptedAll(f, attempts).processing == f.processing
    decreases |attempts|
  {
    if attempts != [] { AttemptsKeepProcessing(Attempted(f, attempts[0]), attempts[1..]); }
  }

  lemma {:induction false} RaisingsKeepProcessing(f: Front, answers: seq<Result>)
    ensures RaisingAll(f, answers).processing == f.processing
    decreases |answers|
  {
    if answers != [] { RaisingsKeepProcessing(Raising(f, answers[0]), answers[1..]); }
  }

  /** Only the conclusion of a command passes on the result of the turn before. */
  lemma ResultMatters(b: Abilities, f: Front, t: Turn, result: Result)
    requires f.state == Start || f.state == Ready || f.state == Waiting || f.state == Finish
    ensures f.state != Finish ==> TurnTaken(b, f, t, result) == TurnTaken(b, f, t, Ok)
  {
  }
}
