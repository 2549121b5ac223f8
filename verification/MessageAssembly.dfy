/** The HTTP backend's handling of a response: messages put together from the parser's events
    and handed to the user's callbacks. */
module MessageAssembly {
  import opened Wrappers
  import opened JsonSpec

  type Bytes = seq<int>

  /** What the response that is read holds: messages, or names of queues or accounts. */
  datatype Kind = Messages | Queues | Accounts

  datatype Attributes = Attributes(ttl: Option<nat>, hiding: Option<nat>)

  const Unset := Attributes(None, None)

  /** What the user's callbacks are given. */
  datatype Delivery =
    | Message(id: Option<Bytes>, body: Option<Bytes>, attributes: Attributes)
    | QueueName(name: Bytes)
    | AccountName(name: Bytes)

  datatype State = State(
    key: Bytes, isKey: bool, id: Option<Bytes>, body: Option<Bytes>, attributes: Attributes, out: seq<Delivery>)

  const Empty := State([], false, None, None, Unset, [])

  function Codes(s: string): Bytes { seq(|s|, i requires 0 <= i < |s| => s[i] as int) }

  /** A C string ends at its first zero. */
  function CString(s: Bytes): Bytes {
    if s == [] || s[0] == 0 then [] else [s[0]] + CString(s[1..])
  }

  predicate Named(key: Bytes, name: string) { CString(key) == Codes(name) }

  function Word32(n: int): nat { n % 0x1_0000_0000 }

  /** The library's unescaping is not looked into. */
  type Unescaping = Bytes -> Bytes

  function Plain(u: Unescaping, s: Bytes): Bytes { CString(u(CString(s))) }

  /** One event: the new state, and whether the parser may go on. */
  function Absorb(kind: Kind, u: Unescaping, s: State, e: Event): (State, bool) {
    match kind
    case Messages => AbsorbMessage(u, s, e)
    case Queues => AbsorbName(s, e, (v: Bytes) => QueueName(Plain(u, v)))
    case Accounts => AbsorbName(s, e, (v: Bytes) => AccountName(Plain(u, v)))
  }

  function AbsorbMessage(u: Unescaping, s: State, e: Event): (State, bool) {
    match e
    case BeginArray => (s, true)
    case EndArray => (s, true)
    case BeginObject => (s.(attributes := Unset), true)
    case EndObject =>
      (s.(id := None, body := None, attributes := Unset, out := s.out + [Message(s.id, s.body, s.attributes)]), true)
    case KeyName(name) => (s.(isKey := true, key := name), true)
    case StringValue(v) =>
      if !s.isKey then (s, false)
      else if Named(s.key, "id") then (s.(isKey := false, id := Some(Plain(u, v))), true)
      else if Named(s.key, "body") then (s.(isKey := false, body := Some(v)), true)
      else (s.(isKey := false), false)
    case IntegerValue(n) =>
      if !s.isKey then (s, true)
      else if Named(s.key, "hide") then
        (s.(isKey := false, attributes := s.attributes.(hiding := Some(Word32(n)))), true)
      else if Named(s.key, "ttl") then
        (s.(isKey := false, attributes := s.attributes.(ttl := Some(Word32(n)))), true)
      else (s.(isKey := false), false)
    case FloatValue(_) => (s, false)
  }

  function AbsorbName(s: State, e: Event, deliver: Bytes -> Delivery): (State, bool) {
    match e
    case BeginArray => (s, true)
    case EndArray => (s, true)
    case StringValue(v) => (s.(out := s.out + [deliver(v)]), true)
    case BeginObject => (s, false)
    case EndObject => (s, false)
    case KeyName(_) => (s, false)
    case IntegerValue(_) => (s, false)
    case FloatValue(_) => (s, false)
  }

  /** Events one after the other, up to the first that is refused. */
  function AbsorbAll(kind: Kind, u: Unescaping, s: State, events: seq<Event>): (State, bool)
    decreases |events|
  {
    if events == [] then (s, true)
    else
      var (t, ok) := Absorb(kind, u, s, events[0]);
      if ok then AbsorbAll(kind, u, t, events[1..]) else (t, false)
  }

  lemma {:induction false} AbsorbConcat(kind: Kind, u: Unescaping, s: State, a: seq<Event>, b: seq<Event>)
    ensures AbsorbAll(kind, u, s, a + b) ==
            var (t, ok) := AbsorbAll(kind, u, s, a);
            if ok then AbsorbAll(kind, u, t, b) else (t, false)
    decreases |a|
  {
    hide Absorb;
    if a == [] {
      assert a + b == b;
    } else {
      assert (a + b)[1..] == a[1..] + b;
      var (t, ok) := Absorb(kind, u, s, a[0]);
      if ok { AbsorbConcat(kind, u, t, a[1..], b); }
    }
  }

  lemma AbsorbOne(kind: Kind, u: Unescaping, s: State, e: Event)
    ensures AbsorbAll(kind, u, s, [e]) == Absorb(kind, u, s, e)
  {
    var (t, ok) := Absorb(kind, u, s, e);
    assert [e][1..] == [];
    assert AbsorbAll(kind, u, t, []) == (t, true);
  }

  /** The callback's answer after each event, as a function of all it has been told. */
  function Answering(kind: Kind, u: Unescaping): Verdicts {
    (log: seq<Event>) => AbsorbAll(kind, u, Empty, log).1
  }

  /** Refused events stay refused: the answer to a longer log is no only after the first no. */
  lemma AnswersAreFinal(kind: Kind, u: Unescaping, log: seq<Event>, k: nat)
    requires k <= |log| && AbsorbAll(kind, u, Empty, log).1
    ensures AbsorbAll(kind, u, Empty, log[..k]).1
  {
    assert log == log[..k] + log[k..];
    AbsorbConcat(kind, u, Empty, log[..k], log[k..]);
  }

  // ----- the assembler

  class Assembler {
    const kind: Kind
    const unescape: Unescaping
    var key: Bytes
    var isKey: bool
    var id: Option<Bytes>
    var body: Option<Bytes>
    var ttl: Option<nat>
    var hiding: Option<nat>
    var out: seq<Delivery>

    ghost function View(): State
      reads this
    {
      State(key, isKey, id, body, Attributes(ttl, hiding), out)
    }

    constructor (kind: Kind, unescape: Unescaping)
      ensures this.kind == kind && this.unescape == unescape && View() == Empty
    {
      this.kind, this.unescape := kind, unescape;
      key, isKey, id, body, ttl, hiding, out := [], false, None, None, None, None, [];
    }

    /** The parser's callback. */
    method Callback(e: Event) returns (ok: bool)
      modifies this
      ensures (View(), ok) == Absorb(kind, unescape, old(View()), e)
    {
      match kind {
        case Messages => ok := OnMessage(e);
        case Queues =>
          if e.BeginArray? || e.EndArray? { return true; }
          if e.StringValue? {
            out := out + [QueueName(Plain(unescape, e.bytes))];
            return true;
          }
          return false;
        case Accounts =>
          if e.BeginArray? || e.EndArray? { return true; }
          if e.StringValue? {
            out := out + [AccountName(Plain(unescape, e.bytes))];
            return true;
          }
          return false;
      }
    }

    method OnMessage(e: Event) returns (ok: bool)
      modifies this
      ensures (View(), ok) == AbsorbMessage(unescape, old(View()), e)
    {
      hide CString, Codes, Plain;
      ok := true;
      match e {
        case BeginArray =>
        case EndArray =>
        case BeginObject => ttl, hiding := None, None;
        case EndObject =>
          out := out + [Message(id, body, Attributes(ttl, hiding))];
          id, body, ttl, hiding := None, None, None, None;
        case KeyName(name) => isKey, key := true, name;
        case StringValue(v) =>
          if !isKey { return false; }
          isKey := false;
          if Named(key, "id") {
            id := Some(Plain(unescape, v));
          } else if Named(key, "body") {
            body := Some(v);
          } else {
            return false;
          }
        case IntegerValue(n) =>
          if isKey {
            isKey := false;
            if Named(key, "hide") {
              hiding := Some(Word32(n));
            } else if Named(key, "ttl") {
              ttl := Some(Word32(n));
            } else {
              return false;
            }
          }
        case FloatValue(_) => return false;
      }
    }

    /** Events of one step of the parser. */
    method Hear(events: seq<Event>) returns (ok: bool)
      modifies this
      ensures (View(), ok) == AbsorbAll(kind, unescape, old(View()), events)
    {
      hide Absorb;
      var i := 0;
      ok := true;
      assert events[0..] == events;
      while i < |events|
        invariant 0 <= i <= |events| && ok
        invariant AbsorbAll(kind, unescape, View(), events[i..]) == AbsorbAll(kind, unescape, old(View()), events)
      {
        assert events[i..][1..] == events[i + 1..];
        ok := Callback(events[i]);
        if !ok { return; }
        i := i + 1;
      }
    }
  }

  // ----- reading a response

  /** A byte as the C char that is passed on: on machines whose chars are signed, the upper
      half is negative. */
  function CharOf(b: int, signed: bool): int { if signed && b >= 128 then b - 256 else b }

  function CharsOf(text: Bytes, signed: bool): Bytes {
    seq(|text|, i requires 0 <= i < |text| => CharOf(text[i], signed))
  }

  const DEPTH := 19

  function ResponseConfig(decimalPoint: int): Config { Config(DEPTH, true, false, decimalPoint, true) }

  /** Success, EINVAL, or the failed assertion about literals. */
  datatype Status = Success | Malformed | Stopped

  function StatusOf(o: Outcome): Status {
    match o
    case Go(p) => if Finished(p) then Success else Malformed
    case Refused(_) => Malformed
    case Aborted(_) => Stopped
  }

  /** Reading a response: the outcome of the run under the callback, and what it delivered. */
  function Response(kind: Kind, u: Unescaping, decimalPoint: int, chars: Bytes): (Status, seq<Delivery>) {
    var o := RunHeard(ResponseConfig(decimalPoint), Answering(kind, u), Initial, chars);
    (StatusOf(o), AbsorbAll(kind, u, Empty, LogOf(o)).0.out)
  }
}
