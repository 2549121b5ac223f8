/** What the assembler makes of a log, read backwards from each event instead of by a state. */
module AssemblyLaws {
  import opened Wrappers
  import opened JsonSpec
  import opened MessageAssembly

  // ----- names of members

  /** The C strings are equal. */
  predicate IsCalled(key: Bytes, name: string) {
    && |name| <= |key| && (forall i :: 0 <= i < |name| ==> key[i] == name[i] as int)
    && (|key| == |name| || key[|name|] == 0)
  }

  /** A byte string up to its first zero. */
  lemma {:induction false} CStringIs(s: Bytes)
    ensures var c := CString(s);
            && |c| <= |s| && c == s[..|c|] && 0 !in c && (|c| == |s| || s[|c|] == 0)
  {
    if s != [] && s[0] != 0 { CStringIs(s[1..]); }
  }

  lemma NamedIffCalled(key: Bytes, name: string)
    requires forall i :: 0 <= i < |name| ==> name[i] != 0 as char
    ensures Named(key, name) <==> IsCalled(key, name)
  {
    CStringIs(key);
    var c, codes := CString(key), Codes(name);
    assert forall i :: 0 <= i < |codes| ==> codes[i] != 0;
    if IsCalled(key, name) {
      assert c == codes;
    }
    if Named(key, name) {
      forall i | 0 <= i < |name|
        ensures key[i] == name[i] as int
      {
        assert c[i] == codes[i];
      }
    }
  }

  // ----- messages, read backwards

  /** The member name whose value is still to come. */
  function PendingKey(log: seq<Event>): Option<Bytes> {
    if log == [] then None
    else
      match log[|log| - 1]
      case KeyName(name) => Some(name)
      case StringValue(_) => None
      case IntegerValue(_) => None
      case BeginArray => PendingKey(log[..|log| - 1])
      case EndArray => PendingKey(log[..|log| - 1])
      case BeginObject => PendingKey(log[..|log| - 1])
      case EndObject => PendingKey(log[..|log| - 1])
      case FloatValue(_) => PendingKey(log[..|log| - 1])
  }

  predicate Under(log: seq<Event>, name: string) {
    PendingKey(log).Some? && IsCalled(PendingKey(log).value, name)
  }

  /** The last string under a name since the last object ended. */
  function StringUnder(log: seq<Event>, name: string): Option<Bytes> {
    if log == [] || log[|log| - 1].EndObject? then None
    else if log[|log| - 1].StringValue? && Under(log[..|log| - 1], name) then Some(log[|log| - 1].bytes)
    else StringUnder(log[..|log| - 1], name)
  }

  /** The last integer under a name since the last object began or ended, as 32 bits. */
  function NumberUnder(log: seq<Event>, name: string): Option<nat> {
    if log == [] || log[|log| - 1].EndObject? || log[|log| - 1].BeginObject? then None
    else if log[|log| - 1].IntegerValue? && Under(log[..|log| - 1], name) then
      Some(log[|log| - 1].n % 0x1_0000_0000)
    else NumberUnder(log[..|log| - 1], name)
  }

  function IdOf(u: Unescaping, id: Option<Bytes>): Option<Bytes> {
    if id.Some? then Some(CString(u(CString(id.value)))) else None
  }

  /** One message for each object that ends. */
  function MessagesIn(u: Unescaping, log: seq<Event>): seq<Delivery> {
    if log == [] then []
    else
      var before := log[..|log| - 1];
      MessagesIn(u, before)
      + if log[|log| - 1].EndObject? then
        [Message(IdOf(u, StringUnder(before, "id")), StringUnder(before, "body"),
                 Attributes(NumberUnder(before, "ttl"), NumberUnder(before, "hide")))]
      else []
  }

  /** A string must stand under id or body, an integer under ttl or hide or under nothing; a
      float stands nowhere. */
  predicate Allowed(log: seq<Event>, e: Event) {
    match e
    case StringValue(_) => Under(log, "id") || Under(log, "body")
    case IntegerValue(_) => PendingKey(log).None? || Under(log, "ttl") || Under(log, "hide")
    case FloatValue(_) => false
    case BeginArray => true
    case EndArray => true
    case BeginObject => true
    case EndObject => true
    case KeyName(_) => true
  }

  predicate AllAllowed(log: seq<Event>) { forall k :: 0 <= k < |log| ==> Allowed(log[..k], log[k]) }

  /** The state that a log leads to. */
  predicate Remembers(u: Unescaping, s: State, log: seq<Event>) {
    && s.isKey == PendingKey(log).Some? && (s.isKey ==> s.key == PendingKey(log).value)
    && s.id == IdOf(u, StringUnder(log, "id")) && s.body == StringUnder(log, "body")
    && s.attributes == Attributes(NumberUnder(log, "ttl"), NumberUnder(log, "hide"))
    && s.out == MessagesIn(u, log)
  }

  lemma Names()
    ensures forall key :: Named(key, "id") <==> IsCalled(key, "id")
    ensures forall key :: Named(key, "body") <==> IsCalled(key, "body")
    ensures forall key :: Named(key, "ttl") <==> IsCalled(key, "ttl")
    ensures forall key :: Named(key, "hide") <==> IsCalled(key, "hide")
    ensures forall key :: IsCalled(key, "id") ==> !IsCalled(key, "body")
    ensures forall key :: IsCalled(key, "ttl") ==> !IsCalled(key, "hide")
  {
    hide Named;
    forall key
      ensures Named(key, "id") <==> IsCalled(key, "id")
      ensures Named(key, "body") <==> IsCalled(key, "body")
      ensures Named(key, "ttl") <==> IsCalled(key, "ttl")
      ensures Named(key, "hide") <==> IsCalled(key, "hide")
      ensures IsCalled(key, "id") ==> !IsCalled(key, "body")
      ensures IsCalled(key, "ttl") ==> !IsCalled(key, "hide")
    {
      NamedIffCalled(key, "id");
      NamedIffCalled(key, "body");
      NamedIffCalled(key, "ttl");
      NamedIffCalled(key, "hide");
      assert "id"[0] == 'i' && "body"[0] == 'b' && "ttl"[0] == 't' && "hide"[0] == 'h';
    }
  }

  lemma OneMore(u: Unescaping, s: State, log: seq<Event>, e: Event)
    requires Remembers(u, s, log)
    ensures var (t, ok) := AbsorbMessage(u, s, e);
            (ok <==> Allowed(log, e)) && if ok then Remembers(u, t, log + [e]) else t.out == s.out
  {
    hide Named, IsCalled, CString;
    Names();
    assert (log + [e])[..|log|] == log;
  }

  /** Read backwards: the assembler takes a log exactly if each of its events is allowed after
      those before it; it delivers one message for each object that ends, with the last id and
      body since an object ended before it and the last times in it. */
  lemma {:induction false} MessagesAre(u: Unescaping, log: seq<Event>)
    ensures var (s, ok) := AbsorbAll(Messages, u, Empty, log);
            (ok <==> AllAllowed(log)) && (ok ==> Remembers(u, s, log))
    ensures AllAllowed(log) ==> AbsorbAll(Messages, u, Empty, log).0.out == MessagesIn(u, log)
    decreases |log|
  {
    hide Allowed, AbsorbMessage, AbsorbAll, MessagesIn;
    if log == [] {
      NothingYet(u);
    } else {
      var before, e := log[..|log| - 1], log[|log| - 1];
      assert log == before + [e];
      MessagesAre(u, before);
      AbsorbConcat(Messages, u, Empty, before, [e]);
      AllowedMore(before, e);
      var (s, ok) := AbsorbAll(Messages, u, Empty, before);
      if ok {
        AbsorbOne(Messages, u, s, e);
        OneMore(u, s, before, e);
      }
    }
  }

  lemma NothingYet(u: Unescaping)
    ensures Remembers(u, Empty, []) && AbsorbAll(Messages, u, Empty, []) == (Empty, true)
  {
  }

  lemma AllowedMore(log: seq<Event>, e: Event)
    ensures AllAllowed(log + [e]) <==> AllAllowed(log) && Allowed(log, e)
  {
    hide Allowed;
    var all := log + [e];
    assert all[..|log|] == log && all[|log|] == e;
    assert forall k :: 0 <= k < |log| ==> all[..k] == log[..k] && all[k] == log[k];
  }

  /** A log that is refused delivers what the events before the refused one do. */
  lemma {:induction false} RefusedMessages(u: Unescaping, log: seq<Event>) returns (n: nat)
    requires !AllAllowed(log)
    ensures n < |log| && AllAllowed(log[..n]) && !Allowed(log[..n], log[n])
    ensures AbsorbAll(Messages, u, Empty, log).0.out == MessagesIn(u, log[..n])
    decreases |log|
  {
    hide Allowed, AbsorbMessage, AbsorbAll, MessagesIn;
    var before, e := log[..|log| - 1], log[|log| - 1];
    assert log == before + [e];
    AbsorbConcat(Messages, u, Empty, before, [e]);
    MessagesAre(u, before);
    AllowedMore(before, e);
    if AllAllowed(before) {
      n := |before|;
      var s := AbsorbAll(Messages, u, Empty, before).0;
      AbsorbOne(Messages, u, s, e);
      OneMore(u, s, before, e);
    } else {
      n := RefusedMessages(u, before);
      assert before[..n] == log[..n];
    }
  }

  // ----- names of queues and accounts

  predicate ListsOnly(log: seq<Event>) {
    forall k :: 0 <= k < |log| ==> log[k].BeginArray? || log[k].EndArray? || log[k].StringValue?
  }

  /** One name for each string. */
  function NamesIn(kind: Kind, u: Unescaping, log: seq<Event>): seq<Delivery> {
    if log == [] then []
    else
      NamesIn(kind, u, log[..|log| - 1])
      + match log[|log| - 1]
        case StringValue(v) =>
          var name := CString(u(CString(v)));
          [if kind == Queues then QueueName(name) else AccountName(name)]
        case _ => []
  }

  /** A list of names is taken exactly if it holds nothing but arrays and strings. */
  lemma {:induction false} NamesAre(kind: Kind, u: Unescaping, log: seq<Event>)
    requires kind == Queues || kind == Accounts
    ensures AbsorbAll(kind, u, Empty, log).1 <==> ListsOnly(log)
    ensures ListsOnly(log) ==> AbsorbAll(kind, u, Empty, log).0.out == NamesIn(kind, u, log)
    decreases |log|
  {
    hide AbsorbAll, CString;
    if log == [] {
      NoNamesYet(kind, u);
    } else {
      var before, e := log[..|log| - 1], log[|log| - 1];
      assert log == before + [e];
      NamesAre(kind, u, before);
      AbsorbConcat(kind, u, Empty, before, [e]);
      AbsorbOne(kind, u, AbsorbAll(kind, u, Empty, before).0, e);
    }
  }

  lemma NoNamesYet(kind: Kind, u: Unescaping)
    ensures AbsorbAll(kind, u, Empty, []) == (Empty, true)
  {
  }
}
