/** The memory backend as a function on values: accounts of queues of messages, kept in
    insertion order, and one interpreter step per command. */
module MemoryStore {
  import opened Wrappers
  import opened AssocList

  /** Times are unsigned 32-bit seconds. */
  const WORD := 0x1_0000_0000

  function Plus32(a: nat, b: nat): nat { (a + b) % WORD }

  function Minus32(a: nat, b: nat): nat { (a - b) % WORD }

  datatype Msg = Msg(body: seq<int>, ttl: nat, hiding: nat)

  type Queue = seq<Entry<Msg>>
  type Account = seq<Entry<Queue>>
  type Store = seq<Entry<Account>>

  datatype Attributes = Attributes(ttl: Option<nat>, hiding: Option<nat>)

  datatype Filters = Filters(marker: Option<string>, limit: Option<nat>, matchHidden: Option<bool>)

  /** What the callbacks are told. */
  datatype Report =
    | AccountReport(name: string)
    | QueueReport(name: string)
    | MessageReport(id: string, body: seq<int>, ttl: nat, hiding: nat)

  datatype Status = Fine | Invalid

  datatype Command =
    | GetAccounts(filters: Option<Filters>)
    | DeleteAccounts(filters: Option<Filters>)
    | GetQueues(account: string, filters: Option<Filters>)
    | DeleteQueues(account: string, filters: Option<Filters>)
    | GetMessages(account: string, queue: string, filters: Option<Filters>)
    | UpdateMessages(account: string, queue: string, attributes: Option<Attributes>, filters: Option<Filters>)
    | DeleteMessages(account: string, queue: string, filters: Option<Filters>)
    | CreateMessage(account: string, queue: string, id: string, body: seq<int>, attributes: Option<Attributes>)
    | GetMessage(account: string, queue: string, id: string)
    | UpdateMessage(account: string, queue: string, id: string, attributes: Option<Attributes>)
    | DeleteMessage(account: string, queue: string, id: string)

  datatype Answer = Answer(store: Store, log: seq<Report>, status: Status)

  // ----- filters and attributes

  datatype Range = Range(marker: Option<string>, limit: nat, matchHidden: bool)

  /** Defaults: from the front, no limit, no hidden messages. */
  function Resolve(filters: Option<Filters>): Range {
    match filters
    case None => Range(None, 0, false)
    case Some(f) =>
      Range(f.marker, if f.limit.Some? then f.limit.value else 0,
            if f.matchHidden.Some? then f.matchHidden.value else false)
  }

  /** The time an attribute stands for, zero if it is not set. */
  function Due(attribute: Option<nat>, now: nat): nat {
    if attribute.Some? then Plus32(attribute.value, now) else 0
  }

  function TtlOf(attributes: Option<Attributes>): Option<nat> {
    if attributes.Some? then attributes.value.ttl else None
  }

  function HideOf(attributes: Option<Attributes>): Option<nat> {
    if attributes.Some? then attributes.value.hiding else None
  }

  function Updated(m: Msg, ttl: nat, hiding: nat): Msg {
    Msg(m.body, if ttl != 0 then ttl else m.ttl, if hiding != 0 then hiding else m.hiding)
  }

  predicate Expired(m: Msg, now: nat) { m.ttl <= now }

  predicate Hidden(m: Msg, now: nat) { m.hiding > now }

  /** A message is told with the seconds it has left. */
  function Told(id: string, m: Msg, now: nat): Report {
    MessageReport(id, m.body, Minus32(m.ttl, now), if m.hiding > now then Minus32(m.hiding, now) else 0)
  }

  // ----- scanning a queue

  datatype Action = Update | Get | Delete

  datatype Scan = Scan(
    action: Action, report: bool, matchHidden: bool, now: nat, ttl: nat, hiding: nat)

  /** What a scan leaves of a message, and what it tells. */
  function Visit(sc: Scan, id: string, m: Msg): (Option<Msg>, seq<Report>) {
    if Expired(m, sc.now) then (None, [])
    else if !sc.matchHidden && Hidden(m, sc.now) then (Some(m), [])
    else
      match sc.action
      case Update => var u := Updated(m, sc.ttl, sc.hiding); (Some(u), [Told(id, u, sc.now)])
      case Get => (Some(m), [Told(id, m, sc.now)])
      case Delete => (None, if sc.report then [Told(id, m, sc.now)] else [])
  }

  function Left(sc: Scan, q: Queue): Queue {
    if q == [] then []
    else
      (match Visit(sc, q[0].0, q[0].1).0
       case None => []
       case Some(m) => [(q[0].0, m)])
      + Left(sc, q[1..])
  }

  function Reports(sc: Scan, q: Queue): seq<Report> {
    if q == [] then [] else Visit(sc, q[0].0, q[0].1).1 + Reports(sc, q[1..])
  }

  /** A scan of the slice that the range selects; the rest of the queue stays. */
  function Scanned(sc: Scan, q: Queue, r: Range): Queue {
    q[..Start(q, r.marker)] + Left(sc, Slice(q, r.marker, r.limit)) + q[Stop(q, r.marker, r.limit)..]
  }

  // ----- putting things back

  /** An entry whose contents have run out is dropped. */
  function Put<V>(s: seq<Entry<seq<V>>>, key: string, v: seq<V>): seq<Entry<seq<V>>>
    requires Has(s, key)
  {
    var i := IndexOf(s, key);
    if v == [] then Without(s, i) else s[i := (key, v)]
  }

  function Lookup<V>(s: seq<Entry<V>>, key: string): V
    requires Has(s, key)
  {
    s[IndexOf(s, key)].1
  }

  predicate HasQueue(s: Store, account: string, queue: string) {
    Has(s, account) && Has(Lookup(s, account), queue)
  }

  predicate HasMessage(s: Store, account: string, queue: string, id: string) {
    HasQueue(s, account, queue) && Has(QueueAt(s, account, queue), id)
  }

  function QueueAt(s: Store, account: string, queue: string): Queue
    requires HasQueue(s, account, queue)
  {
    Lookup(Lookup(s, account), queue)
  }

  /** Replaces a queue; if it is empty it goes, and with it its account if that is empty. */
  function PutQueue(s: Store, account: string, queue: string, q: Queue): Store
    requires HasQueue(s, account, queue)
  {
    Put(s, account, Put(Lookup(s, account), queue, q))
  }

  // ----- commands

  function ScanCommand(s: Store, account: string, queue: string, r: Range, sc: Scan): Answer {
    if !HasQueue(s, account, queue) then Answer(s, [], Fine)
    else
      var q := QueueAt(s, account, queue);
      Answer(PutQueue(s, account, queue, Scanned(sc, q, r)), Reports(sc, Slice(q, r.marker, r.limit)), Fine)
  }

  function Names<V>(s: seq<Entry<V>>): seq<string> {
    seq(|s|, i requires 0 <= i < |s| => s[i].0)
  }

  const AllVisible := Range(None, 0, false)

  function Purge(now: nat): Scan { Scan(Delete, false, false, now, 0, 0) }

  /** Deletes the visible messages of the named queues, one after the other. */
  function DeleteEach(s: Store, account: string, queues: seq<string>, now: nat): Store
    decreases |queues|
  {
    if queues == [] then s
    else DeleteEach(ScanCommand(s, account, queues[0], AllVisible, Purge(now)).store, account, queues[1..], now)
  }

  function DeleteQueuesIn(s: Store, account: string, r: Range, now: nat): Store {
    if !Has(s, account) then s
    else DeleteEach(s, account, Names(Slice(Lookup(s, account), r.marker, r.limit)), now)
  }

  function DeleteEachAccount(s: Store, accounts: seq<string>, now: nat): Store
    decreases |accounts|
  {
    if accounts == [] then s
    else DeleteEachAccount(DeleteQueuesIn(s, accounts[0], AllVisible, now), accounts[1..], now)
  }

  /** A message is created in place if its id exists, else appended, with its queue and
      account created as needed. */
  function Created(s: Store, account: string, queue: string, id: string, m: Msg): Store {
    var a := if Has(s, account) then Lookup(s, account) else [];
    var q := if Has(a, queue) then Lookup(a, queue) else [];
    Set(s, account, Set(a, queue, Set(q, id, m)))
  }

  function Set<V>(s: seq<Entry<V>>, key: string, v: V): seq<Entry<V>> {
    var i := IndexOf(s, key);
    if i < |s| then s[i := (key, v)] else s + [(key, v)]
  }

  const DEFAULT_TTL := 300

  function NewMessage(body: seq<int>, attributes: Option<Attributes>, now: nat): Msg {
    var ttl, hiding := TtlOf(attributes), HideOf(attributes);
    Msg(body, Plus32(now, if ttl.Some? then ttl.value else DEFAULT_TTL),
        if hiding.Some? && hiding.value != 0 then Plus32(now, hiding.value) else 0)
  }

  /** A single message found expired is dropped silently. */
  function OneMessage(s: Store, account: string, queue: string, id: string, now: nat, ttl: nat, hiding: nat): Answer {
    if !HasMessage(s, account, queue, id) then Answer(s, [], Invalid)
    else
      var q := QueueAt(s, account, queue);
      var m := Lookup(q, id);
      if Expired(m, now) then Answer(PutQueue(s, account, queue, Remove(q, id)), [], Fine)
      else
        var u := Updated(m, ttl, hiding);
        Answer(PutQueue(s, account, queue, Set(q, id, u)), [Told(id, u, now)], Fine)
  }

  function DropMessage(s: Store, account: string, queue: string, id: string, now: nat): Answer {
    if !HasMessage(s, account, queue, id) then Answer(s, [], Fine)
    else
      var q := QueueAt(s, account, queue);
      var m := Lookup(q, id);
      Answer(PutQueue(s, account, queue, Remove(q, id)), if Expired(m, now) then [] else [Told(id, m, now)], Fine)
  }

  /** A zero ttl in a single update counts as unset. */
  function PositiveTtl(attributes: Option<Attributes>): Option<nat> {
    var ttl := TtlOf(attributes);
    if ttl.Some? && ttl.value > 0 then ttl else None
  }

  function Interpret(s: Store, now: nat, c: Command): Answer {
    match c
    case GetAccounts(f) =>
      var names := Names(Slice(s, Resolve(f).marker, Resolve(f).limit));
      Answer(s, seq(|names|, i requires 0 <= i < |names| => AccountReport(names[i])), Fine)
    case DeleteAccounts(f) =>
      Answer(DeleteEachAccount(s, Names(Slice(s, Resolve(f).marker, Resolve(f).limit)), now), [], Fine)
    case GetQueues(account, f) =>
      if !Has(s, account) then Answer(s, [], Fine)
      else
        var names := Names(Slice(Lookup(s, account), Resolve(f).marker, Resolve(f).limit));
        Answer(s, seq(|names|, i requires 0 <= i < |names| => QueueReport(names[i])), Fine)
    case DeleteQueues(account, f) => Answer(DeleteQueuesIn(s, account, Resolve(f), now), [], Fine)
    case GetMessages(account, queue, f) =>
      ScanCommand(s, account, queue, Resolve(f), Scan(Get, true, Resolve(f).matchHidden, now, 0, 0))
    case UpdateMessages(account, queue, attributes, f) =>
      ScanCommand(s, account, queue, Resolve(f),
                  Scan(Update, true, Resolve(f).matchHidden, now,
                       Due(TtlOf(attributes), now), Due(HideOf(attributes), now)))
    case DeleteMessages(account, queue, f) =>
      ScanCommand(s, account, queue, Resolve(f), Scan(Delete, true, Resolve(f).matchHidden, now, 0, 0))
    case CreateMessage(account, queue, id, body, attributes) =>
      Answer(Created(s, account, queue, id, NewMessage(body, attributes, now)), [], Fine)
    case GetMessage(account, queue, id) => OneMessage(s, account, queue, id, now, 0, 0)
    case UpdateMessage(account, queue, id, attributes) =>
      OneMessage(s, account, queue, id, now,
                 Due(PositiveTtl(attributes), now), Due(HideOf(attributes), now))
    case DeleteMessage(account, queue, id) => DropMessage(s, account, queue, id, now)
  }

  datatype Outcomes = Outcomes(store: Store, log: seq<Report>, statuses: seq<Status>)

  /** A whole session: commands with the times at which they come. */
  function InterpretAll(s: Store, session: seq<(nat, Command)>): Outcomes
    decreases |session|
  {
    if session == [] then Outcomes(s, [], [])
    else
      var first := Interpret(s, session[0].0, session[0].1);
      var rest := InterpretAll(first.store, session[1..]);
      Outcomes(rest.store, first.log + rest.log, [first.status] + rest.statuses)
  }

  lemma {:induction false} InterpretMore(s: Store, session: seq<(nat, Command)>, now: nat, c: Command)
    ensures var before := InterpretAll(s, session);
            var last := Interpret(before.store, now, c);
            InterpretAll(s, session + [(now, c)])
            == Outcomes(last.store, before.log + last.log, before.statuses + [last.status])
    decreases |session|
  {
    hide Interpret;
    if session == [] {
      assert [(now, c)][1..] == [];
    } else {
      assert (session + [(now, c)])[1..] == session[1..] + [(now, c)];
      InterpretMore(Interpret(s, session[0].0, session[0].1).store, session[1..], now, c);
    }
  }
}
