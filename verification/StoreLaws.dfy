/** What every command does to every queue of the store. */
module StoreLaws {
  import opened Wrappers
  import opened AssocList
  import opened MemoryStore
  import opened MemoryLaws
  import opened ScanLaws

  /** The value under a key; a missing key stands for nothing. */
  function ValueOf<V>(s: seq<Entry<seq<V>>>, key: string): seq<V> {
    if Has(s, key) then Lookup(s, key) else []
  }

  function QueueOf(s: Store, account: string, queue: string): Queue { ValueOf(ValueOf(s, account), queue) }

  function MessageOf(s: Store, account: string, queue: string, id: string): Option<Msg> {
    Find(QueueOf(s, account, queue), id)
  }

  lemma ValueIs<V>(s: seq<Entry<seq<V>>>, key: string)
    ensures ValueOf(s, key) == if Find(s, key).Some? then Find(s, key).value else []
  {
  }

  /** In a tidy store a queue exists just when it holds a message. */
  lemma QueueExists(s: Store, account: string, queue: string)
    requires TidyStore(s)
    ensures HasQueue(s, account, queue) <==> QueueOf(s, account, queue) != []
    ensures HasQueue(s, account, queue) ==> QueueAt(s, account, queue) == QueueOf(s, account, queue)
    ensures Unique(QueueOf(s, account, queue))
  {
    hide IndexOf, Unique;
    NothingUnique<Msg>();
    if Has(s, account) {
      At(s, account);
      assert TidyAccount(Lookup(s, account));
      if Has(Lookup(s, account), queue) { At(Lookup(s, account), queue); }
    }
  }

  lemma NothingUnique<V>()
    ensures Unique<V>([])
  {
  }

  lemma {:induction false} FindSet<V>(s: seq<Entry<V>>, key: string, v: V, other: string)
    ensures Find(Set(s, key, v), other) == if other == key then Some(v) else Find(s, other)
  {
    hide IndexOf, Find, Set;
    SetIs(s, key, v);
    if s == [] {
      FindFirst((key, v), [], other);
      assert [(key, v)] + [] == [(key, v)];
    } else {
      assert s == [s[0]] + s[1..];
      FindFirst(s[0], s[1..], other);
      FindFirst(s[0], Set(s[1..], key, v), other);
      FindFirst((key, v), s[1..], other);
      FindSet(s[1..], key, v, other);
    }
  }

  lemma SetIs<V>(s: seq<Entry<V>>, key: string, v: V)
    ensures Set(s, key, v) ==
            if s == [] then [(key, v)]
            else if s[0].0 == key then [(key, v)] + s[1..]
            else [s[0]] + Set(s[1..], key, v)
  {
  }

  lemma FindWithout<V>(s: seq<Entry<V>>, i: nat, other: string)
    requires Unique(s) && i < |s|
    ensures Find(Without(s, i), other) == if other == s[i].0 then None else Find(s, other)
  {
    hide IndexOf, Find, Unique;
    assert s == s[..i] + ([s[i]] + s[i + 1..]);
    FindJoin(s[..i], s[i + 1..], other);
    FindJoin(s[..i], [s[i]] + s[i + 1..], other);
    FindFirst(s[i], s[i + 1..], other);
    FindIs(s[..i], other);
    if other == s[i].0 {
      UniqueParts(s, i, i + 1, i);
      NotFound(s[..i], other);
      NotFound(s[i + 1..], other);
    }
  }

  lemma PutOf<V>(s: seq<Entry<seq<V>>>, key: string, v: seq<V>, other: string)
    requires Unique(s) && Has(s, key)
    ensures ValueOf(Put(s, key, v), other) == if other == key then v else ValueOf(s, other)
  {
    hide IndexOf, ValueOf;
    ValueIs(s, other);
    ValueIs(Put(s, key, v), other);
    At(s, key);
    if v == [] {
      FindWithout(s, IndexOf(s, key), other);
    } else {
      FindSet(s, key, v, other);
    }
  }

  lemma PutQueueOf(s: Store, account: string, queue: string, q: Queue, a: string, b: string)
    requires TidyStore(s) && HasQueue(s, account, queue)
    ensures QueueOf(PutQueue(s, account, queue, q), a, b) ==
            if a == account && b == queue then q else QueueOf(s, a, b)
  {
    hide IndexOf, Put, Unique;
    At(s, account);
    assert TidyAccount(Lookup(s, account));
    PutOf(Lookup(s, account), queue, q, b);
    PutOf(s, account, Put(Lookup(s, account), queue, q), a);
  }

  lemma CreatedOf(s: Store, account: string, queue: string, id: string, m: Msg, a: string, b: string)
    ensures QueueOf(Created(s, account, queue, id, m), a, b) ==
            if a == account && b == queue then Set(QueueOf(s, a, b), id, m) else QueueOf(s, a, b)
  {
    hide IndexOf, Set;
    var c := ValueOf(s, account);
    var q := Set(ValueOf(c, queue), id, m);
    SetOf(c, queue, q, b);
    SetOf(s, account, Set(c, queue, q), a);
  }

  lemma SetOf<V>(s: seq<Entry<seq<V>>>, key: string, v: seq<V>, other: string)
    ensures ValueOf(Set(s, key, v), other) == if other == key then v else ValueOf(s, other)
  {
    hide IndexOf, Set, ValueOf;
    FindSet(s, key, v, other);
    ValueIs(s, other);
    ValueIs(Set(s, key, v), other);
  }

  /** A scan changes its queue as a scan does and no other. */
  lemma ScanCommandOf(s: Store, account: string, queue: string, r: Range, sc: Scan, a: string, b: string)
    requires TidyStore(s)
    ensures QueueOf(ScanCommand(s, account, queue, r, sc).store, a, b) ==
            if a == account && b == queue then Scanned(sc, QueueOf(s, a, b), r) else QueueOf(s, a, b)
    ensures ScanCommand(s, account, queue, r, sc).log == Reports(sc, Slice(QueueOf(s, account, queue), r.marker, r.limit))
  {
    hide IndexOf, Scanned, Reports, Slice, PutQueue, QueueOf, HasQueue, TidyStore;
    QueueExists(s, account, queue);
    if HasQueue(s, account, queue) {
      PutQueueOf(s, account, queue, Scanned(sc, QueueAt(s, account, queue), r), a, b);
    } else {
      NothingScanned(sc, r);
    }
  }

  lemma NothingScanned(sc: Scan, r: Range)
    ensures Scanned(sc, [], r) == [] && Reports(sc, Slice([], r.marker, r.limit)) == []
  {
  }

  // ----- bulk deletion

  /** What a bulk deletion leaves of a queue: its live hidden messages. */
  function Survivors(q: Queue, now: nat): Queue {
    Filter((e: Entry<Msg>) => !Expired(e.1, now) && Hidden(e.1, now), q)
  }

  lemma {:induction false} SurvivorsLeft(q: Queue, now: nat)
    ensures Left(Purge(now), q) == Survivors(q, now)
  {
    if q != [] { SurvivorsLeft(q[1..], now); }
  }

  lemma SurvivorsScanned(q: Queue, now: nat)
    ensures Scanned(Purge(now), q, AllVisible) == Survivors(q, now)
  {
    hide Left, Survivors;
    SurvivorsLeft(q, now);
    assert Slice(q, None, 0) == q && Start(q, None) == 0 && Stop(q, None, 0) == |q|;
  }

  lemma {:induction false} SurvivorsTwice(q: Queue, now: nat)
    ensures Survivors(Survivors(q, now), now) == Survivors(q, now)
  {
    if q != [] {
      SurvivorsTwice(q[1..], now);
      var rest := Survivors(q[1..], now);
      if !Expired(q[0].1, now) && Hidden(q[0].1, now) {
        assert ([q[0]] + rest)[1..] == rest;
      } else {
        assert Survivors(q, now) == rest;
      }
    }
  }

  lemma {:induction false} DeleteEachOf(s: Store, account: string, queues: seq<string>, now: nat, a: string, b: string)
    requires TidyStore(s)
    ensures QueueOf(DeleteEach(s, account, queues, now), a, b) ==
            if a == account && b in queues then Survivors(QueueOf(s, a, b), now) else QueueOf(s, a, b)
    decreases |queues|
  {
    hide ScanCommand, TidyStore, QueueOf, Survivors;
    if queues != [] {
      var t := ScanCommand(s, account, queues[0], AllVisible, Purge(now)).store;
      ScanCommandKeepsTidy(s, account, queues[0], AllVisible, Purge(now));
      ScanCommandOf(s, account, queues[0], AllVisible, Purge(now), a, b);
      SurvivorsScanned(QueueOf(s, a, b), now);
      SurvivorsTwice(QueueOf(s, a, b), now);
      DeleteEachOf(t, account, queues[1..], now, a, b);
      assert b in queues <==> b == queues[0] || b in queues[1..];
    }
  }

  /** Deleting queues leaves in each selected queue exactly its live hidden messages, and
      every other queue of any account as it is. */
  lemma DeleteQueuesLeavesHidden(s: Store, account: string, r: Range, now: nat, a: string, b: string)
    requires TidyStore(s)
    ensures QueueOf(DeleteQueuesIn(s, account, r, now), a, b) ==
            if a == account && b in Names(Slice(ValueOf(s, account), r.marker, r.limit))
            then Survivors(QueueOf(s, a, b), now)
            else QueueOf(s, a, b)
  {
    hide DeleteEach, TidyStore, QueueOf, Survivors, Slice, IndexOf;
    if Has(s, account) {
      DeleteEachOf(s, account, Names(Slice(Lookup(s, account), r.marker, r.limit)), now, a, b);
    } else {
      NothingSliced<Queue>(r);
    }
  }

  lemma NothingSliced<V>(r: Range)
    ensures Slice<V>([], r.marker, r.limit) == []
  {
  }

  lemma {:induction false} DeleteEachAccountOf(s: Store, accounts: seq<string>, now: nat, a: string, b: string)
    requires TidyStore(s)
    ensures QueueOf(DeleteEachAccount(s, accounts, now), a, b) ==
            if a in accounts then Survivors(QueueOf(s, a, b), now) else QueueOf(s, a, b)
    decreases |accounts|
  {
    hide DeleteQueuesIn, TidyStore, Survivors, Slice, IndexOf;
    if accounts != [] {
      var t := DeleteQueuesIn(s, accounts[0], AllVisible, now);
      DeleteQueuesInKeepsTidy(s, accounts[0], AllVisible, now);
      DeleteQueuesLeavesHidden(s, accounts[0], AllVisible, now, a, b);
      AllNamed(ValueOf(s, accounts[0]), b, now);
      SurvivorsTwice(QueueOf(s, a, b), now);
      DeleteEachAccountOf(t, accounts[1..], now, a, b);
      assert a in accounts <==> a == accounts[0] || a in accounts[1..];
    }
  }

  /** A queue that an unlimited selection does not name holds nothing. */
  lemma AllNamed(a: Account, b: string, now: nat)
    ensures b in Names(Slice(a, None, 0)) || ValueOf(a, b) == Survivors(ValueOf(a, b), now) == []
  {
    assert Slice(a, None, 0) == a;
    if Has(a, b) { assert Names(a)[IndexOf(a, b)] == b; }
  }

  /** Deleting accounts does so in every queue of the selected accounts. */
  lemma DeleteAccountsLeavesHidden(s: Store, filters: Option<Filters>, now: nat, a: string, b: string)
    requires TidyStore(s)
    ensures var r := Resolve(filters);
            QueueOf(Interpret(s, now, DeleteAccounts(filters)).store, a, b) ==
            if a in Names(Slice(s, r.marker, r.limit)) then Survivors(QueueOf(s, a, b), now) else QueueOf(s, a, b)
  {
    hide DeleteEachAccount, TidyStore, QueueOf, Survivors, Slice;
    DeleteEachAccountOf(s, Names(Slice(s, Resolve(filters).marker, Resolve(filters).limit)), now, a, b);
  }

  // ----- expired messages stay dead

  /** No message with this id outlives the time t. */
  predicate Dead(q: Queue, id: string, t: nat) {
    Find(q, id).Some? ==> Find(q, id).value.ttl <= t
  }

  predicate Untold(log: seq<Report>, id: string) {
    forall k :: 0 <= k < |log| && log[k].MessageReport? ==> log[k].id != id
  }

  lemma {:induction false} LeftAddsNothing(sc: Scan, q: Queue, id: string)
    requires Unique(q) && Find(q, id) == None
    ensures Find(Left(sc, q), id) == None
  {
    hide IndexOf, Find, Left;
    LeftKeeps(sc, q);
    FindIs(q, id);
    NotFound(Left(sc, q), id);
  }

  lemma FindPart<V>(q: seq<Entry<V>>, st: nat, sp: nat, id: string)
    requires st <= sp <= |q| && Find(q, id) == None
    ensures Find(q[..st], id) == Find(q[st..sp], id) == Find(q[sp..], id) == None
  {
    hide IndexOf, Find;
    assert q == q[..st] + (q[st..sp] + q[sp..]);
    FindJoin(q[..st], q[st..sp] + q[sp..], id);
    FindJoin(q[st..sp], q[sp..], id);
    FindIs(q[..st], id);
    FindIs(q[st..sp], id);
  }

  lemma ScanAddsNothing(sc: Scan, q: Queue, r: Range, id: string)
    requires Unique(q) && Find(q, id) == None
    ensures Find(Scanned(sc, q, r), id) == None
  {
    hide IndexOf, Find, Start, Stop, Left, Unique;
    var st, sp := Start(q, r.marker), Stop(q, r.marker, r.limit);
    var left := Left(sc, q[st..sp]);
    UniqueSlice(q, st, sp);
    FindPart(q, st, sp, id);
    LeftAddsNothing(sc, q[st..sp], id);
    FindJoin(q[..st] + left, q[sp..], id);
    FindJoin(q[..st], left, id);
    FindIs(q[..st] + left, id);
    FindIs(q[..st], id);
  }

  lemma UniqueSlice<V>(q: seq<Entry<V>>, st: nat, sp: nat)
    requires Unique(q) && st <= sp <= |q|
    ensures Unique(q[st..sp])
  {
  }

  lemma {:induction false} ExpiredUntold(sc: Scan, q: Queue, id: string)
    requires forall k :: 0 <= k < |q| && q[k].0 == id ==> Expired(q[k].1, sc.now)
    ensures Untold(Reports(sc, q), id)
  {
    if q != [] { ExpiredUntold(sc, q[1..], id); }
  }

  lemma FindPlace<V>(q: seq<Entry<V>>, id: string)
    ensures Find(q, id).Some? ==> IndexOf(q, id) < |q| && q[IndexOf(q, id)] == (id, Find(q, id).value)
    ensures Unique(q) ==> forall k :: 0 <= k < |q| && q[k].0 == id ==> Find(q, id) == Some(q[k].1)
  {
  }

  lemma DeadScanned(sc: Scan, q: Queue, r: Range, id: string, t: nat)
    requires Unique(q) && Dead(q, id, t) && t <= sc.now
    ensures Dead(Scanned(sc, q, r), id, t) && Untold(Reports(sc, Slice(q, r.marker, r.limit)), id)
  {
    hide IndexOf, Find, Start, Stop, Scanned, Reports;
    FindPlace(q, id);
    if Find(q, id).None? {
      ScanAddsNothing(sc, q, r, id);
    } else {
      ScanPartition(sc, q, r, IndexOf(q, id));
    }
    ExpiredUntold(sc, Slice(q, r.marker, r.limit), id);
  }

  lemma DeadSet(q: Queue, other: string, m: Msg, id: string, t: nat)
    requires Dead(q, id, t) && (other == id ==> m.ttl <= t)
    ensures Dead(Set(q, other, m), id, t)
  {
    hide IndexOf, Find, Set;
    FindSet(q, other, m, id);
  }

  lemma DeadRemove(q: Queue, other: string, id: string, t: nat)
    requires Unique(q) && Dead(q, id, t)
    ensures Dead(Remove(q, other), id, t)
  {
    hide Find;
    if Has(q, other) { FindWithout(q, IndexOf(q, other), id); }
  }

  lemma ScanCommandDead(s: Store, account: string, queue: string, r: Range, sc: Scan, a: string, b: string,
    id: string, t: nat)
    requires TidyStore(s) && Dead(QueueOf(s, a, b), id, t) && t <= sc.now
    ensures Dead(QueueOf(ScanCommand(s, account, queue, r, sc).store, a, b), id, t)
    ensures a == account && b == queue ==> Untold(ScanCommand(s, account, queue, r, sc).log, id)
  {
    hide IndexOf, Scanned, Reports, Slice, QueueOf, ScanCommand, TidyStore, Find;
    QueueExists(s, a, b);
    ScanCommandOf(s, account, queue, r, sc, a, b);
    DeadScanned(sc, QueueOf(s, a, b), r, id, t);
  }

  lemma SingleDead(s: Store, account: string, queue: string, other: string, m: Msg, a: string, b: string,
    id: string, t: nat)
    requires TidyStore(s) && Dead(QueueOf(s, a, b), id, t) && HasQueue(s, account, queue)
    ensures Dead(QueueOf(PutQueue(s, account, queue, Remove(QueueAt(s, account, queue), other)), a, b), id, t)
    ensures !(a == account && b == queue && other == id) ==>
              Dead(QueueOf(PutQueue(s, account, queue, Set(QueueAt(s, account, queue), other, m)), a, b), id, t)
  {
    hide IndexOf, QueueOf, PutQueue, Set, Remove, TidyStore, Find;
    QueueExists(s, account, queue);
    var q := QueueAt(s, account, queue);
    PutQueueOf(s, account, queue, Remove(q, other), a, b);
    PutQueueOf(s, account, queue, Set(q, other, m), a, b);
    if a == account && b == queue {
      DeadRemove(q, other, id, t);
      if other != id { DeadSet(q, other, m, id, t); }
    }
  }

  lemma OneMessageDead(s: Store, account: string, queue: string, other: string, now: nat, ttl: nat, hiding: nat,
      a: string, b: string, id: string, t: nat)
    requires TidyStore(s) && Dead(QueueOf(s, a, b), id, t) && t <= now
    ensures var answer := OneMessage(s, account, queue, other, now, ttl, hiding);
            && Dead(QueueOf(answer.store, a, b), id, t)
            && (a == account && b == queue ==> Untold(answer.log, id))
  {
    hide IndexOf, QueueOf, PutQueue, Set, Remove, TidyStore, Find;
    if HasMessage(s, account, queue, other) {
      QueueExists(s, account, queue);
      var q := QueueAt(s, account, queue);
      FoundIs(q, other);
      SingleDead(s, account, queue, other, Updated(Lookup(q, other), ttl, hiding), a, b, id, t);
    }
  }

  lemma FoundIs<V>(q: seq<Entry<V>>, id: string)
    requires Has(q, id)
    ensures Find(q, id) == Some(Lookup(q, id))
  {
  }

  lemma DropMessageDead(s: Store, account: string, queue: string, other: string, now: nat, a: string, b: string,
    id: string, t: nat)
    requires TidyStore(s) && Dead(QueueOf(s, a, b), id, t) && t <= now
    ensures var answer := DropMessage(s, account, queue, other, now);
            && Dead(QueueOf(answer.store, a, b), id, t)
            && (a == account && b == queue ==> Untold(answer.log, id))
  {
    hide IndexOf, QueueOf, PutQueue, Remove, TidyStore, Find;
    if HasMessage(s, account, queue, other) {
      QueueExists(s, account, queue);
      FoundIs(QueueAt(s, account, queue), other);
      SingleDead(s, account, queue, other, Msg([], 0, 0), a, b, id, t);
    }
  }

  lemma SurvivorsDead(q: Queue, now: nat, id: string, t: nat)
    requires Unique(q) && Dead(q, id, t) && t <= now
    ensures Dead(Survivors(q, now), id, t)
  {
    hide Find, Scanned, Survivors;
    SurvivorsScanned(q, now);
    DeadScanned(Purge(now), q, AllVisible, id, t);
  }

  /** The command is about this queue's messages. */
  predicate Addresses(c: Command, a: string, b: string) {
    match c
    case GetAccounts(_) => false
    case DeleteAccounts(_) => false
    case GetQueues(_, _) => false
    case DeleteQueues(_, _) => false
    case GetMessages(account, queue, _) => account == a && queue == b
    case UpdateMessages(account, queue, _, _) => account == a && queue == b
    case DeleteMessages(account, queue, _) => account == a && queue == b
    case CreateMessage(account, queue, _, _, _) => account == a && queue == b
    case GetMessage(account, queue, _) => account == a && queue == b
    case UpdateMessage(account, queue, _, _) => account == a && queue == b
    case DeleteMessage(account, queue, _) => account == a && queue == b
  }

  predicate Creates(c: Command, a: string, b: string, id: string) {
    c.CreateMessage? && c.account == a && c.queue == b && c.id == id
  }

  /** A message whose time is over is told by no command on its queue, and no command but its
      creation brings it back. */
  lemma InterpretKeepsDead(s: Store, now: nat, c: Command, a: string, b: string, id: string, t: nat)
    requires TidyStore(s) && Dead(QueueOf(s, a, b), id, t) && t <= now && !Creates(c, a, b, id)
    ensures Dead(QueueOf(Interpret(s, now, c).store, a, b), id, t)
    ensures Addresses(c, a, b) ==> Untold(Interpret(s, now, c).log, id)
  {
    hide TidyStore, QueueOf, Dead, ScanCommand, OneMessage, DropMessage, DeleteQueuesIn, DeleteEachAccount,
      Created, Slice, Has;
    QueueExists(s, a, b);
    match c {
      case GetAccounts(f) =>
      case DeleteAccounts(f) =>
        DeleteAccountsLeavesHidden(s, f, now, a, b);
        SurvivorsDead(QueueOf(s, a, b), now, id, t);
      case GetQueues(account, f) =>
      case DeleteQueues(account, f) =>
        DeleteQueuesLeavesHidden(s, account, Resolve(f), now, a, b);
        SurvivorsDead(QueueOf(s, a, b), now, id, t);
      case GetMessages(account, queue, f) =>
        ScanCommandDead(s, account, queue, Resolve(f), Scan(Get, true, Resolve(f).matchHidden, now, 0, 0), a, b, id, t);
      case UpdateMessages(account, queue, attributes, f) =>
        ScanCommandDead(s, account, queue, Resolve(f),
                        Scan(Update, true, Resolve(f).matchHidden, now,
                             Due(TtlOf(attributes), now), Due(HideOf(attributes), now)), a, b, id, t);
      case DeleteMessages(account, queue, f) =>
        ScanCommandDead(s, account, queue, Resolve(f), Scan(Delete, true, Resolve(f).matchHidden, now, 0, 0), a, b,
          id, t);
      case CreateMessage(account, queue, other, body, attributes) =>
        CreatedOf(s, account, queue, other, NewMessage(body, attributes, now), a, b);
        if a == account && b == queue {
          DeadSet(QueueOf(s, a, b), other, NewMessage(body, attributes, now), id, t);
        }
      case GetMessage(account, queue, other) => OneMessageDead(s, account, queue, other, now, 0, 0, a, b, id, t);
      case UpdateMessage(account, queue, other, attributes) =>
        OneMessageDead(s, account, queue, other, now,
                       Due(PositiveTtl(attributes), now), Due(HideOf(attributes), now), a, b, id, t);
      case DeleteMessage(account, queue, other) => DropMessageDead(s, account, queue, other, now, a, b, id, t);
    }
  }

  /** The clock never goes back. */
  predicate Timely(session: seq<(nat, Command)>, from: nat) {
    forall i :: 0 <= i < |session| ==> from <= session[i].0 && forall j :: 0 <= j < i ==> session[j].0 <= session[i].0
  }

  /** The log of the commands of a session that are about one queue. */
  function LogOf(s: Store, session: seq<(nat, Command)>, a: string, b: string): seq<Report>
    decreases |session|
  {
    if session == [] then []
    else
      var first := Interpret(s, session[0].0, session[0].1);
      (if Addresses(session[0].1, a, b) then first.log else []) + LogOf(first.store, session[1..], a, b)
  }

  /** Over any session with a clock that does not go back, a message that has expired by the
      start is never told and never returns, unless it is created again. */
  lemma {:induction false} ExpiredStaysDead(s: Store, session: seq<(nat, Command)>, a: string, b: string,
    id: string, t: nat)
    requires TidyStore(s) && Dead(QueueOf(s, a, b), id, t) && Timely(session, t)
    requires forall i :: 0 <= i < |session| ==> !Creates(session[i].1, a, b, id)
    ensures Dead(QueueOf(InterpretAll(s, session).store, a, b), id, t)
    ensures Untold(LogOf(s, session, a, b), id)
    decreases |session|
  {
    hide TidyStore, QueueOf, Dead, Interpret, Addresses, Creates;
    if session != [] {
      var first := Interpret(s, session[0].0, session[0].1);
      InterpretKeepsTidy(s, session[0].0, session[0].1);
      InterpretKeepsDead(s, session[0].0, session[0].1, a, b, id, t);
      ExpiredStaysDead(first.store, session[1..], a, b, id, t);
    }
  }

  // ----- order

  lemma {:induction false} ThinnedThinned<V>(s: seq<Entry<V>>, t: seq<Entry<V>>, u: seq<Entry<V>>)
    requires Thinned(s, t) && Thinned(t, u)
    ensures Thinned(s, u)
  {
    if s != [] {
      if t != [] && t[0].0 == s[0].0 && Thinned(s[1..], t[1..]) {
        if u != [] && u[0].0 == t[0].0 && Thinned(t[1..], u[1..]) {
          ThinnedThinned(s[1..], t[1..], u[1..]);
        } else {
          ThinnedThinned(s[1..], t[1..], u);
        }
      } else {
        ThinnedThinned(s[1..], t, u);
      }
    }
  }

  lemma PutThins<V>(s: seq<Entry<seq<V>>>, key: string, v: seq<V>)
    requires Has(s, key)
    ensures Thinned(s, Put(s, key, v))
  {
    hide Thinned, IndexOf;
    var i := IndexOf(s, key);
    var mid := if v == [] then [] else [(key, v)];
    assert s == s[..i] + [s[i]] + s[i + 1..];
    assert Put(s, key, v) == s[..i] + mid + s[i + 1..];
    ThinnedSelf(s[..i]);
    ThinnedSelf(s[i + 1..]);
    ThinnedOne(s[i], mid);
    ThinnedJoin(s[..i], s[..i], [s[i]], mid);
    ThinnedJoin(s[..i] + [s[i]], s[..i] + mid, s[i + 1..], s[i + 1..]);
  }

  lemma ThinnedOne<V>(e: Entry<V>, mid: seq<Entry<V>>)
    requires mid == [] || (|mid| == 1 && mid[0].0 == e.0)
    ensures Thinned([e], mid)
  {
    assert [e][1..] == [] && (mid != [] ==> mid[1..] == []);
  }

  lemma PutQueueThins(s: Store, account: string, queue: string, q: Queue, a: string)
    requires TidyStore(s) && HasQueue(s, account, queue)
    ensures var t := PutQueue(s, account, queue, q);
            Thinned(s, t) && Thinned(ValueOf(s, a), ValueOf(t, a))
  {
    hide Thinned, IndexOf, Put, Unique;
    var b := Put(Lookup(s, account), queue, q);
    PutThins(s, account, b);
    PutThins(Lookup(s, account), queue, q);
    PutOf(s, account, b, a);
    ThinnedSelf(ValueOf(s, a));
  }

  /** The accounts of one store are some of another's, in order, and so are an account's queues. */
  predicate Fewer(s: Store, t: Store, a: string) {
    Thinned(s, t) && Thinned(ValueOf(s, a), ValueOf(t, a))
  }

  lemma FewerSelf(s: Store, a: string)
    ensures Fewer(s, s, a)
  {
    ThinnedSelf(s);
    ThinnedSelf(ValueOf(s, a));
  }

  lemma FewerFewer(s: Store, t: Store, u: Store, a: string)
    requires Fewer(s, t, a) && Fewer(t, u, a)
    ensures Fewer(s, u, a)
  {
    ThinnedThinned(s, t, u);
    ThinnedThinned(ValueOf(s, a), ValueOf(t, a), ValueOf(u, a));
  }

  lemma ScanCommandFewer(s: Store, account: string, queue: string, r: Range, sc: Scan, a: string)
    requires TidyStore(s)
    ensures Fewer(s, ScanCommand(s, account, queue, r, sc).store, a)
  {
    hide TidyStore, HasQueue, QueueAt, PutQueue, Scanned, Thinned, ValueOf;
    if HasQueue(s, account, queue) {
      PutQueueThins(s, account, queue, Scanned(sc, QueueAt(s, account, queue), r), a);
    } else {
      FewerSelf(s, a);
    }
  }

  lemma {:induction false} DeleteEachFewer(s: Store, account: string, queues: seq<string>, now: nat, a: string)
    requires TidyStore(s)
    ensures Fewer(s, DeleteEach(s, account, queues, now), a)
    decreases |queues|
  {
    hide TidyStore, ScanCommand, Fewer;
    if queues == [] {
      FewerSelf(s, a);
    } else {
      var t := ScanCommand(s, account, queues[0], AllVisible, Purge(now)).store;
      ScanCommandKeepsTidy(s, account, queues[0], AllVisible, Purge(now));
      ScanCommandFewer(s, account, queues[0], AllVisible, Purge(now), a);
      DeleteEachFewer(t, account, queues[1..], now, a);
      FewerFewer(s, t, DeleteEach(s, account, queues, now), a);
    }
  }

  lemma DeleteQueuesInFewer(s: Store, account: string, r: Range, now: nat, a: string)
    requires TidyStore(s)
    ensures Fewer(s, DeleteQueuesIn(s, account, r, now), a)
  {
    hide TidyStore, DeleteEach, Fewer, Slice, IndexOf;
    FewerSelf(s, a);
    if Has(s, account) {
      DeleteEachFewer(s, account, Names(Slice(Lookup(s, account), r.marker, r.limit)), now, a);
    }
  }

  lemma {:induction false} DeleteEachAccountFewer(s: Store, accounts: seq<string>, now: nat, a: string)
    requires TidyStore(s)
    ensures Fewer(s, DeleteEachAccount(s, accounts, now), a)
    decreases |accounts|
  {
    hide TidyStore, DeleteQueuesIn, Fewer;
    if accounts == [] {
      FewerSelf(s, a);
    } else {
      var t := DeleteQueuesIn(s, accounts[0], AllVisible, now);
      DeleteQueuesInKeepsTidy(s, accounts[0], AllVisible, now);
      DeleteQueuesInFewer(s, accounts[0], AllVisible, now, a);
      DeleteEachAccountFewer(t, accounts[1..], now, a);
      FewerFewer(s, t, DeleteEachAccount(s, accounts, now), a);
    }
  }

  /** No command but a creation adds or reorders accounts or queues. */
  lemma InterpretKeepsOrder(s: Store, now: nat, c: Command, a: string)
    requires TidyStore(s) && !c.CreateMessage?
    ensures Fewer(s, Interpret(s, now, c).store, a)
  {
    hide TidyStore, Fewer, ScanCommand, DeleteQueuesIn, DeleteEachAccount, Slice, PutQueue, HasQueue, QueueAt,
      IndexOf, Set, Remove, Thinned, ValueOf;
    FewerSelf(s, a);
    match c {
      case GetAccounts(f) =>
      case DeleteAccounts(f) =>
        DeleteEachAccountFewer(s, Names(Slice(s, Resolve(f).marker, Resolve(f).limit)), now, a);
      case GetQueues(account, f) =>
      case DeleteQueues(account, f) => DeleteQueuesInFewer(s, account, Resolve(f), now, a);
      case GetMessages(account, queue, f) =>
        ScanCommandFewer(s, account, queue, Resolve(f), Scan(Get, true, Resolve(f).matchHidden, now, 0, 0), a);
      case UpdateMessages(account, queue, attributes, f) =>
        ScanCommandFewer(s, account, queue, Resolve(f),
                         Scan(Update, true, Resolve(f).matchHidden, now,
                              Due(TtlOf(attributes), now), Due(HideOf(attributes), now)), a);
      case DeleteMessages(account, queue, f) =>
        ScanCommandFewer(s, account, queue, Resolve(f), Scan(Delete, true, Resolve(f).matchHidden, now, 0, 0), a);
      case GetMessage(account, queue, id) => OneMessageFewer(s, account, queue, id, now, 0, 0, a);
      case UpdateMessage(account, queue, id, attributes) =>
        OneMessageFewer(s, account, queue, id, now,
                        Due(PositiveTtl(attributes), now), Due(HideOf(attributes), now), a);
      case DeleteMessage(account, queue, id) =>
        if HasMessage(s, account, queue, id) {
          PutQueueFewer(s, account, queue, Remove(QueueAt(s, account, queue), id), a);
        }
    }
  }

  lemma PutQueueFewer(s: Store, account: string, queue: string, q: Queue, a: string)
    requires TidyStore(s) && HasQueue(s, account, queue)
    ensures Fewer(s, PutQueue(s, account, queue, q), a)
  {
    hide TidyStore, HasQueue, PutQueue, Thinned, ValueOf;
    PutQueueThins(s, account, queue, q, a);
  }

  lemma OneMessageFewer(s: Store, account: string, queue: string, id: string, now: nat, ttl: nat, hiding: nat, a: string)
    requires TidyStore(s)
    ensures Fewer(s, OneMessage(s, account, queue, id, now, ttl, hiding).store, a)
  {
    hide TidyStore, Fewer, PutQueue, HasQueue, QueueAt, IndexOf, Set, Remove;
    FewerSelf(s, a);
    if HasMessage(s, account, queue, id) {
      var q := QueueAt(s, account, queue);
      PutQueueFewer(s, account, queue, Remove(q, id), a);
      PutQueueFewer(s, account, queue, Set(q, id, Updated(Lookup(q, id), ttl, hiding)), a);
    }
  }

  /** Creating puts a new key at the end and leaves the order of the others. */
  lemma SetKeepsNames<V>(s: seq<Entry<V>>, key: string, v: V)
    ensures Names(Set(s, key, v)) == if Has(s, key) then Names(s) else Names(s) + [key]
  {
  }

  lemma CreationAppends(s: Store, account: string, queue: string, id: string, m: Msg)
    ensures var t := Created(s, account, queue, id, m);
            && Names(t) == (if Has(s, account) then Names(s) else Names(s) + [account])
            && (var a := ValueOf(s, account);
                Names(ValueOf(t, account)) == if Has(a, queue) then Names(a) else Names(a) + [queue])
            && (var q := QueueOf(s, account, queue);
                Names(QueueOf(t, account, queue)) == if Has(q, id) then Names(q) else Names(q) + [id])
            && MessageOf(t, account, queue, id) == Some(m)
  {
    hide IndexOf, Set, Find, Names;
    var a := ValueOf(s, account);
    var q := ValueOf(a, queue);
    var b := Set(a, queue, Set(q, id, m));
    SetKeepsNames(s, account, b);
    SetKeepsNames(a, queue, Set(q, id, m));
    SetKeepsNames(q, id, m);
    SetOf(s, account, b, account);
    CreatedOf(s, account, queue, id, m, account, queue);
    FindSet(q, id, m, id);
  }
}
