/** The heap of the memory backend: what its dictionaries of dictionaries of messages stand
    for, and how changes of one list leave the others alone. */
module MemoryHeap {
  import opened Wrappers
  import opened AssocList
  import opened Dictionary
  import opened MemoryStore

  class Message {
    /** The queue that the message is put in. */
    ghost var owner: object?
    const id: string
    const body: seq<int>
    var ttl: nat
    var hiding: nat

    constructor (id: string, body: seq<int>, ttl: nat, hiding: nat)
      ensures this.id == id && this.body == body && this.ttl == ttl && this.hiding == hiding
    {
      this.owner := null;
      this.id, this.body, this.ttl, this.hiding := id, body, ttl, hiding;
    }

    ghost function Value(): Msg
      reads this
    {
      Msg(body, ttl, hiding)
    }
  }

  type Messages = Dictionary<Message>
  type Queues = Dictionary<Messages>
  type Accounts = Dictionary<Queues>

  // ----- what the heap stands for

  ghost predicate SameKeys<U, V>(s: seq<Entry<U>>, t: seq<Entry<V>>) {
    |s| == |t| && forall i :: 0 <= i < |s| ==> s[i].0 == t[i].0
  }

  ghost function Data<V>(s: seq<Entry<V>>): set<V> {
    set i | 0 <= i < |s| :: s[i].1
  }

  /** A dictionary and its nodes. */
  ghost function Parts<V>(d: Dictionary<V>): set<object>
    reads d
  {
    {d} + set x | 0 <= x < |d.Nodes| :: d.Nodes[x]
  }

  ghost function QueueParts(d: Messages): set<object>
    reads d
  {
    Parts(d) + Data(d.Entries)
  }

  /** A dictionary that belongs to an owner under a name and has the keys of a list. */
  ghost predicate Lists<U, V>(d: Dictionary<U>, e: Entry<seq<Entry<V>>>, owner: object?)
    reads d, Parts(d)
  {
    && d.Valid() && d.owner == owner && d.name == e.0
    && SameKeys(d.Entries, e.1) && Unique(e.1)
  }

  ghost predicate MessageIs(m: Message, e: Entry<Msg>, d: Messages)
    reads m
  {
    m.owner == d && m.id == e.0 && m.Value() == e.1
  }

  ghost predicate QueueIs(d: Messages, e: Entry<Queue>, a: Queues)
    reads d, QueueParts(d)
  {
    && Lists(d, e, a)
    && (forall k :: 0 <= k < |e.1| ==> MessageIs(d.Entries[k].1, e.1[k], d))
  }

  /** All objects of an account. */
  ghost function AccountParts(a: Queues): set<object>
    reads a, Data(a.Entries)
  {
    Parts(a) + set j, o | 0 <= j < |a.Entries| && o in QueueParts(a.Entries[j].1) :: o
  }

  ghost predicate AccountIs(a: Queues, e: Entry<Account>, s: Accounts)
    reads a, Data(a.Entries), AccountParts(a)
  {
    && Lists(a, e, s)
    && (forall j :: 0 <= j < |e.1| ==>
          QueueParts(a.Entries[j].1) <= AccountParts(a) && QueueIs(a.Entries[j].1, e.1[j], a))
  }

  /** The backend's dictionaries stand for a store, and all their objects are among these. */
  ghost predicate StoreIs(s: Accounts, store: Store, repr: set<object>)
    reads s, repr
  {
    && Parts(s) <= repr && Lists(s, ("", store), null)
    && (forall i :: 0 <= i < |store| ==>
          && s.Entries[i].1 in repr && Data(s.Entries[i].1.Entries) <= repr && AccountParts(s.Entries[i].1) <= repr
          && AccountIs(s.Entries[i].1, store[i], s))
  }

  // ----- one queue

  lemma KeyAt<U, V>(c: seq<Entry<U>>, s: seq<Entry<V>>, pos: nat)
    requires SameKeys(c, s) && Unique(s) && pos < |s|
    ensures IndexOf(c, s[pos].0) == pos
  {
  }

  lemma WithoutAt<T>(s: seq<T>, pos: nat)
    requires pos < |s|
    ensures var t := s[..pos] + s[pos + 1..];
            |t| == |s| - 1 && forall i :: 0 <= i < |t| ==> t[i] == s[if i < pos then i else i + 1]
  {
  }

  lemma WithoutKeys<U, V>(c: seq<Entry<U>>, s: seq<Entry<V>>, pos: nat)
    requires SameKeys(c, s) && Unique(s) && pos < |s|
    ensures SameKeys(Without(c, pos), Without(s, pos)) && Unique(Without(s, pos))
  {
    WithoutAt(c, pos);
    WithoutAt(s, pos);
  }

  /** Deleting by key the node at a position. */
  method DeleteAt<U, V>(d: Dictionary<U>, key: string, ghost e: Entry<seq<Entry<V>>>, ghost owner: object?,
    ghost pos: nat)
    requires Lists(d, e, owner) && pos < |e.1| && e.1[pos].0 == key
    modifies d, d.Nodes
    ensures Lists(d, (e.0, Without(e.1, pos)), owner) && d.Entries == Without(old(d.Entries), pos)
    ensures Parts(d) <= old(Parts(d))
    ensures forall x :: 0 <= x < |d.Nodes| ==> d.Nodes[x] in old(d.Nodes)
  {
    hide Unique, SameKeys, IndexOf, Dictionary.Valid;
    KeyAt(d.Entries, e.1, pos);
    WithoutKeys(d.Entries, e.1, pos);
    d.LengthIs();
    assert |d.Entries| == |e.1| by { SameLength(d.Entries, e.1); }
    d.DeleteNode(key);
  }

  lemma SameLength<U, V>(c: seq<Entry<U>>, s: seq<Entry<V>>)
    requires SameKeys(c, s)
    ensures |c| == |s|
  {
  }

  lemma MessagesAre(d: Messages, e: Entry<Queue>, a: Queues)
    requires QueueIs(d, e, a)
    ensures Lists(d, e, a) && |d.Entries| == |e.1|
    ensures forall k :: 0 <= k < |e.1| ==> MessageIs(d.Entries[k].1, e.1[k], d)
  {
  }

  method DropAt(d: Messages, key: string, ghost e: Entry<Queue>, ghost a: Queues, ghost pos: nat)
    requires QueueIs(d, e, a) && pos < |e.1| && e.1[pos].0 == key
    modifies Parts(d)
    ensures QueueIs(d, (e.0, Without(e.1, pos)), a) && d.Entries == Without(old(d.Entries), pos)
    ensures Parts(d) <= old(Parts(d)) && QueueParts(d) <= old(QueueParts(d))
    ensures forall x :: 0 <= x < |d.Nodes| ==> d.Nodes[x] in old(d.Nodes)
  {
    hide Lists, Parts;
    MessagesAre(d, e, a);
    ghost var c := d.Entries;
    PartsHas(d);
    WithoutAt(c, pos);
    WithoutAt(e.1, pos);
    DataWithout(c, pos);
    DeleteAt(d, key, e, a, pos);
  }

  lemma DataWithout<V>(c: seq<Entry<V>>, pos: nat)
    requires pos < |c|
    ensures Data(Without(c, pos)) <= Data(c)
  {
    WithoutAt(c, pos);
    forall v | v in Data(Without(c, pos))
      ensures v in Data(c)
    {
      var k :| 0 <= k < |Without(c, pos)| && Without(c, pos)[k].1 == v;
      assert c[if k < pos then k else k + 1].1 == v;
    }
  }

  /** Setting the times of a message that stands at a position. */
  method SetTimes(m: Message, ttl: nat, hiding: nat, ghost d: Messages, ghost e: Entry<Queue>, ghost a: Queues,
    ghost pos: nat)
    requires QueueIs(d, e, a) && pos < |e.1| && m == d.Entries[pos].1
    modifies m`ttl, m`hiding
    ensures QueueIs(d, (e.0, e.1[pos := (e.1[pos].0, Updated(e.1[pos].1, ttl, hiding))]), a)
    ensures m.Value() == Updated(e.1[pos].1, ttl, hiding)
  {
    hide Dictionary.Valid;
    MessagesAre(d, e, a);
    assert forall k :: 0 <= k < |e.1| && k != pos ==> d.Entries[k].1 != m by { OthersDiffer(d, e, a, pos); }
    if ttl != 0 { m.ttl := ttl; }
    if hiding != 0 { m.hiding := hiding; }
  }

  lemma OthersDiffer(d: Messages, e: Entry<Queue>, a: Queues, pos: nat)
    requires QueueIs(d, e, a) && pos < |e.1|
    ensures forall k :: 0 <= k < |e.1| && k != pos ==> d.Entries[k].1 != d.Entries[pos].1
  {
    hide Lists;
    MessagesAre(d, e, a);
    forall k | 0 <= k < |e.1| && k != pos
      ensures d.Entries[k].1 != d.Entries[pos].1
    {
      assert MessageIs(d.Entries[k].1, e.1[k], d) && MessageIs(d.Entries[pos].1, e.1[pos], d);
      assert e.1[k].0 != e.1[pos].0 by { KeysDiffer(d, e, a, k, pos); }
    }
  }

  lemma KeysDiffer(d: Messages, e: Entry<Queue>, a: Queues, k: nat, pos: nat)
    requires Lists(d, e, a) && k < |e.1| && pos < |e.1| && k != pos
    ensures e.1[k].0 != e.1[pos].0
  {
  }

  /** What a visit leaves at a position. */
  function Leave(q: Queue, pos: nat, left: Option<Msg>): Queue
    requires pos < |q|
  {
    match left
    case None => Without(q, pos)
    case Some(m) => q[pos := (q[pos].0, m)]
  }

  /** A queue in the middle of a scan that starts at st, i messages on. */
  ghost function Scanning(sc: Scan, q: Queue, st: nat, i: nat): Queue
    requires st + i <= |q|
  {
    q[..st] + Left(sc, q[st..st + i]) + q[st + i..]
  }

  lemma ScanStarts(sc: Scan, q: Queue, st: nat)
    requires st <= |q|
    ensures Scanning(sc, q, st, 0) == q && Left(sc, q[st..st]) == [] && Reports(sc, q[st..st]) == []
  {
  }

  lemma {:induction false} LeftMore(sc: Scan, q: Queue, e: Entry<Msg>)
    ensures Left(sc, q + [e]) == Left(sc, q) + match Visit(sc, e.0, e.1).0 case None => [] case Some(m) => [(e.0, m)]
  {
    if q == [] {
      assert [e][1..] == [] && Left(sc, []) == [];
    } else {
      assert (q + [e])[1..] == q[1..] + [e];
      LeftMore(sc, q[1..], e);
    }
  }

  lemma {:induction false} ReportsMore(sc: Scan, q: Queue, e: Entry<Msg>)
    ensures Reports(sc, q + [e]) == Reports(sc, q) + Visit(sc, e.0, e.1).1
  {
    if q == [] {
      assert [e][1..] == [] && Reports(sc, []) == [];
    } else {
      assert (q + [e])[1..] == q[1..] + [e];
      ReportsMore(sc, q[1..], e);
    }
  }

  /** One turn of a scan, on the queue's value. */
  lemma TurnQueue(sc: Scan, q: Queue, st: nat, i: nat)
    requires st + i < |q|
    ensures var (k, left) := (st + |Left(sc, q[st..st + i])|, Visit(sc, q[st + i].0, q[st + i].1).0);
            && k < |Scanning(sc, q, st, i)| && Scanning(sc, q, st, i)[k] == q[st + i]
            && Leave(Scanning(sc, q, st, i), k, left) == Scanning(sc, q, st, i + 1)
            && st + |Left(sc, q[st..st + i + 1])| == if left.None? then k else k + 1
  {
    hide Visit, Left;
    SliceMore(q, st, st + i);
    LeftMore(sc, q[st..st + i], q[st + i]);
    Replaced(q[..st] + Left(sc, q[st..st + i]), q, st + i);
  }

  lemma Replaced<T>(front: seq<T>, q: seq<T>, x: nat)
    requires x < |q|
    ensures (front + q[x..])[|front|] == q[x]
    ensures (front + q[x..])[..|front|] + (front + q[x..])[|front| + 1..] == front + q[x + 1..]
    ensures forall y :: (front + q[x..])[|front| := y] == front + [y] + q[x + 1..]
  {
  }

  lemma TurnEntries<V>(es: seq<Entry<V>>, p: nat, c: seq<Entry<V>>, x: nat)
    requires p <= |es| && x < |c| && es[p..] == c[x..]
    ensures p < |es| && es[p] == c[x] && es[p + 1..] == c[x + 1..] && Without(es, p)[p..] == c[x + 1..]
    ensures es[p].1 in Data(es) && Data(Without(es, p)) <= Data(es)
  {
    assert es[p] == es[p..][0];
    assert es[p + 1..] == es[p..][1..] == c[x..][1..];
    DataWithout(es, p);
    WithoutAt(es, p);
  }

  lemma SliceOf(sc: Scan, d: Messages, e: Entry<Queue>, a: Queues, r: Range)
    requires QueueIs(d, e, a)
    ensures var (st, sp) := (Start(e.1, r.marker), Stop(e.1, r.marker, r.limit));
            && d.Valid() && st <= sp <= |d.Entries| == |e.1|
            && (forall k :: 0 <= k < |e.1| ==> d.Entries[k].0 == e.1[k].0 && d.Entries[k].1 in Data(d.Entries))
            && Slice(d.Entries, r.marker, r.limit) == d.Entries[st..sp]
            && Slice(e.1, r.marker, r.limit) == e.1[st..sp]
            && Scanned(sc, e.1, r) == Scanning(sc, e.1, st, sp - st)
  {
    if r.marker.Some? { SameKeysIndex(d.Entries, e.1, r.marker.value); }
  }

  lemma {:induction false} SameKeysIndex<U, V>(s: seq<Entry<U>>, t: seq<Entry<V>>, key: string)
    requires SameKeys(s, t)
    ensures IndexOf(s, key) == IndexOf(t, key)
  {
    if s != [] && s[0].0 != key { SameKeysIndex(s[1..], t[1..], key); }
  }

  /** The heap i messages on in a scan: what is to come is still at the end of the list. */
  ghost predicate Midway(sc: Scan, d: Messages, e: Entry<Queue>, a: Queues, c: seq<Entry<Message>>, st: nat, i: nat)
    reads d, QueueParts(d)
  {
    && st + i <= |e.1| == |c|
    && QueueIs(d, (e.0, Scanning(sc, e.1, st, i)), a)
    && var p := st + |Left(sc, e.1[st..st + i])|;
       p <= |d.Entries| && d.Entries[p..] == c[st + i..]
  }

  lemma MidwayStarts(sc: Scan, d: Messages, e: Entry<Queue>, a: Queues, st: nat)
    requires QueueIs(d, e, a) && st <= |e.1| == |d.Entries|
    ensures Midway(sc, d, e, a, d.Entries, st, 0) && Reports(sc, e.1[st..st + 0]) == []
  {
    hide QueueIs, Scanning;
    ScanStarts(sc, e.1, st);
    assert (e.0, e.1) == e;
  }

  lemma MidwayEnds(sc: Scan, d: Messages, e: Entry<Queue>, a: Queues, c: seq<Entry<Message>>, st: nat, i: nat)
    requires Midway(sc, d, e, a, c, st, i)
    ensures st + i <= |e.1| && QueueIs(d, (e.0, Scanning(sc, e.1, st, i)), a)
  {
  }

  lemma ReportsNext(sc: Scan, q: Queue, st: nat, i: nat)
    requires st + i < |q|
    ensures Reports(sc, q[st..st + i + 1]) == Reports(sc, q[st..st + i]) + Visit(sc, q[st + i].0, q[st + i].1).1
  {
    hide Visit, Reports;
    SliceMore(q, st, st + i);
    ReportsMore(sc, q[st..st + i], q[st + i]);
  }

  lemma PartsIn(d: Messages)
    ensures Parts(d) <= QueueParts(d) && forall k :: 0 <= k < |d.Entries| ==> d.Entries[k].1 in QueueParts(d)
    ensures d in QueueParts(d) && forall o :: o in QueueParts(d) ==> allocated(o)
  {
    assert forall k :: 0 <= k < |d.Entries| ==> d.Entries[k].1 in Data(d.Entries);
  }

  lemma SameEntry<T>(q: seq<T>, pos: nat)
    requires pos < |q|
    ensures q[pos := q[pos]] == q
  {
  }

  // ----- parts of the heap

  lemma OwnNodes<V>(d: Dictionary<V>)
    requires d.Valid()
    ensures forall x :: 0 <= x < |d.Nodes| ==> d.Nodes[x].owner == d
  {
    forall x | 0 <= x < |d.Nodes|
      ensures d.Nodes[x].owner == d
    {
      assert d.Stands(d.Nodes[x], d.Entries[x]);
    }
  }

  /** Different dictionaries share no nodes. */
  lemma PartsApart<U, V>(d: Dictionary<U>, h: Dictionary<V>)
    requires d.Valid() && h.Valid() && (d as object) != h
    ensures Parts(d) !! Parts(h)
  {
    hide Dictionary.Valid;
    OwnNodes(d);
    OwnNodes(h);
  }

  /** No dictionary or node is a message. */
  lemma PartsNoData<U>(d: Dictionary<U>, s: seq<Entry<Message>>)
    ensures Parts(d) !! Data(s)
  {
  }

  lemma DataApart(d: Messages, e: Entry<Queue>, a: Queues, h: Messages, f: Entry<Queue>, b: Queues)
    requires QueueIs(d, e, a) && QueueIs(h, f, b) && d != h
    ensures Data(d.Entries) !! Data(h.Entries)
  {
    hide Lists;
    MessagesAre(d, e, a);
    MessagesAre(h, f, b);
  }

  lemma QueuesApart(d: Messages, e: Entry<Queue>, a: Queues, h: Messages, f: Entry<Queue>, b: Queues)
    requires QueueIs(d, e, a) && QueueIs(h, f, b) && d != h
    ensures QueueParts(d) !! QueueParts(h)
  {
    hide Parts, Data, Dictionary.Valid;
    assert d.Valid() && h.Valid();
    PartsApart(d, h);
    PartsNoData(d, h.Entries);
    PartsNoData(h, d.Entries);
    DataApart(d, e, a, h, f, b);
  }

  // ----- the place of a queue in the heap

  lemma AccountsAre(s: Accounts, store: Store, repr: set<object>)
    requires StoreIs(s, store, repr)
    ensures Parts(s) <= repr && s in repr && Lists(s, ("", store), null) && |s.Entries| == |store|
    ensures forall i :: 0 <= i < |store| ==>
              && s.Entries[i].1 in repr && Parts(s.Entries[i].1) <= repr && Data(s.Entries[i].1.Entries) <= repr
                && AccountParts(s.Entries[i].1) <= repr
              && AccountIs(s.Entries[i].1, store[i], s)
  {
  }

  lemma QueuesAre(a: Queues, e: Entry<Account>, s: Accounts)
    requires AccountIs(a, e, s)
    ensures Lists(a, e, s) && |a.Entries| == |e.1|
    ensures forall j :: 0 <= j < |e.1| ==>
              QueueParts(a.Entries[j].1) <= AccountParts(a) && QueueIs(a.Entries[j].1, e.1[j], a)
  {
  }

  lemma ListsOwner<U, V>(d: Dictionary<U>, e: Entry<seq<Entry<V>>>, owner: object?)
    requires Lists(d, e, owner)
    ensures d.Valid() && d.owner == owner && d.name == e.0 && |d.Entries| == |e.1| && Unique(e.1)
      && SameKeys(d.Entries, e.1)
  {
  }

  /** Different accounts are different dictionaries, apart from each other and from the root. */
  lemma AccountsApart(s: Accounts, store: Store, repr: set<object>, i: nat)
    requires StoreIs(s, store, repr) && i < |store|
    ensures |s.Entries| == |store|
    ensures Parts(s) !! Parts(s.Entries[i].1)
    ensures forall k :: 0 <= k < |store| && k != i ==> Parts(s.Entries[k].1) !! Parts(s.Entries[i].1)
  {
    hide StoreIs, AccountIs, Lists, Parts;
    AccountsAre(s, store, repr);
    ListsOwner(s, ("", store), null);
    var a := s.Entries[i].1;
    QueuesAre(a, store[i], s);
    ListsOwner(a, store[i], s);
    PartsApart(s, a);
    forall k | 0 <= k < |store| && k != i
      ensures Parts(s.Entries[k].1) !! Parts(a)
    {
      QueuesAre(s.Entries[k].1, store[k], s);
      ListsOwner(s.Entries[k].1, store[k], s);
      assert store[k].0 != store[i].0;
      PartsApart(s.Entries[k].1, a);
    }
  }

  /** Account i, queue j of a store and of the heap. */
  ghost predicate Place(s: Accounts, store: Store, i: nat, a: Queues, j: nat, d: Messages)
    reads s, a
  {
    && i < |store| == |s.Entries| && s.Entries[i].1 == a
    && j < |store[i].1| == |a.Entries| && a.Entries[j].1 == d
  }

  /** A queue is apart from everything else. */
  lemma QueueApart(s: Accounts, store: Store, repr: set<object>, i: nat, a: Queues, j: nat, d: Messages)
    requires StoreIs(s, store, repr) && Place(s, store, i, a, j, d)
    ensures Parts(s) !! QueueParts(d) && s !in QueueParts(d)
    ensures forall k :: 0 <= k < |store| ==>
              Parts(s.Entries[k].1) !! QueueParts(d) && s.Entries[k].1 !in QueueParts(d)
  {
    hide StoreIs, AccountIs, Lists, Data;
    AccountsAre(s, store, repr);
    ListsOwner(s, ("", store), null);
    QueuesAre(a, store[i], s);
    ListsOwner(a, store[i], s);
    MessagesAre(d, store[i].1[j], a);
    ListsOwner(d, store[i].1[j], a);
    PartsApart(s, d);
    PartsNoData(s, d.Entries);
    forall k | 0 <= k < |store|
      ensures Parts(s.Entries[k].1) !! QueueParts(d) && s.Entries[k].1 !in QueueParts(d)
    {
      var b := s.Entries[k].1;
      QueuesAre(b, store[k], s);
      ListsOwner(b, store[k], s);
      PartsApart(b, d);
      PartsNoData(b, d.Entries);
    }
  }

  lemma OtherQueueApart(s: Accounts, store: Store, repr: set<object>, i: nat, a: Queues, j: nat, d: Messages,
      k: nat, b: Queues, l: nat, h: Messages)
    requires StoreIs(s, store, repr) && Place(s, store, i, a, j, d) && Place(s, store, k, b, l, h) && (i, j) != (k, l)
    ensures QueueParts(h) !! QueueParts(d)
  {
    hide StoreIs, AccountIs, Lists, QueueIs, QueueParts;
    AccountsAre(s, store, repr);
    ListsOwner(s, ("", store), null);
    QueuesAre(a, store[i], s);
    ListsOwner(a, store[i], s);
    QueuesAre(b, store[k], s);
    ListsOwner(b, store[k], s);
    MessagesAre(d, store[i].1[j], a);
    ListsOwner(d, store[i].1[j], a);
    MessagesAre(h, store[k].1[l], b);
    ListsOwner(h, store[k].1[l], b);
    assert d != h by {
      if i == k {
        assert store[i].1[j].0 != store[i].1[l].0;
      } else {
        assert store[i].0 != store[k].0;
      }
    }
    QueuesApart(h, store[k].1[l], b, d, store[i].1[j], a);
  }

  /** The store with another queue at a place. */
  ghost function PutAt(store: Store, i: nat, j: nat, q: Queue): Store
    requires i < |store| && j < |store[i].1|
  {
    store[i := (store[i].0, store[i].1[j := (store[i].1[j].0, q)])]
  }

  lemma OtherAccountApart(s: Accounts, store: Store, repr: set<object>, i: nat, a: Queues, j: nat, d: Messages,
      k: nat, b: Queues)
    requires StoreIs(s, store, repr) && Place(s, store, i, a, j, d)
    requires k < |store| && b == s.Entries[k].1 && k != i
    ensures AccountParts(b) !! QueueParts(d)
  {
    hide StoreIs, AccountIs, Lists, QueueIs, QueueParts, Parts;
    AccountsAre(s, store, repr);
    QueuesAre(b, store[k], s);
    QueueApart(s, store, repr, i, a, j, d);
    forall l | 0 <= l < |b.Entries|
      ensures QueueParts(b.Entries[l].1) !! QueueParts(d)
    {
      OtherQueueApart(s, store, repr, i, a, j, d, k, b, l, b.Entries[l].1);
    }
  }

  lemma AccountWith(a: Queues, e: Entry<Account>, s: Accounts, j: nat, q: Queue)
    requires Lists(a, e, s) && j < |e.1| == |a.Entries|
    requires forall l :: 0 <= l < |e.1| && l != j ==> QueueIs(a.Entries[l].1, e.1[l], a)
    requires QueueIs(a.Entries[j].1, (e.1[j].0, q), a)
    ensures AccountIs(a, (e.0, e.1[j := (e.1[j].0, q)]), s)
  {
    hide Lists, QueueIs, QueueParts, Parts;
    QueuePartsIn(a);
    ListsWith(a, e, s, j, (e.1[j].0, q));
  }

  lemma AccountPartsBound(a: Queues, repr: set<object>)
    requires Parts(a) <= repr && forall j :: 0 <= j < |a.Entries| ==> QueueParts(a.Entries[j].1) <= repr
    ensures AccountParts(a) <= repr
  {
    hide QueueParts, Parts;
  }

  lemma QueuePartsIn(a: Queues)
    ensures a in AccountParts(a) && Parts(a) <= AccountParts(a) && Data(a.Entries) <= AccountParts(a)
    ensures forall j :: 0 <= j < |a.Entries| ==>
              a.Entries[j].1 in QueueParts(a.Entries[j].1) && QueueParts(a.Entries[j].1) <= AccountParts(a)
  {
    forall o | o in Data(a.Entries)
      ensures o in AccountParts(a)
    {
      var j :| 0 <= j < |a.Entries| && o == a.Entries[j].1;
      assert a.Entries[j].1 in QueueParts(a.Entries[j].1);
    }
  }

  lemma ListsWith<U, V>(d: Dictionary<U>, e: Entry<seq<Entry<V>>>, owner: object?, i: nat, f: Entry<V>)
    requires Lists(d, e, owner) && i < |e.1| && f.0 == e.1[i].0
    ensures Lists(d, (e.0, e.1[i := f]), owner)
  {
    hide Dictionary.Valid;
  }

  lemma StoreWith(s: Accounts, store: Store, repr: set<object>, i: nat, e: Entry<Account>)
    requires Parts(s) <= repr && Lists(s, ("", store), null) && i < |store| == |s.Entries| && e.0 == store[i].0
    requires forall k :: 0 <= k < |store| ==>
              s.Entries[k].1 in repr && Data(s.Entries[k].1.Entries) <= repr && AccountParts(s.Entries[k].1) <= repr
    requires forall k :: 0 <= k < |store| && k != i ==> AccountIs(s.Entries[k].1, store[k], s)
    requires AccountIs(s.Entries[i].1, e, s)
    ensures StoreIs(s, store[i := e], repr)
  {
    hide Lists, AccountIs, AccountParts, Data;
    ListsWith(s, ("", store), null, i, e);
  }

  /** The heap stands for the store with another queue once that queue is in place. */
  lemma QueuePut(s: Accounts, store: Store, repr: set<object>, i: nat, a: Queues, j: nat, d: Messages, q: Queue)
    requires Place(s, store, i, a, j, d) && Parts(s) <= repr && Lists(s, ("", store), null)
    requires a in repr && Data(a.Entries) <= repr && Parts(a) <= repr && Lists(a, store[i], s)
    requires QueueIs(d, (store[i].1[j].0, q), a) && QueueParts(d) <= repr
    requires forall k :: 0 <= k < |store| && k != i ==>
               && var b := s.Entries[k].1;
               && b in repr && Data(b.Entries) <= repr && AccountParts(b) <= repr && AccountIs(b, store[k], s)
    requires forall l :: 0 <= l < |store[i].1| && l != j ==>
               QueueIs(a.Entries[l].1, store[i].1[l], a) && QueueParts(a.Entries[l].1) <= repr
    ensures StoreIs(s, PutAt(store, i, j, q), repr)
  {
    hide AccountIs, QueueIs, Lists, Parts, Data, QueueParts, AccountParts, StoreIs;
    var e := store[i];
    AccountPartsBound(a, repr);
    AccountWith(a, e, s, j, q);
    StoreWith(s, store, repr, i, (e.0, e.1[j := (e.1[j].0, q)]));
  }

  lemma PartsHas<V>(d: Dictionary<V>)
    ensures d in Parts(d) && forall x :: 0 <= x < |d.Nodes| ==> d.Nodes[x] in Parts(d)
  {
  }

  lemma AccountPartsApart(s: Accounts, store: Store, repr: set<object>, i: nat, a: Queues, k: nat, b: Queues)
    requires StoreIs(s, store, repr) && i < |store| == |s.Entries| && s.Entries[i].1 == a
    requires k < |store| && b == s.Entries[k].1 && k != i
    ensures AccountParts(b) !! Parts(a)
  {
    hide StoreIs, AccountIs, Lists, QueueIs, QueueParts, Parts;
    AccountsAre(s, store, repr);
    QueuesAre(b, store[k], s);
    AccountsApart(s, store, repr, i);
    forall l | 0 <= l < |b.Entries|
      ensures QueueParts(b.Entries[l].1) !! Parts(a)
    {
      QueueApart(s, store, repr, k, b, l, b.Entries[l].1);
    }
  }

  lemma DataBound(a: Queues, repr: set<object>)
    requires forall l :: 0 <= l < |a.Entries| ==> a.Entries[l].1 in repr
    ensures Data(a.Entries) <= repr
  {
  }

  /** The heap stands for the store with another account once that account is in place. */
  lemma AccountPut(s: Accounts, store: Store, repr: set<object>, i: nat, a: Queues, e: Entry<Account>)
    requires i < |store| == |s.Entries| && s.Entries[i].1 == a && e.0 == store[i].0
    requires Parts(s) <= repr && Lists(s, ("", store), null)
    requires a in repr && Parts(a) <= repr && Lists(a, e, s) && |a.Entries| == |e.1|
    requires forall k :: 0 <= k < |store| && k != i ==>
               && var b := s.Entries[k].1;
               && b in repr && Data(b.Entries) <= repr && AccountParts(b) <= repr && AccountIs(b, store[k], s)
    requires forall l :: 0 <= l < |e.1| ==>
               a.Entries[l].1 in repr && QueueIs(a.Entries[l].1, e.1[l], a) && QueueParts(a.Entries[l].1) <= repr
    ensures StoreIs(s, store[i := e], repr)
  {
    hide QueueIs, Lists, Parts, Data, QueueParts, AccountParts, StoreIs;
    AccountPartsBound(a, repr);
    DataBound(a, repr);
    QueuePartsIn(a);
    assert AccountIs(a, e, s);
    StoreWith(s, store, repr, i, e);
  }

  lemma AccountFromRoot(s: Accounts, store: Store, repr: set<object>, k: nat, b: Queues)
    requires StoreIs(s, store, repr) && k < |store| == |s.Entries| && b == s.Entries[k].1
    ensures AccountParts(b) !! Parts(s)
  {
    hide StoreIs, AccountIs, Lists, QueueIs, QueueParts, Parts;
    AccountsAre(s, store, repr);
    QueuesAre(b, store[k], s);
    AccountsApart(s, store, repr, k);
    forall l | 0 <= l < |b.Entries|
      ensures QueueParts(b.Entries[l].1) !! Parts(s)
    {
      QueueApart(s, store, repr, k, b, l, b.Entries[l].1);
    }
  }

  lemma StorePut(s: Accounts, store: Store, repr: set<object>)
    requires Parts(s) <= repr && Lists(s, ("", store), null) && |s.Entries| == |store|
    requires forall k :: 0 <= k < |store| ==>
               && var b := s.Entries[k].1;
               && b in repr && Data(b.Entries) <= repr && AccountParts(b) <= repr && AccountIs(b, store[k], s)
    ensures StoreIs(s, store, repr)
  {
    hide AccountIs, Lists, Parts, Data, AccountParts;
  }

  /** The store once an empty queue at a place, and then an empty account, are dropped. */
  ghost function CollapsedAt(store: Store, i: nat, j: nat): Store
    requires i < |store| && j < |store[i].1|
  {
    var a := if store[i].1[j].1 == [] then Without(store[i].1, j) else store[i].1;
    if a == [] then Without(store, i) else store[i := (store[i].0, a)]
  }

  lemma CollapsedPut(store: Store, account: string, queue: string, i: nat, j: nat, q: Queue)
    requires HasQueue(store, account, queue)
    requires i == IndexOf(store, account) && j == IndexOf(store[i].1, queue)
    ensures CollapsedAt(PutAt(store, i, j, q), i, j) == PutQueue(store, account, queue, q)
  {
    hide IndexOf;
    var e := store[i];
    assert Without(e.1[j := (e.1[j].0, q)], j) == Without(e.1, j);
    assert Without(store[i := (e.0, e.1[j := (e.1[j].0, q)])], i) == Without(store, i);
  }

  lemma Found(store: Store, account: string, queue: string, i: nat, j: nat)
    requires HasQueue(store, account, queue)
    requires i == IndexOf(store, account) && j == IndexOf(store[i].1, queue)
    ensures i < |store| && store[i].0 == account && j < |store[i].1| && store[i].1[j].0 == queue
    ensures QueueAt(store, account, queue) == store[i].1[j].1
  {
  }

  lemma SlicesAlike<U, V>(s: seq<Entry<U>>, t: seq<Entry<V>>, r: Range)
    requires SameKeys(s, t)
    ensures Names(Slice(s, r.marker, r.limit)) == Names(Slice(t, r.marker, r.limit))
  {
    if r.marker.Some? { SameKeysIndex(s, t, r.marker.value); }
  }

  /** Deleting queues tells nothing. */
  lemma PurgeIsSilent(store: Store, account: string, queue: string, now: nat)
    ensures MemoryStore.ScanCommand(store, account, queue, AllVisible, Purge(now)).log == []
  {
    if HasQueue(store, account, queue) {
      var q := QueueAt(store, account, queue);
      PurgeReportsNothing(Slice(q, None, 0), now);
    }
  }

  lemma {:induction false} PurgeReportsNothing(q: Queue, now: nat)
    ensures Reports(Purge(now), q) == []
  {
    if q != [] { PurgeReportsNothing(q[1..], now); }
  }

  lemma FoundMessage(store: Store, account: string, queue: string, id: string, i: nat, j: nat, k: nat)
    requires HasMessage(store, account, queue, id)
    requires i == IndexOf(store, account) && j == IndexOf(store[i].1, queue) && k == IndexOf(store[i].1[j].1, id)
    ensures i < |store| && store[i].0 == account && j < |store[i].1| && store[i].1[j].0 == queue
    ensures HasQueue(store, account, queue) && QueueAt(store, account, queue) == store[i].1[j].1
    ensures k < |store[i].1[j].1| && store[i].1[j].1[k].0 == id
    ensures Remove(QueueAt(store, account, queue), id) == Without(store[i].1[j].1, k)
    ensures Lookup(QueueAt(store, account, queue), id) == store[i].1[j].1[k].1
  {
  }

  /** Putting a message back as it is changes nothing. */
  lemma NothingSet(store: Store, account: string, queue: string, id: string)
    requires HasMessage(store, account, queue, id)
    ensures var q := QueueAt(store, account, queue);
            var m := Lookup(q, id);
            PutQueue(store, account, queue, Set(q, id, Updated(m, 0, 0))) == store
  {
    var q := QueueAt(store, account, queue);
    var a := Lookup(store, account);
    var m := Lookup(q, id);
    assert Set(q, id, m) == q;
    assert Put(a, queue, q) == a;
  }

  lemma MessageSet(store: Store, account: string, queue: string, id: string, i: nat, j: nat, k: nat, m: Msg)
    requires HasMessage(store, account, queue, id)
    requires i == IndexOf(store, account) && j == IndexOf(store[i].1, queue) && k == IndexOf(store[i].1[j].1, id)
    ensures var q := store[i].1[j].1;
            PutAt(store, i, j, q[k := (q[k].0, m)]) == PutQueue(store, account, queue, Set(q, id, m))
  {
  }

  /** The list with an empty entry for a key that it does not have. */
  ghost function WithKey<V>(s: seq<Entry<seq<V>>>, key: string): seq<Entry<seq<V>>> {
    if Has(s, key) then s else s + [(key, [])]
  }

  lemma EmptyAccount(a: Queues, s: Accounts)
    requires a.Valid() && a.Nodes == [] && a.Entries == [] && a.owner == s
    ensures AccountIs(a, (a.name, []), s) && AccountParts(a) == Parts(a) == {a} && Data(a.Entries) == {}
  {
  }

  /** Appending an entry under a new key. */
  method AddTo<U, V>(d: Dictionary<U>, key: string, data: U, ghost e: Entry<seq<Entry<V>>>, ghost owner: object?,
    ghost v: V)
    requires Lists(d, e, owner) && !Has(e.1, key)
    modifies Parts(d)
    ensures Lists(d, (e.0, e.1 + [(key, v)]), owner) && d.Entries == old(d.Entries) + [(key, data)]
    ensures forall o :: o in Parts(d) ==> o in old(Parts(d)) || fresh(o)
    ensures old(Parts(d)) <= Parts(d)
  {
    hide Unique, SameKeys, IndexOf, Dictionary.Valid;
    AppendKeepsUnique(e.1, key, v);
    AppendKeepsKeys(d.Entries, e.1, key, data, v);
    PartsHas(d);
    ghost var nodes := d.Nodes;
    var node := d.Add(key, data);
    assert forall x :: 0 <= x < |nodes| ==> d.Nodes[x] == nodes[x];
  }

  lemma AppendKeepsKeys<U, V>(s: seq<Entry<U>>, t: seq<Entry<V>>, key: string, u: U, v: V)
    requires SameKeys(s, t)
    ensures SameKeys(s + [(key, u)], t + [(key, v)])
  {
  }

  lemma EmptyQueue(d: Messages, a: Queues)
    requires d.Valid() && d.Nodes == [] && d.Entries == [] && d.owner == a
    ensures QueueIs(d, (d.name, []), a) && QueueParts(d) == Parts(d) == {d}
  {
  }

  method ReplaceIn(d: Messages, node: Node<Message>, m: Message, ghost e: Entry<Queue>, ghost a: Queues, ghost k: nat)
    requires QueueIs(d, e, a) && k < |e.1| && k < |d.Nodes| && node == d.Nodes[k] && m.id == e.1[k].0 && m.owner == d
    modifies Parts(d)
    ensures QueueIs(d, (e.0, e.1[k := (m.id, m.Value())]), a)
    ensures Parts(d) == old(Parts(d)) && |d.Entries| == |old(d.Entries)| && d.Entries == old(d.Entries)[k := (m.id, m)]
  {
    hide Dictionary.Valid, Unique;
    MessagesAre(d, e, a);
    ListsWith(d, e, a, k, (m.id, m.Value()));
    PartsHas(d);
    d.LinksIn(k);
    d.Replace(node, k, m);
  }

  method AddIn(d: Messages, m: Message, ghost e: Entry<Queue>, ghost a: Queues)
    requires QueueIs(d, e, a) && !Has(e.1, m.id) && m.owner == d
    modifies Parts(d)
    ensures QueueIs(d, (e.0, e.1 + [(m.id, m.Value())]), a)
    ensures forall o :: o in Parts(d) ==> o in old(Parts(d)) || fresh(o)
    ensures old(Parts(d)) <= Parts(d) && d.Entries == old(d.Entries) + [(m.id, m)]
  {
    hide Lists, Has;
    MessagesAre(d, e, a);
    PartsHas(d);
    AddTo(d, m.id, m, e, a, m.Value());
  }

  lemma DataPut<V>(c: seq<Entry<V>>, k: nat, e: Entry<V>)
    ensures k < |c| ==> Data(c[k := e]) <= Data(c) + {e.1}
    ensures Data(c + [e]) <= Data(c) + {e.1}
  {
  }

  method PutIn(d: Messages, m: Message, ghost e: Entry<Queue>, ghost a: Queues)
    requires QueueIs(d, e, a) && m !in QueueParts(d)
    modifies Parts(d), m`owner
    ensures QueueIs(d, (e.0, Set(e.1, m.id, m.Value())), a)
    ensures forall o :: o in QueueParts(d) ==> o in old(QueueParts(d)) || o == m || fresh(o)
  {
    hide QueueIs, Lists, Dictionary.Valid, Parts, Data, SameKeys, IndexOf;
    MessagesAre(d, e, a);
    ListsOwner(d, e, a);
    PartsIn(d);
    ghost var c, k, parts := d.Entries, IndexOf(e.1, m.id), Parts(d);
    DataPut(c, k, (m.id, m));
    m.owner := d;
    d.LengthIs();
    var node := d.Search(Some(m.id));
    SameKeysIndex(d.Entries, e.1, m.id);
    assert Parts(d) == parts;
    if node != null {
      ReplaceIn(d, node, m, e, a, k);
    } else {
      AddIn(d, m, e, a);
    }
  }

  lemma CreatedIs(s: Store, account: string, queue: string, id: string, m: Msg)
    ensures var i := IndexOf(s, account);
            var s1 := WithKey(s, account);
            i < |s1| && s1[i].0 == account &&
            var j := IndexOf(s1[i].1, queue);
            var s2 := s1[i := (s1[i].0, WithKey(s1[i].1, queue))];
            && j < |s2[i].1| && s2[i].1[j].0 == queue
            && PutAt(s2, i, j, Set(s2[i].1[j].1, id, m)) == Created(s, account, queue, id, m)
  {
    hide IndexOf, WithKey;
    SetWithKey(s, account, []);
    var i := IndexOf(s, account);
    var s1 := WithKey(s, account);
    var a := s1[i].1;
    SetWithKey(a, queue, []);
    var j := IndexOf(a, queue);
    var q := Set(WithKey(a, queue)[j].1, id, m);
    SetWithKey(a, queue, q);
    SetWithKey(s, account, Set(a, queue, q));
  }

  lemma SetWithKey<V>(s: seq<Entry<seq<V>>>, key: string, v: seq<V>)
    ensures var i := IndexOf(s, key);
            && i < |WithKey(s, key)| && WithKey(s, key)[i] == (key, if Has(s, key) then Lookup(s, key) else [])
            && Set(s, key, v) == WithKey(s, key)[i := (key, v)]
  {
  }

  method MakeMessage(id: string, body: seq<int>, attributes: Option<Attributes>, now: nat) returns (m: Message)
    ensures fresh(m) && m.id == id && m.Value() == NewMessage(body, attributes, now)
  {
    m := new Message(id, body, 0, 0);
    if attributes.Some? && attributes.value.ttl.Some? {
      m.ttl := Plus32(now, attributes.value.ttl.value);
    } else {
      m.ttl := Plus32(now, DEFAULT_TTL);
    }
    if attributes.Some? && attributes.value.hiding.Some? {
      if attributes.value.hiding.value != 0 {
        m.hiding := Plus32(now, attributes.value.hiding.value);
      }
    }
  }

  lemma NoCommands(s: Store)
    ensures InterpretAll(s, []) == Outcomes(s, [], [])
  {
  }
}
