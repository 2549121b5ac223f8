/** What the memory backend promises, proved of its interpreter over every command. */
module MemoryLaws {
  import opened AssocList
  import opened MemoryStore

  // ----- no empty containers, unique keys

  /** Unique keys and nothing empty. */
  predicate Tidy<V>(s: seq<Entry<seq<V>>>) {
    Unique(s) && forall i :: 0 <= i < |s| ==> s[i].1 != []
  }

  predicate TidyAccount(a: Account) {
    Tidy(a) && forall j :: 0 <= j < |a| ==> Unique(a[j].1)
  }

  /** At every level the keys are unique, and no account and no queue is empty. */
  predicate TidyStore(s: Store) {
    Tidy(s) && forall i :: 0 <= i < |s| ==> TidyAccount(s[i].1)
  }

  lemma At<V>(s: seq<Entry<V>>, key: string)
    requires Has(s, key)
    ensures IndexOf(s, key) < |s| && s[IndexOf(s, key)] == (key, Lookup(s, key))
  {
  }

  lemma WithoutKeepsUnique<V>(s: seq<Entry<V>>, i: nat)
    requires Unique(s) && i < |s|
    ensures Unique(Without(s, i)) && |Without(s, i)| == |s| - 1
    ensures forall k :: 0 <= k < |s| - 1 ==> Without(s, i)[k] == s[if k < i then k else k + 1]
  {
  }

  lemma PutKeepsTidy<V>(s: seq<Entry<seq<V>>>, key: string, v: seq<V>)
    requires Tidy(s) && Has(s, key)
    ensures Tidy(Put(s, key, v))
    ensures forall k :: 0 <= k < |Put(s, key, v)| ==>
              Put(s, key, v)[k] == (key, v) || exists l :: 0 <= l < |s| && Put(s, key, v)[k] == s[l]
  {
    hide IndexOf;
    At(s, key);
    WithoutKeepsUnique(s, IndexOf(s, key));
  }

  lemma PutQueueKeepsTidy(s: Store, account: string, queue: string, q: Queue)
    requires TidyStore(s) && HasQueue(s, account, queue) && Unique(q)
    ensures TidyStore(PutQueue(s, account, queue, q))
  {
    hide IndexOf, Put, Tidy;
    At(s, account);
    var a := Lookup(s, account);
    assert TidyAccount(a);
    PutKeepsTidy(a, queue, q);
    PutKeepsTidy(s, account, Put(a, queue, q));
  }

  lemma SetKeepsTidy<V>(s: seq<Entry<seq<V>>>, key: string, v: seq<V>)
    requires Tidy(s) && v != []
    ensures Tidy(Set(s, key, v))
    ensures forall k :: 0 <= k < |Set(s, key, v)| ==>
              Set(s, key, v)[k] == (key, v) || exists l :: 0 <= l < |s| && Set(s, key, v)[k] == s[l]
  {
    hide IndexOf;
    if Has(s, key) { At(s, key); } else { AppendKeepsUnique(s, key, v); }
  }

  lemma SetKeepsUnique<V>(s: seq<Entry<V>>, key: string, v: V)
    requires Unique(s)
    ensures Unique(Set(s, key, v)) && Set(s, key, v) != []
  {
    hide IndexOf;
    if Has(s, key) { At(s, key); } else { AppendKeepsUnique(s, key, v); }
  }

  lemma CreatedKeepsTidy(s: Store, account: string, queue: string, id: string, m: Msg)
    requires TidyStore(s)
    ensures TidyStore(Created(s, account, queue, id, m))
  {
    hide IndexOf, Set, Tidy;
    var a := if Has(s, account) then Lookup(s, account) else [];
    if Has(s, account) { At(s, account); } else { assert Tidy(a) by { NothingIsTidy<Entry<Msg>>(); } }
    assert TidyAccount(a);
    var q := if Has(a, queue) then Lookup(a, queue) else [];
    if Has(a, queue) { At(a, queue); }
    SetKeepsUnique(q, id, m);
    SetKeepsTidy(a, queue, Set(q, id, m));
    var b := Set(a, queue, Set(q, id, m));
    assert b != [] by { SetKeepsSome(a, queue, Set(q, id, m)); }
    SetKeepsTidy(s, account, b);
  }

  lemma NothingIsTidy<V>()
    ensures Tidy<V>([])
  {
  }

  lemma SetKeepsSome<V>(s: seq<Entry<V>>, key: string, v: V)
    ensures Set(s, key, v) != []
  {
  }

  // ----- scans

  /** A scan leaves a list of some of the queue's ids, in the queue's order. */
  lemma {:induction false} LeftKeeps(sc: Scan, q: Queue)
    requires Unique(q)
    ensures Unique(Left(sc, q))
    ensures forall k :: 0 <= k < |Left(sc, q)| ==> Has(q, Left(sc, q)[k].0)
  {
    hide IndexOf, Visit;
    if q != [] {
      LeftKeeps(sc, q[1..]);
      assert Unique(q[1..]);
      var rest := Left(sc, q[1..]);
      forall k | 0 <= k < |rest|
        ensures rest[k].0 != q[0].0 && Has(q, rest[k].0)
      {
        HasRest(q, rest[k].0);
      }
      HasFirst(q);
    }
  }

  lemma HasFirst<V>(q: seq<Entry<V>>)
    requires q != []
    ensures Has(q, q[0].0)
  {
  }

  lemma HasRest<V>(q: seq<Entry<V>>, key: string)
    requires q != [] && Unique(q) && Has(q[1..], key)
    ensures Has(q, key) && key != q[0].0
  {
    assert q[1..][IndexOf(q[1..], key)].0 == key;
  }

  lemma ScannedKeepsUnique(sc: Scan, q: Queue, r: Range)
    requires Unique(q)
    ensures Unique(Scanned(sc, q, r))
  {
    hide IndexOf, Left, Start, Stop;
    var st, sp := Start(q, r.marker), Stop(q, r.marker, r.limit);
    assert Unique(q[st..sp]);
    LeftKeeps(sc, q[st..sp]);
    var left := Left(sc, q[st..sp]);
    forall k | 0 <= k < |left|
      ensures KeyAmong(q, st, sp, left[k].0)
    {
      KeyInSlice(q, st, sp, left[k].0);
    }
    JoinKeepsUnique(q, st, sp, left);
  }

  predicate KeyAmong<V>(q: seq<Entry<V>>, st: nat, sp: nat, key: string)
    requires st <= sp <= |q|
  {
    exists x :: st <= x < sp && q[x].0 == key
  }

  lemma KeyInSlice<V>(q: seq<Entry<V>>, st: nat, sp: nat, key: string)
    requires st <= sp <= |q| && Has(q[st..sp], key)
    ensures KeyAmong(q, st, sp, key)
  {
    assert q[st + IndexOf(q[st..sp], key)].0 == key;
  }

  lemma JoinKeepsUnique<V>(q: seq<Entry<V>>, st: nat, sp: nat, mid: seq<Entry<V>>)
    requires Unique(q) && st <= sp <= |q| && Unique(mid)
    requires forall k :: 0 <= k < |mid| ==> KeyAmong(q, st, sp, mid[k].0)
    ensures Unique(q[..st] + mid + q[sp..])
  {
    var t := q[..st] + mid + q[sp..];
    var n := |mid|;
    assert forall k :: 0 <= k < |t| ==>
             t[k] == if k < st then q[k] else if k < st + n then mid[k - st] else q[k - st - n + sp];
  }

  lemma ScanCommandKeepsTidy(s: Store, account: string, queue: string, r: Range, sc: Scan)
    requires TidyStore(s)
    ensures TidyStore(ScanCommand(s, account, queue, r, sc).store)
  {
    hide Scanned, PutQueue, Reports, Slice, IndexOf, Tidy;
    if HasQueue(s, account, queue) {
      QueueIsUnique(s, account, queue);
      ScannedKeepsUnique(sc, QueueAt(s, account, queue), r);
      PutQueueKeepsTidy(s, account, queue, Scanned(sc, QueueAt(s, account, queue), r));
    }
  }

  lemma QueueIsUnique(s: Store, account: string, queue: string)
    requires TidyStore(s) && HasQueue(s, account, queue)
    ensures Unique(QueueAt(s, account, queue)) && QueueAt(s, account, queue) != []
  {
    hide IndexOf;
    At(s, account);
    At(Lookup(s, account), queue);
    assert TidyAccount(Lookup(s, account));
  }

  lemma {:induction false} DeleteEachKeepsTidy(s: Store, account: string, queues: seq<string>, now: nat)
    requires TidyStore(s)
    ensures TidyStore(DeleteEach(s, account, queues, now))
    decreases |queues|
  {
    hide ScanCommand, TidyStore;
    if queues != [] {
      ScanCommandKeepsTidy(s, account, queues[0], AllVisible, Purge(now));
      DeleteEachKeepsTidy(ScanCommand(s, account, queues[0], AllVisible, Purge(now)).store, account, queues[1..], now);
    }
  }

  lemma DeleteQueuesInKeepsTidy(s: Store, account: string, r: Range, now: nat)
    requires TidyStore(s)
    ensures TidyStore(DeleteQueuesIn(s, account, r, now))
  {
    hide TidyStore, DeleteEach, Slice, IndexOf;
    if Has(s, account) {
      DeleteEachKeepsTidy(s, account, Names(Slice(Lookup(s, account), r.marker, r.limit)), now);
    }
  }

  lemma {:induction false} DeleteEachAccountKeepsTidy(s: Store, accounts: seq<string>, now: nat)
    requires TidyStore(s)
    ensures TidyStore(DeleteEachAccount(s, accounts, now))
    decreases |accounts|
  {
    hide DeleteQueuesIn, TidyStore;
    if accounts != [] {
      DeleteQueuesInKeepsTidy(s, accounts[0], AllVisible, now);
      DeleteEachAccountKeepsTidy(DeleteQueuesIn(s, accounts[0], AllVisible, now), accounts[1..], now);
    }
  }

  lemma SingleKeepsTidy(s: Store, account: string, queue: string, id: string, m: Msg)
    requires TidyStore(s) && HasQueue(s, account, queue)
    ensures TidyStore(PutQueue(s, account, queue, Set(QueueAt(s, account, queue), id, m)))
    ensures TidyStore(PutQueue(s, account, queue, Remove(QueueAt(s, account, queue), id)))
  {
    hide TidyStore, PutQueue, IndexOf, Set, Remove;
    var q := QueueAt(s, account, queue);
    QueueIsUnique(s, account, queue);
    SetKeepsUnique(q, id, m);
    RemoveKeepsUnique(q, id);
    PutQueueKeepsTidy(s, account, queue, Set(q, id, m));
    PutQueueKeepsTidy(s, account, queue, Remove(q, id));
  }

  /** Every command keeps the keys unique and leaves no account and no queue empty. */
  lemma InterpretKeepsTidy(s: Store, now: nat, c: Command)
    requires TidyStore(s)
    ensures TidyStore(Interpret(s, now, c).store)
  {
    hide TidyStore, PutQueue, IndexOf, Set, Remove, ScanCommand, DeleteQueuesIn, DeleteEachAccount, Created, Slice, Has;
    match c {
      case GetAccounts(f) =>
      case DeleteAccounts(f) =>
        DeleteEachAccountKeepsTidy(s, Names(Slice(s, Resolve(f).marker, Resolve(f).limit)), now);
      case GetQueues(account, f) =>
      case DeleteQueues(account, f) => DeleteQueuesInKeepsTidy(s, account, Resolve(f), now);
      case GetMessages(account, queue, f) =>
        ScanCommandKeepsTidy(s, account, queue, Resolve(f), Scan(Get, true, Resolve(f).matchHidden, now, 0, 0));
      case UpdateMessages(account, queue, attributes, f) =>
        ScanCommandKeepsTidy(s, account, queue, Resolve(f),
                             Scan(Update, true, Resolve(f).matchHidden, now,
                                  Due(TtlOf(attributes), now), Due(HideOf(attributes), now)));
      case DeleteMessages(account, queue, f) =>
        ScanCommandKeepsTidy(s, account, queue, Resolve(f), Scan(Delete, true, Resolve(f).matchHidden, now, 0, 0));
      case CreateMessage(account, queue, id, body, attributes) =>
        CreatedKeepsTidy(s, account, queue, id, NewMessage(body, attributes, now));
      case GetMessage(account, queue, id) => OneKeepsTidy(s, account, queue, id, now, 0, 0);
      case UpdateMessage(account, queue, id, attributes) =>
        OneKeepsTidy(s, account, queue, id, now, Due(PositiveTtl(attributes), now), Due(HideOf(attributes), now));
      case DeleteMessage(account, queue, id) =>
        if HasMessage(s, account, queue, id) { SingleKeepsTidy(s, account, queue, id, Msg([], 0, 0)); }
    }
  }

  lemma OneKeepsTidy(s: Store, account: string, queue: string, id: string, now: nat, ttl: nat, hiding: nat)
    requires TidyStore(s)
    ensures TidyStore(OneMessage(s, account, queue, id, now, ttl, hiding).store)
  {
    hide TidyStore, PutQueue, IndexOf, Set, Remove, Has;
    if HasMessage(s, account, queue, id) {
      var m := Lookup(QueueAt(s, account, queue), id);
      SingleKeepsTidy(s, account, queue, id, Updated(m, ttl, hiding));
    }
  }

  /** So does every session. */
  lemma {:induction false} SessionKeepsTidy(s: Store, session: seq<(nat, Command)>)
    requires TidyStore(s)
    ensures TidyStore(InterpretAll(s, session).store)
    decreases |session|
  {
    hide TidyStore, Interpret;
    if session != [] {
      InterpretKeepsTidy(s, session[0].0, session[0].1);
      SessionKeepsTidy(Interpret(s, session[0].0, session[0].1).store, session[1..]);
    }
  }

  lemma NothingStored()
    ensures TidyStore([])
  {
  }

  /** The backend starts empty, so no session ever meets a repeated key or an empty container. */
  lemma SessionsAreTidy(session: seq<(nat, Command)>)
    ensures TidyStore(InterpretAll([], session).store)
  {
    hide TidyStore, InterpretAll;
    NothingStored();
    SessionKeepsTidy([], session);
  }
}
