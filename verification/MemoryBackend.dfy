/** The memory backend as the source has it: dictionaries of dictionaries of messages, all
    linked in place.  Its commands are proved against MemoryStore. */
module MemoryBackend {
  import opened Wrappers
  import opened AssocList
  import opened Dictionary
  import opened MemoryStore
  import opened MemoryHeap

  lemma NotBackend(d: Messages, b: Backend)
    ensures b !in QueueParts(d)
  {
  }

  class Backend {
    var accounts: Accounts
    /** What the callbacks have been told. */
    var log: seq<Report>
    ghost var store: Store
    ghost var Repr: set<object>

    ghost predicate Valid()
      reads this, Repr
    {
      accounts in Repr && this !in Repr && StoreIs(accounts, store, Repr)
    }

    constructor ()
      ensures Valid() && fresh(Repr) && store == [] && log == []
    {
      accounts := new Dictionary(null, "");
      log, store := [], [];
      Repr := {accounts};
    }

    /** One turn of a scan. */
    method Visit(sc: Scan, key: string, message: Message,
        d: Messages, ghost e: Entry<Queue>, ghost a: Queues, ghost pos: nat)
      requires QueueIs(d, e, a) && pos < |e.1| && key == e.1[pos].0
      requires pos < |d.Entries| && message == d.Entries[pos].1
      modifies `log, Parts(d), message`ttl, message`hiding
      ensures var (left, told) := MemoryStore.Visit(sc, key, e.1[pos].1);
              && QueueIs(d, (e.0, Leave(e.1, pos, left)), a)
              && log == old(log) + told
              && d.Entries == if left.None? then Without(old(d.Entries), pos) else old(d.Entries)
      ensures forall x :: 0 <= x < |d.Nodes| ==> d.Nodes[x] in old(d.Nodes)
    {
      hide QueueIs;
      assert MessageIs(message, e.1[pos], d) by { MessagesAre(d, e, a); }
      if message.ttl <= sc.now {
        DropAt(d, key, e, a, pos);
      } else if !sc.matchHidden && message.hiding > sc.now {
        SameEntry(e.1, pos);
      } else {
        match sc.action {
          case Update =>
            SetTimes(message, sc.ttl, sc.hiding, d, e, a, pos);
            Tell(message, sc.now, d, (e.0, Leave(e.1, pos, Some(Updated(e.1[pos].1, sc.ttl, sc.hiding)))), a);
          case Get =>
            SameEntry(e.1, pos);
            Tell(message, sc.now, d, e, a);
          case Delete =>
            DropAt(d, key, e, a, pos);
            if sc.report { Tell(message, sc.now, d, (e.0, Without(e.1, pos)), a); }
        }
      }
    }

    /** Tells a message; its queue stays as it is. */
    method Tell(message: Message, now: nat, ghost d: Messages, ghost e: Entry<Queue>, ghost a: Queues)
      requires QueueIs(d, e, a)
      modifies `log
      ensures QueueIs(d, e, a)
      ensures log == old(log) + [Told(message.id, message.Value(), now)]
    {
      hide QueueIs;
      NotBackend(d, this);
      var hiding := if message.hiding > now then Minus32(message.hiding, now) else 0;
      log := log + [MessageReport(message.id, message.body, Minus32(message.ttl, now), hiding)];
    }

    /** A turn of the scan that is i messages on. */
    method ScanTurn(sc: Scan, key: string, message: Message, d: Messages,
        ghost e: Entry<Queue>, ghost a: Queues, ghost c: seq<Entry<Message>>, ghost st: nat, ghost i: nat)
      requires Midway(sc, d, e, a, c, st, i) && st + i < |e.1| && key == e.1[st + i].0 && message == c[st + i].1
      modifies `log, Parts(d), message`ttl, message`hiding
      ensures Midway(sc, d, e, a, c, st, i + 1)
      ensures log == old(log) + MemoryStore.Visit(sc, key, e.1[st + i].1).1
      ensures QueueParts(d) <= old(QueueParts(d))
    {
      hide QueueIs, Scanning, Left, MemoryStore.Visit, Leave, Data;
      ghost var p := st + |Left(sc, e.1[st..st + i])|;
      TurnQueue(sc, e.1, st, i);
      TurnEntries(d.Entries, p, c, st + i);
      Visit(sc, key, message, d, (e.0, Scanning(sc, e.1, st, i)), a, p);
    }

    /** The scan of a queue, over a separate list of the selected entries. */
    method ScanQueue(sc: Scan, r: Range, d: Messages, ghost e: Entry<Queue>, ghost a: Queues)
      requires QueueIs(d, e, a)
      modifies `log, QueueParts(d)
      ensures QueueIs(d, (e.0, Scanned(sc, e.1, r)), a)
      ensures log == old(log) + Reports(sc, Slice(e.1, r.marker, r.limit))
      ensures QueueParts(d) <= old(QueueParts(d))
    {
      hide QueueIs, Dictionary.Valid, Start, Stop, Slice, Scanned, Scanning, Left, Reports, Midway,
        MemoryStore.Visit, Parts, QueueParts;
      PartsIn(d);
      ghost var c, st, sp := d.Entries, Start(e.1, r.marker), Stop(e.1, r.marker, r.limit);
      SliceOf(sc, d, e, a, r);
      MidwayStarts(sc, d, e, a, st);
      var walk := d.Iter(r.marker, r.limit);
      walk.LengthIs();
      var item := walk.first;
      ghost var nodes := walk.Nodes;
      var i := 0;
      while i < walk.length
        invariant 0 <= i <= walk.length == sp - st
        invariant walk.Valid() && walk.Nodes == nodes && walk.Entries == c[st..sp]
        invariant fresh(walk) && fresh(nodes) && item == At(nodes, i)
        invariant Midway(sc, d, e, a, c, st, i)
        invariant log == old(log) + Reports(sc, e.1[st..st + i])
        invariant QueueParts(d) <= old(QueueParts(d))
      {
        walk.LinksIn(i);
        assert nodes[i].data == walk.Entries[i].1 && walk.Entries[i] == c[st + i];
        ReportsNext(sc, e.1, st, i);
        assert item.data == c[st + i].1 && item.data in Data(c);
        PartsIn(d);
        ScanTurn(sc, item.key, item.data, d, e, a, c, st, i);
        item := item.next;
        i := i + 1;
      }
      MidwayEnds(sc, d, e, a, c, st, i);
    }

    /** A scan of a queue at its place in the store. */
    method ScanAt(sc: Scan, r: Range, d: Messages, ghost i: nat, ghost a: Queues, ghost j: nat)
      requires Valid() && Place(accounts, store, i, a, j, d)
      modifies `log, `store, QueueParts(d)
      ensures Valid() && store == PutAt(old(store), i, j, Scanned(sc, old(store)[i].1[j].1, r))
      ensures Place(accounts, store, i, a, j, d)
      ensures log == old(log) + Reports(sc, Slice(old(store)[i].1[j].1, r.marker, r.limit))
    {
      hide AccountIs, QueueIs, Lists, StoreIs, Scanned, Reports, Slice, Parts, Data, QueueParts, AccountParts;
      QueueStands(i, a, j, d);
      ScanQueue(sc, r, d, store[i].1[j], a);
      QueuePut(accounts, store, Repr, i, a, j, d, Scanned(sc, store[i].1[j].1, r));
      store := PutAt(store, i, j, Scanned(sc, store[i].1[j].1, r));
    }

    /** What a change of one queue has to leave alone. */
    lemma QueueStands(i: nat, a: Queues, j: nat, d: Messages)
      requires Valid() && Place(accounts, store, i, a, j, d)
      ensures Parts(accounts) <= Repr && Lists(accounts, ("", store), null)
      ensures Parts(accounts) !! QueueParts(d) && accounts !in QueueParts(d)
      ensures Lists(a, store[i], accounts) && Parts(a) !! QueueParts(d) && a !in QueueParts(d)
      ensures QueueIs(d, store[i].1[j], a) && QueueParts(d) <= Repr
      ensures forall k :: 0 <= k < |store| ==>
                && var b := accounts.Entries[k].1;
                && b in Repr && Data(b.Entries) <= Repr && AccountParts(b) <= Repr && Parts(b) <= Repr
                && (k != i ==>
                      && AccountIs(b, store[k], accounts) && AccountParts(b) !! QueueParts(d)
                      && b in AccountParts(b) && Data(b.Entries) <= AccountParts(b))
      ensures forall l :: 0 <= l < |store[i].1| && l != j ==>
                && var h := a.Entries[l].1;
                && QueueIs(h, store[i].1[l], a) && QueueParts(h) !! QueueParts(d) && h in QueueParts(h)
                && QueueParts(h) <= Repr
    {
      hide AccountIs, QueueIs, Lists, StoreIs, Parts, Data, QueueParts, AccountParts;
      QueueApart(accounts, store, Repr, i, a, j, d);
      AccountsAre(accounts, store, Repr);
      QueuesAre(a, store[i], accounts);
      QueuePartsIn(a);
      forall k | 0 <= k < |store| && k != i
        ensures var b := accounts.Entries[k].1;
                && AccountParts(b) !! QueueParts(d) && b in AccountParts(b) && Data(b.Entries) <= AccountParts(b)
      {
        QueuePartsIn(accounts.Entries[k].1);
        OtherAccountApart(accounts, store, Repr, i, a, j, d, k, accounts.Entries[k].1);
      }
      forall l | 0 <= l < |store[i].1| && l != j
        ensures QueueParts(a.Entries[l].1) !! QueueParts(d)
      {
        OtherQueueApart(accounts, store, Repr, i, a, j, d, i, a, l, a.Entries[l].1);
      }
    }

    /** What a change of one account's own list has to leave alone. */
    lemma AccountStands(i: nat, a: Queues)
      requires Valid() && i < |store| == |accounts.Entries| && a == accounts.Entries[i].1
      ensures Parts(accounts) <= Repr && Lists(accounts, ("", store), null)
      ensures Parts(accounts) !! Parts(a) && accounts !in Parts(a)
      ensures Lists(a, store[i], accounts) && |a.Entries| == |store[i].1|
      ensures forall k :: 0 <= k < |store| ==>
                && var b := accounts.Entries[k].1;
                && b in Repr && Data(b.Entries) <= Repr && AccountParts(b) <= Repr && Parts(b) <= Repr
                && (k != i ==>
                      && AccountIs(b, store[k], accounts) && AccountParts(b) !! Parts(a)
                      && b in AccountParts(b) && Data(b.Entries) <= AccountParts(b))
      ensures forall l :: 0 <= l < |store[i].1| ==>
                && var h := a.Entries[l].1;
                && h in Repr && QueueIs(h, store[i].1[l], a) && QueueParts(h) !! Parts(a) && h in QueueParts(h)
                && QueueParts(h) <= Repr
    {
      hide AccountIs, QueueIs, Lists, StoreIs, Parts, Data, QueueParts, AccountParts;
      AccountsApart(accounts, store, Repr, i);
      AccountsAre(accounts, store, Repr);
      QueuesAre(a, store[i], accounts);
      QueuePartsIn(a);
      PartsHas(a);
      PartsHas(accounts);
      forall k | 0 <= k < |store| && k != i
        ensures var b := accounts.Entries[k].1;
                && AccountParts(b) !! Parts(a) && b in AccountParts(b) && Data(b.Entries) <= AccountParts(b)
      {
        QueuePartsIn(accounts.Entries[k].1);
        AccountPartsApart(accounts, store, Repr, i, a, k, accounts.Entries[k].1);
      }
      forall l | 0 <= l < |store[i].1|
        ensures QueueParts(a.Entries[l].1) !! Parts(a)
      {
        QueueApart(accounts, store, Repr, i, a, l, a.Entries[l].1);
      }
    }

    /** Drops a queue from its account. */
    method DropQueueAt(a: Queues, queue: string, ghost i: nat, ghost j: nat)
      requires Valid() && i < |store| == |accounts.Entries| && a == accounts.Entries[i].1
      requires j < |store[i].1| && store[i].1[j].0 == queue
      modifies `store, Parts(a)
      ensures Valid() && store == old(store)[i := (old(store)[i].0, Without(old(store)[i].1, j))]
      ensures accounts.Entries == old(accounts.Entries)
    {
      hide AccountIs, QueueIs, Lists, StoreIs, Parts, Data, QueueParts, AccountParts;
      AccountStands(i, a);
      ghost var e, c := store[i], a.Entries;
      PartsHas(a);
      WithoutAt(c, j);
      WithoutAt(e.1, j);
      DeleteAt(a, queue, e, accounts, j);
      AccountPut(accounts, store, Repr, i, a, (e.0, Without(e.1, j)));
      store := store[i := (e.0, Without(e.1, j))];
    }

    /** What a change of the list of accounts has to leave alone. */
    lemma StoreStands()
      requires Valid()
      ensures Parts(accounts) <= Repr && Lists(accounts, ("", store), null) && |accounts.Entries| == |store|
      ensures forall k :: 0 <= k < |store| ==>
                && var b := accounts.Entries[k].1;
                && b in Repr && Data(b.Entries) <= Repr && AccountParts(b) <= Repr
                && AccountIs(b, store[k], accounts) && AccountParts(b) !! Parts(accounts)
                && b in AccountParts(b) && Data(b.Entries) <= AccountParts(b)
    {
      hide AccountIs, QueueIs, Lists, StoreIs, Parts, Data, QueueParts, AccountParts;
      AccountsAre(accounts, store, Repr);
      forall k | 0 <= k < |store|
        ensures var b := accounts.Entries[k].1;
                && AccountParts(b) !! Parts(accounts) && b in AccountParts(b) && Data(b.Entries) <= AccountParts(b)
      {
        QueuePartsIn(accounts.Entries[k].1);
        AccountFromRoot(accounts, store, Repr, k, accounts.Entries[k].1);
      }
    }

    method DropAccountAt(account: string, ghost i: nat)
      requires Valid() && i < |store| && store[i].0 == account
      modifies `store, Parts(accounts)
      ensures Valid() && store == Without(old(store), i)
    {
      hide AccountIs, QueueIs, Lists, StoreIs, Parts, Data, QueueParts, AccountParts;
      StoreStands();
      ghost var c := accounts.Entries;
      PartsHas(accounts);
      WithoutAt(c, i);
      WithoutAt(store, i);
      DeleteAt(accounts, account, ("", store), null, i);
      StorePut(accounts, Without(store, i), Repr);
      store := Without(store, i);
    }

    /** Looks up an account and a queue in it. */
    method Find(account: string, queue: string) returns (a: Dictionary?<Messages>, d: Dictionary?<Message>,
      ghost i: nat, ghost j: nat)
      requires Valid()
      ensures d != null <==> HasQueue(store, account, queue)
      ensures d != null ==>
                && a != null && Place(accounts, store, i, a, j, d)
                && i == IndexOf(store, account) && j == IndexOf(store[i].1, queue)
    {
      hide AccountIs, QueueIs, StoreIs, Parts, Data, QueueParts, AccountParts, Unique, Dictionary.Valid;
      StoreStands();
      a, d, i, j := null, null, 0, 0;
      accounts.LengthIs();
      var accountNode := accounts.Search(Some(account));
      SameKeysIndex(accounts.Entries, store, account);
      if accountNode == null { return; }
      i := IndexOf(store, account);
      accounts.LinksIn(i);
      a := accountNode.data;
      QueuesAre(a, store[i], accounts);
      a.LengthIs();
      var queueNode := a.Search(Some(queue));
      SameKeysIndex(a.Entries, store[i].1, queue);
      if queueNode == null { return; }
      j := IndexOf(store[i].1, queue);
      a.LinksIn(j);
      d := queueNode.data;
    }

    lemma Lengths(i: nat, a: Queues, j: nat, d: Messages)
      requires Valid() && Place(accounts, store, i, a, j, d)
      ensures a.length == |store[i].1| && d.length == |store[i].1[j].1|
    {
      hide AccountIs, QueueIs, StoreIs, Parts, Data, QueueParts, AccountParts;
      QueueStands(i, a, j, d);
      MessagesAre(d, store[i].1[j], a);
    }

    /** Drops a queue that has become empty, and its account if that has too. */
    method Collapse(account: string, queue: string, a: Queues, d: Messages, ghost i: nat, ghost j: nat)
      requires Valid() && Place(accounts, store, i, a, j, d) && store[i].0 == account && store[i].1[j].0 == queue
      modifies `store, Repr
      ensures Valid() && store == CollapsedAt(old(store), i, j)
    {
      hide AccountIs, QueueIs, Lists, StoreIs, Parts, Data, QueueParts, AccountParts;
      Lengths(i, a, j, d);
      AccountStands(i, a);
      if d.length == 0 {
        DropQueueAt(a, queue, i, j);
      }
      AccountStands(i, a);
      ListsOwner(a, store[i], accounts);
      a.LengthIs();
      if a.length == 0 {
        DropAccountAt(account, i);
      }
    }

    // ----- commands

    /** Scans a queue and drops what it leaves empty. */
    method ScanCommand(account: string, queue: string, r: Range, sc: Scan)
      requires Valid()
      modifies `log, `store, Repr
      ensures Valid()
      ensures var answer := MemoryStore.ScanCommand(old(store), account, queue, r, sc);
              store == answer.store && log == old(log) + answer.log && answer.status == Fine
    {
      hide Valid, HasQueue, PutQueue, Scanned, Reports, Slice;
      var a, d, i, j := Find(account, queue);
      if d == null { return; }
      Found(store, account, queue, i, j);
      WithinRepr(i, a, j, d);
      ScanAt(sc, r, d, i, a, j);
      Collapse(account, queue, a, d, i, j);
      CollapsedPut(old(store), account, queue, i, j, Scanned(sc, old(store)[i].1[j].1, r));
    }

    lemma WithinRepr(i: nat, a: Queues, j: nat, d: Messages)
      requires Valid() && Place(accounts, store, i, a, j, d)
      ensures QueueParts(d) <= Repr && Parts(a) <= Repr && Parts(accounts) <= Repr && this !in Repr
    {
      hide AccountIs, QueueIs, Lists, StoreIs, Parts, Data, QueueParts, AccountParts;
      QueueStands(i, a, j, d);
    }

    method GetMessages(account: string, queue: string, filters: Option<Filters>, now: nat)
      requires Valid()
      modifies `log, `store, Repr
      ensures Valid() && Answers(old(store), old(log), now, Command.GetMessages(account, queue, filters), Fine)
    {
      hide Valid, MemoryStore.ScanCommand;
      ScanCommand(account, queue, Resolve(filters), Scan(Get, true, Resolve(filters).matchHidden, now, 0, 0));
    }

    method UpdateMessages(account: string, queue: string, attributes: Option<Attributes>, filters: Option<Filters>,
      now: nat)
      requires Valid()
      modifies `log, `store, Repr
      ensures Valid() && Answers(old(store), old(log), now, Command.UpdateMessages(account, queue, attributes,
        filters), Fine)
    {
      hide Valid, MemoryStore.ScanCommand;
      var ttl, hiding := Due(TtlOf(attributes), now), Due(HideOf(attributes), now);
      ScanCommand(account, queue, Resolve(filters), Scan(Update, true, Resolve(filters).matchHidden, now, ttl, hiding));
    }

    method DeleteMessages(account: string, queue: string, filters: Option<Filters>, now: nat)
      requires Valid()
      modifies `log, `store, Repr
      ensures Valid() && Answers(old(store), old(log), now, Command.DeleteMessages(account, queue, filters), Fine)
    {
      hide Valid, MemoryStore.ScanCommand;
      ScanCommand(account, queue, Resolve(filters), Scan(Delete, true, Resolve(filters).matchHidden, now, 0, 0));
    }

    /** The outcome of a command is the interpreter's. */
    ghost predicate Answers(before: Store, told: seq<Report>, now: nat, c: Command, status: Status)
      reads this
    {
      var answer := Interpret(before, now, c);
      store == answer.store && log == told + answer.log && status == answer.status
    }

    /** Any other callback. */
    method Callback(report: Report)
      requires Valid()
      modifies `log
      ensures Valid() && log == old(log) + [report]
    {
      log := log + [report];
    }

    method GetAccounts(filters: Option<Filters>, now: nat)
      requires Valid()
      modifies `log
      ensures Valid() && Answers(old(store), old(log), now, Command.GetAccounts(filters), Fine)
    {
      hide Valid, Lists, AccountIs, Start, Stop, Slice, SameKeys, Dictionary.Valid;
      StoreStands();
      ListsOwner(accounts, ("", store), null);
      ghost var r := Resolve(filters);
      SlicesAlike(accounts.Entries, store, r);
      var walk := accounts.Iter(Resolve(filters).marker, Resolve(filters).limit);
      var item := walk.first;
      walk.LengthIs();
      ghost var names := Names(Slice(store, r.marker, r.limit));
      var i := 0;
      while i < walk.length
        invariant 0 <= i <= walk.length == |names| == |walk.Nodes| && walk.Valid() && item == At(walk.Nodes, i)
        invariant Names(walk.Entries) == names && fresh(walk) && fresh(walk.Nodes) && Valid()
        invariant log == old(log) + seq(i, k requires 0 <= k < i <= |names| => AccountReport(names[k]))
      {
        walk.LinksIn(i);
        Callback(AccountReport(item.key));
        item := item.next;
        i := i + 1;
      }
    }

    method FindAccount(account: string) returns (a: Dictionary?<Messages>)
      requires Valid()
      ensures a != null <==> Has(store, account)
      ensures a != null ==>
                && Lists(a, store[IndexOf(store, account)], accounts)
                && |accounts.Entries| == |store| && a == accounts.Entries[IndexOf(store, account)].1
    {
      hide AccountIs, QueueIs, StoreIs, Parts, Data, QueueParts, AccountParts, Unique, Dictionary.Valid;
      StoreStands();
      accounts.LengthIs();
      var accountNode := accounts.Search(Some(account));
      SameKeysIndex(accounts.Entries, store, account);
      if accountNode == null { return null; }
      ghost var i := IndexOf(store, account);
      accounts.LinksIn(i);
      a := accountNode.data;
      QueuesAre(a, store[i], accounts);
    }

    method GetQueues(account: string, filters: Option<Filters>, now: nat)
      requires Valid()
      modifies `log
      ensures Valid() && Answers(old(store), old(log), now, Command.GetQueues(account, filters), Fine)
    {
      hide Valid, Lists, AccountIs, Start, Stop, Slice, SameKeys, Dictionary.Valid;
      var a := FindAccount(account);
      if a == null { return; }
      ghost var e := store[IndexOf(store, account)];
      ListsOwner(a, e, accounts);
      ghost var r := Resolve(filters);
      SlicesAlike(a.Entries, e.1, r);
      var walk := a.Iter(Resolve(filters).marker, Resolve(filters).limit);
      var item := walk.first;
      walk.LengthIs();
      ghost var names := Names(Slice(e.1, r.marker, r.limit));
      var i := 0;
      while i < walk.length
        invariant 0 <= i <= walk.length == |names| == |walk.Nodes| && walk.Valid() && item == At(walk.Nodes, i)
        invariant Names(walk.Entries) == names && fresh(walk) && fresh(walk.Nodes) && Valid()
        invariant log == old(log) + seq(i, k requires 0 <= k < i <= |names| => QueueReport(names[k]))
      {
        walk.LinksIn(i);
        Callback(QueueReport(item.key));
        item := item.next;
        i := i + 1;
      }
    }

    /** Deletes the visible messages of the selected queues without telling of them. */
    method DeleteQueues(account: string, filters: Option<Filters>, now: nat)
      requires Valid()
      modifies `log, `store, Repr
      ensures Valid() && Answers(old(store), old(log), now, Command.DeleteQueues(account, filters), Fine)
    {
      hide Answers, Valid;
      DeleteQueuesIn(account, Resolve(filters), now);
      DeleteQueuesAnswers(account, filters, now, old(store), old(log));
    }

    lemma DeleteQueuesAnswers(account: string, filters: Option<Filters>, now: nat, before: Store, told: seq<Report>)
      requires store == MemoryStore.DeleteQueuesIn(before, account, Resolve(filters), now) && log == told
      ensures Answers(before, told, now, Command.DeleteQueues(account, filters), Fine)
    {
    }

    method DeleteQueuesIn(account: string, r: Range, now: nat)
      requires Valid()
      modifies `log, `store, Repr
      ensures Valid() && store == MemoryStore.DeleteQueuesIn(old(store), account, r, now) && log == old(log)
    {
      hide Valid, Lists, Start, Stop, Slice, SameKeys, Dictionary.Valid, MemoryStore.ScanCommand;
      ReprOld();
      var a := FindAccount(account);
      if a == null { return; }
      ghost var e := store[IndexOf(store, account)];
      ListsOwner(a, e, accounts);
      SlicesAlike(a.Entries, e.1, r);
      var walk := a.Iter(r.marker, r.limit);
      var item := walk.first;
      walk.LengthIs();
      ghost var nodes, entries, names := walk.Nodes, walk.Entries, Names(Slice(e.1, r.marker, r.limit));
      assert names[0..] == names;
      var i := 0;
      while i < walk.length
        invariant 0 <= i <= walk.length == |names| == |nodes| && walk.Valid() && item == At(nodes, i)
        invariant walk.Nodes == nodes && walk.Entries == entries && Names(entries) == names
        invariant fresh(walk) && fresh(nodes) && Valid() && Repr == old(Repr) && log == old(log)
        invariant DeleteEach(store, account, names[i..], now) == DeleteEach(old(store), account, names, now)
      {
        walk.LinksIn(i);
        assert names[i..][1..] == names[i + 1..] && item.key == names[i];
        PurgeIsSilent(store, account, item.key, now);
        ScanCommand(account, item.key, AllVisible, Purge(now));
        item := item.next;
        i := i + 1;
      }
    }

    lemma ReprOld()
      requires Valid()
      ensures forall o :: o in Repr ==> allocated(o)
      ensures this !in Repr
    {
    }

    /** Deletes in all queues of the selected accounts. */
    method DeleteAccounts(filters: Option<Filters>, now: nat)
      requires Valid()
      modifies `log, `store, Repr
      ensures Valid() && Answers(old(store), old(log), now, Command.DeleteAccounts(filters), Fine)
    {
      hide Valid, Lists, AccountIs, Start, Stop, Slice, SameKeys, Dictionary.Valid, MemoryStore.DeleteQueuesIn;
      ReprOld();
      StoreStands();
      ListsOwner(accounts, ("", store), null);
      ghost var r := Resolve(filters);
      SlicesAlike(accounts.Entries, store, r);
      var walk := accounts.Iter(Resolve(filters).marker, Resolve(filters).limit);
      var item := walk.first;
      walk.LengthIs();
      ghost var nodes, entries, names := walk.Nodes, walk.Entries, Names(Slice(store, r.marker, r.limit));
      assert names[0..] == names;
      var i := 0;
      while i < walk.length
        invariant 0 <= i <= walk.length == |names| == |nodes| && walk.Valid() && item == At(nodes, i)
        invariant walk.Nodes == nodes && walk.Entries == entries && Names(entries) == names
        invariant fresh(walk) && fresh(nodes) && Valid() && Repr == old(Repr) && log == old(log)
        invariant DeleteEachAccount(store, names[i..], now) == DeleteEachAccount(old(store), names, now)
      {
        walk.LinksIn(i);
        assert names[i..][1..] == names[i + 1..] && item.key == names[i];
        DeleteQueuesIn(item.key, AllVisible, now);
        item := item.next;
        i := i + 1;
      }
    }

    // ----- single messages

    /** Deletes a message from a queue at its place. */
    method DropMessageAt(d: Messages, id: string, ghost i: nat, ghost a: Queues, ghost j: nat, ghost k: nat)
      requires Valid() && Place(accounts, store, i, a, j, d)
      requires k < |store[i].1[j].1| && store[i].1[j].1[k].0 == id
      modifies `store, QueueParts(d)
      ensures Valid() && store == PutAt(old(store), i, j, Without(old(store)[i].1[j].1, k))
      ensures Place(accounts, store, i, a, j, d)
    {
      hide AccountIs, QueueIs, Lists, StoreIs, Parts, Data, QueueParts, AccountParts;
      QueueStands(i, a, j, d);
      ghost var q := store[i].1[j].1;
      PartsIn(d);
      DropAt(d, id, store[i].1[j], a, k);
      QueuePut(accounts, store, Repr, i, a, j, d, Without(q, k));
      store := PutAt(store, i, j, Without(q, k));
    }

    method SetTimesAt(m: Message, ttl: nat, hiding: nat,
        ghost d: Messages, ghost i: nat, ghost a: Queues, ghost j: nat, ghost k: nat)
      requires Valid() && Place(accounts, store, i, a, j, d)
      requires k < |store[i].1[j].1| == |d.Entries| && d.Entries[k].1 == m
      modifies `store, m`ttl, m`hiding
      ensures var q := old(store)[i].1[j].1;
              && Valid() && store == PutAt(old(store), i, j, q[k := (q[k].0, Updated(q[k].1, ttl, hiding))])
              && m.Value() == Updated(q[k].1, ttl, hiding)
      ensures Place(accounts, store, i, a, j, d)
    {
      hide AccountIs, QueueIs, Lists, StoreIs, Parts, Data, QueueParts, AccountParts;
      QueueStands(i, a, j, d);
      ghost var q := store[i].1[j].1;
      PartsIn(d);
      SetTimes(m, ttl, hiding, d, store[i].1[j], a, k);
      QueuePut(accounts, store, Repr, i, a, j, d, q[k := (q[k].0, Updated(q[k].1, ttl, hiding))]);
      store := PutAt(store, i, j, q[k := (q[k].0, Updated(q[k].1, ttl, hiding))]);
    }

    method FindMessage(account: string, queue: string, id: string)
      returns (a: Dictionary?<Messages>, d: Dictionary?<Message>, m: Message?, ghost i: nat, ghost j: nat, ghost k: nat)
      requires Valid()
      ensures m != null <==> HasMessage(store, account, queue, id)
      ensures m != null ==>
                && a != null && d != null && Place(accounts, store, i, a, j, d)
                && i == IndexOf(store, account) && j == IndexOf(store[i].1, queue)
                && k == IndexOf(store[i].1[j].1, id) && k < |store[i].1[j].1| == |d.Entries|
                && d.Entries[k].1 == m && m in Repr && MessageIs(m, store[i].1[j].1[k], d)
    {
      hide AccountIs, QueueIs, StoreIs, Parts, Data, QueueParts, AccountParts, Unique, Dictionary.Valid, MessageIs;
      k, m := 0, null;
      a, d, i, j := Find(account, queue);
      if d == null { return; }
      Found(store, account, queue, i, j);
      QueueStands(i, a, j, d);
      PartsIn(d);
      MessagesAre(d, store[i].1[j], a);
      d.LengthIs();
      var node := d.Search(Some(id));
      SameKeysIndex(d.Entries, store[i].1[j].1, id);
      if node == null { return; }
      k := IndexOf(store[i].1[j].1, id);
      d.LinksIn(k);
      m := node.data;
    }

    /** Drops a message found expired, with what that leaves empty. */
    method Expire(account: string, queue: string, id: string, a: Queues, d: Messages, ghost i: nat, ghost j: nat,
      ghost k: nat)
      requires Valid() && Place(accounts, store, i, a, j, d) && HasMessage(store, account, queue, id)
      requires i == IndexOf(store, account) && j == IndexOf(store[i].1, queue) && k == IndexOf(store[i].1[j].1, id)
      modifies `store, Repr
      ensures Valid() && store == PutQueue(old(store), account, queue, Remove(QueueAt(old(store), account, queue), id))
    {
      hide Valid, HasQueue, PutQueue, Place, IndexOf;
      FoundMessage(store, account, queue, id, i, j, k);
      WithinRepr(i, a, j, d);
      DropMessageAt(d, id, i, a, j, k);
      Collapse(account, queue, a, d, i, j);
      CollapsedPut(old(store), account, queue, i, j, Without(old(store)[i].1[j].1, k));
    }

    method GetMessage(account: string, queue: string, id: string, now: nat) returns (status: Status)
      requires Valid()
      modifies `log, `store, Repr
      ensures Valid() && Answers(old(store), old(log), now, Command.GetMessage(account, queue, id), status)
    {
      hide Valid, HasMessage, PutQueue, Place, IndexOf, Remove;
      ReprOld();
      var a, d, m, i, j, k := FindMessage(account, queue, id);
      if m == null { return Invalid; }
      FoundMessage(store, account, queue, id, i, j, k);
      if m.ttl <= now {
        Expire(account, queue, id, a, d, i, j, k);
      } else {
        NothingSet(store, account, queue, id);
        assert MemoryStore.OneMessage(store, account, queue, id, now, 0, 0)
            == Answer(store, [Told(id, m.Value(), now)], Fine);
        Callback(MessageReport(m.id, m.body, Minus32(m.ttl, now), if m.hiding > now then Minus32(m.hiding, now) else 0));
      }
      return Fine;
    }

    method UpdateMessage(account: string, queue: string, id: string, attributes: Option<Attributes>, now: nat)
      returns (status: Status)
      requires Valid()
      modifies `log, `store, Repr
      ensures Valid() && Answers(old(store), old(log), now, Command.UpdateMessage(account, queue, id, attributes), status)
    {
      hide Valid, HasMessage, PutQueue, Place, IndexOf, Remove;
      ReprOld();
      var a, d, m, i, j, k := FindMessage(account, queue, id);
      if m == null { return Invalid; }
      FoundMessage(store, account, queue, id, i, j, k);
      if m.ttl <= now {
        Expire(account, queue, id, a, d, i, j, k);
        return Fine;
      }
      var ttl, hiding := 0, 0;
      if attributes.Some? {
        if attributes.value.ttl.Some? && attributes.value.ttl.value > 0 {
          ttl := Plus32(attributes.value.ttl.value, now);
        }
        if attributes.value.hiding.Some? {
          hiding := Plus32(attributes.value.hiding.value, now);
        }
      }
      MessageSet(store, account, queue, id, i, j, k, Updated(m.Value(), ttl, hiding));
      SetTimesAt(m, ttl, hiding, d, i, a, j, k);
      Callback(MessageReport(m.id, m.body, Minus32(m.ttl, now), if m.hiding > now then Minus32(m.hiding, now) else 0));
      return Fine;
    }

    method DeleteMessage(account: string, queue: string, id: string, now: nat)
      requires Valid()
      modifies `log, `store, Repr
      ensures Valid() && Answers(old(store), old(log), now, Command.DeleteMessage(account, queue, id), Fine)
    {
      hide Valid, HasMessage, PutQueue, Place, IndexOf, Remove;
      ReprOld();
      var a, d, m, i, j, k := FindMessage(account, queue, id);
      if m == null { return; }
      FoundMessage(store, account, queue, id, i, j, k);
      if m.ttl > now {
        Callback(MessageReport(m.id, m.body, Minus32(m.ttl, now), if m.hiding > now then Minus32(m.hiding, now) else 0));
      }
      Expire(account, queue, id, a, d, i, j, k);
    }

    // ----- creating

    /** The account's list of queues, made if there is none. */
    method ObtainAccount(account: string) returns (a: Queues, ghost i: nat)
      requires Valid()
      modifies `store, `Repr, Repr
      ensures Valid() && fresh(Repr - old(Repr)) && old(Repr) <= Repr
      ensures store == WithKey(old(store), account) && i == IndexOf(old(store), account)
      ensures i < |store| == |accounts.Entries| && a == accounts.Entries[i].1
    {
      hide Lists, AccountIs, AccountParts, Data, Parts, Unique, SameKeys, IndexOf, Dictionary.Valid;
      ReprOld();
      StoreStands();
      ListsOwner(accounts, ("", store), null);
      accounts.LengthIs();
      var node := accounts.Search(Some(account));
      SameKeysIndex(accounts.Entries, store, account);
      i := IndexOf(store, account);
      if node != null {
        accounts.LinksIn(i);
        a := node.data;
        return;
      }
      a := AddAccount(account);
    }

    method AddAccount(account: string) returns (a: Queues)
      requires Valid() && !Has(store, account)
      modifies `store, `Repr, Repr
      ensures Valid() && fresh(Repr - old(Repr)) && old(Repr) <= Repr
      ensures store == old(store) + [(account, [])]
      ensures |store| == |accounts.Entries| && a == accounts.Entries[|old(store)|].1
    {
      hide Lists, AccountIs, AccountParts, Data, Parts, StoreIs, Has;
      ReprOld();
      StoreStands();
      a := new Dictionary(accounts, account);
      EmptyAccount(a, accounts);
      PartsHas(accounts);
      AddTo(accounts, account, a, ("", store), null, []);
      Repr := Repr + {a} + Parts(accounts);
      StorePut(accounts, store + [(account, [])], Repr);
      store := store + [(account, [])];
    }

    /** The queue's list of messages, made if there is none. */
    method ObtainQueue(a: Queues, queue: string, ghost i: nat) returns (d: Messages, ghost j: nat)
      requires Valid() && i < |store| == |accounts.Entries| && a == accounts.Entries[i].1
      modifies `store, `Repr, Repr
      ensures Valid() && fresh(Repr - old(Repr)) && old(Repr) <= Repr
      ensures store == old(store)[i := (old(store)[i].0, WithKey(old(store)[i].1, queue))]
      ensures j == IndexOf(old(store)[i].1, queue) && Place(accounts, store, i, a, j, d)
    {
      hide Valid, QueueIs, AccountIs, StoreIs, AccountParts, QueueParts, Data, Parts, Unique, SameKeys, IndexOf,
        Dictionary.Valid;
      AccountStands(i, a);
      a.LengthIs();
      var node := a.Search(Some(queue));
      SameKeysIndex(a.Entries, store[i].1, queue);
      j := IndexOf(store[i].1, queue);
      if node != null {
        a.LinksIn(j);
        d := node.data;
        SameEntry(store, i);
        return;
      }
      d := AddQueue(a, queue, i);
    }

    method AddQueue(a: Queues, queue: string, ghost i: nat) returns (d: Messages)
      requires Valid() && i < |store| == |accounts.Entries| && a == accounts.Entries[i].1 && !Has(store[i].1, queue)
      modifies `store, `Repr, Repr
      ensures Valid() && fresh(Repr - old(Repr)) && old(Repr) <= Repr
      ensures store == old(store)[i := (old(store)[i].0, old(store)[i].1 + [(queue, [])])]
      ensures Place(accounts, store, i, a, |old(store)[i].1|, d)
    {
      hide Lists, QueueIs, AccountIs, AccountParts, QueueParts, Data, Parts, StoreIs, Has;
      ReprOld();
      AccountStands(i, a);
      d := new Dictionary(a, queue);
      EmptyQueue(d, a);
      PartsHas(a);
      ghost var e := store[i];
      AddTo(a, queue, d, e, accounts, []);
      Repr := Repr + {d} + Parts(a);
      AccountPut(accounts, store, Repr, i, a, (e.0, e.1 + [(queue, [])]));
      store := store[i := (e.0, e.1 + [(queue, [])])];
    }

    /** Puts a message under its id: in place of one that is there, or at the end. */
    method PutMessage(d: Messages, m: Message, ghost i: nat, ghost a: Queues, ghost j: nat)
      requires Valid() && Place(accounts, store, i, a, j, d) && m !in Repr
      modifies `store, `Repr, Repr, m`owner
      ensures Valid() && old(Repr) <= Repr
      ensures fresh(Repr - old(Repr) - {m})
      ensures store == PutAt(old(store), i, j, Set(old(store)[i].1[j].1, m.id, m.Value()))
    {
      hide Lists, QueueIs, AccountIs, AccountParts, QueueParts, Data, Parts, StoreIs;
      ReprOld();
      QueueStands(i, a, j, d);
      PartsIn(d);
      PutIn(d, m, store[i].1[j], a);
      Repr := Repr + {m} + QueueParts(d);
      QueuePut(accounts, store, Repr, i, a, j, d, Set(store[i].1[j].1, m.id, m.Value()));
      store := PutAt(store, i, j, Set(store[i].1[j].1, m.id, m.Value()));
    }

    method CreateMessage(account: string, queue: string, id: string, body: seq<int>,
      attributes: Option<Attributes>, now: nat)
      requires Valid()
      modifies `log, `store, `Repr, Repr
      ensures Valid() && fresh(Repr - old(Repr)) && old(Repr) <= Repr
      ensures Answers(old(store), old(log), now, Command.CreateMessage(account, queue, id, body, attributes), Fine)
    {
      hide Valid, Set, IndexOf, WithKey, PutAt;
      ReprOld();
      var m := MakeMessage(id, body, attributes, now);
      var a, i := ObtainAccount(account);
      var d, j := ObtainQueue(a, queue, i);
      CreatedIs(old(store), account, queue, id, m.Value());
      PutMessage(d, m, i, a, j);
    }

    // ----- sessions

    /** The backend's table of commands. */
    method Perform(c: Command, now: nat) returns (status: Status)
      requires Valid()
      modifies this, Repr
      ensures Valid() && fresh(Repr - old(Repr)) && old(Repr) <= Repr
      ensures Answers(old(store), old(log), now, c, status)
    {
      hide Valid, Interpret;
      ReprOld();
      status := Fine;
      match c {
        case GetAccounts(filters) => GetAccounts(filters, now);
        case DeleteAccounts(filters) => DeleteAccounts(filters, now);
        case GetQueues(account, filters) => GetQueues(account, filters, now);
        case DeleteQueues(account, filters) => DeleteQueues(account, filters, now);
        case GetMessages(account, queue, filters) => GetMessages(account, queue, filters, now);
        case UpdateMessages(account, queue, attributes, filters) =>
          UpdateMessages(account, queue, attributes, filters, now);
        case DeleteMessages(account, queue, filters) => DeleteMessages(account, queue, filters, now);
        case CreateMessage(account, queue, id, body, attributes) =>
          CreateMessage(account, queue, id, body, attributes, now);
        case GetMessage(account, queue, id) => status := GetMessage(account, queue, id, now);
        case UpdateMessage(account, queue, id, attributes) =>
          status := UpdateMessage(account, queue, id, attributes, now);
        case DeleteMessage(account, queue, id) => DeleteMessage(account, queue, id, now);
      }
    }

    /** Over any session the linked lists stand for what the interpreter computes, and the
        callbacks are told what it tells. */
    method PerformAll(session: seq<(nat, Command)>) returns (statuses: seq<Status>)
      requires Valid()
      modifies this, Repr
      ensures Valid() && fresh(Repr - old(Repr))
      ensures var outcomes := InterpretAll(old(store), session);
              store == outcomes.store && log == old(log) + outcomes.log && statuses == outcomes.statuses
    {
      hide Valid, Interpret, InterpretAll;
      ReprOld();
      statuses := [];
      NoCommands(store);
      assert session[..0] == [];
      var i := 0;
      while i < |session|
        invariant 0 <= i <= |session|
        invariant Valid() && fresh(Repr - old(Repr))
        invariant var outcomes := InterpretAll(old(store), session[..i]);
                  store == outcomes.store && log == old(log) + outcomes.log && statuses == outcomes.statuses
      {
        InterpretMore(old(store), session[..i], session[i].0, session[i].1);
        assert session[..i + 1] == session[..i] + [(session[i].0, session[i].1)];
        var status := Perform(session[i].1, session[i].0);
        statuses := statuses + [status];
        i := i + 1;
      }
      assert session[..i] == session;
    }
  }
}
