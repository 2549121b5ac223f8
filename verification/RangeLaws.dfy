/** What the commands over a range do: which queues, accounts or messages they select, what
    becomes of every queue of the store, and the whole log. */
module RangeLaws {
  import opened Wrappers
  import opened AssocList
  import opened MemoryStore
  import opened MemoryLaws
  import opened ScanLaws
  import opened StoreLaws
  import opened SingleLaws

  // ----- what filters ask for

  function MarkerOf(f: Option<Filters>): Option<string> { if f.Some? then f.value.marker else None }

  /** A limit that is not given is none, as is a limit of zero. */
  function LimitOf(f: Option<Filters>): nat {
    if f.Some? && f.value.limit.Some? then f.value.limit.value else 0
  }

  predicate ShowsHidden(f: Option<Filters>) { f.Some? && f.value.matchHidden == Some(true) }

  /** A selection begins at the marker's entry, or at the front if there is no such entry. */
  ghost predicate BeginsAt<V>(s: seq<Entry<V>>, marker: Option<string>, from: nat) {
    if marker.Some? && exists k :: 0 <= k < |s| && s[k].0 == marker.value
    then from < |s| && s[from].0 == marker.value && forall k :: 0 <= k < from ==> s[k].0 != marker.value
    else from == 0
  }

  /** The places from `from` up to `upto` are those that the filters select. */
  ghost predicate Selected<V>(s: seq<Entry<V>>, f: Option<Filters>, from: nat, upto: nat) {
    && BeginsAt(s, MarkerOf(f), from) && from <= upto <= |s|
    && upto - from == if LimitOf(f) == 0 || LimitOf(f) > |s| - from then |s| - from else LimitOf(f)
  }

  lemma SelectedIs<V>(s: seq<Entry<V>>, f: Option<Filters>) returns (from: nat, upto: nat)
    ensures Selected(s, f, from, upto)
    ensures from == Start(s, Resolve(f).marker) && upto == Stop(s, Resolve(f).marker, Resolve(f).limit)
    ensures Slice(s, Resolve(f).marker, Resolve(f).limit) == s[from..upto]
  {
    from, upto := Start(s, Resolve(f).marker), Stop(s, Resolve(f).marker, Resolve(f).limit);
    var marker := MarkerOf(f);
    if marker.Some? {
      if Has(s, marker.value) {
        assert s[IndexOf(s, marker.value)].0 == marker.value;
      } else {
        assert forall k :: 0 <= k < |s| ==> s[k].0 != marker.value;
      }
    }
  }

  // ----- names

  /** Listing queues changes nothing and tells the keys of the selected places, one by one; an
      account that is not there has none. */
  lemma GetQueuesDoes(s: Store, now: nat, account: string, f: Option<Filters>) returns (from: nat, upto: nat)
    ensures var queues := ValueOf(s, account);
            var answer := Interpret(s, now, GetQueues(account, f));
            && Selected(queues, f, from, upto)
            && answer.store == s && answer.status == Fine && |answer.log| == upto - from
            && forall k :: 0 <= k < upto - from ==> answer.log[k] == QueueReport(queues[from + k].0)
  {
    hide Selected, Start, Stop, IndexOf;
    from, upto := SelectedIs(ValueOf(s, account), f);
    if !Has(s, account) { NothingSelected<Queue>(f, from, upto); }
  }

  lemma NothingSelected<V>(f: Option<Filters>, from: nat, upto: nat)
    requires Selected<V>([], f, from, upto)
    ensures from == upto == 0
  {
  }

  /** The same for accounts. */
  lemma GetAccountsDoes(s: Store, now: nat, f: Option<Filters>) returns (from: nat, upto: nat)
    ensures var answer := Interpret(s, now, GetAccounts(f));
            && Selected(s, f, from, upto)
            && answer.store == s && answer.status == Fine && |answer.log| == upto - from
            && forall k :: 0 <= k < upto - from ==> answer.log[k] == AccountReport(s[from + k].0)
  {
    hide Selected, Start, Stop, IndexOf;
    from, upto := SelectedIs(s, f);
  }

  // ----- messages

  function Alive(now: nat): Entry<Msg> -> bool { (e: Entry<Msg>) => e.1.ttl > now }

  /** Live, and hidden only if the filters ask for hidden messages. */
  function Matched(f: Option<Filters>, now: nat): Entry<Msg> -> bool {
    (e: Entry<Msg>) => e.1.ttl > now && (ShowsHidden(f) || e.1.hiding <= now)
  }

  /** Live, but passed over as hidden. */
  function Spared(f: Option<Filters>, now: nat): Entry<Msg> -> bool {
    (e: Entry<Msg>) => e.1.ttl > now && !ShowsHidden(f) && e.1.hiding > now
  }

  function Noticed(now: nat): Entry<Msg> -> Report { (e: Entry<Msg>) => Notice(e.0, e.1, now) }

  /** A message with its times set to count from now, as far as they are given; where the clock
      then shows zero the time stays as it is. */
  function Rescheduled(m: Msg, attributes: Option<Attributes>, now: nat): Msg {
    if attributes.None? then m
    else
      var ttl, hiding := attributes.value.ttl, attributes.value.hiding;
      Msg(m.body,
          if ttl.Some? && Clock(now + ttl.value) != 0 then Clock(now + ttl.value) else m.ttl,
          if hiding.Some? && Clock(now + hiding.value) != 0 then Clock(now + hiding.value) else m.hiding)
  }

  function Rescheduling(attributes: Option<Attributes>, now: nat): Entry<Msg> -> Entry<Msg> {
    (e: Entry<Msg>) => (e.0, Rescheduled(e.1, attributes, now))
  }

  /** The same for the matched messages only. */
  function ReschedulingMatched(f: Option<Filters>, attributes: Option<Attributes>, now: nat): Entry<Msg> -> Entry<Msg> {
    (e: Entry<Msg>) => if Matched(f, now)(e) then Rescheduling(attributes, now)(e) else e
  }

  /** One queue has become this, and every other queue of any account is as it was. */
  ghost predicate OnlyQueueChanges(s: Store, t: Store, account: string, queue: string, q: Queue) {
    forall a, b :: QueueOf(t, a, b) == if a == account && b == queue then q else QueueOf(s, a, b)
  }

  lemma {:induction false} LeftByGet(sc: Scan, q: Queue)
    requires sc.action == Get
    ensures Left(sc, q) == Filter(Alive(sc.now), q)
  {
    if q != [] { LeftByGet(sc, q[1..]); }
  }

  lemma {:induction false} LeftByDelete(f: Option<Filters>, sc: Scan, q: Queue)
    requires sc.action == Delete && sc.matchHidden == ShowsHidden(f)
    ensures Left(sc, q) == Filter(Spared(f, sc.now), q)
  {
    if q != [] { LeftByDelete(f, sc, q[1..]); }
  }

  lemma VisitMoves(f: Option<Filters>, attributes: Option<Attributes>, sc: Scan, e: Entry<Msg>)
    requires sc.action == Update && sc.matchHidden == ShowsHidden(f) && e.1.ttl > sc.now
    requires Updated(e.1, sc.ttl, sc.hiding) == Rescheduled(e.1, attributes, sc.now)
    ensures Visit(sc, e.0, e.1).0 == Some(ReschedulingMatched(f, attributes, sc.now)(e).1)
    ensures ReschedulingMatched(f, attributes, sc.now)(e).0 == e.0
  {
    hide Updated, Rescheduled;
    assert Rescheduling(attributes, sc.now)(e) == (e.0, Rescheduled(e.1, attributes, sc.now));
  }

  lemma {:induction false} LeftByUpdate(f: Option<Filters>, attributes: Option<Attributes>, sc: Scan, q: Queue)
    requires sc.action == Update && sc.matchHidden == ShowsHidden(f)
    requires forall m :: Updated(m, sc.ttl, sc.hiding) == Rescheduled(m, attributes, sc.now)
    ensures Left(sc, q) == Map(ReschedulingMatched(f, attributes, sc.now), Filter(Alive(sc.now), q))
  {
    hide Rescheduled, Updated, Map;
    if q == [] {
      MapNothing(ReschedulingMatched(f, attributes, sc.now));
    } else {
      LeftByUpdate(f, attributes, sc, q[1..]);
      var rest := Filter(Alive(sc.now), q[1..]);
      if q[0].1.ttl > sc.now {
        VisitMoves(f, attributes, sc, q[0]);
        assert Filter(Alive(sc.now), q) == [q[0]] + rest;
        MapFirst(ReschedulingMatched(f, attributes, sc.now), q[0], rest);
      } else {
        assert Filter(Alive(sc.now), q) == rest;
      }
    }
  }

  /** What is told of the messages that match, as they then stand. */
  lemma {:induction false} ReportsAreNotices(f: Option<Filters>, moving: Entry<Msg> -> Entry<Msg>, sc: Scan, q: Queue)
    requires sc.report && sc.matchHidden == ShowsHidden(f)
    requires forall e :: moving(e) == (e.0, Seen(sc, e.1))
    requires forall k :: 0 <= k < |q| ==> Fits(Seen(sc, q[k].1))
    ensures Reports(sc, q) == Map(Noticed(sc.now), Map(moving, Filter(Matched(f, sc.now), q)))
  {
    hide Told, Notice, Fits, Seen;
    if q != [] {
      ReportsAreNotices(f, moving, sc, q[1..]);
      var rest := Filter(Matched(f, sc.now), q[1..]);
      if Matched(f, sc.now)(q[0]) {
        VisitTells(sc, q[0].0, q[0].1);
        ToldIsNotice(q[0].0, Seen(sc, q[0].1), sc.now);
        assert Filter(Matched(f, sc.now), q) == [q[0]] + rest;
        MapFirst(moving, q[0], rest);
        MapFirst(Noticed(sc.now), moving(q[0]), Map(moving, rest));
      } else {
        VisitTells(sc, q[0].0, q[0].1);
        assert Filter(Matched(f, sc.now), q) == rest;
      }
    }
  }

  lemma MapNothing<T, U>(f: T -> U)
    ensures Map(f, []) == []
  {
  }

  lemma MapFirst<T, U>(f: T -> U, x: T, rest: seq<T>)
    ensures Map(f, [x] + rest) == [f(x)] + Map(f, rest)
  {
    assert ([x] + rest)[1..] == rest;
  }

  lemma VisitTells(sc: Scan, id: string, m: Msg)
    requires sc.report
    ensures Visit(sc, id, m).1 ==
            if m.ttl > sc.now && (sc.matchHidden || m.hiding <= sc.now) then [Told(id, Seen(sc, m), sc.now)] else []
  {
  }

  lemma {:induction false} MapSelf<T>(f: T -> T, s: seq<T>)
    requires forall x :: f(x) == x
    ensures Map(f, s) == s
  {
    if s != [] { MapSelf(f, s[1..]); }
  }

  lemma ScanDoes(s: Store, account: string, queue: string, f: Option<Filters>, sc: Scan) returns (from: nat, upto: nat)
    requires TidyStore(s)
    ensures var q := QueueOf(s, account, queue);
            var answer := ScanCommand(s, account, queue, Resolve(f), sc);
            && Selected(q, f, from, upto) && from <= upto <= |q| && answer.status == Fine
            && OnlyQueueChanges(s, answer.store, account, queue, q[..from] + Left(sc, q[from..upto]) + q[upto..])
            && answer.log == Reports(sc, q[from..upto])
  {
    hide Selected, QueueOf, Left, Reports, TidyStore, Start, Stop, ScanCommand, Slice;
    from, upto := SelectedIs(QueueOf(s, account, queue), f);
    ScanIsFine(s, account, queue, Resolve(f), sc);
    forall a, b {
      ScanCommandOf(s, account, queue, Resolve(f), sc, a, b);
    }
    ScanCommandOf(s, account, queue, Resolve(f), sc, account, queue);
  }

  lemma ScanIsFine(s: Store, account: string, queue: string, r: Range, sc: Scan)
    ensures ScanCommand(s, account, queue, r, sc).status == Fine
  {
  }

  predicate AllFits(q: Queue) { forall k :: 0 <= k < |q| ==> Fits(q[k].1) }

  /** Getting messages takes only the expired ones of the selected places out of the queue, and
      tells the others but for hidden ones that were not asked for. */
  lemma GetMessagesDoes(s: Store, now: nat, account: string, queue: string, f: Option<Filters>)
    returns (from: nat, upto: nat)
    requires TidyStore(s) && AllFits(QueueOf(s, account, queue))
    ensures var q := QueueOf(s, account, queue);
            var answer := Interpret(s, now, GetMessages(account, queue, f));
            && Selected(q, f, from, upto) && from <= upto <= |q| && answer.status == Fine
            && OnlyQueueChanges(s, answer.store, account, queue,
                                q[..from] + Filter(Alive(now), q[from..upto]) + q[upto..])
            && answer.log == Map(Noticed(now), Filter(Matched(f, now), q[from..upto]))
  {
    hide Selected, QueueOf, Left, Reports, TidyStore, ScanCommand, OnlyQueueChanges, Noticed, Matched, Alive, Fits;
    var sc := Scan(Get, true, Resolve(f).matchHidden, now, 0, 0);
    from, upto := ScanDoes(s, account, queue, f, sc);
    var slice := QueueOf(s, account, queue)[from..upto];
    LeftByGet(sc, slice);
    var same := (e: Entry<Msg>) => e;
    ReportsAreNotices(f, same, sc, slice);
    MapSelf(same, Filter(Matched(f, now), slice));
  }

  /** Deleting messages takes the expired ones and the matched ones of the selected places out of
      the queue, and tells those that matched. */
  lemma DeleteMessagesDoes(s: Store, now: nat, account: string, queue: string, f: Option<Filters>)
    returns (from: nat, upto: nat)
    requires TidyStore(s) && AllFits(QueueOf(s, account, queue))
    ensures var q := QueueOf(s, account, queue);
            var answer := Interpret(s, now, DeleteMessages(account, queue, f));
            && Selected(q, f, from, upto) && from <= upto <= |q| && answer.status == Fine
            && OnlyQueueChanges(s, answer.store, account, queue,
                                q[..from] + Filter(Spared(f, now), q[from..upto]) + q[upto..])
            && answer.log == Map(Noticed(now), Filter(Matched(f, now), q[from..upto]))
  {
    hide Selected, QueueOf, Left, Reports, TidyStore, ScanCommand, OnlyQueueChanges, Noticed, Matched, Spared, Fits;
    var sc := Scan(Delete, true, Resolve(f).matchHidden, now, 0, 0);
    from, upto := ScanDoes(s, account, queue, f, sc);
    var slice := QueueOf(s, account, queue)[from..upto];
    LeftByDelete(f, sc, slice);
    var same := (e: Entry<Msg>) => e;
    ReportsAreNotices(f, same, sc, slice);
    MapSelf(same, Filter(Matched(f, now), slice));
  }

  lemma UpdatedIsRescheduled(m: Msg, attributes: Option<Attributes>, now: nat)
    ensures Updated(m, Due(TtlOf(attributes), now), Due(HideOf(attributes), now)) == Rescheduled(m, attributes, now)
    ensures Fits(m) ==> Fits(Rescheduled(m, attributes, now))
  {
  }

  lemma UpdatedAre(f: Option<Filters>, attributes: Option<Attributes>, sc: Scan, q: Queue)
    requires AllFits(q) && sc.report && sc.matchHidden == ShowsHidden(f) && sc.action == Update
    requires sc.ttl == Due(TtlOf(attributes), sc.now) && sc.hiding == Due(HideOf(attributes), sc.now)
    ensures Left(sc, q) == Map(ReschedulingMatched(f, attributes, sc.now), Filter(Alive(sc.now), q))
    ensures Reports(sc, q) == Map(Noticed(sc.now), Map(Rescheduling(attributes, sc.now), Filter(Matched(f, sc.now), q)))
  {
    hide Left, Reports, Map, Filter, Fits, ReschedulingMatched, Rescheduled, Updated, Due, TtlOf, HideOf, Noticed, Alive,
      Matched;
    forall m
      ensures Updated(m, sc.ttl, sc.hiding) == Rescheduled(m, attributes, sc.now)
      ensures Fits(m) ==> Fits(Rescheduled(m, attributes, sc.now))
    {
      UpdatedIsRescheduled(m, attributes, sc.now);
    }
    LeftByUpdate(f, attributes, sc, q);
    ReportsAreNotices(f, Rescheduling(attributes, sc.now), sc, q);
  }

  /** Updating messages takes the expired ones of the selected places out of the queue, moves the
      times of those that match as asked, and tells them with the new ones. */
  lemma UpdateMessagesDoes(s: Store, now: nat, account: string, queue: string, attributes: Option<Attributes>,
    f: Option<Filters>) returns (from: nat, upto: nat)
    requires TidyStore(s) && AllFits(QueueOf(s, account, queue))
    ensures var q := QueueOf(s, account, queue);
            var answer := Interpret(s, now, UpdateMessages(account, queue, attributes, f));
            && Selected(q, f, from, upto) && from <= upto <= |q| && answer.status == Fine
            && OnlyQueueChanges(s, answer.store, account, queue,
                                q[..from]
                                + Map(ReschedulingMatched(f, attributes, now), Filter(Alive(now), q[from..upto]))
                                + q[upto..])
            && answer.log == Map(Noticed(now), Map(Rescheduling(attributes, now), Filter(Matched(f, now), q[from..upto])))
  {
    hide Selected, QueueOf, Left, Reports, TidyStore, ScanCommand, OnlyQueueChanges, Noticed, Matched, Alive, Fits,
      ReschedulingMatched, Rescheduling, Due, TtlOf, HideOf, Map, Filter;
    var sc := Scan(Update, true, Resolve(f).matchHidden, now, Due(TtlOf(attributes), now), Due(HideOf(attributes), now));
    from, upto := ScanDoes(s, account, queue, f, sc);
    UpdatedAre(f, attributes, sc, QueueOf(s, account, queue)[from..upto]);
  }

  // ----- bulk deletion

  function KeptHidden(now: nat): Entry<Msg> -> bool { (e: Entry<Msg>) => e.1.ttl > now && e.1.hiding > now }

  lemma {:induction false} SurvivorsAre(q: Queue, now: nat)
    ensures Survivors(q, now) == Filter(KeptHidden(now), q)
  {
    if q != [] { SurvivorsAre(q[1..], now); }
  }

  /** The key stands at one of the places. */
  ghost predicate NamedIn<V>(s: seq<Entry<V>>, from: nat, upto: nat, key: string)
    requires upto <= |s|
  {
    exists k :: from <= k < upto && s[k].0 == key
  }

  lemma NamesIn<V>(s: seq<Entry<V>>, from: nat, upto: nat, key: string)
    requires from <= upto <= |s|
    ensures key in Names(s[from..upto]) <==> NamedIn(s, from, upto, key)
  {
    var t := s[from..upto];
    assert |Names(t)| == |t| && forall k :: 0 <= k < |t| ==> Names(t)[k] == t[k].0 == s[from + k].0;
    if NamedIn(s, from, upto, key) {
      var k :| from <= k < upto && s[k].0 == key;
      assert Names(t)[k - from] == key;
    }
  }

  /** Deleting queues leaves, in the queues at the selected places of the account, exactly the live
      hidden messages, and every other queue as it is; nothing is told. */
  lemma DeleteQueuesDoes(s: Store, now: nat, account: string, f: Option<Filters>) returns (from: nat, upto: nat)
    requires TidyStore(s)
    ensures var queues := ValueOf(s, account);
            var answer := Interpret(s, now, DeleteQueues(account, f));
            && Selected(queues, f, from, upto) && answer.log == [] && answer.status == Fine
            && forall a, b :: QueueOf(answer.store, a, b) ==
                 if a == account && NamedIn(queues, from, upto, b) then Filter(KeptHidden(now), QueueOf(s, a, b))
                 else QueueOf(s, a, b)
  {
    hide Selected, QueueOf, ValueOf, TidyStore, DeleteQueuesIn, Survivors, Slice, Start, Stop, NamedIn, Names;
    var queues := ValueOf(s, account);
    from, upto := SelectedIs(queues, f);
    forall a, b
      ensures QueueOf(Interpret(s, now, DeleteQueues(account, f)).store, a, b) ==
              if a == account && NamedIn(queues, from, upto, b) then Filter(KeptHidden(now), QueueOf(s, a, b))
              else QueueOf(s, a, b)
    {
      DeleteQueuesLeavesHidden(s, account, Resolve(f), now, a, b);
      NamesIn(queues, from, upto, b);
      SurvivorsAre(QueueOf(s, a, b), now);
    }
  }

  /** Deleting accounts does so in every queue of the accounts at the selected places. */
  lemma DeleteAccountsDoes(s: Store, now: nat, f: Option<Filters>) returns (from: nat, upto: nat)
    requires TidyStore(s)
    ensures var answer := Interpret(s, now, DeleteAccounts(f));
            && Selected(s, f, from, upto) && answer.log == [] && answer.status == Fine
            && forall a, b :: QueueOf(answer.store, a, b) ==
                 if NamedIn(s, from, upto, a) then Filter(KeptHidden(now), QueueOf(s, a, b)) else QueueOf(s, a, b)
  {
    hide Selected, QueueOf, TidyStore, DeleteEachAccount, Survivors, Slice, Start, Stop, NamedIn, Names;
    from, upto := SelectedIs(s, f);
    forall a, b
      ensures QueueOf(Interpret(s, now, DeleteAccounts(f)).store, a, b) ==
              if NamedIn(s, from, upto, a) then Filter(KeptHidden(now), QueueOf(s, a, b)) else QueueOf(s, a, b)
    {
      DeleteAccountsLeavesHidden(s, f, now, a, b);
      NamesIn(s, from, upto, a);
      SurvivorsAre(QueueOf(s, a, b), now);
    }
  }
}
