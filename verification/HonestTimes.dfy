/** When the seconds that the memory backend tells are exact: a subtraction of unsigned 32-bit
    times wraps for one kind of update only. */
module HonestTimes {
  import opened Wrappers
  import opened AssocList
  import opened MemoryStore
  import opened MemoryLaws
  import opened ScanLaws
  import opened StoreLaws
  import opened SingleLaws

  predicate QueueFits(q: Queue) {
    forall k :: 0 <= k < |q| ==> Fits(q[k].1)
  }

  ghost predicate StoreFits(s: Store) {
    forall a, b :: QueueFits(QueueOf(s, a, b))
  }

  /** The end that is asked for lies past the clock's last second. */
  predicate Wraps(attribute: Option<nat>, now: nat) {
    attribute.Some? && attribute.value + now > WORD
  }

  /** Attributes are unsigned 32-bit numbers. */
  predicate IsWord(attribute: Option<nat>) {
    attribute.Some? ==> attribute.value < WORD
  }

  function AskedTtl(c: Command): Option<nat> {
    match c
    case UpdateMessages(_, _, attributes, _) => TtlOf(attributes)
    case UpdateMessage(_, _, _, attributes) => TtlOf(attributes)
    case GetAccounts(_) => None
    case DeleteAccounts(_) => None
    case GetQueues(_, _) => None
    case DeleteQueues(_, _) => None
    case GetMessages(_, _, _) => None
    case DeleteMessages(_, _, _) => None
    case CreateMessage(_, _, _, _, _) => None
    case GetMessage(_, _, _) => None
    case DeleteMessage(_, _, _) => None
  }

  /** Some message that the command addresses is live and not passed over as hidden. */
  predicate ReachesSome(s: Store, now: nat, c: Command) {
    match c
    case UpdateMessages(account, queue, _, f) =>
      var r := Resolve(f);
      ActsOnSome(Scan(Update, true, r.matchHidden, now, 0, 0), Slice(QueueOf(s, account, queue), r.marker, r.limit))
    case UpdateMessage(account, queue, id, _) =>
      MessageOf(s, account, queue, id).Some? && !Expired(MessageOf(s, account, queue, id).value, now)
    case GetAccounts(_) => false
    case DeleteAccounts(_) => false
    case GetQueues(_, _) => false
    case DeleteQueues(_, _) => false
    case GetMessages(_, _, _) => false
    case DeleteMessages(_, _, _) => false
    case CreateMessage(_, _, _, _, _) => false
    case GetMessage(_, _, _) => false
    case DeleteMessage(_, _, _) => false
  }

  /** An update that sets a live message's end past the clock's last second. */
  predicate Misleads(s: Store, now: nat, c: Command) {
    Wraps(AskedTtl(c), now) && ReachesSome(s, now, c)
  }

  /** The time stored is over already exactly if the end asked for wraps; one that wraps to
      zero counts as not given. */
  lemma DueIsOver(attribute: Option<nat>, now: nat)
    requires now < WORD && IsWord(attribute)
    ensures 0 < Due(attribute, now) < now <==> Wraps(attribute, now)
    ensures Due(attribute, now) < WORD
  {
  }

  lemma ScanCommandHonest(s: Store, account: string, queue: string, r: Range, sc: Scan)
    requires TidyStore(s) && QueueFits(QueueOf(s, account, queue))
    requires sc.now < WORD && sc.ttl < WORD && sc.hiding < WORD
    ensures AllHonest(ScanCommand(s, account, queue, r, sc).log, sc.now) <==>
            !(sc.action == Update && 0 < sc.ttl < sc.now
              && ActsOnSome(sc, Slice(QueueOf(s, account, queue), r.marker, r.limit)))
  {
    hide QueueOf, Reports, ScanCommand, TidyStore, Start, Stop, AllHonest, ActsOnSome;
    ScanCommandOf(s, account, queue, r, sc, account, queue);
    ScanToldHonestly(sc, Slice(QueueOf(s, account, queue), r.marker, r.limit));
  }

  lemma OneHonest(s: Store, account: string, queue: string, id: string, now: nat, ttl: nat, hiding: nat)
    requires TidyStore(s) && QueueFits(QueueOf(s, account, queue)) && now < WORD && ttl < WORD && hiding < WORD
    ensures AllHonest(OneMessage(s, account, queue, id, now, ttl, hiding).log, now) <==>
            !(0 < ttl < now && MessageOf(s, account, queue, id).Some?
              && !Expired(MessageOf(s, account, queue, id).value, now))
    ensures AllHonest(DropMessage(s, account, queue, id, now).log, now)
  {
    hide QueueOf, TidyStore, IndexOf, PutQueue, Set, Remove, MessageOf, HasQueue, QueueAt, Honest;
    QueueExists(s, account, queue);
    MessageExists(s, account, queue, id);
    if HasMessage(s, account, queue, id) {
      var q := QueueAt(s, account, queue);
      At(q, id);
      var m := Lookup(q, id);
      assert Fits(m);
      if !Expired(m, now) {
        ToldHonestly(id, m, now);
        ToldHonestly(id, Updated(m, ttl, hiding), now);
        assert OneMessage(s, account, queue, id, now, ttl, hiding).log[0] == Told(id, Updated(m, ttl, hiding), now);
      }
    }
  }

  /** A command tells a wrong time exactly if it is an update whose ttl runs past the clock's
      last second and which reaches a live message: for every command, store and second. */
  lemma InterpretTellsHonestly(s: Store, now: nat, c: Command)
    requires TidyStore(s) && StoreFits(s) && now < WORD && IsWord(AskedTtl(c))
    ensures AllHonest(Interpret(s, now, c).log, now) <==> !Misleads(s, now, c)
  {
    hide TidyStore, QueueOf, QueueFits, Honest, ScanCommand, OneMessage, DropMessage, Slice, Has, Due, ActsOnSome,
      MessageOf, Wraps, IsWord, PositiveTtl, HideOf;
    DueIsOver(AskedTtl(c), now);
    match c {
      case GetAccounts(f) => NamesHonest(now);
      case DeleteAccounts(f) =>
      case GetQueues(account, f) => NamesHonest(now);
      case DeleteQueues(account, f) =>
      case GetMessages(account, queue, f) =>
        ScanCommandHonest(s, account, queue, Resolve(f), Scan(Get, true, Resolve(f).matchHidden, now, 0, 0));
      case UpdateMessages(account, queue, attributes, f) =>
        var r, ttl, hiding := Resolve(f), Due(TtlOf(attributes), now), Due(HideOf(attributes), now);
        DueInRange(HideOf(attributes), now);
        ScanCommandHonest(s, account, queue, r, Scan(Update, true, r.matchHidden, now, ttl, hiding));
        ReachesAlike(r.matchHidden, now, ttl, hiding, Slice(QueueOf(s, account, queue), r.marker, r.limit));
      case DeleteMessages(account, queue, f) =>
        ScanCommandHonest(s, account, queue, Resolve(f), Scan(Delete, true, Resolve(f).matchHidden, now, 0, 0));
      case CreateMessage(account, queue, id, body, attributes) =>
      case GetMessage(account, queue, id) => OneHonest(s, account, queue, id, now, 0, 0);
      case UpdateMessage(account, queue, id, attributes) =>
        PositiveIsOver(attributes, now);
        DueInRange(PositiveTtl(attributes), now);
        DueInRange(HideOf(attributes), now);
        OneHonest(s, account, queue, id, now, Due(PositiveTtl(attributes), now), Due(HideOf(attributes), now));
      case DeleteMessage(account, queue, id) => OneHonest(s, account, queue, id, now, 0, 0);
    }
  }

  lemma ReachesAlike(matchHidden: bool, now: nat, ttl: nat, hiding: nat, q: Queue)
    ensures ActsOnSome(Scan(Update, true, matchHidden, now, ttl, hiding), q)
       <==> ActsOnSome(Scan(Update, true, matchHidden, now, 0, 0), q)
  {
    forall k | 0 <= k < |q|
      ensures Acted(Scan(Update, true, matchHidden, now, ttl, hiding), q[k].1)
         <==> Acted(Scan(Update, true, matchHidden, now, 0, 0), q[k].1)
    {
    }
  }

  lemma PositiveIsOver(attributes: Option<Attributes>, now: nat)
    requires now < WORD && IsWord(TtlOf(attributes))
    ensures 0 < Due(PositiveTtl(attributes), now) < now <==> Wraps(TtlOf(attributes), now)
  {
  }

  lemma NamesHonest(now: nat)
    ensures forall name :: Honest(AccountReport(name), now)
    ensures forall name :: Honest(QueueReport(name), now)
  {
  }

  // ----- stored times stay in range

  lemma {:induction false} LeftFits(sc: Scan, q: Queue)
    requires QueueFits(q) && sc.ttl < WORD && sc.hiding < WORD
    ensures QueueFits(Left(sc, q))
  {
    if q != [] { LeftFits(sc, q[1..]); }
  }

  lemma ScannedFits(sc: Scan, q: Queue, r: Range)
    requires QueueFits(q) && sc.ttl < WORD && sc.hiding < WORD
    ensures QueueFits(Scanned(sc, q, r))
  {
    hide Left, Start, Stop;
    LeftFits(sc, Slice(q, r.marker, r.limit));
  }

  lemma SetFits(q: Queue, id: string, m: Msg)
    requires QueueFits(q)
    ensures Fits(m) ==> QueueFits(Set(q, id, m))
    ensures QueueFits(Remove(q, id))
  {
    hide IndexOf;
  }

  lemma ScanCommandFits(s: Store, account: string, queue: string, r: Range, sc: Scan, a: string, b: string)
    requires TidyStore(s) && QueueFits(QueueOf(s, a, b)) && sc.ttl < WORD && sc.hiding < WORD
    ensures QueueFits(QueueOf(ScanCommand(s, account, queue, r, sc).store, a, b))
  {
    hide QueueOf, ScanCommand, TidyStore, Scanned, QueueFits;
    ScanCommandOf(s, account, queue, r, sc, a, b);
    ScannedFits(sc, QueueOf(s, a, b), r);
  }

  lemma SingleFits(s: Store, account: string, queue: string, id: string, m: Msg, a: string, b: string)
    requires TidyStore(s) && QueueFits(QueueOf(s, a, b)) && HasQueue(s, account, queue)
    ensures QueueFits(QueueOf(PutQueue(s, account, queue, Remove(QueueAt(s, account, queue), id)), a, b))
    ensures Fits(m) ==> QueueFits(QueueOf(PutQueue(s, account, queue, Set(QueueAt(s, account, queue), id, m)), a, b))
  {
    hide QueueOf, TidyStore, QueueFits, PutQueue, Set, Remove;
    QueueExists(s, account, queue);
    var q := QueueAt(s, account, queue);
    PutQueueOf(s, account, queue, Remove(q, id), a, b);
    PutQueueOf(s, account, queue, Set(q, id, m), a, b);
    if a == account && b == queue { SetFits(q, id, m); }
  }

  lemma OneFits(s: Store, account: string, queue: string, id: string, now: nat, ttl: nat, hiding: nat, a: string,
    b: string)
    requires TidyStore(s) && StoreFits(s) && ttl < WORD && hiding < WORD
    ensures QueueFits(QueueOf(OneMessage(s, account, queue, id, now, ttl, hiding).store, a, b))
    ensures QueueFits(QueueOf(DropMessage(s, account, queue, id, now).store, a, b))
  {
    hide QueueOf, TidyStore, PutQueue, Set, Remove, IndexOf;
    assert QueueFits(QueueOf(s, a, b));
    if HasMessage(s, account, queue, id) {
      var q := QueueAt(s, account, queue);
      QueueExists(s, account, queue);
      assert QueueFits(QueueOf(s, account, queue));
      At(q, id);
      SingleFits(s, account, queue, id, Updated(Lookup(q, id), ttl, hiding), a, b);
    }
  }

  lemma SurvivorsFit(q: Queue, now: nat)
    requires QueueFits(q)
    ensures QueueFits(Survivors(q, now))
  {
    hide Scanned, Survivors, QueueFits;
    SurvivorsScanned(q, now);
    ScannedFits(Purge(now), q, AllVisible);
  }

  lemma DueInRange(attribute: Option<nat>, now: nat)
    ensures Due(attribute, now) < WORD
  {
  }

  /** Whatever is asked for, the times stored are 32-bit times. */
  lemma InterpretKeepsFits(s: Store, now: nat, c: Command)
    requires TidyStore(s) && StoreFits(s)
    ensures StoreFits(Interpret(s, now, c).store)
  {
    hide TidyStore, QueueOf, QueueFits, StoreFits, Interpret;
    forall a, b
      ensures QueueFits(QueueOf(Interpret(s, now, c).store, a, b))
    {
      InterpretKeepsFitsAt(s, now, c, a, b);
    }
    AllFit(Interpret(s, now, c).store);
  }

  lemma AllFit(s: Store)
    requires forall a, b :: QueueFits(QueueOf(s, a, b))
    ensures StoreFits(s)
  {
  }

  lemma InterpretKeepsFitsAt(s: Store, now: nat, c: Command, a: string, b: string)
    requires TidyStore(s) && StoreFits(s)
    ensures QueueFits(QueueOf(Interpret(s, now, c).store, a, b))
  {
    hide TidyStore, QueueOf, QueueFits, ScanCommand, OneMessage, DropMessage, DeleteQueuesIn, DeleteEachAccount,
      Created, Slice, Has, Due;
    assert QueueFits(QueueOf(s, a, b));
    match c {
      case GetAccounts(f) =>
      case DeleteAccounts(f) =>
        DeleteAccountsLeavesHidden(s, f, now, a, b);
        SurvivorsFit(QueueOf(s, a, b), now);
      case GetQueues(account, f) =>
      case DeleteQueues(account, f) =>
        DeleteQueuesLeavesHidden(s, account, Resolve(f), now, a, b);
        SurvivorsFit(QueueOf(s, a, b), now);
      case GetMessages(account, queue, f) =>
        ScanCommandFits(s, account, queue, Resolve(f), Scan(Get, true, Resolve(f).matchHidden, now, 0, 0), a, b);
      case UpdateMessages(account, queue, attributes, f) =>
        DueInRange(TtlOf(attributes), now);
        DueInRange(HideOf(attributes), now);
        ScanCommandFits(s, account, queue, Resolve(f),
                        Scan(Update, true, Resolve(f).matchHidden, now,
                             Due(TtlOf(attributes), now), Due(HideOf(attributes), now)), a, b);
      case DeleteMessages(account, queue, f) =>
        ScanCommandFits(s, account, queue, Resolve(f), Scan(Delete, true, Resolve(f).matchHidden, now, 0, 0), a, b);
      case CreateMessage(account, queue, id, body, attributes) =>
        CreatedOf(s, account, queue, id, NewMessage(body, attributes, now), a, b);
        SetFits(QueueOf(s, a, b), id, NewMessage(body, attributes, now));
      case GetMessage(account, queue, id) => OneFits(s, account, queue, id, now, 0, 0, a, b);
      case UpdateMessage(account, queue, id, attributes) =>
        DueInRange(PositiveTtl(attributes), now);
        DueInRange(HideOf(attributes), now);
        OneFits(s, account, queue, id, now, Due(PositiveTtl(attributes), now), Due(HideOf(attributes), now), a, b);
      case DeleteMessage(account, queue, id) => OneFits(s, account, queue, id, now, 0, 0, a, b);
    }
  }

  // ----- sessions

  /** Seconds and attributes are unsigned 32-bit numbers. */
  predicate Words(session: seq<(nat, Command)>) {
    forall k :: 0 <= k < |session| ==> session[k].0 < WORD && IsWord(AskedTtl(session[k].1))
  }

  /** The store that the k-th command of a session meets. */
  function StoreAt(s: Store, session: seq<(nat, Command)>, k: nat): Store
    requires k <= |session|
  {
    InterpretAll(s, session[..k]).store
  }

  predicate TellsHonestlyAt(s: Store, session: seq<(nat, Command)>, k: nat)
    requires k < |session|
  {
    AllHonest(Interpret(StoreAt(s, session, k), session[k].0, session[k].1).log, session[k].0)
  }

  predicate MisleadsAt(s: Store, session: seq<(nat, Command)>, k: nat)
    requires k < |session|
  {
    Misleads(StoreAt(s, session, k), session[k].0, session[k].1)
  }

  lemma {:induction false} SessionKeepsFits(s: Store, session: seq<(nat, Command)>)
    requires TidyStore(s) && StoreFits(s)
    ensures StoreFits(InterpretAll(s, session).store)
    decreases |session|
  {
    hide TidyStore, Interpret, StoreFits;
    if session != [] {
      InterpretKeepsTidy(s, session[0].0, session[0].1);
      InterpretKeepsFits(s, session[0].0, session[0].1);
      SessionKeepsFits(Interpret(s, session[0].0, session[0].1).store, session[1..]);
    }
  }

  /** Over any session the times told are right but for those of the commands that mislead; a
      session in which no ttl asked for runs past the clock's last second tells only right ones. */
  lemma SessionTellsHonestly(s: Store, session: seq<(nat, Command)>)
    requires TidyStore(s) && StoreFits(s) && Words(session)
    ensures forall k :: 0 <= k < |session| ==> (TellsHonestlyAt(s, session, k) <==> !MisleadsAt(s, session, k))
    ensures (forall k :: 0 <= k < |session| ==> !Wraps(AskedTtl(session[k].1), session[k].0)) ==>
              forall k :: 0 <= k < |session| ==> TellsHonestlyAt(s, session, k)
  {
    hide TidyStore, StoreFits, Interpret, InterpretAll, AllHonest, ReachesSome, AskedTtl, Wraps, IsWord;
    forall k | 0 <= k < |session|
      ensures TellsHonestlyAt(s, session, k) <==> !MisleadsAt(s, session, k)
      ensures MisleadsAt(s, session, k) ==> Wraps(AskedTtl(session[k].1), session[k].0)
    {
      SessionKeepsTidy(s, session[..k]);
      SessionKeepsFits(s, session[..k]);
      InterpretTellsHonestly(StoreAt(s, session, k), session[k].0, session[k].1);
    }
  }

  /** The condition is met by a store of one message: at second 5, an update asks for 2^32 - 1
      more seconds; the end stored is second 4, over already, and 2^32 - 1 seconds are told. */
  lemma WrappedTimeIsTold(account: string, queue: string, id: string, body: seq<int>)
    ensures var s := [(account, [(queue, [(id, Msg(body, 10, 0))])])];
            var c := UpdateMessage(account, queue, id, Some(Attributes(Some(WORD - 1), None)));
            && TidyStore(s) && StoreFits(s) && Misleads(s, 5, c)
            && Interpret(s, 5, c).log == [MessageReport(id, body, WORD - 1, 0)]
            && MessageOf(Interpret(s, 5, c).store, account, queue, id) == Some(Msg(body, 4, 0))
  {
    hide OnlyChanges, Interpret, StoreFits;
    var q: Queue := [(id, Msg(body, 10, 0))];
    var s: Store := [(account, [(queue, q)])];
    assert MessageOf(s, account, queue, id) == Some(Msg(body, 10, 0));
    OneQueueFits(account, queue, q);
    var attributes := Some(Attributes(Some(WORD - 1), None));
    UpdateMessageDoes(s, 5, account, queue, id, attributes);
    OnlyChangesAt(s, Interpret(s, 5, UpdateMessage(account, queue, id, attributes)).store, account, queue, id,
                  Some(Msg(body, 4, 0)));
  }

  lemma OneQueueFits(account: string, queue: string, q: Queue)
    requires QueueFits(q)
    ensures StoreFits([(account, [(queue, q)])])
  {
    var s := [(account, [(queue, q)])];
    forall a, b
      ensures QueueOf(s, a, b) == if a == account && b == queue then q else []
    {
      assert IndexOf(s, a) == if a == account then 0 else 1 by { assert s[1..] == []; }
      assert IndexOf([(queue, q)], b) == if b == queue then 0 else 1 by { assert [(queue, q)][1..] == []; }
    }
  }
}
