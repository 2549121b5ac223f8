/** What the commands about a single message do to every message of the store. */
module SingleLaws {
  import opened Wrappers
  import opened AssocList
  import opened MemoryStore
  import opened MemoryLaws
  import opened ScanLaws
  import opened StoreLaws

  /** All messages but one are as they were, and that one is as given. */
  ghost predicate OnlyChanges(s: Store, t: Store, account: string, queue: string, id: string, m: Option<Msg>) {
    forall a, b, i :: MessageOf(t, a, b, i) == if a == account && b == queue && i == id then m else MessageOf(s, a, b, i)
  }

  lemma OnlyChangesAt(s: Store, t: Store, account: string, queue: string, id: string, m: Option<Msg>)
    requires OnlyChanges(s, t, account, queue, id, m)
    ensures MessageOf(t, account, queue, id) == m
  {
  }

  lemma MessageExists(s: Store, account: string, queue: string, id: string)
    requires TidyStore(s)
    ensures HasMessage(s, account, queue, id) <==> MessageOf(s, account, queue, id).Some?
    ensures HasMessage(s, account, queue, id) ==>
              MessageOf(s, account, queue, id) == Some(Lookup(QueueAt(s, account, queue), id))
  {
    hide TidyStore, QueueOf, HasQueue, QueueAt, IndexOf;
    QueueExists(s, account, queue);
    if HasQueue(s, account, queue) {
      FindIs(QueueAt(s, account, queue), id);
      if Has(QueueAt(s, account, queue), id) { FoundIs(QueueAt(s, account, queue), id); }
    } else {
      NoneInNothing<Msg>(id);
    }
  }

  lemma SetOnlyChanges(s: Store, account: string, queue: string, id: string, m: Msg)
    requires TidyStore(s) && HasQueue(s, account, queue)
    ensures OnlyChanges(s, PutQueue(s, account, queue, Set(QueueAt(s, account, queue), id, m)), account, queue, id,
      Some(m))
  {
    hide TidyStore, QueueOf, HasQueue, QueueAt, PutQueue, Find, Set, IndexOf;
    var q := QueueAt(s, account, queue);
    var t := PutQueue(s, account, queue, Set(q, id, m));
    QueueExists(s, account, queue);
    forall a, b, i
      ensures MessageOf(t, a, b, i) == if a == account && b == queue && i == id then Some(m) else MessageOf(s, a, b, i)
    {
      PutQueueOf(s, account, queue, Set(q, id, m), a, b);
      FindSet(q, id, m, i);
    }
  }

  lemma RemoveOnlyChanges(s: Store, account: string, queue: string, id: string)
    requires TidyStore(s) && HasMessage(s, account, queue, id)
    ensures OnlyChanges(s, PutQueue(s, account, queue, Remove(QueueAt(s, account, queue), id)), account, queue, id, None)
  {
    hide TidyStore, QueueOf, HasQueue, QueueAt, PutQueue, Find, Unique;
    var q := QueueAt(s, account, queue);
    var t := PutQueue(s, account, queue, Remove(q, id));
    QueueExists(s, account, queue);
    forall a, b, i
      ensures MessageOf(t, a, b, i) == if a == account && b == queue && i == id then None else MessageOf(s, a, b, i)
    {
      PutQueueOf(s, account, queue, Remove(q, id), a, b);
      FindWithout(q, IndexOf(q, id), i);
    }
  }

  /** The seconds from now to a time, none if it is over. */
  function Ahead(time: nat, now: nat): nat { if time > now then time - now else 0 }

  /** What is told of a message: its id, its body, the seconds it has left (the difference of
      32-bit times, which wraps if the time is over) and the seconds that it stays hidden. */
  function Notice(id: string, m: Msg, now: nat): Report {
    MessageReport(id, m.body, if m.ttl >= now then m.ttl - now else (m.ttl - now) % 0x1_0000_0000, Ahead(m.hiding, now))
  }

  lemma ToldIsNotice(id: string, m: Msg, now: nat)
    requires Fits(m)
    ensures Told(id, m, now) == Notice(id, m, now)
  {
  }

  /** Getting a message: EINVAL if there is none; a message found expired goes, untold; a live
      one is told as it is, and nothing changes. */
  lemma GetMessageDoes(s: Store, now: nat, account: string, queue: string, id: string)
    requires TidyStore(s)
    requires MessageOf(s, account, queue, id).Some? ==> Fits(MessageOf(s, account, queue, id).value)
    ensures var answer := Interpret(s, now, GetMessage(account, queue, id));
            match MessageOf(s, account, queue, id)
            case None => answer == Answer(s, [], Invalid)
            case Some(m) =>
              if m.ttl <= now then
                answer.log == [] && answer.status == Fine && OnlyChanges(s, answer.store, account, queue, id, None)
              else
                answer.log == [Notice(id, m, now)] && answer.status == Fine
                && OnlyChanges(s, answer.store, account, queue, id, Some(m))
  {
    hide TidyStore, HasQueue, QueueAt, PutQueue, OnlyChanges, MessageOf, Set, Remove, IndexOf, Told, Notice, Has;
    MessageExists(s, account, queue, id);
    if HasMessage(s, account, queue, id) {
      var m := Lookup(QueueAt(s, account, queue), id);
      if m.ttl <= now {
        RemoveOnlyChanges(s, account, queue, id);
      } else {
        SetOnlyChanges(s, account, queue, id, m);
        ToldIsNotice(id, m, now);
      }
    }
  }

  /** The clock shows the seconds modulo 2^32. */
  function Clock(second: nat): nat { second % 0x1_0000_0000 }

  /** A message with its times moved: a ttl that is given and not zero, and a hide that is
      given, count from now; where the clock then shows zero the time stays as it is. */
  function Moved(m: Msg, attributes: Option<Attributes>, now: nat): Msg {
    if attributes.None? then m
    else
      var ttl, hiding := attributes.value.ttl, attributes.value.hiding;
      Msg(m.body,
          if ttl.Some? && ttl.value > 0 && Clock(now + ttl.value) != 0 then Clock(now + ttl.value) else m.ttl,
          if hiding.Some? && Clock(now + hiding.value) != 0 then Clock(now + hiding.value) else m.hiding)
  }

  lemma UpdatedIsMoved(m: Msg, attributes: Option<Attributes>, now: nat)
    ensures Updated(m, Due(PositiveTtl(attributes), now), Due(HideOf(attributes), now)) == Moved(m, attributes, now)
    ensures Fits(m) ==> Fits(Moved(m, attributes, now))
  {
  }

  /** Updating a message: as for getting one, but a live message has its times moved and is
      told with the new ones. */
  lemma UpdateMessageDoes(s: Store, now: nat, account: string, queue: string, id: string, attributes: Option<Attributes>)
    requires TidyStore(s)
    requires MessageOf(s, account, queue, id).Some? ==> Fits(MessageOf(s, account, queue, id).value)
    ensures var answer := Interpret(s, now, UpdateMessage(account, queue, id, attributes));
            match MessageOf(s, account, queue, id)
            case None => answer == Answer(s, [], Invalid)
            case Some(m) =>
              if m.ttl <= now then
                answer.log == [] && answer.status == Fine && OnlyChanges(s, answer.store, account, queue, id, None)
              else
                answer.log == [Notice(id, Moved(m, attributes, now), now)] && answer.status == Fine
                && OnlyChanges(s, answer.store, account, queue, id, Some(Moved(m, attributes, now)))
  {
    hide TidyStore, HasQueue, QueueAt, PutQueue, OnlyChanges, MessageOf, Set, Remove, IndexOf, Told, Notice, Has, Moved,
      Updated, Due, PositiveTtl, HideOf;
    MessageExists(s, account, queue, id);
    if HasMessage(s, account, queue, id) {
      var m := Lookup(QueueAt(s, account, queue), id);
      var u := Moved(m, attributes, now);
      UpdatedIsMoved(m, attributes, now);
      if m.ttl <= now {
        RemoveOnlyChanges(s, account, queue, id);
      } else {
        SetOnlyChanges(s, account, queue, id, u);
        ToldIsNotice(id, u, now);
      }
    }
  }

  /** Deleting a message: it goes, told if it was live; a missing one is no error. */
  lemma DeleteMessageDoes(s: Store, now: nat, account: string, queue: string, id: string)
    requires TidyStore(s)
    requires MessageOf(s, account, queue, id).Some? ==> Fits(MessageOf(s, account, queue, id).value)
    ensures var answer := Interpret(s, now, DeleteMessage(account, queue, id));
            match MessageOf(s, account, queue, id)
            case None => answer == Answer(s, [], Fine)
            case Some(m) =>
              && answer.log == (if m.ttl <= now then [] else [Notice(id, m, now)]) && answer.status == Fine
              && OnlyChanges(s, answer.store, account, queue, id, None)
  {
    hide TidyStore, HasQueue, QueueAt, PutQueue, OnlyChanges, MessageOf, Set, Remove, IndexOf, Told, Notice, Has;
    MessageExists(s, account, queue, id);
    if HasMessage(s, account, queue, id) {
      var m := Lookup(QueueAt(s, account, queue), id);
      RemoveOnlyChanges(s, account, queue, id);
      if m.ttl > now { ToldIsNotice(id, m, now); }
    }
  }

  /** Creating a message: it is there with the body and times asked for (five minutes if no ttl
      is given, not hidden if no hide is), all others are as they were, and nothing is told. */
  lemma CreateMessageDoes(
    s: Store, now: nat, account: string, queue: string, id: string, body: seq<int>, attributes: Option<Attributes>)
    ensures var answer := Interpret(s, now, CreateMessage(account, queue, id, body, attributes));
            var ttl := if attributes.Some? && attributes.value.ttl.Some? then attributes.value.ttl.value else 300;
            var hidden := if attributes.Some? && attributes.value.hiding.Some? then attributes.value.hiding.value else 0;
            && answer.log == [] && answer.status == Fine
            && OnlyChanges(s, answer.store, account, queue, id,
                           Some(Msg(body, Clock(now + ttl), if hidden == 0 then 0 else Clock(now + hidden))))
  {
    hide QueueOf, Find, Set, IndexOf, Created;
    var m := NewMessage(body, attributes, now);
    forall a, b, i
      ensures MessageOf(Created(s, account, queue, id, m), a, b, i)
           == if a == account && b == queue && i == id then Some(m) else MessageOf(s, a, b, i)
    {
      CreatedOf(s, account, queue, id, m, a, b);
      FindSet(QueueOf(s, a, b), id, m, i);
    }
  }
}
