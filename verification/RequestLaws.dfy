/** Which requests the client takes, argument by argument, and that it takes every command of the
    backend. */
module RequestLaws {
  import opened Wrappers
  import opened Frontend
  import M = MemoryStore

  predicate OnAccounts(kind: Kind) { kind == GetAccounts || kind == DeleteAccounts }

  predicate OnQueues(kind: Kind) { kind == GetQueues || kind == DeleteQueues }

  predicate OnOneMessage(kind: Kind) {
    kind == CreateMessage || kind == GetMessage || kind == UpdateMessage || kind == DeleteMessage
  }

  /** An argument that the command cannot do without is missing: an account unless it is about all
      accounts, a queue if it is about messages, an id if it is about one message, a body to create
      one, attributes to update any. */
  predicate Lacks(r: Request) {
    || (r.account.None? && !OnAccounts(r.kind))
    || (r.queue.None? && !OnAccounts(r.kind) && !OnQueues(r.kind))
    || (r.id.None? && OnOneMessage(r.kind))
    || (!r.hasBody && r.kind == CreateMessage)
    || (!r.hasAttributes && (r.kind == UpdateMessage || r.kind == UpdateMessages))
  }

  lemma CompleteIffLacksNothing(r: Request)
    ensures Complete(r) <==> !Lacks(r)
  {
    match r.kind {
      case GetAccounts =>
      case DeleteAccounts =>
      case GetQueues =>
      case DeleteQueues =>
      case GetMessages =>
      case UpdateMessages =>
      case DeleteMessages =>
      case CreateMessage =>
      case GetMessage =>
      case UpdateMessage =>
      case DeleteMessage =>
    }
  }

  /** The client once it has taken a request. */
  function Took(f: Front, r: Request): Front {
    Front(Start, f.processing, f.auto, Some(r.kind), Some(r.kind), f.serial + 1, f.watch,
          f.log + [Accepted(f.serial + 1, r)])
  }

  /** A command that is issued is refused with EINPROGRESS if one is in progress, and with EINVAL
      exactly if it lacks an argument, both without a trace; otherwise it is taken, and processed at
      once if the client does so by itself. */
  lemma IssueDoes(b: Abilities, f: Front, r: Request, turns: seq<Turn>)
    ensures Called(b, f, Issue(r, turns)) ==
            if f.state != Idle then (f, Returned(InProgress))
            else if Lacks(r) then (f, Returned(Invalid))
            else if f.auto then Called(b, Took(f, r), Process(turns))
            else (Took(f, r), Returned(Ok))
  {
    hide Processed, Complete, Lacks;
    CompleteIffLacksNothing(r);
  }

  /** On an idle client that does not process by itself the answer is EINVAL, or the log gains the
      acceptance and nothing else. */
  lemma IssueIsInvalidIff(b: Abilities, f: Front, r: Request, turns: seq<Turn>)
    requires f.state == Idle && !f.auto
    ensures Called(b, f, Issue(r, turns)).1 == Returned(Invalid) <==> Lacks(r)
    ensures !Lacks(r) <==> Called(b, f, Issue(r, turns)).0.log == f.log + [Accepted(f.serial + 1, r)]
  {
    hide Lacks;
    IssueDoes(b, f, r, turns);
    assert |f.log + [Accepted(f.serial + 1, r)]| == |f.log| + 1;
  }

  // ----- the backend's commands

  /** The request by which a user asks for a command. */
  function RequestFor(c: M.Command): Request {
    match c
    case GetAccounts(_) => Request(GetAccounts, None, None, None, false, false)
    case DeleteAccounts(_) => Request(DeleteAccounts, None, None, None, false, false)
    case GetQueues(a, _) => Request(GetQueues, Some(a), None, None, false, false)
    case DeleteQueues(a, _) => Request(DeleteQueues, Some(a), None, None, false, false)
    case GetMessages(a, q, _) => Request(GetMessages, Some(a), Some(q), None, false, false)
    case UpdateMessages(a, q, attributes, _) =>
      Request(UpdateMessages, Some(a), Some(q), None, false, attributes.Some?)
    case DeleteMessages(a, q, _) => Request(DeleteMessages, Some(a), Some(q), None, false, false)
    case CreateMessage(a, q, id, _, attributes) =>
      Request(CreateMessage, Some(a), Some(q), Some(id), true, attributes.Some?)
    case GetMessage(a, q, id) => Request(GetMessage, Some(a), Some(q), Some(id), false, false)
    case UpdateMessage(a, q, id, attributes) =>
      Request(UpdateMessage, Some(a), Some(q), Some(id), false, attributes.Some?)
    case DeleteMessage(a, q, id) => Request(DeleteMessage, Some(a), Some(q), Some(id), false, false)
  }

  /** The client lets through every command of the backend, with any filters and any attributes or
      none, but for the two updates without attributes: those are EINVAL. */
  lemma BackendCommandsAreTaken(b: Abilities, f: Front, c: M.Command, turns: seq<Turn>)
    requires f.state == Idle && !f.auto
    ensures var r := RequestFor(c);
            Called(b, f, Issue(r, turns)) ==
            if (c.UpdateMessages? || c.UpdateMessage?) && c.attributes.None? then (f, Returned(Invalid))
            else (Took(f, r), Returned(Ok))
  {
    IssueDoes(b, f, RequestFor(c), turns);
  }
}
