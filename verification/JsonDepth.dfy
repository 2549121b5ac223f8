/** How deep the mode stack gets, and for which depths the room set aside for it is enough. */
module JsonDepth {
  import opened JsonTables
  import opened JsonSpec
  import opened JsonAlike
  import opened JsonInvariant
  import opened JsonComplete
  import opened JsonMachine

  /** The modes that the source sets aside room for, when the depth is positive. */
  function StackCapacity(depth: nat): nat { if depth <= STACK_SIZE then STACK_SIZE else depth }

  function Brackets(n: nat): seq<int> {
    if n == 0 then [] else Brackets(n - 1) + ['[' as int]
  }

  /** That many opening brackets leave one mode more than that on the stack. */
  lemma {:induction false} BracketsNest(cfg: Config, n: nat)
    requires n <= cfg.depth
    ensures var o := Run(cfg, Initial, Brackets(n)); o.Go? && |o.next.modes| == n + 1 && OpenSlot(o.next)
  {
    hide Step;
    if n > 0 {
      BracketsNest(cfg, n - 1);
      var p := Run(cfg, Initial, Brackets(n - 1)).next;
      RunConcat(cfg, Initial, Brackets(n - 1), ['[' as int]);
      RunOne(cfg, p, '[' as int);
      StepOpen(cfg, p, true);
    }
  }

  /** No text ever needs more modes than there is room for, exactly if the depth is less than
      the 128 entries of the parser's own stack: a text nested to a greater depth needs one entry
      more than that depth, and the source sets aside no more than the depth. */
  lemma ModesFitIff(cfg: Config)
    requires cfg.depth >= 1
    ensures (forall text :: Run(cfg, Initial, text).Go? ==>
               |Run(cfg, Initial, text).next.modes| <= StackCapacity(cfg.depth)) <==> cfg.depth < 128
  {
    hide Run, Inv;
    if cfg.depth < STACK_SIZE {
      forall text | Run(cfg, Initial, text).Go?
        ensures |Run(cfg, Initial, text).next.modes| <= StackCapacity(cfg.depth)
      {
        InitialInv(cfg);
        RunKeepsInv(cfg, Initial, text);
        ModesBounded(cfg, Run(cfg, Initial, text).next);
      }
    } else {
      BracketsNest(cfg, cfg.depth);
      assert |Run(cfg, Initial, Brackets(cfg.depth)).next.modes| > StackCapacity(cfg.depth);
    }
  }

  lemma ModesBounded(cfg: Config, p: Parser)
    requires Inv(cfg, p)
    ensures |p.modes| <= cfg.depth + 1
  {
  }

  // ----- a negative depth, that is, no limit

  /** The stack of a parser without a limit: where its top is, how many modes it has room for,
      and whether every write so far was inside. */
  datatype Room = Room(top: int, capacity: nat, inside: bool)

  /** The room is doubled when the top is at the capacity, and then the mode is written. */
  function Pushed(r: Room): Room {
    var capacity := if r.top == r.capacity then 2 * r.capacity else r.capacity;
    Room(r.top + 1, capacity, r.inside && r.top + 1 < capacity)
  }

  /** What a step that turns one stack of modes into another does: a push, a pop, or a pop and
      a push when the mode on top changes. */
  function Moved(r: Room, before: seq<Mode>, after: seq<Mode>): Room {
    if |after| > |before| then Pushed(r)
    else if |after| < |before| then r.(top := r.top - 1)
    else if after != before then Pushed(r.(top := r.top - 1))
    else r
  }

  function Followed(cfg: Config, r: Room, p: Parser, text: seq<int>): Room
    decreases |text|
  {
    if text == [] then r
    else
      match Step(cfg, p, text[0])
      case Go(q) => Followed(cfg, Moved(r, p.modes, q.modes), q, text[1..])
      case Refused(_) => r
      case Aborted(_) => r
  }

  /** A new parser has pushed its bottom mode. */
  function NewRoom(): Room { Pushed(Room(-1, STACK_SIZE, true)) }

  /** No prefix of the text needs more modes than that. */
  predicate NeedsAtMost(cfg: Config, p: Parser, text: seq<int>, n: nat)
    decreases |text|
  {
    && |p.modes| <= n
    && (text != [] ==>
          match Step(cfg, p, text[0])
          case Go(q) => NeedsAtMost(cfg, q, text[1..], n)
          case Refused(_) => true
          case Aborted(_) => true)
  }

  lemma CloseHeight(cfg: Config, q: Parser, e: Event, mode: Mode)
    ensures CloseFlushed(cfg, q, e, mode).Go? ==> |CloseFlushed(cfg, q, e, mode).next.modes| == |q.modes| - 1
  {
  }

  lemma FlipHeight(cfg: Config, q: Parser)
    ensures NextFlushed(cfg, q).Go? ==> |NextFlushed(cfg, q).next.modes| == |q.modes|
    ensures AfterKey(cfg, q).Go? ==> |AfterKey(cfg, q).next.modes| == |q.modes|
  {
  }

  lemma OpenHeight(cfg: Config, q: Parser, e: Event, mode: Mode, target: State)
    ensures Open(cfg, q, e, mode, target).Go? ==> |Open(cfg, q, e, mode, target).next.modes| == |q.modes| + 1
    ensures CloseEmptyObject(cfg, q).Go? ==> |CloseEmptyObject(cfg, q).next.modes| == |q.modes| - 1
  {
  }

  lemma StringHeight(cfg: Config, q: Parser)
    ensures EndString(cfg, q).Go? ==> EndString(cfg, q).next.modes == q.modes
    ensures ReadUnicode(q).Go? ==> ReadUnicode(q).next.modes == q.modes
  {
  }

  /** A character changes the number of modes by one at most. */
  lemma ActHeight(cfg: Config, p: Parser, e: Entry)
    ensures Act(cfg, p, e).Go? ==> |p.modes| - 1 <= |Act(cfg, p, e).next.modes| <= |p.modes| + 1
  {
    hide Flush, CloseFlushed, NextFlushed, AfterKey, Open, CloseEmptyObject, EndString, ReadUnicode;
    FlushKeepsModes(cfg, p);
    if Flush(cfg, p).Go? {
      CloseHeight(cfg, Flush(cfg, p).next, EndArray, ArrayMode);
      CloseHeight(cfg, Flush(cfg, p).next, EndObject, ObjectMode);
      FlipHeight(cfg, Flush(cfg, p).next);
    }
    FlipHeight(cfg, p);
    OpenHeight(cfg, p, BeginArray, ArrayMode, AR);
    OpenHeight(cfg, p, BeginObject, KeyMode, OB);
    StringHeight(cfg, p);
  }

  lemma StepHeight(cfg: Config, p: Parser, c: int)
    ensures Step(cfg, p, c).Go? ==> |p.modes| - 1 <= |Step(cfg, p, c).next.modes| <= |p.modes| + 1
  {
    hide Act, ClassOf, Transition;
    if c >= 0 && ClassOf(c).Some? && AddChar(p, c, ClassOf(c).value).Go? {
      ActHeight(cfg, AddChar(p, c, ClassOf(c).value).next, Transition(p.state, ClassOf(c).value));
    }
  }

  lemma {:induction false} OutsideForGood(cfg: Config, r: Room, p: Parser, text: seq<int>)
    requires !r.inside
    ensures !Followed(cfg, r, p, text).inside
    decreases |text|
  {
    hide Step;
    if text != [] && Step(cfg, p, text[0]).Go? {
      OutsideForGood(cfg, Moved(r, p.modes, Step(cfg, p, text[0]).next.modes), Step(cfg, p, text[0]).next, text[1..]);
    }
  }

  lemma {:induction false} FollowedIff(cfg: Config, r: Room, p: Parser, text: seq<int>)
    requires r == Room(|p.modes| - 1, STACK_SIZE, true) && |p.modes| <= STACK_SIZE
    ensures Followed(cfg, r, p, text).inside <==> NeedsAtMost(cfg, p, text, STACK_SIZE)
    decreases |text|
  {
    hide Step;
    if text != [] && Step(cfg, p, text[0]).Go? {
      var q := Step(cfg, p, text[0]).next;
      StepHeight(cfg, p, text[0]);
      if |q.modes| <= STACK_SIZE {
        FollowedIff(cfg, Moved(r, p.modes, q.modes), q, text[1..]);
      } else {
        OutsideForGood(cfg, Moved(r, p.modes, q.modes), q, text[1..]);
      }
    }
  }

  lemma {:induction false} NeedsPrefixes(cfg: Config, p: Parser, text: seq<int>, n: nat)
    ensures NeedsAtMost(cfg, p, text, n) <==>
            forall k :: 0 <= k <= |text| && Run(cfg, p, text[..k]).Go? ==> |Run(cfg, p, text[..k]).next.modes| <= n
    decreases |text|
  {
    hide Step;
    assert Run(cfg, p, text[..0]) == Go(p);
    if text != [] {
      forall k | 0 < k <= |text|
        ensures Run(cfg, p, text[..k]) ==
                match Step(cfg, p, text[0]) case Go(q) => Run(cfg, q, text[1..][..k - 1]) case stop => stop
      {
        assert text[..k][1..] == text[1..][..k - 1];
      }
      if Step(cfg, p, text[0]).Go? {
        var q := Step(cfg, p, text[0]).next;
        NeedsPrefixes(cfg, q, text[1..], n);
        assert forall k :: 0 <= k < |text| ==> Run(cfg, q, text[1..][..k]) == Run(cfg, p, text[..k + 1]);
      }
    }
  }

  /** A text that is shorter than the depth is read as if there were no limit. */
  lemma {:induction false} ShortIsUnlimited(cfg: Config, depth: nat, p: Parser, text: seq<int>)
    requires |p.modes| + |text| <= cfg.depth + 1 && |p.modes| + |text| <= depth + 1
    ensures Run(cfg.(depth := depth), p, text) == Run(cfg, p, text)
    decreases |text|
  {
    hide Step;
    if text != [] {
      StepAlike(cfg.(depth := depth), cfg, p, text[0]);
      StepHeight(cfg, p, text[0]);
      if Step(cfg, p, text[0]).Go? { ShortIsUnlimited(cfg, depth, Step(cfg, p, text[0]).next, text[1..]); }
    }
  }

  /** Without a limit on the depth, no write leaves the stack exactly if no prefix of the text
      needs more than the 128 modes that the stack starts with: the room is doubled one push too
      late.  A depth that the text cannot reach stands for no limit. */
  lemma UnlimitedFitsIff(cfg: Config, text: seq<int>)
    ensures Followed(cfg, NewRoom(), Initial, text).inside <==>
            forall k :: 0 <= k <= |text| && Run(cfg, Initial, text[..k]).Go? ==>
              |Run(cfg, Initial, text[..k]).next.modes| <= 128
  {
    hide Run, Followed;
    FollowedIff(cfg, NewRoom(), Initial, text);
    NeedsPrefixes(cfg, Initial, text, STACK_SIZE);
  }

  /** The shortest text that leaves it has 128 opening brackets. */
  lemma UnlimitedOverflows(cfg: Config)
    requires cfg.depth >= 128
    ensures !Followed(cfg, NewRoom(), Initial, Brackets(128)).inside
  {
    hide Run, Followed, Brackets;
    var text := Brackets(STACK_SIZE);
    BracketsNest(cfg, STACK_SIZE);
    UnlimitedFitsIff(cfg, text);
    assert text[..|text|] == text;
  }
}
