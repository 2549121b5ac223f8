/** The stream of events is well bracketed: arrays and objects close in order, keys occur only
    directly inside objects and each is followed by one value. */
module JsonNesting {
  import opened Wrappers
  import opened JsonTables
  import opened JsonSpec
  import opened JsonInvariant

  /** An open container, and what an object expects next. */
  datatype Frame = InArray | WantKey | WantValue

  /** The open containers, outermost first, and whether the root has closed. */
  datatype Nest = Nest(frames: seq<Frame>, ended: bool)

  /** A value has been completed inside these containers. */
  function Completed(frames: seq<Frame>): Nest {
    var n := |frames|;
    if n == 0 then Nest([], true)
    else if frames[n - 1] == WantValue then Nest(frames[n - 1 := WantKey], false)
    else Nest(frames, false)
  }

  predicate TakesValue(frames: seq<Frame>) { frames != [] && frames[|frames| - 1] != WantKey }

  /** The independent reading of one event. */
  function Take(nest: Nest, e: Event): Option<Nest> {
    var fs, n := nest.frames, |nest.frames|;
    match e
    case BeginArray =>
      if TakesValue(fs) || (fs == [] && !nest.ended) then Some(Nest(fs + [InArray], false)) else None
    case BeginObject =>
      if TakesValue(fs) || (fs == [] && !nest.ended) then Some(Nest(fs + [WantKey], false)) else None
    case EndArray =>
      if fs != [] && fs[n - 1] == InArray then Some(Completed(fs[..n - 1])) else None
    case EndObject =>
      if fs != [] && fs[n - 1] == WantKey then Some(Completed(fs[..n - 1])) else None
    case KeyName(_) =>
      if fs != [] && fs[n - 1] == WantKey then Some(Nest(fs[n - 1 := WantValue], false)) else None
    case _ => if TakesValue(fs) then Some(Completed(fs)) else None
  }

  function TakeAll(log: seq<Event>): Option<Nest> {
    if log == [] then Some(Nest([], false))
    else
      match TakeAll(log[..|log| - 1])
      case None => None
      case Some(nest) => Take(nest, log[|log| - 1])
  }

  lemma TakeOne(log: seq<Event>, e: Event)
    ensures TakeAll(log + [e]) == match TakeAll(log) case None => None case Some(nest) => Take(nest, e)
  {
    assert (log + [e])[..|log|] == log;
  }

  // ----- the containers a parser has open

  function InnerFrame(m: Mode): Frame { if m == ArrayMode then InArray else WantValue }

  /** Containers that have another one open inside them. */
  function Below(modes: seq<Mode>): seq<Frame> {
    if |modes| <= 1 then []
    else Below(modes[..|modes| - 1]) + [InnerFrame(modes[|modes| - 1])]
  }

  /** The control state, or the one that a comment will return to. */
  function Underlying(p: Parser): State {
    if PlaceOf(p.state).InComment? then p.beforeComment else p.state
  }

  function TopFrame(p: Parser): Frame {
    match Top(p)
    case ArrayMode => InArray
    case KeyMode => if Underlying(p) == CO then WantValue else WantKey
    case _ => if Underlying(p) == OK && p.token == NoToken then WantKey else WantValue
  }

  function NestOf(p: Parser): Nest {
    if |p.modes| <= 1 then Nest([], Underlying(p) == OK)
    else Nest(Below(p.modes[..|p.modes| - 1]) + [TopFrame(p)], false)
  }

  ghost predicate Nested(p: Parser) { TakeAll(p.log) == Some(NestOf(p)) }

  ghost predicate KeepsNest(o: Outcome) { o.Go? ==> Nested(o.next) }

  // ----- one step

  /** Where a value is pending or has just ended. */
  lemma AtValue(cfg: Config, p: Parser)
    requires Inv(cfg, p) && (PlaceOf(p.state).InScalar? || PlaceOf(p.state).AfterItem?)
    ensures Underlying(p) == p.state && (p.token == NoToken ==> p.state == OK && p.buf == [])
    ensures p.token != NoToken ==> |p.modes| > 1 && InContainer(Top(p))
  {
    hide ModesOk, EscapeOk, HighOk;
    ModesNotBottom(cfg.depth, p.modes);
  }

  /** The state after the pending token, if any, has been told. */
  lemma NestFlushed(cfg: Config, p: Parser, q: Parser)
    requires cfg.listening && Inv(cfg, p) && Nested(p) && Stored(p, q) && Flush(cfg, q).Go?
    requires PlaceOf(p.state).InScalar? || PlaceOf(p.state).AfterItem?
    ensures var r := Flush(cfg, q).next;
            r == p.(buf := [], log := r.log) && TakeAll(r.log) == Some(NestOf(p.(state := OK, token := NoToken)))
  {
    hide Inv, PlaceOf, Flush, Below, TokenEvent;
    FlushStored(cfg, p, q);
    AtValue(cfg, p);
    if p.token == NoToken {
      assert p.log + [] == p.log;
    } else {
      TakeOne(p.log, TokenEvent(cfg, p.token, p.buf));
      PlacesOutside();
      TokenIsValue(cfg, p.token, p.buf);
      ValueTaken(Below(p.modes[..|p.modes| - 1]), TopFrame(p), TokenEvent(cfg, p.token, p.buf));
    }
  }

  predicate IsValue(e: Event) { e.IntegerValue? || e.FloatValue? || e.StringValue? }

  lemma TokenIsValue(cfg: Config, token: Token, buf: seq<int>)
    ensures IsValue(TokenEvent(cfg, token, buf))
  {
  }

  lemma ValueTaken(below: seq<Frame>, top: Frame, e: Event)
    requires IsValue(e) && top != WantKey
    ensures Take(Nest(below + [top], false), e)
         == Some(Nest(below + [if top == InArray then InArray else WantKey], false))
  {
    var fs := below + [top];
    assert fs[|fs| - 1 := WantKey] == below + [WantKey];
  }

  /** Closing the innermost container completes a value of the one around it. */
  lemma NestPopped(cfg: Config, modes: seq<Mode>, p: Parser)
    requires ModesOk(cfg.depth, modes) && |modes| > 1
    requires p.modes == modes[..|modes| - 1] && p.state == OK && p.token == NoToken
    ensures Completed(Below(modes[..|modes| - 1])) == NestOf(p)
  {
    ModesPopped(cfg.depth, modes);
    var inner := modes[..|modes| - 1];
    if |inner| > 1 {
      var fs := Below(inner);
      assert fs == Below(inner[..|inner| - 1]) + [InnerFrame(inner[|inner| - 1])];
      assert fs[|fs| - 1 := WantKey] == Below(inner[..|inner| - 1]) + [WantKey];
    }
  }

  lemma InvModes(cfg: Config, p: Parser)
    requires Inv(cfg, p)
    ensures ModesOk(cfg.depth, p.modes)
    ensures PlaceOf(p.state).AtStart? || PlaceOf(p.state).AtItem? || PlaceOf(p.state).AtArray? ==>
              p.token == NoToken && p.buf == []
  {
    hide ModesOk, TopOk, EscapeOk, HighOk, ResumeOk;
  }

  lemma NestClosed(cfg: Config, p: Parser, r: Parser, list: bool)
    requires cfg.listening && ModesOk(cfg.depth, p.modes) && r.modes == p.modes
    requires TakeAll(r.log) == Some(NestOf(p.(state := OK, token := NoToken)))
    ensures KeepsNest(CloseFlushed(cfg, r, if list then EndArray else EndObject, if list then ArrayMode else ObjectMode))
  {
    hide ModesOk, Below, CloseFlushed, TakeAll, PlaceOf;
    PlacesAre();
    var e := if list then EndArray else EndObject;
    var o := CloseFlushed(cfg, r, e, if list then ArrayMode else ObjectMode);
    if o.Go? {
      CloseIs(cfg, r, e, if list then ArrayMode else ObjectMode);
      ModesNotBottom(cfg.depth, p.modes);
      TakeOne(r.log, e);
      NestPopped(cfg, p.modes, o.next);
      var fs := NestOf(p.(state := OK, token := NoToken)).frames;
      assert fs[..|fs| - 1] == Below(p.modes[..|p.modes| - 1]);
    }
  }

  lemma NestByClose(cfg: Config, p: Parser, q: Parser, list: bool)
    requires cfg.listening && Inv(cfg, p) && Nested(p) && Stored(p, q)
    requires PlaceOf(p.state).InScalar? || PlaceOf(p.state).AfterItem?
    ensures KeepsNest(Close(cfg, q, if list then EndArray else EndObject, if list then ArrayMode else ObjectMode))
  {
    hide Inv, Flush, NestOf, CloseFlushed, TakeAll, PlaceOf;
    if Flush(cfg, q).Go? {
      NestFlushed(cfg, p, q);
      InvModes(cfg, p);
      NestClosed(cfg, p, Flush(cfg, q).next, list);
    }
  }

  lemma NestByEmptyArray(cfg: Config, p: Parser, q: Parser)
    requires cfg.listening && Inv(cfg, p) && Nested(p) && Stored(p, q) && p.state == AR
    ensures KeepsNest(Close(cfg, q, EndArray, ArrayMode))
  {
    hide ModesOk, Flush, Below, EscapeOk, HighOk;
    var o := Close(cfg, q, EndArray, ArrayMode);
    FlushStored(cfg, p, q);
    assert p.log + [] == p.log;
    ModesNotBottom(cfg.depth, p.modes);
    TakeOne(p.log, EndArray);
    if o.Go? {
      NestPopped(cfg, p.modes, o.next);
      var fs := NestOf(p).frames;
      assert fs[..|fs| - 1] == Below(p.modes[..|p.modes| - 1]);
    }
  }

  lemma NestByEmptyObject(cfg: Config, p: Parser, q: Parser)
    requires cfg.listening && Inv(cfg, p) && Nested(p) && Stored(p, q) && PlaceOf(p.state).AtKey?
    ensures KeepsNest(CloseEmptyObject(cfg, q))
  {
    hide ModesOk, Below, EscapeOk, HighOk;
    var o := CloseEmptyObject(cfg, q);
    ModesNotBottom(cfg.depth, p.modes);
    TakeOne(p.log, EndObject);
    if o.Go? {
      NestPopped(cfg, p.modes, o.next);
      var fs := NestOf(p).frames;
      assert fs[..|fs| - 1] == Below(p.modes[..|p.modes| - 1]);
    }
  }

  /** A container opens where a value may stand. */
  lemma NestOpened(cfg: Config, p: Parser, m: Mode, target: State)
    requires Inv(cfg, p) && p.token == NoToken
    requires PlaceOf(p.state).AtStart? || PlaceOf(p.state).AtItem? || PlaceOf(p.state).AtArray?
    requires (m == ArrayMode && target == AR) || (m == KeyMode && target == OB)
    ensures Take(NestOf(p), if m == ArrayMode then BeginArray else BeginObject) ==
            Some(NestOf(p.(modes := p.modes + [m], state := target)))
  {
    hide ModesOk, Below, EscapeOk, HighOk, TokenOk;
    ModesNotBottom(cfg.depth, p.modes);
    StartIsBottom(cfg, p);
    OpenBelow(p);
    assert (p.modes + [m])[..|p.modes|] == p.modes;
  }

  lemma NestOfOnly(p: Parser, q: Parser)
    requires p.state == q.state && p.beforeComment == q.beforeComment && p.token == q.token && p.modes == q.modes
    ensures NestOf(p) == NestOf(q)
  {
    hide Below, PlaceOf, InnerFrame;
  }

  lemma NestByOpen(cfg: Config, p: Parser, q: Parser, list: bool)
    requires cfg.listening && Inv(cfg, p) && Nested(p) && Stored(p, q)
    requires PlaceOf(p.state).AtStart? || PlaceOf(p.state).AtItem? || PlaceOf(p.state).AtArray?
    ensures KeepsNest(Open(cfg, q, if list then BeginArray else BeginObject,
                           if list then ArrayMode else KeyMode, if list then AR else OB))
  {
    hide Inv, NestOf, Take, Open, PlaceOf;
    var e := if list then BeginArray else BeginObject;
    var m := if list then ArrayMode else KeyMode;
    var target := if list then AR else OB;
    InvModes(cfg, p);
    OpenIs(cfg, p, q, e, m, target);
    TakeOne(p.log, e);
    NestOpened(cfg, p, m, target);
    var o := Open(cfg, q, e, m, target);
    if o.Go? {
      NestOfOnly(o.next, p.(modes := p.modes + [m], state := target));
    }
  }

  lemma StartIsBottom(cfg: Config, p: Parser)
    requires Inv(cfg, p)
    ensures Top(p) == DoneMode <==> |p.modes| == 1
  {
  }

  lemma OpenBelow(p: Parser)
    requires p.modes != [] && (|p.modes| == 1 || PlaceOf(p.state).AtItem? || PlaceOf(p.state).AtArray?)
    requires |p.modes| > 1 ==> InContainer(Top(p))
    ensures NestOf(p).frames == Below(p.modes)
  {
  }

  /** A comma leaves the containers as the value before it did. */
  lemma NestAfterComma(cfg: Config, p: Parser)
    requires Inv(cfg, p) && |p.modes| > 1
    ensures Top(p) == ArrayMode ==>
              NestOf(p.(state := VA, token := NoToken)) == NestOf(p.(state := OK, token := NoToken))
    ensures Top(p) == ObjectMode ==>
              NestOf(p.(state := KE, token := NoToken, modes := p.modes[..|p.modes| - 1] + [KeyMode]))
              == NestOf(p.(state := OK, token := NoToken))
  {
    hide Inv, Below;
    var front := p.modes[..|p.modes| - 1];
    assert (front + [KeyMode])[..|front|] == front;
  }

  lemma NestByComma(cfg: Config, p: Parser, q: Parser)
    requires cfg.listening && Inv(cfg, p) && Nested(p) && Stored(p, q)
    requires PlaceOf(p.state).InScalar? || PlaceOf(p.state).AfterItem?
    ensures KeepsNest(NextMember(cfg, q))
  {
    hide Inv, ModesOk, PlaceOf, TakeAll, Flush, NestOf;
    var o := NextMember(cfg, q);
    if o.Go? {
      NestFlushed(cfg, p, q);
      InvModes(cfg, p);
      ModesNotBottom(cfg.depth, p.modes);
      NestAfterComma(cfg, p);
      NestOfOnly(o.next, p.(state := o.next.state, token := NoToken, modes := o.next.modes));
    }
  }

  lemma NestByColon(cfg: Config, p: Parser, q: Parser)
    requires cfg.listening && Inv(cfg, p) && Nested(p) && Stored(p, q) && PlaceOf(p.state).AtColon?
    ensures KeepsNest(AfterKey(cfg, q))
  {
    hide ModesOk, Below, EscapeOk, HighOk;
    ModesNotBottom(cfg.depth, p.modes);
    var front := p.modes[..|p.modes| - 1];
    assert (front + [ObjectMode])[..|front|] == front;
  }

  lemma NestAfterString(cfg: Config, p: Parser)
    requires Inv(cfg, p) && p.state == ST
    ensures Top(p) == KeyMode ==>
              Take(NestOf(p), KeyName(p.buf)) == Some(NestOf(p.(state := CO, token := NoToken)))
    ensures InContainer(Top(p)) ==>
              Take(NestOf(p), StringValue(p.buf)) == Some(NestOf(p.(state := OK, token := NoToken)))
  {
    hide ModesOk, Below, EscapeOk, HighOk;
    ModesNotBottom(cfg.depth, p.modes);
    var fs := NestOf(p).frames;
    assert fs[|fs| - 1 := WantKey] == fs[..|fs| - 1] + [WantKey];
    assert fs[|fs| - 1 := WantValue] == fs[..|fs| - 1] + [WantValue];
  }

  lemma NestByEndString(cfg: Config, p: Parser, q: Parser)
    requires cfg.listening && Inv(cfg, p) && Nested(p) && Stored(p, q) && p.state == ST
    ensures KeepsNest(EndString(cfg, q))
  {
    hide ModesOk, NestOf, EscapeOk, HighOk, Take;
    assert q.buf[..|q.buf| - 1] == p.buf;
    TakeOne(p.log, KeyName(p.buf));
    TakeOne(p.log, StringValue(p.buf));
    NestAfterString(cfg, p);
    var o := EndString(cfg, q);
    if o.Go? { NestOfOnly(o.next, p.(state := o.next.state, token := NoToken)); }
  }

  /** A comment that follows no token leaves the containers alone. */
  lemma NestInComment(cfg: Config, p: Parser)
    requires Inv(cfg, p) && Outside(p.state)
    ensures PlaceOf(p.state).InScalar? || PlaceOf(p.state).AfterItem? ==>
              NestOf(p.(state := C1, token := NoToken, beforeComment := ResumeState(p)))
              == NestOf(p.(state := OK, token := NoToken))
    ensures !PlaceOf(p.state).InScalar? && !PlaceOf(p.state).AfterItem? ==>
              NestOf(p.(state := C1, token := NoToken, beforeComment := ResumeState(p))) == NestOf(p)
  {
    hide ModesOk, Below, EscapeOk, HighOk;
    ModesNotBottom(cfg.depth, p.modes);
  }

  lemma NoValue(cfg: Config, p: Parser)
    requires Inv(cfg, p) && Outside(p.state)
    ensures !PlaceOf(p.state).InScalar? && !PlaceOf(p.state).AfterItem? ==> p.token == NoToken && p.buf == []
  {
    hide ModesOk, TopOk, EscapeOk, HighOk, ResumeOk, PlaceOf;
  }

  lemma NestByBeginComment(cfg: Config, p: Parser, q: Parser)
    requires cfg.listening && Inv(cfg, p) && Nested(p) && Stored(p, q) && Outside(p.state)
    ensures KeepsNest(BeginComment(cfg, q))
  {
    hide Inv, PlaceOf, Flush, NestOf, TakeAll;
    FlushStored(cfg, p, q);
    NestInComment(cfg, p);
    NoValue(cfg, p);
    assert p.log + [] == p.log;
    var o := BeginComment(cfg, q);
    if o.Go? {
      NestOfOnly(o.next, p.(state := C1, token := NoToken, beforeComment := o.next.beforeComment));
      if PlaceOf(p.state).InScalar? || PlaceOf(p.state).AfterItem? {
        NestFlushed(cfg, p, q);
      }
    }
  }

  lemma NestByEndComment(cfg: Config, p: Parser)
    requires Inv(cfg, p) && Nested(p) && PlaceOf(p.state).InComment?
    ensures KeepsNest(EndComment(p))
  {
    hide ModesOk, Below, EscapeOk, HighOk;
  }

  /** What the containers depend on besides the modes. */
  predicate SameMarks(p: Parser, q: Parser) {
    && (Underlying(p) == CO <==> Underlying(q) == CO)
    && (Underlying(p) == OK && p.token == NoToken <==> Underlying(q) == OK && q.token == NoToken)
    && (|p.modes| <= 1 ==> (Underlying(p) == OK <==> Underlying(q) == OK))
  }

  lemma NestBySameMarks(p: Parser, q: Parser)
    requires q.modes == p.modes && SameMarks(p, q)
    ensures NestOf(q) == NestOf(p)
  {
    hide Below, Underlying;
  }

  lemma PlaceIs(s: State)
    ensures s == CO <==> PlaceOf(s).AtColon?
    ensures s == OK <==> PlaceOf(s).AfterItem?
    ensures PlaceOf(s).InScalar? ==> PlaceOf(s).token != NoToken
  {
  }

  lemma MarksByMove(cfg: Config, p: Parser, q: Parser, k: Class)
    requires Inv(cfg, p) && MoveFits(p.state, k, q.state)
    requires q.token == p.token && q.beforeComment == p.beforeComment && q.modes == p.modes
    ensures SameMarks(p, q)
  {
    hide ModesOk, EscapeOk, HighOk, ResumeOk, PlaceOf;
    PlaceIs(p.state);
    PlaceIs(q.state);
    assert PlaceOf(OK).AfterItem? by { PlaceIs(OK); }
    StartIsBottom(cfg, p);
  }

  lemma MarksInText(p: Parser, q: Parser)
    requires PlaceOf(p.state).InText? && (PlaceOf(q.state).InText?)
    ensures SameMarks(p, q)
  {
    hide PlaceOf;
    PlaceIs(p.state);
    PlaceIs(q.state);
  }

  lemma MarksByBegin(cfg: Config, p: Parser, q: Parser)
    requires Inv(cfg, p) && (PlaceOf(q.state).InText? || PlaceOf(q.state).InScalar?)
    requires PlaceOf(p.state).AtKey? || PlaceOf(p.state).AtItem? || PlaceOf(p.state).AtArray?
          || PlaceOf(p.state).InScalar?
    ensures SameMarks(p, q)
  {
    hide PlaceOf;
    PlaceIs(p.state);
    PlaceIs(q.state);
  }

  lemma TextTargets(s: State, k: Class)
    requires PlaceOf(s).InText? && Transition(s, k).To?
    ensures PlaceOf(Transition(s, k).target).InText?
  {
    hide Transition, PlaceOf, MoveFits, IsWhite, IsHexClass;
    PlacesAre();
    TableFits(s, k);
  }

  /** The entries that tell nothing and leave the modes alone. */
  predicate SaysNothing(e: Entry) {
    e.To? || IsScalarEntry(e) || e.StringBegin? || e.Escape? || e.UnicodeRead?
  }

  lemma QuietKeepsModes(cfg: Config, p: Parser, c: nat, k: Class)
    requires ClassOf(c) == Some(k) && SaysNothing(Transition(p.state, k))
    requires Step(cfg, p, c).Go?
    ensures var q := Step(cfg, p, c).next;
            q.modes == p.modes && q.log == p.log && q.beforeComment == p.beforeComment
            && (Transition(p.state, k).To? ==> q.state == Transition(p.state, k).target && q.token == p.token)
            && (IsScalarEntry(Transition(p.state, k)) ==> PlaceOf(q.state).InScalar?)
            && (IsScalarEntry(Transition(p.state, k)) || Transition(p.state, k).To? || PlaceOf(q.state).InText?)
  {
    hide ClassOf, Transition, Act, AddEscaped, IsWhite, PlaceOf;
    AddCharKeeps(p, c, k);
    ActQuietKeeps(cfg, AddChar(p, c, k).next, Transition(p.state, k));
  }

  lemma AddCharKeeps(p: Parser, c: int, k: Class)
    requires AddChar(p, c, k).Go?
    ensures var q := AddChar(p, c, k).next; q == p.(buf := q.buf, escaped := q.escaped)
  {
  }

  lemma ActQuietKeeps(cfg: Config, p: Parser, e: Entry)
    requires SaysNothing(e) && Act(cfg, p, e).Go?
    ensures var q := Act(cfg, p, e).next;
            q.modes == p.modes && q.log == p.log && q.beforeComment == p.beforeComment
            && (e.To? ==> q.state == e.target && q.token == p.token)
            && (IsScalarEntry(e) ==> PlaceOf(q.state).InScalar?)
            && (IsScalarEntry(e) || e.To? || PlaceOf(q.state).InText?)
  {
    hide PlaceOf, HexOf, Encoded, CodeUnit, AllHex;
    PlacesAre();
  }

  lemma NestByQuiet(cfg: Config, p: Parser, c: nat, k: Class)
    requires Inv(cfg, p) && Nested(p) && ClassOf(c) == Some(k) && SaysNothing(Transition(p.state, k))
    ensures KeepsNest(Step(cfg, p, c))
  {
    hide ClassOf, Transition, Inv, Step, NestOf, PlaceOf, Underlying, SameMarks, MoveFits;
    var o := Step(cfg, p, c);
    if o.Go? {
      var q, e := o.next, Transition(p.state, k);
      QuietKeepsModes(cfg, p, c, k);
      TableFits(p.state, k);
      if e.To? {
        if PlaceOf(p.state).InText? {
          TextTargets(p.state, k);
          MarksInText(p, q);
        } else {
          MoveFitsOutside(p.state, k);
          MarksByMove(cfg, p, q, k);
        }
      } else if e.Escape? || e.UnicodeRead? {
        assert PlaceOf(p.state).InText? by { TextSource(); }
        MarksInText(p, q);
      } else {
        MarksByBegin(cfg, p, q);
      }
      NestBySameMarks(p, q);
    }
  }

  lemma TextSource()
    ensures PlaceOf(ST).InText? && PlaceOf(U4).InText? && PlaceOf(ES).InText?
  {
  }

  lemma MoveFitsOutside(s: State, k: Class)
    requires !PlaceOf(s).InText? && EntryFits(s, k, Transition(s, k)) && Transition(s, k).To?
    ensures MoveFits(s, k, Transition(s, k).target)
  {
    hide Transition;
    TextSource();
  }

  // ----- every step

  lemma StepKeepsNest(cfg: Config, p: Parser, c: int)
    requires cfg.listening && Inv(cfg, p) && Nested(p)
    ensures KeepsNest(Step(cfg, p, c))
  {
    hide ClassOf, Transition, Inv, Step, NestOf, AddChar, Nested;
    if c >= 0 && ClassOf(c).Some? {
      var k := ClassOf(c).value;
      if !Transition(p.state, k).To? && !Transition(p.state, k).Error? {
        CharacterStored(cfg, p, c, k);
        TableFits(p.state, k);
        NestByEntry(cfg, p, c, k, AddChar(p, c, k).next);
      } else if Transition(p.state, k).To? {
        NestByQuiet(cfg, p, c, k);
      } else {
        NoGo(cfg, p, c, k);
      }
    } else {
      NoCode(cfg, p, c);
    }
  }

  lemma NoGo(cfg: Config, p: Parser, c: nat, k: Class)
    requires ClassOf(c) == Some(k) && Transition(p.state, k).Error?
    ensures !Step(cfg, p, c).Go?
  {
    hide ClassOf, Transition;
  }

  lemma NoCode(cfg: Config, p: Parser, c: int)
    requires !(c >= 0 && ClassOf(c).Some?)
    ensures !Step(cfg, p, c).Go?
  {
    hide ClassOf;
  }

  lemma NestByEntry(cfg: Config, p: Parser, c: nat, k: Class, q: Parser)
    requires cfg.listening && Inv(cfg, p) && Nested(p) && ClassOf(c) == Some(k)
    requires !Transition(p.state, k).To? && !Transition(p.state, k).Error?
    requires Step(cfg, p, c) == Act(cfg, q, Transition(p.state, k))
    requires if Transition(p.state, k).CommentEnd? then q == p else Stored(p, q)
    requires EntryFits(p.state, k, Transition(p.state, k))
    ensures KeepsNest(Step(cfg, p, c))
  {
    hide ClassOf, Transition, Inv, Step, NestOf, Nested, Close, Open, CloseEmptyObject, EndString, NextMember,
      AfterKey, BeginComment, EndComment, KeepsNest, Stored;
    match Transition(p.state, k)
    case ObjectEnd => NestByClose(cfg, p, q, false);
    case ArrayEnd =>
      if PlaceOf(p.state).AtArray? {
        ArrayPlace(p.state);
        NestByEmptyArray(cfg, p, q);
      } else {
        NestByClose(cfg, p, q, true);
      }
    case ObjectBegin => NestByOpen(cfg, p, q, false);
    case ArrayBegin => NestByOpen(cfg, p, q, true);
    case EmptyObjectEnd => NestByEmptyObject(cfg, p, q);
    case StringEnd => NestByEndString(cfg, p, q);
    case Comma => NestByComma(cfg, p, q);
    case Colon => NestByColon(cfg, p, q);
    case CommentBegin => NestByBeginComment(cfg, p, q);
    case CommentEnd => NestByEndComment(cfg, p);
    case UnicodeRead => NestByQuiet(cfg, p, c, k);
    case Escape => NestByQuiet(cfg, p, c, k);
    case StringBegin => NestByQuiet(cfg, p, c, k);
    case NullBegin => NestByQuiet(cfg, p, c, k);
    case TrueBegin => NestByQuiet(cfg, p, c, k);
    case FalseBegin => NestByQuiet(cfg, p, c, k);
    case IntegerByMinus => NestByQuiet(cfg, p, c, k);
    case IntegerByZero => NestByQuiet(cfg, p, c, k);
    case IntegerByDigit => NestByQuiet(cfg, p, c, k);
    case FloatByExponent => NestByQuiet(cfg, p, c, k);
    case FloatByPoint => NestByQuiet(cfg, p, c, k);
  }

  lemma ArrayPlace(s: State)
    requires PlaceOf(s).AtArray?
    ensures s == AR
  {
  }

  lemma {:induction false} RunKeepsNest(cfg: Config, p: Parser, s: seq<int>)
    requires cfg.listening && Inv(cfg, p) && Nested(p)
    ensures KeepsNest(Run(cfg, p, s))
    decreases |s|
  {
    hide Step, Inv, Nested;
    if s != [] {
      StepKeepsNest(cfg, p, s[0]);
      StepKeepsInv(cfg, p, s[0]);
      var o := Step(cfg, p, s[0]);
      if o.Go? { RunKeepsNest(cfg, o.next, s[1..]); }
    }
  }

  // ----- the stream

  /** A stream that ends with all its containers closed. */
  predicate IsComplete(log: seq<Event>) { log == [] || TakeAll(log) == Some(Nest([], true)) }

  /** A stream that some further events complete. */
  ghost predicate IsOpen(log: seq<Event>) { exists more :: IsComplete(log + more) }

  /** What closes the innermost container. */
  function FirstEnding(frame: Frame): seq<Event> {
    match frame
    case InArray => [EndArray]
    case WantKey => [EndObject]
    case WantValue => [StringValue([]), EndObject]
  }

  /** The events that close the given containers. */
  function Endings(frames: seq<Frame>): seq<Event>
    decreases |frames|
  {
    if frames == [] then []
    else
      var n := |frames| - 1;
      FirstEnding(frames[n]) + Endings(Completed(frames[..n]).frames)
  }

  lemma TakeTwo(log: seq<Event>, e: Event, f: Event)
    ensures TakeAll(log + [e, f]) ==
            match TakeAll(log + [e]) case None => None case Some(nest) => Take(nest, f)
  {
    TakeOne(log + [e], f);
    assert log + [e] + [f] == log + [e, f];
  }

  lemma FirstEndingTaken(log: seq<Event>, nest: Nest)
    requires TakeAll(log) == Some(nest) && nest.frames != []
    ensures var n := |nest.frames| - 1;
            TakeAll(log + FirstEnding(nest.frames[n])) == Some(Completed(nest.frames[..n]))
  {
    hide TakeAll;
    var fs, n := nest.frames, |nest.frames| - 1;
    match fs[n]
    case InArray => TakeOne(log, EndArray);
    case WantKey => TakeOne(log, EndObject);
    case WantValue =>
      TakeOne(log, StringValue([]));
      TakeTwo(log, StringValue([]), EndObject);
      assert fs[n := WantKey][..n] == fs[..n];
  }

  lemma {:induction false} EndingsComplete(log: seq<Event>, nest: Nest)
    requires TakeAll(log) == Some(nest) && nest.frames != []
    ensures IsComplete(log + Endings(nest.frames))
    decreases |nest.frames|
  {
    hide TakeAll, Take, Completed;
    var fs, n := nest.frames, |nest.frames| - 1;
    var first := FirstEnding(fs[n]);
    var next := Completed(fs[..n]);
    FirstEndingTaken(log, nest);
    CompletedFewer(fs[..n]);
    assert log + Endings(fs) == (log + first) + Endings(next.frames);
    if next.frames != [] {
      EndingsComplete(log + first, next);
    } else {
      NothingLeft(fs[..n]);
      assert (log + first) + [] == log + first;
    }
  }

  lemma CompletedFewer(frames: seq<Frame>)
    ensures |Completed(frames).frames| == |frames|
  {
  }

  lemma NothingLeft(frames: seq<Frame>)
    requires Completed(frames).frames == []
    ensures Completed(frames) == Nest([], true)
  {
  }

  /** Up to the character at which a text is refused, if any, the events begin a well
      bracketed stream; if the text is accepted the stream is complete. */
  lemma {:induction false} EventsAreNested(cfg: Config, s: seq<int>)
    requires cfg.listening && Run(cfg, Initial, s).Go?
    ensures IsOpen(Run(cfg, Initial, s).next.log)
    ensures Accepted(cfg, Initial, s) ==> IsComplete(Run(cfg, Initial, s).next.log)
  {
    hide Run;
    InitialInv(cfg);
    RunKeepsNest(cfg, Initial, s);
    RunKeepsInv(cfg, Initial, s);
    var p := Run(cfg, Initial, s).next;
    FinishedNest(cfg, p);
    var nest := NestOf(p);
    if nest.frames != [] {
      EndingsComplete(p.log, nest);
    } else if p.log == [] {
      assert IsComplete(p.log + []);
    } else {
      assert p.log + [] == p.log;
      BottomNest(cfg, p);
      assert IsComplete(p.log + []);
    }
  }

  lemma FinishedNest(cfg: Config, p: Parser)
    requires Inv(cfg, p) && Nested(p)
    ensures Finished(p) && p.log != [] ==> TakeAll(p.log) == Some(Nest([], true))
  {
    StartIsBottom(cfg, p);
    if Finished(p) && p.log != [] { BottomNest(cfg, p); }
  }

  /** With no container open, something has been told only if the root has closed. */
  lemma BottomNest(cfg: Config, p: Parser)
    requires Nested(p) && NestOf(p).frames == [] && p.log != []
    ensures NestOf(p).ended
  {
    TakeLast(p.log);
  }

  lemma TakeLast(log: seq<Event>)
    requires log != [] && TakeAll(log).Some? && TakeAll(log).value.frames == []
    ensures TakeAll(log).value.ended
  {
  }
}
