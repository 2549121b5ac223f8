/** The invariant of every reachable parser state, and what it says about the assertions
    of the source. */
module JsonInvariant {
  import opened Wrappers
  import opened JsonTables
  import opened JsonSpec

  /** What the parser is in the middle of, coarser than its control state. */
  datatype Place =
    | AtStart | AfterItem | AtKey | AtColon | AtItem | AtArray
    | InText | InScalar(token: Token) | InComment

  function PlaceOf(s: State): Place {
    match s
    case GO => AtStart
    case OK => AfterItem
    case OB => AtKey
    case KE => AtKey
    case CO => AtColon
    case VA => AtItem
    case AR => AtArray
    case ST => InText
    case ES => InText
    case U1 => InText
    case U2 => InText
    case U3 => InText
    case U4 => InText
    case D1 => InText
    case D2 => InText
    case MI => InScalar(IntegerToken)
    case ZE => InScalar(IntegerToken)
    case IT => InScalar(IntegerToken)
    case FX => InScalar(FloatToken)
    case FR => InScalar(FloatToken)
    case E1 => InScalar(FloatToken)
    case E2 => InScalar(FloatToken)
    case E3 => InScalar(FloatToken)
    case T1 => InScalar(TrueToken)
    case T2 => InScalar(TrueToken)
    case T3 => InScalar(TrueToken)
    case F1 => InScalar(FalseToken)
    case F2 => InScalar(FalseToken)
    case F3 => InScalar(FalseToken)
    case F4 => InScalar(FalseToken)
    case N1 => InScalar(NullToken)
    case N2 => InScalar(NullToken)
    case N3 => InScalar(NullToken)
    case C1 => InComment
    case C2 => InComment
    case C3 => InComment
  }

  /** DoneMode is exactly the bottom of the stack, KeyMode occurs only on top. */
  ghost predicate ModesOk(depth: nat, modes: seq<Mode>) {
    && 1 <= |modes| <= depth + 1
    && (forall i :: 0 <= i < |modes| ==> (modes[i] == DoneMode <==> i == 0))
    && (forall i :: 0 <= i < |modes| - 1 ==> modes[i] != KeyMode)
  }

  predicate InContainer(top: Mode) { top == ArrayMode || top == ObjectMode }

  lemma PlacesOutside()
    ensures PlaceOf(GO) == AtStart
    ensures PlaceOf(OK) == AfterItem
    ensures PlaceOf(OB) == PlaceOf(KE) == AtKey
    ensures PlaceOf(CO) == AtColon
    ensures PlaceOf(VA) == AtItem
    ensures PlaceOf(AR) == AtArray
    ensures PlaceOf(C1) == PlaceOf(C2) == PlaceOf(C3) == InComment
  {
  }

  lemma PlacesInText()
    ensures PlaceOf(ST) == PlaceOf(ES) == PlaceOf(U1) == PlaceOf(U2) == PlaceOf(U3) == PlaceOf(U4)
          == PlaceOf(D1) == PlaceOf(D2) == InText
  {
  }

  lemma PlacesInNumber()
    ensures PlaceOf(MI) == PlaceOf(ZE) == PlaceOf(IT) == InScalar(IntegerToken)
    ensures PlaceOf(FX) == PlaceOf(FR) == PlaceOf(E1) == PlaceOf(E2) == PlaceOf(E3) == InScalar(FloatToken)
  {
  }

  lemma PlacesInWord()
    ensures PlaceOf(T1) == PlaceOf(T2) == PlaceOf(T3) == InScalar(TrueToken)
    ensures PlaceOf(F1) == PlaceOf(F2) == PlaceOf(F3) == PlaceOf(F4) == InScalar(FalseToken)
    ensures PlaceOf(N1) == PlaceOf(N2) == PlaceOf(N3) == InScalar(NullToken)
  {
  }

  lemma PlacesAre()
    ensures PlaceOf(GO) == AtStart
    ensures PlaceOf(OK) == AfterItem
    ensures PlaceOf(OB) == PlaceOf(KE) == AtKey
    ensures PlaceOf(CO) == AtColon
    ensures PlaceOf(VA) == AtItem
    ensures PlaceOf(AR) == AtArray
    ensures PlaceOf(ST) == PlaceOf(ES) == PlaceOf(U1) == PlaceOf(U2) == PlaceOf(U3) == PlaceOf(U4)
          == PlaceOf(D1) == PlaceOf(D2) == InText
    ensures PlaceOf(MI) == PlaceOf(ZE) == PlaceOf(IT) == InScalar(IntegerToken)
    ensures PlaceOf(FX) == PlaceOf(FR) == PlaceOf(E1) == PlaceOf(E2) == PlaceOf(E3) == InScalar(FloatToken)
    ensures PlaceOf(T1) == PlaceOf(T2) == PlaceOf(T3) == InScalar(TrueToken)
    ensures PlaceOf(F1) == PlaceOf(F2) == PlaceOf(F3) == PlaceOf(F4) == InScalar(FalseToken)
    ensures PlaceOf(N1) == PlaceOf(N2) == PlaceOf(N3) == InScalar(NullToken)
    ensures PlaceOf(C1) == PlaceOf(C2) == PlaceOf(C3) == InComment
  {
    hide PlaceOf;
    PlacesOutside();
    PlacesInText();
    PlacesInNumber();
    PlacesInWord();
  }

  /** The modes that can be on top at a place. */
  predicate TopOk(place: Place, top: Mode, token: Token) {
    match place
    case AtStart => top == DoneMode
    case AfterItem => top != KeyMode && (token != NoToken ==> InContainer(top))
    case AtKey => top == KeyMode
    case AtColon => top == KeyMode
    case AtItem => InContainer(top)
    case AtArray => top == ArrayMode
    case InText => top != DoneMode
    case InScalar(_) => InContainer(top)
    case InComment => true
  }

  /** The pending token at a place, and when the buffer has to be empty. */
  predicate TokenOk(place: Place, token: Token, buf: seq<int>) {
    match place
    case AfterItem => token != StringToken && (token == NoToken ==> buf == [])
    case InText => token == StringToken
    case InScalar(t) => token == t && buf != []
    case _ => token == NoToken && buf == []
  }

  /** The tail of the buffer that an escape in progress needs: a backslash, 'u', and the
      hexadecimal digits read so far. */
  predicate EscapeOk(s: State, buf: seq<int>) {
    match s
    case ES => buf != []
    case D2 => buf != []
    case U1 => |buf| >= 2
    case U2 => |buf| >= 3 && AllHex(buf[|buf| - 1..])
    case U3 => |buf| >= 4 && AllHex(buf[|buf| - 2..])
    case U4 => |buf| >= 5 && AllHex(buf[|buf| - 3..])
    case _ => true
  }

  /** The state saved for the end of a comment fits the top mode. */
  predicate ResumeOk(s: State, before: State, top: Mode) {
    PlaceOf(s).InComment? ==>
      && Outside(before) && !PlaceOf(before).InScalar?
      && TopOk(PlaceOf(before), top, NoToken)
  }

  /** A high surrogate is held exactly while its low half is being read. */
  predicate HighOk(s: State, high: int) {
    && (high == 0 || IsHighSurrogate(high))
    && ((s == D1 || s == D2) ==> high != 0)
    && (high != 0 ==> (s == D1 || s == D2 || s == U1 || s == U2 || s == U3 || s == U4))
  }

  ghost predicate Inv(cfg: Config, p: Parser) {
    && ModesOk(cfg.depth, p.modes)
    && (p.escaped <==> p.state == ES)
    && (p.comment <==> PlaceOf(p.state).InComment?)
    && HighOk(p.state, p.high)
    && TopOk(PlaceOf(p.state), Top(p), p.token)
    && TokenOk(PlaceOf(p.state), p.token, p.buf)
    && EscapeOk(p.state, p.buf)
    && ResumeOk(p.state, p.beforeComment, Top(p))
  }

  lemma InitialInv(cfg: Config)
    ensures Inv(cfg, Initial)
  {
  }

  // ----- actions, on a parser `q` that has just stored the character in its buffer

  predicate Outside(s: State) { !PlaceOf(s).InText? && !PlaceOf(s).InComment? }

  /** The outcome of a step that either keeps the invariant or, exactly if `due`, stops at
      an assertion. */
  ghost predicate Kept(cfg: Config, o: Outcome, due: bool) {
    && (o.Go? ==> Inv(cfg, o.next))
    && (o.Aborted? <==> due)
  }

  lemma ModesPushed(depth: nat, modes: seq<Mode>, m: Mode)
    requires ModesOk(depth, modes) && modes[|modes| - 1] != KeyMode
    requires m != DoneMode && |modes| <= depth
    ensures ModesOk(depth, modes + [m])
  {
  }

  lemma ModesNotBottom(depth: nat, modes: seq<Mode>)
    requires ModesOk(depth, modes)
    ensures 0 < |modes| <= depth + 1
    ensures modes[|modes| - 1] != DoneMode ==> |modes| > 1
  {
  }

  /** What lies under an array or an object is never a key. */
  lemma ModesPopped(depth: nat, modes: seq<Mode>)
    requires ModesOk(depth, modes)
    ensures |modes| > 1 ==>
              ModesOk(depth, modes[..|modes| - 1]) && modes[|modes| - 2] != KeyMode
  {
  }

  lemma ModesFlipped(depth: nat, modes: seq<Mode>, m: Mode)
    requires ModesOk(depth, modes) && |modes| > 1 && m != DoneMode
    ensures ModesOk(depth, modes[..|modes| - 1] + [m])
  {
  }

  lemma CloseIs(cfg: Config, x: Parser, event: Event, mode: Mode)
    ensures CloseFlushed(cfg, x, event, mode) ==
            if x.modes == [] || Top(x) != mode then Refused(Tell(cfg, x, event).log)
            else Go(Tell(cfg, x, event).(modes := x.modes[..|x.modes| - 1], token := NoToken, state := OK))
  {
  }

  lemma ClosedInv(cfg: Config, p: Parser, log: seq<Event>)
    requires Inv(cfg, p) && p.modes != [] && (Top(p) == ArrayMode || Top(p) == ObjectMode)
    requires PlaceOf(p.state).AfterItem? || PlaceOf(p.state).AtArray? || PlaceOf(p.state).InScalar?
    ensures Inv(cfg, p.(log := log, buf := [], modes := p.modes[..|p.modes| - 1], token := NoToken, state := OK))
  {
    hide ModesOk, PlaceOf, EscapeOk, HighOk;
    PlacesOutside();
    ModesNotBottom(cfg.depth, p.modes);
    ModesPopped(cfg.depth, p.modes);
    NoText(p.state, p.buf, p.high);
    NoText(OK, [], p.high);
  }

  lemma KeptByClose(cfg: Config, p: Parser, q: Parser, event: Event, mode: Mode)
    requires Inv(cfg, p) && Stored(p, q) && (mode == ArrayMode || mode == ObjectMode)
    requires PlaceOf(p.state).AfterItem? || PlaceOf(p.state).AtArray? || PlaceOf(p.state).InScalar?
    ensures Kept(cfg, Close(cfg, q, event, mode), cfg.listening && IsLiteral(p.token))
  {
    hide Inv, Flush, CloseFlushed, PlaceOf, Pending;
    FlushStored(cfg, p, q);
    if Flush(cfg, q).Go? {
      var x := Flush(cfg, q).next;
      CloseIs(cfg, x, event, mode);
      if p.modes != [] && Top(p) == mode { ClosedInv(cfg, p, Tell(cfg, x, event).log); }
    }
  }

  lemma KeptByComma(cfg: Config, p: Parser, q: Parser)
    requires Inv(cfg, p) && Stored(p, q)
    requires PlaceOf(p.state).AfterItem? || PlaceOf(p.state).InScalar?
    ensures Kept(cfg, NextMember(cfg, q), cfg.listening && IsLiteral(p.token))
  {
    hide ModesOk, Flush;
    FlushStored(cfg, p, q);
    ModesNotBottom(cfg.depth, p.modes);
    if Top(p) == ObjectMode {
      ModesFlipped(cfg.depth, p.modes, KeyMode);
    }
  }

  lemma OpenIs(cfg: Config, p: Parser, q: Parser, event: Event, m: Mode, target: State)
    requires Stored(p, q) && p.token == NoToken && p.buf == []
    ensures Open(cfg, q, event, m, target) ==
            if |p.modes| == cfg.depth + 1 then Refused(Tell(cfg, p, event).log)
            else Go(Tell(cfg, p, event).(modes := p.modes + [m], state := target))
  {
    assert q.buf[..|q.buf| - 1] == p.buf;
    assert PopBack(q) == Go(p);
  }

  lemma OpenedInv(cfg: Config, p: Parser, log: seq<Event>, list: bool)
    requires Inv(cfg, p) && |p.modes| <= cfg.depth
    requires PlaceOf(p.state).AtStart? || PlaceOf(p.state).AtItem? || PlaceOf(p.state).AtArray?
    ensures Inv(cfg, p.(log := log, modes := p.modes + [if list then ArrayMode else KeyMode],
                        state := if list then AR else OB))
  {
    hide ModesOk, PlaceOf, EscapeOk, HighOk;
    PlacesOutside();
    ModesNotBottom(cfg.depth, p.modes);
    ModesPushed(cfg.depth, p.modes, if list then ArrayMode else KeyMode);
    NoText(p.state, p.buf, p.high);
    NoText(if list then AR else OB, p.buf, p.high);
  }

  lemma KeptByOpen(cfg: Config, p: Parser, q: Parser, event: Event, list: bool)
    requires Inv(cfg, p) && Stored(p, q)
    requires PlaceOf(p.state).AtStart? || PlaceOf(p.state).AtItem? || PlaceOf(p.state).AtArray?
    ensures Kept(cfg, Open(cfg, q, event, if list then ArrayMode else KeyMode, if list then AR else OB), false)
  {
    hide Open, ModesOk, PlaceOf, EscapeOk, HighOk, TopOk, ResumeOk;
    var m, target := if list then ArrayMode else KeyMode, if list then AR else OB;
    OpenIs(cfg, p, q, event, m, target);
    if |p.modes| != cfg.depth + 1 {
      ModesNotBottom(cfg.depth, p.modes);
      OpenedInv(cfg, p, Tell(cfg, p, event).log, list);
    }
  }

  lemma KeptByColon(cfg: Config, p: Parser, q: Parser)
    requires Inv(cfg, p) && Stored(p, q) && PlaceOf(p.state).AtColon?
    ensures Kept(cfg, AfterKey(cfg, q), false)
  {
  }

  lemma KeptByEmptyObject(cfg: Config, p: Parser, q: Parser)
    requires Inv(cfg, p) && Stored(p, q) && PlaceOf(p.state).AtKey?
    ensures Kept(cfg, CloseEmptyObject(cfg, q), false)
  {
  }

  lemma KeptByEndString(cfg: Config, p: Parser, q: Parser)
    requires Inv(cfg, p) && Stored(p, q) && p.state == ST
    ensures Kept(cfg, EndString(cfg, q), false)
  {
    hide ModesOk;
    ModesNotBottom(cfg.depth, p.modes);
    assert q.buf[..|q.buf| - 1] == p.buf;
    assert PopBack(q) == Go(p);
  }

  /** Outside strings nothing is asked of escapes and surrogates. */
  lemma NoText(s: State, buf: seq<int>, high: int)
    requires !PlaceOf(s).InText?
    ensures s != ES && EscapeOk(s, buf) && (HighOk(s, high) <==> high == 0)
    ensures PlaceOf(s).InScalar? ==> PlaceOf(s).token != NoToken && PlaceOf(s).token != StringToken
  {
  }

  lemma ResumeFits(q: Parser)
    requires Outside(q.state) && TopOk(PlaceOf(q.state), Top(q), q.token)
    ensures ResumeOk(C1, ResumeState(q), Top(q))
  {
    hide PlaceOf;
    PlacesAre();
  }

  lemma KeptByBeginComment(cfg: Config, p: Parser, q: Parser)
    requires Inv(cfg, p) && Stored(p, q) && Outside(p.state)
    ensures Kept(cfg, BeginComment(cfg, q), cfg.listening && cfg.comments && IsLiteral(p.token))
  {
    hide ModesOk, Flush, ResumeState, ResumeOk, PlaceOf, EscapeOk, HighOk, Pending;
    FlushStored(cfg, p, q);
    ResumeFits(p);
    PlacesAre();
    NoText(p.state, p.buf, p.high);
    NoText(C1, [], p.high);
    if BeginComment(cfg, q).Go? { ResumeSame(Flush(cfg, q).next, p); }
  }

  lemma ResumeSame(p: Parser, q: Parser)
    requires p.state == q.state && p.modes == q.modes
    ensures ResumeState(p) == ResumeState(q)
  {
  }

  lemma KeptByEndComment(cfg: Config, p: Parser)
    requires Inv(cfg, p) && PlaceOf(p.state).InComment?
    ensures Kept(cfg, EndComment(p), false)
  {
  }

  lemma KeptByUnicode(cfg: Config, p: Parser, q: Parser)
    requires Inv(cfg, p) && Stored(p, q) && p.state == U4
    requires 0 <= HexOf(q.buf[|q.buf| - 1]) < 16
    ensures Kept(cfg, ReadUnicode(q), false)
  {
    hide ModesOk, Encoded, CodeUnit, SurrogatePair, ResumeState;
  }

  lemma KeptByBeginToken(cfg: Config, p: Parser, q: Parser, token: Token, target: State)
    requires Inv(cfg, p) && Stored(p, q) && (PlaceOf(p.state).AtItem? || PlaceOf(p.state).AtArray?)
    requires PlaceOf(target) == InScalar(token)
    ensures q.token == NoToken
    ensures Kept(cfg, Go(q.(token := token, state := target)), false)
  {
    hide ModesOk, PlaceOf, EscapeOk, HighOk;
    NoText(p.state, p.buf, p.high);
    NoText(target, q.buf, p.high);
  }

  lemma KeptByBeginString(cfg: Config, p: Parser, q: Parser)
    requires Inv(cfg, p) && Stored(p, q)
      && (PlaceOf(p.state).AtKey? || PlaceOf(p.state).AtItem? || PlaceOf(p.state).AtArray?)
    ensures Kept(cfg, BeginToken(q.(buf := []), StringToken, ST), false)
  {
    hide ModesOk;
  }

  lemma KeptByBeginFloat(cfg: Config, p: Parser, q: Parser, point: bool)
    requires Inv(cfg, p) && Stored(p, q) && PlaceOf(p.state) == InScalar(IntegerToken)
    requires point ==> q.buf[|p.buf|] == '.' as int
    ensures Kept(cfg, BeginFloat(cfg, q, point), false)
  {
    hide ModesOk;
  }

  // ----- moves that only change the control state

  /** What the table has to say about a plain move between non-text states. */
  predicate MoveFits(s: State, k: Class, t: State) {
    || (Outside(s) && IsWhite(k) && PlaceOf(t) == PlaceOf(s) && !PlaceOf(s).InScalar?)
    || (PlaceOf(s).InScalar? && (PlaceOf(t) == PlaceOf(s) || t == OK))
    || (PlaceOf(s).InComment? && PlaceOf(t).InComment?)
  }

  lemma KeptByBlankMove(cfg: Config, p: Parser, c: int, k: Class, t: State)
    requires Inv(cfg, p) && Outside(p.state) && !PlaceOf(p.state).InScalar? && IsWhite(k)
    requires PlaceOf(t) == PlaceOf(p.state)
    ensures AddChar(p, c, k).Go? && Inv(cfg, AddChar(p, c, k).next.(state := t))
  {
    hide ModesOk;
  }

  lemma KeptByScalarMove(cfg: Config, p: Parser, c: int, k: Class, t: State)
    requires Inv(cfg, p) && PlaceOf(p.state).InScalar? && (PlaceOf(t) == PlaceOf(p.state) || t == OK)
    ensures AddChar(p, c, k).Go? && Inv(cfg, AddChar(p, c, k).next.(state := t))
  {
    hide ModesOk, IsWhite, PlaceOf, EscapeOk, HighOk;
    PlacesAre();
    NoText(p.state, p.buf, p.high);
    NoText(t, p.buf + [c % 256], p.high);
  }

  lemma KeptByCommentMove(cfg: Config, p: Parser, c: int, k: Class, t: State)
    requires Inv(cfg, p) && PlaceOf(p.state).InComment? && PlaceOf(t).InComment?
    ensures AddChar(p, c, k).Go? && Inv(cfg, AddChar(p, c, k).next.(state := t))
  {
    hide ModesOk, IsWhite, PlaceOf, EscapeOk, HighOk;
    NoText(p.state, p.buf, p.high);
    NoText(t, p.buf, p.high);
  }

  lemma KeptByMove(cfg: Config, p: Parser, c: int, k: Class, t: State)
    requires Inv(cfg, p) && MoveFits(p.state, k, t)
    ensures AddChar(p, c, k).Go?
    ensures Inv(cfg, AddChar(p, c, k).next.(state := t))
  {
    hide Inv, AddChar, IsWhite;
    if PlaceOf(p.state).InScalar? {
      KeptByScalarMove(cfg, p, c, k, t);
    } else if PlaceOf(p.state).InComment? {
      KeptByCommentMove(cfg, p, c, k, t);
    } else {
      KeptByBlankMove(cfg, p, c, k, t);
    }
  }

  /** What the table has to say about a plain move inside a string. */
  predicate TextMoveFits(s: State, k: Class, t: State) {
    match s
    case ST => t == ST
    case U1 => t == U2 && IsHexClass(k)
    case U2 => t == U3 && IsHexClass(k)
    case U3 => t == U4 && IsHexClass(k)
    case D1 => t == D2
    case D2 => t == U1
    case _ => false
  }

  lemma AllHexMore(buf: seq<int>, n: nat, x: int)
    requires n <= |buf| && AllHex(buf[|buf| - n..]) && 0 <= HexOf(x) < 16
    ensures AllHex((buf + [x])[|buf| - n..])
  {
    hide HexOf;
    assert (buf + [x])[|buf| - n..] == buf[|buf| - n..] + [x];
  }

  lemma EscapeGrows(s: State, buf: seq<int>, x: int, t: State)
    requires EscapeOk(s, buf) && 0 <= HexOf(x) < 16
    requires (s == U1 && t == U2) || (s == U2 && t == U3) || (s == U3 && t == U4)
    ensures EscapeOk(t, buf + [x])
  {
    hide AllHex, HexOf;
    AllHexMore(buf, if s == U1 then 0 else if s == U2 then 1 else 2, x) by {
      if s == U1 { NoHex(buf[|buf|..]); }
    }
  }

  lemma NoHex(s: seq<int>)
    requires s == []
    ensures AllHex(s)
  {
  }

  lemma KeptByHexMove(cfg: Config, p: Parser, q: Parser, t: State)
    requires Inv(cfg, p) && Stored(p, q) && 0 <= HexOf(q.buf[|p.buf|]) < 16
    requires (p.state == U1 && t == U2) || (p.state == U2 && t == U3) || (p.state == U3 && t == U4)
    ensures Inv(cfg, q.(state := t))
  {
    hide ModesOk, HexOf, EscapeOk;
    EscapeGrows(p.state, p.buf, q.buf[|p.buf|], t);
  }

  lemma KeptByTextMove(cfg: Config, p: Parser, q: Parser, k: Class, t: State)
    requires Inv(cfg, p) && Stored(p, q) && TextMoveFits(p.state, k, t)
    requires IsHexClass(k) ==> 0 <= HexOf(q.buf[|p.buf|]) < 16
    ensures Inv(cfg, q.(state := t))
  {
    hide ModesOk, HexOf, IsHexClass;
    if p.state == U1 || p.state == U2 || p.state == U3 { KeptByHexMove(cfg, p, q, t); }
  }

  lemma KeptByBeginEscape(cfg: Config, p: Parser, q: Parser)
    requires Inv(cfg, p) && Stored(p, q) && p.state == ST
    ensures Inv(cfg, q.(escaped := true, state := ES))
  {
    hide ModesOk;
  }

  lemma KeptByEscape(cfg: Config, p: Parser, c: int, t: State)
    requires Inv(cfg, p) && p.state == ES && t == (if c == 'u' as int then U1 else ST)
    ensures Kept(cfg, match AddEscaped(p, c)
                      case Go(q) => Go(q.(state := t))
                      case stop => stop, false)
  {
    hide ModesOk;
  }

  /** A hexadecimal class is a code whose decoded value is a digit. */
  lemma HexClass(c: nat)
    requires ClassOf(c).Some? && IsHexClass(ClassOf(c).value)
    ensures c % 256 == c && 0 <= HexOf(c) < 16
  {
    hide ClassOf;
    HexCodes(c);
  }

  lemma HexCodes(c: nat)
    requires ClassOf(c).Some? && IsHexClass(ClassOf(c).value)
    ensures '0' as int <= c <= '9' as int || 'A' as int <= c <= 'F' as int || 'a' as int <= c <= 'f' as int
  {
  }

  lemma EscapeClass(c: nat)
    requires ClassOf(c).Some?
    ensures ClassOf(c) == Some(LOW_U) <==> c == 'u' as int
  {
  }

  // ----- the table, and the step

  /** The places from which the table lets each entry be selected. */
  predicate EntryFits(s: State, k: Class, e: Entry) {
    match e
    case Error => true
    case To(t) =>
      if s == ES then t == (if k == LOW_U then U1 else ST)
      else if PlaceOf(s).InText? then TextMoveFits(s, k, t)
      else MoveFits(s, k, t)
    case UnicodeRead => s == U4 && IsHexClass(k)
    case Escape => s == ST
    case StringEnd => s == ST
    case CommentBegin => Outside(s) && k == SLASH
    case CommentEnd => PlaceOf(s).InComment?
    case FloatByExponent => PlaceOf(s) == InScalar(IntegerToken)
    case FloatByPoint => PlaceOf(s) == InScalar(IntegerToken) && k == POINT
    case StringBegin => (PlaceOf(s).AtKey? || PlaceOf(s).AtItem? || PlaceOf(s).AtArray?) && !IsWhite(k)
    case EmptyObjectEnd => PlaceOf(s).AtKey? && !IsWhite(k)
    case ObjectEnd => (PlaceOf(s).AfterItem? || PlaceOf(s).InScalar?) && !IsWhite(k)
    case ArrayEnd => (PlaceOf(s).AfterItem? || PlaceOf(s).AtArray? || PlaceOf(s).InScalar?) && !IsWhite(k)
    case Comma => (PlaceOf(s).AfterItem? || PlaceOf(s).InScalar?) && !IsWhite(k)
    case Colon => PlaceOf(s).AtColon? && !IsWhite(k)
    case ObjectBegin => (PlaceOf(s).AtStart? || PlaceOf(s).AtItem? || PlaceOf(s).AtArray?) && !IsWhite(k)
    case ArrayBegin => (PlaceOf(s).AtStart? || PlaceOf(s).AtItem? || PlaceOf(s).AtArray?) && !IsWhite(k)
    case _ => (PlaceOf(s).AtItem? || PlaceOf(s).AtArray?) && !IsWhite(k)
  }

  lemma AfterValueFits(s: State, k: Class, comment: bool)
    requires PlaceOf(s).InScalar? || PlaceOf(s).AfterItem?
    ensures EntryFits(s, k, AfterValue(k, comment)) || PlaceOf(s).AfterItem?
    ensures EntryFits(OK, k, AfterValue(k, comment))
  {
  }

  lemma TableFitsText(s: State, k: Class)
    requires s == ST || s == ES || s == D1 || s == D2
    ensures EntryFits(s, k, Transition(s, k))
  {
    hide AfterValue, BeforeValue, FractionRow, IsHexClass, MoveFits, PlaceOf;
    PlacesAre();
  }

  lemma TableFitsHex(s: State, k: Class)
    requires s == U1 || s == U2 || s == U3 || s == U4
    ensures EntryFits(s, k, Transition(s, k))
  {
    hide IsHexClass, PlaceOf;
    PlacesAre();
  }

  lemma TableFitsComment(s: State, k: Class)
    requires s == C1 || s == C2 || s == C3
    ensures EntryFits(s, k, Transition(s, k))
  {
    hide AfterValue, BeforeValue, FractionRow, IsHexClass, PlaceOf;
    PlacesAre();
  }

  lemma TableFitsNumber(s: State, k: Class)
    requires s == OK || s == MI || s == ZE || s == IT
    ensures EntryFits(s, k, Transition(s, k))
  {
    hide AfterValue, BeforeValue, FractionRow, IsHexClass, IsSimpleEscape, PlaceOf;
    PlacesAre();
    AfterValueFits(s, k, true);
  }

  lemma TableFitsFraction(s: State, k: Class)
    requires s == FX || s == FR
    ensures EntryFits(s, k, Transition(s, k))
  {
    hide AfterValue, BeforeValue, IsHexClass, IsSimpleEscape, PlaceOf;
    PlacesAre();
    AfterValueFits(s, k, s == FR);
  }

  lemma TableFitsExponent(s: State, k: Class)
    requires s == E1 || s == E2 || s == E3
    ensures EntryFits(s, k, Transition(s, k))
  {
    hide AfterValue, BeforeValue, FractionRow, IsHexClass, IsSimpleEscape, PlaceOf;
    PlacesAre();
    AfterValueFits(s, k, false);
  }

  lemma TableFitsTrue(s: State, k: Class)
    requires s == T1 || s == T2 || s == T3
    ensures EntryFits(s, k, Transition(s, k))
  {
    hide AfterValue, BeforeValue, FractionRow, IsHexClass, IsSimpleEscape, PlaceOf;
    PlacesAre();
  }

  lemma TableFitsFalse(s: State, k: Class)
    requires s == F1 || s == F2
    ensures EntryFits(s, k, Transition(s, k))
  {
    hide AfterValue, BeforeValue, FractionRow, IsHexClass, IsSimpleEscape, PlaceOf;
    PlacesAre();
  }

  lemma TableFitsFalseEnd(s: State, k: Class)
    requires s == F3 || s == F4
    ensures EntryFits(s, k, Transition(s, k))
  {
    hide AfterValue, BeforeValue, FractionRow, IsHexClass, IsSimpleEscape, PlaceOf;
    PlacesAre();
  }

  lemma TableFitsNull(s: State, k: Class)
    requires s == N1 || s == N2 || s == N3
    ensures EntryFits(s, k, Transition(s, k))
  {
    hide AfterValue, BeforeValue, FractionRow, IsHexClass, IsSimpleEscape, PlaceOf;
    PlacesAre();
  }

  lemma TableFitsBlank(s: State, k: Class)
    requires s == GO || s == OB || s == KE || s == CO
    ensures EntryFits(s, k, Transition(s, k))
  {
    hide AfterValue, BeforeValue, FractionRow, IsHexClass, IsSimpleEscape, PlaceOf;
    PlacesAre();
  }

  lemma TableFitsBefore(s: State, k: Class)
    requires s == VA || s == AR
    ensures EntryFits(s, k, Transition(s, k))
  {
    hide AfterValue, FractionRow, IsHexClass, IsSimpleEscape, PlaceOf;
    PlacesAre();
  }

  lemma TableFits(s: State, k: Class)
    ensures EntryFits(s, k, Transition(s, k))
  {
    hide Transition, EntryFits;
    match s
    case GO => TableFitsBlank(s, k);
    case OB => TableFitsBlank(s, k);
    case KE => TableFitsBlank(s, k);
    case CO => TableFitsBlank(s, k);
    case VA => TableFitsBefore(s, k);
    case AR => TableFitsBefore(s, k);
    case ST => TableFitsText(s, k);
    case ES => TableFitsText(s, k);
    case D1 => TableFitsText(s, k);
    case D2 => TableFitsText(s, k);
    case U1 => TableFitsHex(s, k);
    case U2 => TableFitsHex(s, k);
    case U3 => TableFitsHex(s, k);
    case U4 => TableFitsHex(s, k);
    case OK => TableFitsNumber(s, k);
    case MI => TableFitsNumber(s, k);
    case ZE => TableFitsNumber(s, k);
    case IT => TableFitsNumber(s, k);
    case FX => TableFitsFraction(s, k);
    case FR => TableFitsFraction(s, k);
    case E1 => TableFitsExponent(s, k);
    case E2 => TableFitsExponent(s, k);
    case E3 => TableFitsExponent(s, k);
    case T1 => TableFitsTrue(s, k);
    case T2 => TableFitsTrue(s, k);
    case T3 => TableFitsTrue(s, k);
    case F1 => TableFitsFalse(s, k);
    case F2 => TableFitsFalse(s, k);
    case F3 => TableFitsFalseEnd(s, k);
    case F4 => TableFitsFalseEnd(s, k);
    case N1 => TableFitsNull(s, k);
    case N2 => TableFitsNull(s, k);
    case N3 => TableFitsNull(s, k);
    case C1 => TableFitsComment(s, k);
    case C2 => TableFitsComment(s, k);
    case C3 => TableFitsComment(s, k);
  }

  /** The one way into an assertion: a literal has to be told to a callback. */
  predicate LiteralDue(cfg: Config, p: Parser, c: int) {
    && cfg.listening && IsLiteral(p.token)
    && c >= 0 && ClassOf(c).Some?
    && var e := Transition(p.state, ClassOf(c).value);
       e.Comma? || e.ArrayEnd? || e.ObjectEnd? || (e.CommentBegin? && cfg.comments)
  }

  /** What the assertions and the array accesses of an action need. */
  predicate Needs(q: Parser, e: Entry) {
    match e
    case Error => true
    case To(_) => true
    case Escape => true
    case CommentEnd => Empty(q)
    case UnicodeRead => |q.buf| >= 6 && AllHex(q.buf[|q.buf| - 4..])
    case StringEnd => q.buf != [] && q.token == StringToken && Top(q) != DoneMode
    case CommentBegin => q.buf != [] && q.token != StringToken
    case Comma => q.buf != [] && q.token != StringToken
    case ObjectEnd => q.buf != []
    case ArrayEnd => q.buf != []
    case FloatByExponent => q.token == IntegerToken
    case FloatByPoint => q.token == IntegerToken && q.buf != [] && q.buf[|q.buf| - 1] == '.' as int
    case _ => q.buf != [] && q.token == NoToken
  }

  predicate Empty(p: Parser) { p.token == NoToken && p.buf == [] }

  lemma NeedsOfText(cfg: Config, p: Parser, q: Parser, k: Class, e: Entry)
    requires Inv(cfg, p) && EntryFits(p.state, k, e)
    requires e.Escape? || e.StringEnd? || e.CommentBegin? || e.UnicodeRead?
    requires Stored(p, q) && (e.UnicodeRead? ==> 0 <= HexOf(q.buf[|p.buf|]) < 16)
    ensures Needs(q, e)
  {
    hide ModesOk, HexOf, PlaceOf, MoveFits, TextMoveFits, IsWhite, IsHexClass, HighOk, ResumeOk, AllHex;
    PlacesAre();
    if e.UnicodeRead? { AllHexMore(p.buf, 3, q.buf[|p.buf|]); }
  }

  lemma NeedsOfOthers(cfg: Config, p: Parser, q: Parser, k: Class, e: Entry)
    requires Inv(cfg, p) && EntryFits(p.state, k, e)
    requires IsScalarEntry(e) || IsBracketEntry(e) || e.StringBegin?
    requires Stored(p, q) && (e.FloatByPoint? ==> q.buf[|p.buf|] == '.' as int)
    ensures Needs(q, e)
  {
    hide ModesOk, PlaceOf, MoveFits, TextMoveFits, IsWhite, IsHexClass, HighOk, ResumeOk, EscapeOk, AllHex;
    if !PlaceOf(p.state).InText? { NoText(p.state, p.buf, p.high); }
  }

  lemma NeedsOfCommentEnd(cfg: Config, p: Parser, k: Class)
    requires Inv(cfg, p) && EntryFits(p.state, k, CommentEnd)
    ensures Needs(p, CommentEnd)
  {
    hide ModesOk, PlaceOf, HighOk, ResumeOk, EscapeOk, AllHex;
  }

  lemma NeedsMet(cfg: Config, p: Parser, c: nat, k: Class)
    requires Inv(cfg, p) && ClassOf(c) == Some(k) && AddChar(p, c, k).Go?
    ensures Needs(AddChar(p, c, k).next, Transition(p.state, k))
    ensures p.modes != [] && AddChar(p, c, k).next.modes == p.modes
  {
    hide Inv, Transition, ClassOf, AddChar, Act, Step, HexOf, EntryFits;
    InvModesSome(cfg, p);
    TableFits(p.state, k);
    var e := Transition(p.state, k);
    AddCharModes(p, c, k);
    if !e.To? && !e.Error? {
      CharacterStored(cfg, p, c, k);
      var q := AddChar(p, c, k).next;
      if e.UnicodeRead? { HexRead(p.state, k); HexClass(c); }
      if e.FloatByPoint? { PointRead(p.state, k); PointClass(c); }
      if e.CommentEnd? {
        NeedsOfCommentEnd(cfg, p, k);
      } else if e.Escape? || e.StringEnd? || e.CommentBegin? || e.UnicodeRead? {
        NeedsOfText(cfg, p, q, k, e);
      } else {
        NeedsOfOthers(cfg, p, q, k, e);
      }
    }
  }

  lemma HexRead(s: State, k: Class)
    requires EntryFits(s, k, UnicodeRead)
    ensures IsHexClass(k)
  {
    hide PlaceOf;
  }

  lemma PointRead(s: State, k: Class)
    requires EntryFits(s, k, FloatByPoint)
    ensures k == POINT
  {
    hide PlaceOf;
  }

  lemma InvModesSome(cfg: Config, p: Parser)
    requires Inv(cfg, p)
    ensures p.modes != []
  {
    hide PlaceOf, HighOk, ResumeOk, EscapeOk, TopOk, TokenOk;
  }

  lemma AddCharModes(p: Parser, c: nat, k: Class)
    ensures AddChar(p, c, k).Go? ==> AddChar(p, c, k).next.modes == p.modes
  {
  }

  predicate IsTextEntry(e: Entry) {
    e.UnicodeRead? || e.Escape? || e.StringEnd? || e.StringBegin? || e.CommentBegin? || e.CommentEnd?
  }

  predicate IsBracketEntry(e: Entry) {
    e.EmptyObjectEnd? || e.ObjectEnd? || e.ArrayEnd? || e.Comma? || e.Colon? || e.ObjectBegin? || e.ArrayBegin?
  }

  predicate IsScalarEntry(e: Entry) {
    || e.NullBegin? || e.TrueBegin? || e.FalseBegin?
    || e.IntegerByMinus? || e.IntegerByZero? || e.IntegerByDigit?
    || e.FloatByExponent? || e.FloatByPoint?
  }

  ghost predicate StepKept(cfg: Config, p: Parser, c: int) {
    Kept(cfg, Step(cfg, p, c), LiteralDue(cfg, p, c))
  }

  lemma StepKeptByError(cfg: Config, p: Parser, c: nat, k: Class)
    requires Inv(cfg, p) && ClassOf(c) == Some(k) && Transition(p.state, k).Error?
    ensures StepKept(cfg, p, c)
  {
    hide ModesOk, Transition, ClassOf;
  }

  /** A plain move is the storing of the character, then the move. */
  lemma StepMove(cfg: Config, p: Parser, c: nat, k: Class, t: State)
    requires ClassOf(c) == Some(k) && Transition(p.state, k) == To(t)
    ensures Step(cfg, p, c) ==
            match AddChar(p, c, k)
            case Go(q) => Go(q.(state := t))
            case stop => stop
    ensures !LiteralDue(cfg, p, c)
  {
    hide Transition, ClassOf, AddChar;
  }

  /** In a string every character is stored, as an escape or as it is. */
  lemma TextStores(cfg: Config, p: Parser, c: nat, k: Class)
    requires Inv(cfg, p) && PlaceOf(p.state).InText?
    ensures p.state == ES ==> AddChar(p, c, k) == AddEscaped(p, c)
    ensures p.state != ES ==>
              AddChar(p, c, k).Go? && Stored(p, AddChar(p, c, k).next)
              && AddChar(p, c, k).next.buf[|p.buf|] == c % 256
  {
    hide ModesOk, AddEscaped, HexOf, IsWhite;
  }

  lemma StepKeptByMove(cfg: Config, p: Parser, c: nat, k: Class)
    requires Inv(cfg, p) && ClassOf(c) == Some(k) && Transition(p.state, k).To?
    ensures StepKept(cfg, p, c)
  {
    hide Inv, Transition, ClassOf, HexOf, AddChar, AddEscaped, Step, LiteralDue, MoveFits, TextMoveFits, IsHexClass;
    var t := Transition(p.state, k).target;
    TableFits(p.state, k);
    StepMove(cfg, p, c, k, t);
    if PlaceOf(p.state).InText? {
      TextStores(cfg, p, c, k);
      if p.state == ES {
        EscapeClass(c);
        KeptByEscape(cfg, p, c, t);
      } else {
        if IsHexClass(k) { HexClass(c); }
        KeptByTextMove(cfg, p, AddChar(p, c, k).next, k, t);
      }
    } else {
      KeptByMove(cfg, p, c, k, t);
    }
  }

  /** Any other entry finds its character in the buffer, except for the end of a comment. */
  lemma CharacterStored(cfg: Config, p: Parser, c: nat, k: Class)
    requires Inv(cfg, p) && ClassOf(c) == Some(k)
    requires !Transition(p.state, k).To? && !Transition(p.state, k).Error?
    ensures AddChar(p, c, k).Go?
    ensures var q := AddChar(p, c, k).next;
            && Step(cfg, p, c) == Act(cfg, q, Transition(p.state, k))
            && (if Transition(p.state, k).CommentEnd? then q == p
                else Stored(p, q) && q.buf[|p.buf|] == c % 256)
  {
    hide ModesOk, Transition, ClassOf, Act;
    TableFits(p.state, k);
  }

  lemma StepKeptByText(cfg: Config, p: Parser, c: nat, k: Class)
    requires Inv(cfg, p) && ClassOf(c) == Some(k)
    requires IsTextEntry(Transition(p.state, k))
    ensures StepKept(cfg, p, c)
  {
    hide Inv, Transition, ClassOf, HexOf, EndString, BeginComment, EndComment, ReadUnicode, BeginToken, AddChar, Step,
      StepKept;
    if Transition(p.state, k).CommentBegin? || Transition(p.state, k).CommentEnd? {
      StepKeptByComment(cfg, p, c, k);
    } else {
      StepKeptByString(cfg, p, c, k);
    }
  }

  lemma StepKeptByComment(cfg: Config, p: Parser, c: nat, k: Class)
    requires Inv(cfg, p) && ClassOf(c) == Some(k)
    requires Transition(p.state, k).CommentBegin? || Transition(p.state, k).CommentEnd?
    ensures StepKept(cfg, p, c)
  {
    hide Inv, Transition, ClassOf, BeginComment, EndComment, AddChar, Step;
    CharacterStored(cfg, p, c, k);
    TableFits(p.state, k);
    if Transition(p.state, k).CommentBegin? {
      KeptByBeginComment(cfg, p, AddChar(p, c, k).next);
    } else {
      KeptByEndComment(cfg, p);
    }
  }

  lemma StepKeptByString(cfg: Config, p: Parser, c: nat, k: Class)
    requires Inv(cfg, p) && ClassOf(c) == Some(k)
    requires IsTextEntry(Transition(p.state, k))
    requires !Transition(p.state, k).CommentBegin? && !Transition(p.state, k).CommentEnd?
    ensures StepKept(cfg, p, c)
  {
    hide Inv, Transition, ClassOf, HexOf, EndString, ReadUnicode, BeginToken, AddChar, Step;
    CharacterStored(cfg, p, c, k);
    TableFits(p.state, k);
    var q := AddChar(p, c, k).next;
    match Transition(p.state, k)
    case UnicodeRead => HexClass(c); KeptByUnicode(cfg, p, q);
    case Escape => KeptByBeginEscape(cfg, p, q);
    case StringEnd => KeptByEndString(cfg, p, q);
    case StringBegin => KeptByBeginString(cfg, p, q);
  }

  lemma StepKeptByBracket(cfg: Config, p: Parser, c: nat, k: Class)
    requires Inv(cfg, p) && ClassOf(c) == Some(k)
    requires IsBracketEntry(Transition(p.state, k))
    ensures StepKept(cfg, p, c)
  {
    hide Inv, Transition, ClassOf, Close, NextMember, Open, AfterKey, CloseEmptyObject, AddChar, Step;
    CharacterStored(cfg, p, c, k);
    TableFits(p.state, k);
    var q := AddChar(p, c, k).next;
    match Transition(p.state, k)
    case EmptyObjectEnd => KeptByEmptyObject(cfg, p, q);
    case ObjectEnd => KeptByClose(cfg, p, q, EndObject, ObjectMode);
    case ArrayEnd => KeptByClose(cfg, p, q, EndArray, ArrayMode);
    case Comma => KeptByComma(cfg, p, q);
    case Colon => KeptByColon(cfg, p, q);
    case ObjectBegin => KeptByOpen(cfg, p, q, BeginObject, false);
    case ArrayBegin => KeptByOpen(cfg, p, q, BeginArray, true);
  }

  lemma StepKeptByScalar(cfg: Config, p: Parser, c: nat, k: Class)
    requires Inv(cfg, p) && ClassOf(c) == Some(k)
    requires IsScalarEntry(Transition(p.state, k))
    ensures StepKept(cfg, p, c)
  {
    hide Inv, Transition, ClassOf, BeginFloat, AddChar, Step, PlaceOf, MoveFits, TextMoveFits, IsWhite, IsHexClass;
    PlacesAre();
    CharacterStored(cfg, p, c, k);
    TableFits(p.state, k);
    var q := AddChar(p, c, k).next;
    match Transition(p.state, k)
    case FloatByExponent => KeptByBeginFloat(cfg, p, q, false);
    case FloatByPoint => PointClass(c); KeptByBeginFloat(cfg, p, q, true);
    case NullBegin => KeptByBeginToken(cfg, p, q, NullToken, N1);
    case TrueBegin => KeptByBeginToken(cfg, p, q, TrueToken, T1);
    case FalseBegin => KeptByBeginToken(cfg, p, q, FalseToken, F1);
    case IntegerByMinus => KeptByBeginToken(cfg, p, q, IntegerToken, MI);
    case IntegerByZero => KeptByBeginToken(cfg, p, q, IntegerToken, ZE);
    case IntegerByDigit => KeptByBeginToken(cfg, p, q, IntegerToken, IT);
  }

  /** Every assertion of the source holds at every step from a state of the invariant, but
      for the one that meets `true`, `false` or `null` when a callback is set. */
  lemma StepKeepsInv(cfg: Config, p: Parser, c: int)
    requires Inv(cfg, p)
    ensures Step(cfg, p, c).Go? ==> Inv(cfg, Step(cfg, p, c).next)
    ensures Step(cfg, p, c).Aborted? <==> LiteralDue(cfg, p, c)
  {
    hide Transition, ClassOf;
    if c >= 0 && ClassOf(c).Some? {
      hide Inv, Step, LiteralDue;
      var k := ClassOf(c).value;
      match Transition(p.state, k)
      case Error => StepKeptByError(cfg, p, c, k);
      case To(_) => StepKeptByMove(cfg, p, c, k);
      case UnicodeRead => StepKeptByText(cfg, p, c, k);
      case Escape => StepKeptByText(cfg, p, c, k);
      case StringEnd => StepKeptByText(cfg, p, c, k);
      case StringBegin => StepKeptByText(cfg, p, c, k);
      case CommentBegin => StepKeptByText(cfg, p, c, k);
      case CommentEnd => StepKeptByText(cfg, p, c, k);
      case EmptyObjectEnd => StepKeptByBracket(cfg, p, c, k);
      case ObjectEnd => StepKeptByBracket(cfg, p, c, k);
      case ArrayEnd => StepKeptByBracket(cfg, p, c, k);
      case Comma => StepKeptByBracket(cfg, p, c, k);
      case Colon => StepKeptByBracket(cfg, p, c, k);
      case ObjectBegin => StepKeptByBracket(cfg, p, c, k);
      case ArrayBegin => StepKeptByBracket(cfg, p, c, k);
      case NullBegin => StepKeptByScalar(cfg, p, c, k);
      case TrueBegin => StepKeptByScalar(cfg, p, c, k);
      case FalseBegin => StepKeptByScalar(cfg, p, c, k);
      case IntegerByMinus => StepKeptByScalar(cfg, p, c, k);
      case IntegerByZero => StepKeptByScalar(cfg, p, c, k);
      case IntegerByDigit => StepKeptByScalar(cfg, p, c, k);
      case FloatByExponent => StepKeptByScalar(cfg, p, c, k);
      case FloatByPoint => StepKeptByScalar(cfg, p, c, k);
    }
  }

  lemma PointClass(c: nat)
    requires ClassOf(c) == Some(POINT)
    ensures c == '.' as int
  {
  }

  /** Every state reached by any text satisfies the invariant. */
  lemma {:induction false} RunKeepsInv(cfg: Config, p: Parser, s: seq<int>)
    requires Inv(cfg, p)
    ensures Run(cfg, p, s).Go? ==> Inv(cfg, Run(cfg, p, s).next)
    decreases |s|
  {
    hide Step, Inv;
    if s != [] {
      StepKeepsInv(cfg, p, s[0]);
      match Step(cfg, p, s[0])
      case Go(q) => RunKeepsInv(cfg, q, s[1..]);
      case _ =>
    }
  }

  /** Without a callback no text ever meets a failing assertion. */
  lemma {:induction false} NeverAbortsUnheard(cfg: Config, p: Parser, s: seq<int>)
    requires Inv(cfg, p) && !cfg.listening
    ensures !Run(cfg, p, s).Aborted?
    decreases |s|
  {
    hide Step, Inv;
    if s != [] {
      StepKeepsInv(cfg, p, s[0]);
      match Step(cfg, p, s[0])
      case Go(q) => NeverAbortsUnheard(cfg, q, s[1..]);
      case _ =>
    }
  }
}
