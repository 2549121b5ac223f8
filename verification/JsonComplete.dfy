/** Every text of the grammar is accepted, and the callback hears exactly its events. */
module JsonComplete {
  import opened Wrappers
  import opened JsonTables
  import opened JsonSpec
  import opened JsonGrammar
  import opened JsonSteps
  import opened JsonNumbers

  function Told(cfg: Config, events: seq<Event>): seq<Event> {
    if cfg.listening then events else []
  }

  function Advance(cfg: Config, p: Parser, events: seq<Event>): Parser {
    p.(log := p.log + Told(cfg, events))
  }

  lemma AdvanceTwice(cfg: Config, p: Parser, a: seq<Event>, b: seq<Event>)
    ensures Advance(cfg, Advance(cfg, p, a), b) == Advance(cfg, p, a + b)
  {
    assert p.log + Told(cfg, a) + Told(cfg, b) == p.log + Told(cfg, a + b);
  }

  lemma TellIsAdvance(cfg: Config, p: Parser, e: Event)
    ensures Tell(cfg, p, e) == Advance(cfg, p, [e])
  {
    assert p.log + [] == p.log;
  }

  /** `q` has read a value whose events are `events`, starting from `p`: they have been told,
      or the last of them is still pending in the buffer. */
  predicate Ended(cfg: Config, p: Parser, q: Parser, events: seq<Event>) {
    && q.modes == p.modes && q.beforeComment == p.beforeComment
    && Steady(q) && Ending(q.state)
    && q.token != StringToken && (IsLiteral(q.token) ==> !cfg.listening)
    && (q.token == NoToken ==> q.buf == [] && q.state == OK)
    && q.log + Pending(cfg, q) == p.log + Told(cfg, events)
  }

  /** A character that is stored and then acted on. */
  lemma StepStored(cfg: Config, p: Parser, c: nat, k: Class)
    requires ClassOf(c) == Some(k) && !IsWhite(k) && !p.escaped && !p.comment
    ensures Step(cfg, p, c) == Act(cfg, p.(buf := p.buf + [c % 256]), Transition(p.state, k))
  {
    hide ClassOf, Transition, Act;
  }

  // ----- separators after a value

  lemma StepSeparator(cfg: Config, q: Parser, c: nat, k: Class)
    requires Ending(q.state) && Steady(q) && ClassOf(c) == Some(k)
    ensures var r := q.(buf := q.buf + [c % 256]);
            && (k == RSQRB ==> Step(cfg, q, c) == Close(cfg, r, EndArray, ArrayMode))
            && (k == RCURB ==> Step(cfg, q, c) == Close(cfg, r, EndObject, ObjectMode))
            && (k == COMMA ==> Step(cfg, q, c) == NextMember(cfg, r))
  {
    hide Step, Transition, ClassOf, Close, NextMember;
    if k == RSQRB || k == RCURB || k == COMMA {
      StepStored(cfg, q, c, k);
      EndingTable(q.state, k);
    }
  }

  lemma FlushEnded(cfg: Config, p: Parser, q: Parser, events: seq<Event>, x: int)
    requires Ended(cfg, p, q, events)
    ensures Flush(cfg, q.(buf := q.buf + [x])) ==
            Go(q.(buf := [], log := p.log + Told(cfg, events)))
  {
    hide Flush;
    FlushStored(cfg, q, q.(buf := q.buf + [x]));
  }

  lemma {:induction false} StepComma(cfg: Config, p: Parser, q: Parser, events: seq<Event>)
    requires Slot(p) && Ended(cfg, p, q, events) && Top(p) == ArrayMode
    ensures Step(cfg, q, ',' as int) == Go(Advance(cfg, p, events).(state := VA))
  {
    hide Step, Flush, ClassOf, Pending, Ending;
    MarkClasses();
    StepSeparator(cfg, q, ',' as int, COMMA);
    FlushEnded(cfg, p, q, events, ',' as int);
  }

  function Popped(modes: seq<Mode>): seq<Mode> {
    if modes == [] then [] else modes[..|modes| - 1]
  }

  /** The state after a container has closed. */
  function Closed(cfg: Config, p: Parser, events: seq<Event>): Parser {
    Advance(cfg, p, events).(state := OK, modes := Popped(p.modes))
  }

  lemma {:induction false} StepNextMember(cfg: Config, p: Parser, q: Parser, events: seq<Event>)
    requires Slot(p) && Ended(cfg, p, q, events) && Top(p) == ObjectMode && |p.modes| <= cfg.depth + 1
    ensures Step(cfg, q, ',' as int) ==
            Go(Advance(cfg, p, events).(state := KE, modes := Popped(p.modes) + [KeyMode]))
  {
    hide Step, Flush, ClassOf, Pending, Ending;
    MarkClasses();
    StepSeparator(cfg, q, ',' as int, COMMA);
    FlushEnded(cfg, p, q, events, ',' as int);
  }

  lemma {:induction false} StepEnd(
    cfg: Config, p: Parser, q: Parser, events: seq<Event>, list: bool)
    requires Slot(p) && Ended(cfg, p, q, events)
    requires Top(p) == if list then ArrayMode else ObjectMode
    ensures Step(cfg, q, if list then ']' as int else '}' as int) ==
            Go(Closed(cfg, p, events + [if list then EndArray else EndObject]))
  {
    hide Step, Flush, ClassOf, Pending, CloseFlushed, Closed, Told, Ending;
    BracketClasses();
    var c := if list then ']' as int else '}' as int;
    var k := if list then RSQRB else RCURB;
    StepSeparator(cfg, q, c, k);
    FlushEnded(cfg, p, q, events, c);
    var e := if list then EndArray else EndObject;
    CloseFlushedIs(cfg, p, q, events, list);
  }

  lemma CloseFlushedIs(cfg: Config, p: Parser, q: Parser, events: seq<Event>, list: bool)
    requires p.modes == q.modes != [] && Top(p) == if list then ArrayMode else ObjectMode
    requires q.beforeComment == p.beforeComment && Steady(p) && Steady(q) && p.token == NoToken && p.buf == []
    ensures CloseFlushed(cfg, q.(buf := [], log := p.log + Told(cfg, events)), if list then EndArray else EndObject,
                         if list then ArrayMode else ObjectMode)
         == Go(Closed(cfg, p, events + [if list then EndArray else EndObject]))
  {
    var e := if list then EndArray else EndObject;
    TellIsAdvance(cfg, q.(buf := [], log := p.log + Told(cfg, events)), e);
    AdvanceTwice(cfg, p, events, [e]);
  }

  lemma {:induction false} StepEndEmptyArray(cfg: Config, p: Parser)
    requires Slot(p) && p.state == AR && Top(p) == ArrayMode
    ensures Step(cfg, p, ']' as int) == Go(Closed(cfg, p, [EndArray]))
  {
    hide Step, Flush, Transition, ClassOf, CloseFlushed, Closed, NextMember, Open;
    BracketClasses();
    ClosingRows();
    StepStored(cfg, p, ']' as int, RSQRB);
    FlushStored(cfg, p, p.(buf := p.buf + [']' as int]));
    assert p.log + Told(cfg, []) == p.log && [] + [EndArray] == [EndArray];
    CloseFlushedIs(cfg, p, p, [], true);
  }

  /** A place for a key: nothing pending, KeyMode on top. */
  predicate KeySlot(p: Parser) {
    && (p.state == OB || p.state == KE)
    && Steady(p) && p.token == NoToken && p.buf == [] && p.modes != [] && Top(p) == KeyMode
  }

  lemma {:induction false} StepEndEmptyObject(cfg: Config, p: Parser)
    requires KeySlot(p) && p.state == OB
    ensures Step(cfg, p, '}' as int) == Go(Closed(cfg, p, [EndObject]))
  {
    hide Step, Transition, ClassOf;
    BracketClasses();
    ClosingRows();
    StepStored(cfg, p, '}' as int, RCURB);
    TellIsAdvance(cfg, p, EndObject);
  }

  /** Where a container may begin. */
  predicate OpenSlot(p: Parser) {
    && (p.state == VA || p.state == AR || p.state == GO)
    && Steady(p) && p.token == NoToken && p.buf == [] && p.modes != []
  }

  lemma {:induction false} StepOpen(cfg: Config, p: Parser, list: bool)
    requires OpenSlot(p) && |p.modes| <= cfg.depth
    ensures Step(cfg, p, if list then '[' as int else '{' as int) ==
            Go(Advance(cfg, p, [if list then BeginArray else BeginObject])
                 .(state := if list then AR else OB,
                   modes := p.modes + [if list then ArrayMode else KeyMode]))
  {
    hide Step, Transition, ClassOf;
    BracketClasses();
    OpeningRows(p.state);
    var c := if list then '[' as int else '{' as int;
    StepStored(cfg, p, c, if list then LSQRB else LCURB);
    assert (p.buf + [c])[..|p.buf|] == p.buf;
    TellIsAdvance(cfg, p, if list then BeginArray else BeginObject);
  }

  // ----- strings and keys

  lemma {:induction false} StepOpenQuote(cfg: Config, p: Parser)
    requires Slot(p) || KeySlot(p)
    ensures Step(cfg, p, '"' as int) == Go(p.(state := ST, token := StringToken, buf := []))
  {
    hide Step, Transition, ClassOf;
    MarkClasses();
    QuoteRows(p.state);
    StepStored(cfg, p, '"' as int, QUOTE);
  }

  lemma {:induction false} RunQuotedBody(cfg: Config, p: Parser, items: seq<Item>)
    requires (Slot(p) || KeySlot(p)) && WfItems(items)
    ensures Run(cfg, p, ['"' as int] + ItemsText(items)) ==
            Go(p.(state := ST, token := StringToken, buf := ItemsBytes(items)))
  {
    hide Step, WfItem, ItemsText, ItemsBytes;
    var q := p.(state := ST, token := StringToken, buf := []);
    StepOpenQuote(cfg, p);
    RunCons(cfg, p, '"' as int, ItemsText(items));
    RunItems(cfg, q, items);
    assert q.buf + ItemsBytes(items) == ItemsBytes(items);
  }

  lemma {:induction false} StepEndText(cfg: Config, p: Parser, bytes: seq<int>)
    requires Slot(p)
    ensures Step(cfg, p.(state := ST, token := StringToken, buf := bytes), '"' as int) ==
            Go(Advance(cfg, p, [StringValue(bytes)]).(state := OK))
  {
    hide Step, Transition, ClassOf, EndText;
    MarkClasses();
    QuoteRows(ST);
    var q := p.(state := ST, token := StringToken, buf := bytes);
    StepStored(cfg, q, '"' as int, QUOTE);
    assert PopBack(q.(buf := q.buf + ['"' as int])) == Go(q) by { assert (q.buf + ['"' as int])[..|q.buf|] == bytes; }
    EndTextIs(cfg, p, bytes);
  }

  lemma EndTextIs(cfg: Config, p: Parser, bytes: seq<int>)
    requires Slot(p)
    ensures EndText(cfg, p.(state := ST, token := StringToken, buf := bytes)) ==
            Go(Advance(cfg, p, [StringValue(bytes)]).(state := OK))
  {
    TellIsAdvance(cfg, p.(state := ST, token := StringToken, buf := bytes), StringValue(bytes));
  }

  lemma {:induction false} StepEndKey(cfg: Config, p: Parser, bytes: seq<int>)
    requires KeySlot(p)
    ensures Step(cfg, p.(state := ST, token := StringToken, buf := bytes), '"' as int) ==
            Go(Advance(cfg, p, [KeyName(bytes)]).(state := CO))
  {
    hide Step, Transition, ClassOf;
    MarkClasses();
    QuoteRows(ST);
    var q := p.(state := ST, token := StringToken, buf := bytes);
    StepStored(cfg, q, '"' as int, QUOTE);
    assert (q.buf + ['"' as int])[..|q.buf|] == bytes;
    TellIsAdvance(cfg, q, KeyName(bytes));
  }

  lemma {:induction false} RunText(cfg: Config, p: Parser, items: seq<Item>)
    requires Slot(p) && WfItems(items)
    ensures Run(cfg, p, QuotedText(items)) ==
            Go(Advance(cfg, p, [StringValue(ItemsBytes(items))]).(state := OK))
  {
    hide Step, WfItem, ItemsText, ItemsBytes, Run;
    RunConcat(cfg, p, ['"' as int] + ItemsText(items), ['"' as int]);
    RunQuotedBody(cfg, p, items);
    StepEndText(cfg, p, ItemsBytes(items));
    RunOne(cfg, p.(state := ST, token := StringToken, buf := ItemsBytes(items)), '"' as int);
  }

  lemma {:induction false} StepColon(cfg: Config, p: Parser)
    requires KeySlot(p) && |p.modes| <= cfg.depth + 1
    ensures Step(cfg, p.(state := CO), ':' as int) ==
            Go(p.(state := VA, modes := Popped(p.modes) + [ObjectMode]))
  {
    hide Step, Transition, ClassOf;
    MarkClasses();
    ClosingRows();
    StepStored(cfg, p.(state := CO), ':' as int, COLON);
    assert (p.buf + [':' as int])[..|p.buf|] == p.buf;
  }

  /** A name, its colon and the blanks around it lead to a place for the member's value. */
  lemma {:induction false} RunName(cfg: Config, p: Parser, x: Name)
    requires KeySlot(p) && |p.modes| <= cfg.depth + 1 && WfName(x)
    ensures Run(cfg, p, NameText(x)) ==
            Go(Advance(cfg, p, [KeyName(ItemsBytes(x.items))])
                 .(state := VA, modes := Popped(p.modes) + [ObjectMode]))
  {
    hide Step, WfItem, ItemsText, ItemsBytes, Run, Advance, IsBlank;
    var body, colon := ['"' as int] + ItemsText(x.items), [':' as int];
    var p1 := p.(state := ST, token := StringToken, buf := ItemsBytes(x.items));
    var p2 := Advance(cfg, p, [KeyName(ItemsBytes(x.items))]);
    RunConcat(cfg, p, x.before, QuotedText(x.items) + (x.after + colon));
    RunBlankIdle(cfg, p, x.before);
    RunConcat(cfg, p, QuotedText(x.items), x.after + colon);
    RunConcat(cfg, p, body, ['"' as int]);
    RunQuotedBody(cfg, p, x.items);
    StepEndKey(cfg, p, ItemsBytes(x.items));
    RunOne(cfg, p1, '"' as int);
    AdvanceKeeps(cfg, p, [KeyName(ItemsBytes(x.items))]);
    RunConcat(cfg, p2.(state := CO), x.after, colon);
    RunBlankIdle(cfg, p2.(state := CO), x.after);
    StepColon(cfg, p2);
    RunOne(cfg, p2.(state := CO), ':' as int);
  }

  lemma AdvanceKeeps(cfg: Config, p: Parser, events: seq<Event>)
    ensures KeySlot(p) ==> KeySlot(Advance(cfg, p, events))
    ensures Slot(p) ==> Slot(Advance(cfg, p, events))
    ensures Advance(cfg, p, events).(log := p.log) == p
  {
  }

  // ----- literals, which only a parser without a callback reads to their end

  function WordToken(w: Word): Token {
    match w
    case TrueWord => TrueToken
    case FalseWord => FalseToken
    case NullWord => NullToken
  }

  /** The control states after each letter of a word. */
  function WordStates(w: Word): seq<State> {
    match w
    case TrueWord => [T1, T2, T3, OK]
    case FalseWord => [F1, F2, F3, F4, OK]
    case NullWord => [N1, N2, N3, OK]
  }

  lemma StepLetter(cfg: Config, p: Parser, w: Word, i: nat)
    requires 1 <= i < |WordText(w)|
    requires p.state == WordStates(w)[i - 1] && Steady(p) && p.token == WordToken(w)
    ensures Step(cfg, p, WordText(w)[i]) ==
            Go(p.(state := WordStates(w)[i], buf := p.buf + [WordText(w)[i]]))
  {
    hide Step;
    LetterClass(w, i);
    StepTo(cfg, p, WordText(w)[i], ClassOf(WordText(w)[i]).value, WordStates(w)[i]);
  }

  predicate LetterFits(w: Word, i: nat)
    requires 1 <= i < |WordText(w)|
  {
    && WordText(w)[i] % 256 == WordText(w)[i] >= 0 && ClassOf(WordText(w)[i]).Some?
    && Transition(WordStates(w)[i - 1], ClassOf(WordText(w)[i]).value) == To(WordStates(w)[i])
  }

  lemma TrueLetters(i: nat)
    requires 1 <= i < |WordText(TrueWord)|
    ensures LetterFits(TrueWord, i)
  {
  }

  lemma FalseLetters(i: nat)
    requires 1 <= i < |WordText(FalseWord)|
    ensures LetterFits(FalseWord, i)
  {
  }

  lemma NullLetters(i: nat)
    requires 1 <= i < |WordText(NullWord)|
    ensures LetterFits(NullWord, i)
  {
  }

  lemma LetterClass(w: Word, i: nat)
    requires 1 <= i < |WordText(w)|
    ensures LetterFits(w, i)
  {
    hide LetterFits, WordText;
    match w
    case TrueWord => TrueLetters(i);
    case FalseWord => FalseLetters(i);
    case NullWord => NullLetters(i);
  }

  lemma FirstLetters()
    ensures ClassOf('t' as int) == Some(LOW_T) && ClassOf('f' as int) == Some(LOW_F) && ClassOf('n' as int) == Some(LOW_N)
  {
  }

  lemma WordRows(s: State)
    requires s == VA || s == AR
    ensures Transition(s, LOW_T) == TrueBegin && Transition(s, LOW_F) == FalseBegin && Transition(s, LOW_N) == NullBegin
  {
    hide AfterValue, FractionRow, IsHexClass, IsSimpleEscape;
  }

  lemma StepFirstLetter(cfg: Config, p: Parser, w: Word)
    requires Slot(p)
    ensures Step(cfg, p, WordText(w)[0]) ==
            Go(p.(state := WordStates(w)[0], token := WordToken(w), buf := [WordText(w)[0]]))
  {
    hide Step, ClassOf, Transition, Close, NextMember, Open, AfterKey, CloseEmptyObject, EndString, BeginComment,
      EndComment, ReadUnicode, BeginFloat, BeginInteger;
    FirstLetters();
    WordRows(p.state);
    match w
    case TrueWord => StepStored(cfg, p, 't' as int, LOW_T);
    case FalseWord => StepStored(cfg, p, 'f' as int, LOW_F);
    case NullWord => StepStored(cfg, p, 'n' as int, LOW_N);
  }

  lemma WordShape(w: Word)
    ensures 2 <= |WordText(w)| == |WordStates(w)| && WordStates(w)[|WordText(w)| - 1] == OK
  {
  }

  lemma {:induction false} RunLetters(cfg: Config, p: Parser, w: Word, i: nat)
    requires 1 <= i <= |WordText(w)|
    requires p.state == WordStates(w)[i - 1] && Steady(p) && p.token == WordToken(w)
    ensures Run(cfg, p, WordText(w)[i..]) == Go(p.(state := OK, buf := p.buf + WordText(w)[i..]))
    decreases |WordText(w)| - i
  {
    hide Step, WordText, WordStates;
    WordShape(w);
    var rest := WordText(w)[i..];
    if rest == [] {
      assert p.buf + rest == p.buf;
    } else {
      var q := p.(state := WordStates(w)[i], buf := p.buf + [WordText(w)[i]]);
      StepLetter(cfg, p, w, i);
      RunLetters(cfg, q, w, i + 1);
      assert rest == [WordText(w)[i]] + WordText(w)[i + 1..];
      RunCons(cfg, p, WordText(w)[i], WordText(w)[i + 1..]);
      assert q.buf + WordText(w)[i + 1..] == p.buf + rest;
    }
  }

  lemma {:induction false} RunWord(cfg: Config, p: Parser, w: Word)
    requires Slot(p)
    ensures Run(cfg, p, WordText(w)) == Go(p.(state := OK, token := WordToken(w), buf := WordText(w)))
  {
    hide Step;
    var q := p.(state := WordStates(w)[0], token := WordToken(w), buf := [WordText(w)[0]]);
    StepFirstLetter(cfg, p, w);
    RunCons(cfg, p, WordText(w)[0], WordText(w)[1..]);
    RunLetters(cfg, q, w, 1);
    assert WordText(w) == [WordText(w)[0]] + WordText(w)[1..];
  }

  // ----- values

  /** The locale's decimal point is no blank; without a callback nothing depends on it. */
  predicate ConfigOk(cfg: Config) { cfg.listening ==> !IsBlankCode(cfg.decimalPoint) }

  predicate Speakable(cfg: Config, v: Value) { cfg.listening ==> LiteralFree(v) }

  /** Blanks after a value keep its report: told already, or pending with those blanks. */
  lemma {:induction false} RunBlankAfter(
    cfg: Config, p: Parser, q: Parser, events: seq<Event>, blank: seq<int>)
    requires IsBlank(blank) && q.modes == p.modes && q.beforeComment == p.beforeComment
    requires Steady(q) && Ending(q.state) && q.token != StringToken
    requires q.token == NoToken ==> q.buf == [] && q.state == OK
    requires IsLiteral(q.token) ==> !cfg.listening
    requires q.log + Pending(cfg, q.(buf := q.buf + blank)) == p.log + Told(cfg, events)
    ensures Run(cfg, q, blank).Go? && Ended(cfg, p, Run(cfg, q, blank).next, events)
    ensures Run(cfg, q, blank).next.state == if blank == [] then q.state else OK
  {
    hide Step, Run, IsBlank;
    if q.token == NoToken {
      RunBlankIdle(cfg, q, blank);
    } else {
      RunBlankPending(cfg, q, blank);
    }
  }

  /** After reading a value and blanks, the value's events are told or pending; only a number
      without a blank after it could still be carried on. */
  ghost predicate Reads(cfg: Config, p: Parser, v: Value, blank: seq<int>) {
    var o := Run(cfg, p, ValueText(v) + blank);
    && o.Go? && Ended(cfg, p, o.next, Events(cfg, v, blank))
    && o.next.state == if v.Num? && blank == [] then NumberEnd(v.number) else OK
  }

  lemma {:induction false} ReadsText(cfg: Config, p: Parser, items: seq<Item>, blank: seq<int>)
    requires Slot(p) && WfItems(items) && IsBlank(blank)
    ensures Reads(cfg, p, Text(items), blank)
  {
    hide Step, Run, WfItem, ItemsText, ItemsBytes, IsBlank, Ended;
    var events := [StringValue(ItemsBytes(items))];
    var q := Advance(cfg, p, events).(state := OK);
    RunConcat(cfg, p, QuotedText(items), blank);
    RunText(cfg, p, items);
    assert q.log + [] == q.log;
    RunBlankAfter(cfg, p, q, events, blank);
  }

  lemma {:induction false} ReadsNumber(cfg: Config, p: Parser, n: Number, blank: seq<int>)
    requires Slot(p) && ConfigOk(cfg) && WfNumber(n) && IsBlank(blank)
    ensures Reads(cfg, p, Num(n), blank)
  {
    hide Step, Run, NumberText, IsBlank, Ended, WfNumber, PointCode, NumberEnd;
    var events := [NumberEvent(cfg, n, blank)];
    var q := p.(state := NumberEnd(n), token := NumberToken(n), buf := NumberText(n, PointCode(cfg)));
    RunConcat(cfg, p, NumberText(n, POINT_CODE), blank);
    RunNumber(cfg, p, n);
    if cfg.listening { NumberReported(cfg, n, blank); }
    RunBlankAfter(cfg, p, q, events, blank);
  }

  lemma {:induction false} ReadsLiteral(cfg: Config, p: Parser, w: Word, blank: seq<int>)
    requires Slot(p) && !cfg.listening && IsBlank(blank)
    ensures Reads(cfg, p, Literal(w), blank)
  {
    hide Step, Run, WordText, IsBlank, Ended;
    RunConcat(cfg, p, WordText(w), blank);
    RunWord(cfg, p, w);
    RunBlankAfter(cfg, p, p.(state := OK, token := WordToken(w), buf := WordText(w)), [], blank);
  }

  /** Running a container's text closes it with its events told. */
  ghost predicate Closes(cfg: Config, p: Parser, text: seq<int>, events: seq<Event>) {
    Run(cfg, p, text) == Go(Advance(cfg, p, events).(state := OK))
  }

  lemma {:induction false} ClosedReads(cfg: Config, p: Parser, v: Value, blank: seq<int>)
    requires Slot(p) && IsBlank(blank) && !v.Num? && Closes(cfg, p, ValueText(v), Events(cfg, v, blank))
    ensures Reads(cfg, p, v, blank)
  {
    hide Step, Run, ValueText, IsBlank, Ended, Events;
    var q := Advance(cfg, p, Events(cfg, v, blank)).(state := OK);
    RunConcat(cfg, p, ValueText(v), blank);
    assert q.log + [] == q.log;
    RunBlankAfter(cfg, p, q, Events(cfg, v, blank), blank);
  }

  lemma {:induction false} ClosesEmptyArray(cfg: Config, p: Parser, blank: seq<int>)
    requires OpenSlot(p) && |p.modes| <= cfg.depth && IsBlank(blank)
    ensures Closes(cfg, p, ValueText(EmptyArray(blank)), [BeginArray, EndArray])
  {
    hide Step, Run, IsBlank;
    var q := Advance(cfg, p, [BeginArray]).(state := AR, modes := p.modes + [ArrayMode]);
    StepOpen(cfg, p, true);
    RunCons(cfg, p, '[' as int, blank + [']' as int]);
    RunConcat(cfg, q, blank, [']' as int]);
    RunBlankIdle(cfg, q, blank);
    StepEndEmptyArray(cfg, q);
    RunOne(cfg, q, ']' as int);
    AdvanceTwice(cfg, p, [BeginArray], [EndArray]);
    assert Popped(q.modes) == p.modes;
  }

  lemma {:induction false} ClosesEmptyObject(cfg: Config, p: Parser, blank: seq<int>)
    requires OpenSlot(p) && |p.modes| <= cfg.depth && IsBlank(blank)
    ensures Closes(cfg, p, ValueText(EmptyObject(blank)), [BeginObject, EndObject])
  {
    hide Step, Run, IsBlank;
    var q := Advance(cfg, p, [BeginObject]).(state := OB, modes := p.modes + [KeyMode]);
    StepOpen(cfg, p, false);
    RunCons(cfg, p, '{' as int, blank + ['}' as int]);
    RunConcat(cfg, q, blank, ['}' as int]);
    RunBlankIdle(cfg, q, blank);
    StepEndEmptyObject(cfg, q);
    RunOne(cfg, q, '}' as int);
    AdvanceTwice(cfg, p, [BeginObject], [EndObject]);
    assert Popped(q.modes) == p.modes;
  }

  lemma {:induction false} ClosesArray(cfg: Config, p: Parser, es: Elements)
    requires OpenSlot(p) && |p.modes| <= cfg.depth
    requires var q := Advance(cfg, p, [BeginArray]).(state := AR, modes := p.modes + [ArrayMode]);
             Run(cfg, q, ElementsText(es)) == Go(Closed(cfg, q, ElementsEvents(cfg, es)))
    ensures Closes(cfg, p, ['[' as int] + ElementsText(es), [BeginArray] + ElementsEvents(cfg, es))
  {
    hide Step, Run, ElementsText, ElementsEvents;
    var q := Advance(cfg, p, [BeginArray]).(state := AR, modes := p.modes + [ArrayMode]);
    StepOpen(cfg, p, true);
    RunCons(cfg, p, '[' as int, ElementsText(es));
    AdvanceTwice(cfg, p, [BeginArray], ElementsEvents(cfg, es));
    assert Popped(q.modes) == p.modes;
  }

  lemma {:induction false} ClosesObject(cfg: Config, p: Parser, ms: Members)
    requires OpenSlot(p) && |p.modes| <= cfg.depth
    requires var q := Advance(cfg, p, [BeginObject]).(state := OB, modes := p.modes + [KeyMode]);
             Run(cfg, q, MembersText(ms)) == Go(Closed(cfg, q, MembersEvents(cfg, ms)))
    ensures Closes(cfg, p, ['{' as int] + MembersText(ms), [BeginObject] + MembersEvents(cfg, ms))
  {
    hide Step, Run, MembersText, MembersEvents;
    var q := Advance(cfg, p, [BeginObject]).(state := OB, modes := p.modes + [KeyMode]);
    StepOpen(cfg, p, false);
    RunCons(cfg, p, '{' as int, MembersText(ms));
    AdvanceTwice(cfg, p, [BeginObject], MembersEvents(cfg, ms));
    assert Popped(q.modes) == p.modes;
  }

  /** A container's text is read from any place where a container may begin. */
  lemma {:induction false} RunContainer(cfg: Config, p: Parser, v: Value, blank: seq<int>)
    requires ConfigOk(cfg) && OpenSlot(p) && IsContainer(v) && WfValue(v) && Speakable(cfg, v)
    requires |p.modes| + Height(v) <= cfg.depth + 1
    ensures Closes(cfg, p, ValueText(v), Events(cfg, v, blank))
    decreases v, 0
  {
    hide Step, Run, Closes, OpenSlot, IsBlank, Closed;
    match v
    case EmptyArray(b) => ClosesEmptyArray(cfg, p, b);
    case EmptyObject(b) => ClosesEmptyObject(cfg, p, b);
    case Array(es) =>
      OpenedSlot(cfg, p, true);
      RunElements(cfg, Advance(cfg, p, [BeginArray]).(state := AR, modes := p.modes + [ArrayMode]), es);
      ClosesArray(cfg, p, es);
    case Object(ms) =>
      OpenedSlot(cfg, p, false);
      RunMembers(cfg, Advance(cfg, p, [BeginObject]).(state := OB, modes := p.modes + [KeyMode]), ms);
      ClosesObject(cfg, p, ms);
    case _ =>
  }

  lemma OpenedSlot(cfg: Config, p: Parser, list: bool)
    requires OpenSlot(p)
    ensures list ==> Slot(Advance(cfg, p, [BeginArray]).(state := AR, modes := p.modes + [ArrayMode]))
    ensures !list ==> KeySlot(Advance(cfg, p, [BeginObject]).(state := OB, modes := p.modes + [KeyMode]))
  {
  }

  /** A value and the blanks after it are read from any place for a value. */
  lemma {:induction false} RunValue(cfg: Config, p: Parser, v: Value, blank: seq<int>)
    requires ConfigOk(cfg) && Slot(p) && p.modes != [] && WfValue(v) && IsBlank(blank) && Speakable(cfg, v)
    requires |p.modes| + Height(v) <= cfg.depth + 1
    ensures Reads(cfg, p, v, blank)
    decreases v, 1
  {
    hide Step, Run, Reads, Closes, IsBlank, WfNumber, WfItems;
    match v
    case Text(items) => ReadsText(cfg, p, items, blank);
    case Num(n) => ReadsNumber(cfg, p, n, blank);
    case Literal(w) => ReadsLiteral(cfg, p, w, blank);
    case _ =>
      RunContainer(cfg, p, v, blank);
      ClosedReads(cfg, p, v, blank);
  }

  lemma {:induction false} RunElements(cfg: Config, p: Parser, es: Elements)
    requires ConfigOk(cfg) && Slot(p) && p.modes != [] && Top(p) == ArrayMode && WfElements(es)
    requires cfg.listening ==> ElementsLiteralFree(es)
    requires |p.modes| + ElementsHeight(es) <= cfg.depth + 1
    ensures Run(cfg, p, ElementsText(es)) == Go(Closed(cfg, p, ElementsEvents(cfg, es)))
    decreases es, 0
  {
    hide Step, Run, IsBlank, Ended, Events, ValueText, WfValue, Height, LiteralFree;
    var body := es.before + (ValueText(es.value) + es.after);
    var events := Events(cfg, es.value, es.after);
    RunConcat(cfg, p, es.before, ValueText(es.value) + es.after);
    RunBlankIdle(cfg, p, es.before);
    RunValue(cfg, p, es.value, es.after);
    var q := Run(cfg, p, ValueText(es.value) + es.after).next;
    match es
    case LastElement(_, _, _) =>
      RunConcat(cfg, p, body, [']' as int]);
      StepEnd(cfg, p, q, events, true);
      RunOne(cfg, q, ']' as int);
    case MoreElements(_, _, _, rest) =>
      RunConcat(cfg, p, body + [',' as int], ElementsText(rest));
      RunConcat(cfg, p, body, [',' as int]);
      StepComma(cfg, p, q, events);
      RunOne(cfg, q, ',' as int);
      RunElements(cfg, Advance(cfg, p, events).(state := VA), rest);
      AdvanceTwice(cfg, p, events, ElementsEvents(cfg, rest));
  }

  lemma {:induction false} RunMembers(cfg: Config, p: Parser, ms: Members)
    requires ConfigOk(cfg) && KeySlot(p) && WfMembers(ms)
    requires cfg.listening ==> MembersLiteralFree(ms)
    requires |p.modes| + MembersHeight(ms) <= cfg.depth + 1
    ensures Run(cfg, p, MembersText(ms)) == Go(Closed(cfg, p, MembersEvents(cfg, ms)))
    decreases ms, 0
  {
    hide Step, Run, IsBlank, Ended, Events, ValueText, WfValue, Height, LiteralFree, WfName, NameText, ItemsBytes;
    var key := [KeyName(ItemsBytes(ms.name.items))];
    var events := Events(cfg, ms.value, ms.after);
    var p1 := Advance(cfg, p, key).(state := VA, modes := Popped(p.modes) + [ObjectMode]);
    var value := ms.before + (ValueText(ms.value) + ms.after);
    RunConcat(cfg, p, NameText(ms.name), value);
    RunName(cfg, p, ms.name);
    RunConcat(cfg, p1, ms.before, ValueText(ms.value) + ms.after);
    RunBlankIdle(cfg, p1, ms.before);
    RunValue(cfg, p1, ms.value, ms.after);
    var q := Run(cfg, p1, ValueText(ms.value) + ms.after).next;
    AdvanceTwice(cfg, p, key, events);
    match ms
    case LastMember(_, _, _, _) =>
      RunConcat(cfg, p, NameText(ms.name) + value, ['}' as int]);
      StepEnd(cfg, p1, q, events, false);
      RunOne(cfg, q, '}' as int);
      AdvanceTwice(cfg, p, key, events + [EndObject]);
      assert key + events + [EndObject] == key + (events + [EndObject]);
    case MoreMembers(_, _, _, _, rest) =>
      RunConcat(cfg, p, NameText(ms.name) + value + [',' as int], MembersText(rest));
      RunConcat(cfg, p, NameText(ms.name) + value, [',' as int]);
      StepNextMember(cfg, p1, q, events);
      RunOne(cfg, q, ',' as int);
      RunMembers(cfg, Advance(cfg, p1, events).(state := KE, modes := Popped(p.modes) + [KeyMode]), rest);
      AdvanceTwice(cfg, p, key + events, MembersEvents(cfg, rest));
  }

  // ----- texts

  /** A well-formed text within the depth is accepted, and the callback hears its events. */
  lemma {:induction false} RunDoc(cfg: Config, d: Doc)
    requires ConfigOk(cfg) && WfDoc(d) && DocHeight(d) <= cfg.depth
    requires cfg.listening ==> DocLiteralFree(d)
    ensures Accepted(cfg, Initial, DocText(d))
    ensures Run(cfg, Initial, DocText(d)).next.log == Told(cfg, DocEvents(cfg, d))
  {
    hide Step, Run, IsBlank, WfValue, ValueText, Events, Height, LiteralFree;
    match d
    case BlankDoc(b) => RunBlankIdle(cfg, Initial, b);
    case RootedDoc(b, v, a) =>
      RunBlankIdle(cfg, Initial, b);
      RunConcat(cfg, Initial, b, ValueText(v));
      RunContainer(cfg, Initial, v, a);
      RunConcat(cfg, Initial, b + ValueText(v), a);
      RunBlankIdle(cfg, Advance(cfg, Initial, Events(cfg, v, a)).(state := OK), a);
  }
}
