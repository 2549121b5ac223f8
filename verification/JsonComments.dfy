/** A comment between tokens is as good as a blank: a simulation between the run over the
    comment, which reports a pending token at once, and the run over a space, which keeps it
    pending. */
module JsonComments {
  import opened Wrappers
  import opened JsonTables
  import opened JsonSpec
  import opened JsonInvariant
  import opened JsonGrammar
  import opened JsonSteps
  import opened JsonNumbers
  import opened JsonComplete
  import opened JsonHeard

  const SPACE_CODE := 32
  const STAR_CODE := '*' as int
  const SLASH_CODE := '/' as int

  predicate IsCode(c: int) { c >= 0 && ClassOf(c).Some? }

  /** A comment: its body has no control characters that the class table refuses, and its
      closing mark occurs only at the end. */
  predicate IsBody(s: seq<int>) {
    && (forall i :: 0 <= i < |s| ==> IsCode(s[i]))
    && (forall i :: 0 <= i < |s| - 1 ==> !(s[i] == STAR_CODE && s[i + 1] == SLASH_CODE))
  }

  function CommentText(body: seq<int>): seq<int> {
    [SLASH_CODE, STAR_CODE] + (body + [STAR_CODE, SLASH_CODE])
  }

  // ----- the run over a comment

  lemma StepInComment(cfg: Config, p: Parser, c: int)
    requires p.comment && !p.escaped && IsCode(c)
    requires p.state == C1 ==> c == STAR_CODE
    requires p.state == C1 || p.state == C2 || (p.state == C3 && c != SLASH_CODE)
    ensures Step(cfg, p, c) ==
            Go(p.(state := if c == STAR_CODE && p.state != C1 then C3 else C2))
  {
    hide ClassOf;
    CommentClass(c);
  }

  lemma CommentClass(c: int)
    requires IsCode(c)
    ensures ClassOf(c) == Some(STAR) <==> c == STAR_CODE
    ensures ClassOf(c) == Some(SLASH) <==> c == SLASH_CODE
  {
  }

  lemma {:induction false} RunBody(cfg: Config, p: Parser, s: seq<int>)
    requires p.comment && !p.escaped && (p.state == C2 || p.state == C3) && IsBody(s)
    requires p.state == C3 && s != [] ==> s[0] != SLASH_CODE
    ensures Run(cfg, p, s) ==
            Go(p.(state := if s == [] then p.state
                           else if s[|s| - 1] == STAR_CODE then C3 else C2))
    decreases |s|
  {
    hide Step, IsCode;
    if s != [] {
      StepInComment(cfg, p, s[0]);
      var q := p.(state := if s[0] == STAR_CODE then C3 else C2);
      RunBody(cfg, q, s[1..]);
    }
  }

  lemma StepCommentEnd(cfg: Config, p: Parser)
    requires p.comment && !p.escaped && p.state == C3 && p.buf == [] && p.token == NoToken
    ensures Step(cfg, p, SLASH_CODE) == Go(p.(comment := false, state := p.beforeComment))
  {
  }

  lemma StepCommentBegin(cfg: Config, p: Parser)
    requires cfg.comments && Steady(p) && p.token != StringToken
    requires Transition(p.state, SLASH) == CommentBegin
    ensures Step(cfg, p, SLASH_CODE) ==
            if cfg.listening && IsLiteral(p.token) then Aborted(p.log)
            else Go(Resumed(cfg, p).(state := C1, comment := true))
  {
    hide Transition, Flush;
    StepStored(cfg, p, SLASH_CODE, SLASH);
    FlushStored(cfg, p, p.(buf := p.buf + [SLASH_CODE]));
  }

  /** The parser after a comment that began in `p`: the pending token has been told. */
  function Resumed(cfg: Config, p: Parser): Parser {
    p.(state := ResumeState(p), beforeComment := ResumeState(p), token := NoToken, buf := [],
       log := p.log + Pending(cfg, p))
  }

  lemma {:induction false} RunComment(cfg: Config, p: Parser, body: seq<int>)
    requires cfg.comments && Steady(p) && p.token != StringToken && IsBody(body)
    requires Transition(p.state, SLASH) == CommentBegin
    ensures Run(cfg, p, CommentText(body)) ==
            if cfg.listening && IsLiteral(p.token) then Aborted(p.log) else Go(Resumed(cfg, p))
  {
    hide Step, Transition, IsBody, Resumed;
    var tail := body + [STAR_CODE, SLASH_CODE];
    assert CommentText(body) == [SLASH_CODE] + ([STAR_CODE] + tail);
    RunCons(cfg, p, SLASH_CODE, [STAR_CODE] + tail);
    StepCommentBegin(cfg, p);
    if !(cfg.listening && IsLiteral(p.token)) {
      ResumedIdle(cfg, p);
      RunCommentTail(cfg, Resumed(cfg, p).(state := C1, comment := true), body);
    }
  }

  lemma ResumedIdle(cfg: Config, p: Parser)
    ensures var q := Resumed(cfg, p);
            q.token == NoToken && q.buf == [] && q.state == q.beforeComment && q.escaped == p.escaped
            && q.comment == p.comment
  {
  }

  lemma {:induction false} RunCommentTail(cfg: Config, q: Parser, body: seq<int>)
    requires q.state == C1 && q.comment && !q.escaped && q.token == NoToken && q.buf == [] && IsBody(body)
    ensures Run(cfg, q, [STAR_CODE] + (body + [STAR_CODE, SLASH_CODE])) ==
            Go(q.(comment := false, state := q.beforeComment))
  {
    hide Step;
    var r := q.(state := C2);
    RunCons(cfg, q, STAR_CODE, body + [STAR_CODE, SLASH_CODE]);
    StarIsCode();
    StepInComment(cfg, q, STAR_CODE);
    RunConcat(cfg, r, body, [STAR_CODE, SLASH_CODE]);
    RunBody(cfg, r, body);
    var t := Run(cfg, r, body).next;
    assert [STAR_CODE, SLASH_CODE] == [STAR_CODE] + [SLASH_CODE];
    RunCons(cfg, t, STAR_CODE, [SLASH_CODE]);
    StepInComment(cfg, t, STAR_CODE);
    RunOne(cfg, q.(state := C3), SLASH_CODE);
    StepCommentEnd(cfg, q.(state := C3));
  }

  lemma StarIsCode()
    ensures IsCode(STAR_CODE)
  {
  }

  // ----- the simulation

  /** Equal but for a saved state that nobody will look at. */
  predicate Same(q: Parser, r: Parser) {
    q.(beforeComment := r.beforeComment) == r
    && (PlaceOf(q.state).InComment? ==> q.beforeComment == r.beforeComment)
  }

  lemma IntegerOfBlank(s: seq<int>, c: int)
    requires IsBlankCode(c)
    ensures IntegerOf(s + [c]) == IntegerOf(s)
  {
    if s != [] && s[0] == '-' as int {
      assert (s + [c])[1..] == s[1..] + [c];
      DigitsOfBlank(s[1..], c, 0);
    } else {
      DigitsOfBlank(s, c, 0);
    }
  }

  lemma {:induction false} DigitsOfBlank(s: seq<int>, c: int, acc: int)
    requires IsBlankCode(c)
    ensures DigitsValue(s + [c], acc) == DigitsValue(s, acc)
    decreases |s|
  {
    if s != [] && IsDigitCode(s[0]) {
      assert (s + [c])[1..] == s[1..] + [c];
      DigitsOfBlank(s[1..], c, acc * 10 + (s[0] - '0' as int));
    }
  }

  /** Blanks after a token change its report only if it is a float and floats are handled
      manually. */
  lemma {:induction false} EventOfBlanks(cfg: Config, token: Token, buf: seq<int>, blank: seq<int>)
    requires IsBlank(blank) && (token == IntegerToken || (token == FloatToken && !cfg.manualFloats))
    ensures TokenEvent(cfg, token, buf + blank) == TokenEvent(cfg, token, buf)
    decreases |blank|
  {
    if blank == [] {
      assert buf + blank == buf;
    } else {
      var front, c := blank[..|blank| - 1], blank[|blank| - 1];
      EventOfBlanks(cfg, token, buf, front);
      assert buf + blank == (buf + front) + [c];
      IntegerOfBlank(buf + front, c);
      assert (buf + front + [c])[..|buf + front|] == buf + front;
    }
  }

  // ----- steps do not look at the log, nor at the saved state outside comments

  /** Outcomes of one step from `q` and from a parser with log `log` in its place. */
  predicate Parallel(q: Parser, log: seq<Event>, a: Outcome, b: Outcome) {
    && (a.Go? <==> b.Go?) && (a.Aborted? <==> b.Aborted?)
    && q.log <= LogOf(a) && LogOf(b) == log + LogOf(a)[|q.log|..]
    && (a.Go? ==> Same(a.next, b.next.(log := a.next.log)))
  }

  lemma FlushParallel(cfg: Config, q: Parser, r: Parser)
    requires Same(q, r.(log := q.log)) && !PlaceOf(q.state).InComment?
    ensures Parallel(q, r.log, Flush(cfg, q), Flush(cfg, r))
  {
    if q.buf != [] {
      var e := TokenEvent(cfg, q.token, q.buf[..|q.buf| - 1]);
      assert (q.log + [e])[|q.log|..] == [e];
    }
    assert q.log[|q.log|..] == [];
  }

  lemma TellParallel(cfg: Config, q: Parser, r: Parser, e: Event)
    requires Same(q, r.(log := q.log)) && !PlaceOf(q.state).InComment?
    ensures Parallel(q, r.log, Go(Tell(cfg, q, e)), Go(Tell(cfg, r, e)))
  {
    assert (q.log + [e])[|q.log|..] == [e];
    assert q.log[|q.log|..] == [];
  }

  /** Two parallel steps in a row are parallel. */
  lemma ParallelThen(q: Parser, log: seq<Event>, a1: Outcome, b1: Outcome, a2: Outcome, b2: Outcome)
    requires Parallel(q, log, a1, b1) && a1.Go? && Parallel(a1.next, b1.next.log, a2, b2)
    ensures Parallel(q, log, a2, b2)
  {
    var n := |q.log|;
    assert LogOf(a2)[n..] == a1.next.log[n..] + LogOf(a2)[|a1.next.log|..];
  }

  lemma CloseParallel(cfg: Config, q: Parser, r: Parser, e: Event, mode: Mode)
    requires Same(q, r.(log := q.log)) && !PlaceOf(q.state).InComment?
    ensures Parallel(q, r.log, Close(cfg, q, e, mode), Close(cfg, r, e, mode))
  {
    hide Flush, Tell;
    FlushParallel(cfg, q, r);
    FlushControl(cfg, q);
    var a, b := Flush(cfg, q), Flush(cfg, r);
    if a.Go? {
      TellParallel(cfg, a.next, b.next, e);
      TellControl(cfg, a.next, e);
      TellControl(cfg, b.next, e);
      ParallelThen(q, r.log, a, b, Go(Tell(cfg, a.next, e)), Go(Tell(cfg, b.next, e)));
    }
  }

  lemma FlushControl(cfg: Config, q: Parser)
    ensures Flush(cfg, q).Go? ==> Flush(cfg, q).next.state == q.state && Flush(cfg, q).next.modes == q.modes
  {
  }

  lemma TellControl(cfg: Config, q: Parser, e: Event)
    ensures Tell(cfg, q, e) == q.(log := Tell(cfg, q, e).log)
  {
  }

  lemma NextParallel(cfg: Config, q: Parser, r: Parser)
    requires Same(q, r.(log := q.log)) && !PlaceOf(q.state).InComment?
    ensures Parallel(q, r.log, NextMember(cfg, q), NextMember(cfg, r))
  {
    hide Flush, Parallel, NextFlushed, PlaceOf;
    FlushParallel(cfg, q, r);
    FlushControl(cfg, q);
    FlushFails(cfg, q, r);
    var a, b := Flush(cfg, q), Flush(cfg, r);
    if a.Go? {
      NextFlushedParallel(cfg, a.next, b.next);
      ParallelThen(q, r.log, a, b, NextFlushed(cfg, a.next), NextFlushed(cfg, b.next));
    }
  }

  lemma FlushFails(cfg: Config, q: Parser, r: Parser)
    requires Parallel(q, r.log, Flush(cfg, q), Flush(cfg, r))
    ensures Flush(cfg, q).Go? <==> Flush(cfg, r).Go?
    ensures Flush(cfg, q).Go? ==> Same(Flush(cfg, q).next, Flush(cfg, r).next.(log := Flush(cfg, q).next.log))
  {
    hide Flush, Same;
  }

  lemma NextFlushedParallel(cfg: Config, q: Parser, r: Parser)
    requires Same(q, r.(log := q.log)) && !PlaceOf(q.state).InComment?
    ensures Parallel(q, r.log, NextFlushed(cfg, q), NextFlushed(cfg, r))
  {
    assert q.log[|q.log|..] == [];
  }

  lemma BeginParallel(cfg: Config, q: Parser, r: Parser)
    requires Same(q, r.(log := q.log)) && !PlaceOf(q.state).InComment?
    ensures Parallel(q, r.log, BeginComment(cfg, q), BeginComment(cfg, r))
  {
    hide Flush;
    FlushParallel(cfg, q, r);
    FlushControl(cfg, q);
    assert q.log[|q.log|..] == [];
  }

  lemma PushParallel(cfg: Config, q: Parser, r: Parser, mode: Mode, target: State)
    requires Same(q, r.(log := q.log)) && !PlaceOf(q.state).InComment? && !PlaceOf(target).InComment?
    ensures Parallel(q, r.log, Entered(Push(cfg, q, mode), target), Entered(Push(cfg, r, mode), target))
  {
    assert q.log[|q.log|..] == [];
  }

  /** The last part of opening a bracket. */
  function Entered(o: Outcome, target: State): Outcome {
    match o
    case Go(r) => if r.token != NoToken then Aborted(r.log) else Go(r.(state := target))
    case stop => stop
  }

  lemma OpenParallel(cfg: Config, q: Parser, r: Parser, e: Event, mode: Mode, target: State)
    requires Same(q, r.(log := q.log)) && !PlaceOf(q.state).InComment? && !PlaceOf(target).InComment?
    ensures Parallel(q, r.log, Open(cfg, q, e, mode, target), Open(cfg, r, e, mode, target))
  {
    hide Tell, Push, PlaceOf;
    assert q.log[|q.log|..] == [];
    if q.buf != [] {
      var x := q.(buf := q.buf[..|q.buf| - 1]);
      var y := r.(buf := r.buf[..|r.buf| - 1]);
      TellParallel(cfg, x, y, e);
      TellControl(cfg, x, e);
      TellControl(cfg, y, e);
      var x1, y1 := Tell(cfg, x, e), Tell(cfg, y, e);
      PushParallel(cfg, x1, y1, mode, target);
      ParallelThen(x, r.log, Go(x1), Go(y1),
                   Entered(Push(cfg, x1, mode), target), Entered(Push(cfg, y1, mode), target));
    }
  }

  lemma CloseEmptyParallel(cfg: Config, q: Parser, r: Parser)
    requires Same(q, r.(log := q.log)) && PlaceOf(q.state) != InComment
    ensures Parallel(q, r.log, CloseEmptyObject(cfg, q), CloseEmptyObject(cfg, r))
  {
    assert (q.log + [EndObject])[|q.log|..] == [EndObject];
    assert q.log[|q.log|..] == [];
  }

  lemma EndKeyParallel(cfg: Config, q: Parser, r: Parser)
    requires Same(q, r.(log := q.log)) && !PlaceOf(q.state).InComment?
    ensures Parallel(q, r.log, EndKey(cfg, q), EndKey(cfg, r))
  {
    assert (q.log + [KeyName(q.buf)])[|q.log|..] == [KeyName(q.buf)];
    assert q.log[|q.log|..] == [];
  }

  lemma EndTextParallel(cfg: Config, q: Parser, r: Parser)
    requires Same(q, r.(log := q.log)) && !PlaceOf(q.state).InComment?
    ensures Parallel(q, r.log, EndText(cfg, q), EndText(cfg, r))
  {
    hide EmitToken;
    EmitParallel(cfg, q, r);
    assert q.log[|q.log|..] == [];
  }

  lemma EndStringParallel(cfg: Config, q: Parser, r: Parser)
    requires Same(q, r.(log := q.log)) && !PlaceOf(q.state).InComment?
    ensures Parallel(q, r.log, EndString(cfg, q), EndString(cfg, r))
  {
    hide EndKey, EndText, PlaceOf;
    assert q.log[|q.log|..] == [];
    if q.buf != [] {
      var x := q.(buf := q.buf[..|q.buf| - 1]);
      var y := r.(buf := r.buf[..|r.buf| - 1]);
      EndKeyParallel(cfg, x, y);
      EndTextParallel(cfg, x, y);
    }
  }

  lemma EmitParallel(cfg: Config, q: Parser, r: Parser)
    requires Same(q, r.(log := q.log)) && PlaceOf(q.state) != InComment
    ensures Parallel(q, r.log, EmitToken(cfg, q), EmitToken(cfg, r))
  {
    var e := TokenEvent(cfg, q.token, q.buf);
    assert (q.log + [e])[|q.log|..] == [e];
    assert q.log[|q.log|..] == [];
  }

  /** The entries whose actions never touch the log. */
  predicate IsQuiet(e: Entry) {
    !IsBracketEntry(e) && !e.StringEnd? && !e.CommentBegin?
  }

  lemma QuietParallel(cfg: Config, q: Parser, r: Parser, entry: Entry)
    requires Same(q, r.(log := q.log)) && !PlaceOf(q.state).InComment? && IsQuiet(entry)
    requires entry.To? ==> !PlaceOf(entry.target).InComment?
    requires !entry.CommentEnd?
    ensures Parallel(q, r.log, Act(cfg, q, entry), Act(cfg, r, entry))
  {
    hide Decode, PlaceOf, BeginFloat;
    PlacesAre();
    assert q.log[|q.log|..] == [];
    if entry.UnicodeRead? { DecodeParallel(q, r); }
    if entry.FloatByExponent? { FloatParallel(cfg, q, r, false); }
    if entry.FloatByPoint? { FloatParallel(cfg, q, r, true); }
  }

  lemma FloatParallel(cfg: Config, q: Parser, r: Parser, point: bool)
    requires Same(q, r.(log := q.log)) && !PlaceOf(q.state).InComment?
    ensures Parallel(q, r.log, BeginFloat(cfg, q, point), BeginFloat(cfg, r, point))
  {
    assert q.log[|q.log|..] == [];
  }

  lemma DecodeParallel(q: Parser, r: Parser)
    requires Same(q, r.(log := q.log)) && !PlaceOf(q.state).InComment?
    ensures Parallel(q, r.log, Decode(q), Decode(r))
  {
    hide HexOf, CodeUnit, Encoded;
    assert q.log[|q.log|..] == [];
  }

  lemma ColonParallel(cfg: Config, q: Parser, r: Parser)
    requires Same(q, r.(log := q.log)) && !PlaceOf(q.state).InComment?
    ensures Parallel(q, r.log, AfterKey(cfg, q), AfterKey(cfg, r))
  {
    assert q.log[|q.log|..] == [];
  }

  lemma ActParallel(cfg: Config, q: Parser, r: Parser, entry: Entry)
    requires Same(q, r.(log := q.log)) && !PlaceOf(q.state).InComment?
    requires !entry.CommentEnd? && (entry.To? ==> !PlaceOf(entry.target).InComment?)
    ensures Parallel(q, r.log, Act(cfg, q, entry), Act(cfg, r, entry))
  {
    hide Same, Parallel, PlaceOf, Close, Open, CloseEmptyObject, EndString, NextMember, AfterKey, BeginComment;
    match entry
    case ObjectEnd => CloseParallel(cfg, q, r, EndObject, ObjectMode);
    case ArrayEnd => CloseParallel(cfg, q, r, EndArray, ArrayMode);
    case ObjectBegin => OpenTargets(); OpenParallel(cfg, q, r, BeginObject, KeyMode, OB);
    case ArrayBegin => OpenTargets(); OpenParallel(cfg, q, r, BeginArray, ArrayMode, AR);
    case EmptyObjectEnd => CloseEmptyParallel(cfg, q, r);
    case StringEnd => EndStringParallel(cfg, q, r);
    case Comma => NextParallel(cfg, q, r);
    case Colon => ColonParallel(cfg, q, r);
    case CommentBegin => BeginParallel(cfg, q, r);
    case _ => QuietParallel(cfg, q, r, entry);
  }

  lemma OpenTargets()
    ensures !PlaceOf(OB).InComment? && !PlaceOf(AR).InComment?
  {
  }

  lemma AddCharParallel(q: Parser, r: Parser, c: int, k: Class)
    requires Same(q, r.(log := q.log)) && !PlaceOf(q.state).InComment?
    ensures Parallel(q, r.log, AddChar(q, c, k), AddChar(r, c, k))
    ensures AddChar(q, c, k).Go? ==>
              AddChar(q, c, k).next.log == q.log && AddChar(q, c, k).next.state == q.state
              && AddChar(r, c, k).next.log == r.log
  {
    assert q.log[|q.log|..] == [];
  }

  /** Outside comments a step does not depend on the log or on the saved state. */
  lemma StepParallel(cfg: Config, q: Parser, r: Parser, c: int)
    requires Same(q, r.(log := q.log)) && !PlaceOf(q.state).InComment?
    ensures Parallel(q, r.log, Step(cfg, q, c), Step(cfg, r, c))
  {
    hide Act, AddChar, Transition, ClassOf, PlaceOf;
    assert q.log[|q.log|..] == [];
    if c >= 0 && ClassOf(c).Some? {
      var k := ClassOf(c).value;
      AddCharParallel(q, r, c, k);
      NoCommentTarget(q.state, k);
      if AddChar(q, c, k).Go? {
        ActParallel(cfg, AddChar(q, c, k).next, AddChar(r, c, k).next, Transition(q.state, k));
      }
    }
  }

  lemma NoCommentTarget(s: State, k: Class)
    requires !PlaceOf(s).InComment?
    ensures !Transition(s, k).CommentEnd?
    ensures Transition(s, k).To? ==> !PlaceOf(Transition(s, k).target).InComment?
  {
    hide Transition, PlaceOf, IsWhite, IsHexClass;
    PlacesAre();
    TableFits(s, k);
  }

  // ----- runs

  lemma StepParallelInComment(cfg: Config, q: Parser, r: Parser, c: int)
    requires Same(q, r.(log := q.log)) && PlaceOf(q.state).InComment? && q.comment && !q.escaped
    ensures Parallel(q, r.log, Step(cfg, q, c), Step(cfg, r, c))
  {
    hide ClassOf, Act, Transition;
    assert q.log[|q.log|..] == [];
    assert r == q.(log := r.log);
    if c >= 0 && ClassOf(c).Some? { CommentEntries(cfg, q, r, ClassOf(c).value); }
  }

  lemma CommentEntries(cfg: Config, q: Parser, r: Parser, k: Class)
    requires PlaceOf(q.state).InComment? && r == q.(log := r.log)
    ensures Parallel(q, r.log, Act(cfg, q, Transition(q.state, k)), Act(cfg, r, Transition(q.state, k)))
  {
    hide Transition;
    assert q.log[|q.log|..] == [];
    CommentTable(q.state, k);
  }

  lemma CommentTable(s: State, k: Class)
    requires PlaceOf(s).InComment?
    ensures Transition(s, k).Error? || Transition(s, k).CommentEnd? || Transition(s, k).To?
  {
  }

  /** Two parsers that differ only in their logs accept the same texts and add the same events. */
  lemma {:induction false} RunParallel(cfg: Config, q: Parser, r: Parser, s: seq<int>)
    requires Inv(cfg, q) && Same(q, r.(log := q.log))
    ensures Accepted(cfg, q, s) <==> Accepted(cfg, r, s)
    ensures Accepted(cfg, q, s) ==> q.log <= Run(cfg, q, s).next.log
    ensures Accepted(cfg, q, s) ==>
              Run(cfg, r, s).next.log == r.log + Run(cfg, q, s).next.log[|q.log|..]
    decreases |s|
  {
    hide Step, Inv, Same, Parallel;
    if s == [] {
      SameFinish(q, r);
      assert q.log[|q.log|..] == [];
    } else {
      StepParallelAny(cfg, q, r, s[0]);
      StepKeepsInv(cfg, q, s[0]);
      var a, b := Step(cfg, q, s[0]), Step(cfg, r, s[0]);
      ParallelMeans(q, r.log, a, b);
      if a.Go? {
        RunParallel(cfg, a.next, b.next, s[1..]);
        if Accepted(cfg, q, s) { LogsJoin(q.log, r.log, a.next.log, b.next.log, Run(cfg, q, s).next.log); }
      }
    }
  }

  lemma ParallelMeans(q: Parser, log: seq<Event>, a: Outcome, b: Outcome)
    requires Parallel(q, log, a, b)
    ensures (a.Go? <==> b.Go?)
    ensures a.Go? ==> q.log <= a.next.log && b.next.log == log + a.next.log[|q.log|..]
    ensures a.Go? ==> Same(a.next, b.next.(log := a.next.log))
  {
    hide Same;
  }

  lemma LogsJoin<T>(q: seq<T>, r: seq<T>, a: seq<T>, b: seq<T>, last: seq<T>)
    requires q <= a <= last && b == r + a[|q|..]
    ensures b + last[|a|..] == r + last[|q|..]
  {
  }

  lemma SameFinish(q: Parser, r: Parser)
    requires Same(q, r.(log := q.log))
    ensures Finished(q) <==> Finished(r)
  {
  }

  lemma StepParallelAny(cfg: Config, q: Parser, r: Parser, c: int)
    requires Inv(cfg, q) && Same(q, r.(log := q.log))
    ensures Parallel(q, r.log, Step(cfg, q, c), Step(cfg, r, c))
  {
    hide ModesOk, Step, Same, Parallel, TopOk, TokenOk, EscapeOk, ResumeOk;
    if PlaceOf(q.state).InComment? {
      StepParallelInComment(cfg, q, r, c);
    } else {
      StepParallel(cfg, q, r, c);
    }
  }

  /** A parser that has read a scalar and a blank: the report is still owed. */
  predicate Owes(cfg: Config, q: Parser) {
    && q.state == OK && Steady(q) && InContainer(Top(q))
    && q.token != NoToken && q.token != StringToken && !(cfg.listening && IsLiteral(q.token))
  }

  /** The same parser with the report made. */
  function Settled(cfg: Config, q: Parser): Parser {
    q.(token := NoToken, buf := [], log := q.log + Pending(cfg, q))
  }

  /** The same next parser, or none in both cases. */
  predicate Agree(a: Outcome, b: Outcome) { (a.Go? <==> b.Go?) && (a.Go? ==> a == b) }

  lemma CloseForgets(cfg: Config, x: Parser, e: Event, mode: Mode)
    ensures Agree(CloseFlushed(cfg, x, e, mode), CloseFlushed(cfg, x.(token := NoToken), e, mode))
  {
  }

  lemma NextForgets(cfg: Config, x: Parser)
    requires x.token != StringToken
    ensures Agree(NextFlushed(cfg, x), NextFlushed(cfg, x.(token := NoToken)))
  {
  }

  lemma CommentForgets(x: Parser)
    requires x.token != StringToken
    ensures Agree(CommentFlushed(x), CommentFlushed(x.(token := NoToken)))
  {
  }

  /** What follows a value starts with the report and forgets the token. */
  lemma ActSettles(cfg: Config, q: Parser, r: Parser, x: Parser, k: Class)
    requires Flush(cfg, q) == Go(x) && Flush(cfg, r) == Go(x.(token := NoToken))
    requires x.token != StringToken && !IsWhite(k)
    ensures Agree(Act(cfg, q, AfterValue(k, true)), Act(cfg, r, AfterValue(k, true)))
  {
    hide Flush, CloseFlushed, NextFlushed, CommentFlushed;
    CloseForgets(cfg, x, EndObject, ObjectMode);
    CloseForgets(cfg, x, EndArray, ArrayMode);
    NextForgets(cfg, x);
    CommentForgets(x);
  }

  lemma OkRow(k: Class)
    ensures Transition(OK, k) == AfterValue(k, true)
  {
  }

  /** Whatever ends the wait makes the report, and then the two are equal. */
  lemma StepSettles(cfg: Config, q: Parser, c: int)
    requires Owes(cfg, q) && !IsBlankCode(c)
    ensures Step(cfg, q, c).Go? <==> Step(cfg, Settled(cfg, q), c).Go?
    ensures Step(cfg, q, c).Go? ==> Step(cfg, q, c) == Step(cfg, Settled(cfg, q), c)
  {
    hide ClassOf, Flush, Step, Transition, Act, AfterValue, Pending;
    if c >= 0 && ClassOf(c).Some? {
      BlankClasses(c);
      var k := ClassOf(c).value;
      var r := Settled(cfg, q);
      OkRow(k);
      StepStored(cfg, q, c, k);
      StepStored(cfg, r, c, k);
      FlushStored(cfg, q, q.(buf := q.buf + [c % 256]));
      FlushStored(cfg, r, r.(buf := r.buf + [c % 256]));
      NothingPending(cfg, r);
      assert r.log + [] == r.log;
      ActSettles(cfg, q.(buf := q.buf + [c % 256]), r.(buf := r.buf + [c % 256]),
                 q.(buf := [], log := q.log + Pending(cfg, q)), k);
    } else {
      NoStep(cfg, q, c);
      NoStep(cfg, Settled(cfg, q), c);
    }
  }

  lemma NothingPending(cfg: Config, r: Parser)
    requires r.token == NoToken
    ensures Pending(cfg, r) == []
  {
  }

  lemma NoStep(cfg: Config, p: Parser, c: int)
    requires !(c >= 0 && ClassOf(c).Some?)
    ensures Step(cfg, p, c) == Refused(p.log)
  {
  }

  lemma BlankClasses(c: nat)
    requires ClassOf(c).Some?
    ensures IsWhite(ClassOf(c).value) <==> IsBlankCode(c)
  {
  }

  function Owed(cfg: Config): nat { if cfg.listening then 1 else 0 }

  function FrontBlanks(s: seq<int>): seq<int> { s[..BlankLength(s)] }

  /** From a state that owes a report and from one that has made it, the same texts are
      accepted; the owed report comes with the blanks read meanwhile, all else is equal. */
  lemma {:induction false} RunOwing(cfg: Config, q: Parser, r: Parser, s: seq<int>)
    requires Inv(cfg, r) && Owes(cfg, q) && r == Settled(cfg, q).(log := r.log, beforeComment := r.beforeComment)
    ensures Accepted(cfg, q, s) <==> Accepted(cfg, r, s)
    ensures Accepted(cfg, q, s) ==>
              var told := Run(cfg, q, s).next.log;
              && |told| >= |q.log| + Owed(cfg)
              && Run(cfg, r, s).next.log == r.log + told[|q.log| + Owed(cfg)..]
              && told[..|q.log|] == q.log
              && (cfg.listening ==> told[|q.log|] == TokenEvent(cfg, q.token, q.buf + FrontBlanks(s)))
    decreases |s|
  {
    hide Step, Inv, IsBlankCode;
    if s != [] {
      if IsBlankCode(s[0]) {
        OwingBlank(cfg, q, r, s);
        RunOwing(cfg, q.(buf := q.buf + [s[0]]), r, s[1..]);
        FrontBlanksNext(q.buf, s);
      } else {
        OwingSettles(cfg, q, r, s);
      }
    }
  }

  lemma FrontBlanksNext(buf: seq<int>, s: seq<int>)
    requires s != [] && IsBlankCode(s[0])
    ensures buf + [s[0]] + FrontBlanks(s[1..]) == buf + FrontBlanks(s)
  {
  }

  lemma {:induction false} OwingBlank(cfg: Config, q: Parser, r: Parser, s: seq<int>)
    requires Owes(cfg, q) && r == Settled(cfg, q).(log := r.log, beforeComment := r.beforeComment)
    requires s != [] && IsBlankCode(s[0])
    ensures Run(cfg, q, s) == Run(cfg, q.(buf := q.buf + [s[0]]), s[1..])
    ensures Run(cfg, r, s) == Run(cfg, r, s[1..])
  {
    hide Step;
    StepBlankPending(cfg, q, s[0]);
    StepBlankIdle(cfg, r, s[0]);
  }

  lemma {:induction false} OwingSettles(cfg: Config, q: Parser, r: Parser, s: seq<int>)
    requires Inv(cfg, r) && Owes(cfg, q) && r == Settled(cfg, q).(log := r.log, beforeComment := r.beforeComment)
    requires s != [] && !IsBlankCode(s[0])
    ensures Accepted(cfg, q, s) <==> Accepted(cfg, r, s)
    ensures Accepted(cfg, q, s) ==>
              var told := Run(cfg, q, s).next.log;
              && |told| >= |q.log| + Owed(cfg)
              && Run(cfg, r, s).next.log == r.log + told[|q.log| + Owed(cfg)..]
              && told[..|q.log|] == q.log
              && (cfg.listening ==> told[|q.log|] == TokenEvent(cfg, q.token, q.buf + FrontBlanks(s)))
  {
    hide Step, ModesOk;
    var t := Settled(cfg, q);
    StepSettles(cfg, q, s[0]);
    RunParallel(cfg, r, t, s);
    RunKeepsLog(cfg, t, s);
    assert q.buf + FrontBlanks(s) == q.buf;
    assert FrontBlanks(s) == [];
  }

  // ----- a literal that a callback would have to hear is never accepted

  lemma {:induction false} StuckLiteral(cfg: Config, p: Parser, s: seq<int>)
    requires cfg.listening && IsLiteral(p.token) && p.state == OK && Steady(p) && InContainer(Top(p))
    ensures !Accepted(cfg, p, s)
    decreases |s|
  {
    hide Step;
    if s != [] {
      if IsBlankCode(s[0]) {
        StepBlankPending(cfg, p, s[0]);
        StuckLiteral(cfg, p.(buf := p.buf + [s[0]]), s[1..]);
      } else {
        StuckStep(cfg, p, s[0]);
      }
    }
  }

  lemma StuckStep(cfg: Config, p: Parser, c: int)
    requires cfg.listening && IsLiteral(p.token) && p.state == OK && Steady(p) && !IsBlankCode(c)
    ensures !Step(cfg, p, c).Go?
  {
    hide ClassOf, Flush, Step;
    if c >= 0 && ClassOf(c).Some? {
      BlankClasses(c);
      StepStored(cfg, p, c, ClassOf(c).value);
      FlushStored(cfg, p, p.(buf := p.buf + [c % 256]));
    } else {
      NoStep(cfg, p, c);
    }
  }

  // ----- a comment in place of a space

  /** The states between tokens, in which both a comment and a space may stand. */
  predicate Boundary(s: State) {
    || s == GO || s == OK || s == OB || s == KE || s == CO || s == VA || s == AR
    || s == ZE || s == IT || s == FR
  }

  lemma BoundaryTable(s: State)
    requires Boundary(s)
    ensures Transition(s, SLASH) == CommentBegin
    ensures Waiting(s) || Ending(s)
  {
  }

  lemma BoundaryFacts(cfg: Config, p: Parser)
    requires Inv(cfg, p) && Boundary(p.state)
    ensures Steady(p) && p.token != StringToken
    ensures p.token == NoToken ==> Waiting(p.state) && p.buf == [] && ResumeState(p) == p.state
    ensures p.token != NoToken ==> Ending(p.state) && InContainer(Top(p)) && ResumeState(p) == OK
  {
    hide ModesOk;
  }

  lemma {:induction false} AcceptedAfter(cfg: Config, p: Parser, a: seq<int>, b: seq<int>)
    ensures Accepted(cfg, p, a + b) <==>
            Run(cfg, p, a).Go? && Accepted(cfg, Run(cfg, p, a).next, b)
    ensures Run(cfg, p, a).Go? ==> Run(cfg, p, a + b) == Run(cfg, Run(cfg, p, a).next, b)
  {
    hide Step, Run;
    RunConcat(cfg, p, a, b);
  }

  /** Reporting differs only for a float that is handled manually. */
  predicate Exact(cfg: Config, p: Parser) {
    !(cfg.listening && cfg.manualFloats && p.token == FloatToken)
  }

  /** The verdict is the same for a comment and for a space, and so are the events, except
      that a manually handled float is told with the blanks that follow it. */
  ghost predicate AsGoodAsSpace(cfg: Config, p: Parser, text: seq<int>, b: seq<int>) {
    && (Accepted(cfg, p, text + b) <==> Accepted(cfg, p, [SPACE_CODE] + b))
    && (Accepted(cfg, p, text + b) ==>
          (Run(cfg, p, text + b).next.log == Run(cfg, p, [SPACE_CODE] + b).next.log <==> Exact(cfg, p)))
  }

  lemma {:induction false} CommentIsSpace(cfg: Config, p: Parser, body: seq<int>, b: seq<int>)
    requires cfg.comments && Inv(cfg, p) && Boundary(p.state) && IsBody(body)
    ensures AsGoodAsSpace(cfg, p, CommentText(body), b)
  {
    hide Step, Run, Transition, IsBody, CommentText, Inv, Boundary, Accepted, Resumed;
    BoundaryTable(p.state);
    BoundaryFacts(cfg, p);
    RunComment(cfg, p, body);
    RunOne(cfg, p, SPACE_CODE);
    AcceptedAfter(cfg, p, CommentText(body), b);
    AcceptedAfter(cfg, p, [SPACE_CODE], b);
    if cfg.listening && IsLiteral(p.token) {
      StepBlankPending(cfg, p, SPACE_CODE);
      StuckLiteral(cfg, p.(state := OK, buf := p.buf + [SPACE_CODE]), b);
    } else {
      RunKeepsInv(cfg, p, CommentText(body));
      if p.token == NoToken {
        IdleSpace(cfg, p, b);
      } else {
        OwingSpace(cfg, p, b);
      }
    }
  }

  lemma {:induction false} IdleSpace(cfg: Config, p: Parser, b: seq<int>)
    requires Inv(cfg, p) && Waiting(p.state) && Steady(p) && p.token == NoToken && p.buf == []
    requires ResumeState(p) == p.state
    ensures Step(cfg, p, SPACE_CODE) == Go(p)
    ensures Accepted(cfg, Resumed(cfg, p), b) <==> Accepted(cfg, p, b)
    ensures Accepted(cfg, p, b) ==> Run(cfg, Resumed(cfg, p), b).next.log == Run(cfg, p, b).next.log
  {
    hide Step, Run, ModesOk;
    assert p.log + [] == p.log;
    StepBlankIdle(cfg, p, SPACE_CODE);
    RunParallel(cfg, p, Resumed(cfg, p), b);
  }

  lemma {:induction false} OwingSpace(cfg: Config, p: Parser, b: seq<int>)
    requires Inv(cfg, Resumed(cfg, p)) && Ending(p.state) && Steady(p) && InContainer(Top(p))
    requires p.token != NoToken && p.token != StringToken && ResumeState(p) == OK
    requires !(cfg.listening && IsLiteral(p.token))
    ensures var q := p.(state := OK, buf := p.buf + [SPACE_CODE]);
            && Step(cfg, p, SPACE_CODE) == Go(q)
            && (Accepted(cfg, Resumed(cfg, p), b) <==> Accepted(cfg, q, b))
            && (Accepted(cfg, q, b) ==>
                  (Run(cfg, Resumed(cfg, p), b).next.log == Run(cfg, q, b).next.log <==> Exact(cfg, p)))
  {
    hide Step, Run, Inv, FrontBlanks, TokenEvent, IsBlankCode;
    var q := p.(state := OK, buf := p.buf + [SPACE_CODE]);
    SpaceIsBlank();
    StepBlankPending(cfg, p, SPACE_CODE);
    RunOwing(cfg, q, Resumed(cfg, p), b);
    if Accepted(cfg, q, b) {
      var told := Run(cfg, q, b).next.log;
      if cfg.listening {
        OwedEvent(cfg, p, b);
        assert told == told[..|q.log|] + [told[|q.log|]] + told[|q.log| + 1..];
        assert Resumed(cfg, p).log == p.log + [TokenEvent(cfg, p.token, p.buf)];
        assert (p.log + [TokenEvent(cfg, p.token, p.buf)] + told[|q.log| + 1..])[|p.log|]
            == TokenEvent(cfg, p.token, p.buf);
      } else {
        assert told == told[..|q.log|] + told[|q.log|..];
        assert p.log + [] == p.log;
      }
    }
  }

  lemma SpaceIsBlank()
    ensures IsBlankCode(SPACE_CODE)
  {
  }

  lemma OwedEvent(cfg: Config, p: Parser, b: seq<int>)
    requires p.token == IntegerToken || p.token == FloatToken
    ensures TokenEvent(cfg, p.token, p.buf + [SPACE_CODE] + FrontBlanks(b)) == TokenEvent(cfg, p.token, p.buf)
            <==> !(cfg.manualFloats && p.token == FloatToken)
  {
    hide TrimRight, IntegerOf;
    assert p.buf + [SPACE_CODE] + FrontBlanks(b) == p.buf + ([SPACE_CODE] + FrontBlanks(b));
    if cfg.manualFloats && p.token == FloatToken {
      assert |p.buf + [SPACE_CODE] + FrontBlanks(b)| > |p.buf|;
    } else {
      EventOfBlanks(cfg, p.token, p.buf, [SPACE_CODE] + FrontBlanks(b));
    }
  }

  // ----- exactly where it holds

  /** The brackets that close all open containers, innermost first. */
  function Closers(modes: seq<Mode>): seq<int> {
    if |modes| <= 1 then []
    else [if modes[|modes| - 1] == ArrayMode then ']' as int else '}' as int] + Closers(modes[..|modes| - 1])
  }

  /** A parser after a complete value, whose report may still be owed. */
  ghost predicate Closable(cfg: Config, p: Parser) {
    && ModesOk(cfg.depth, p.modes) && Top(p) != KeyMode
    && p.state == OK && Steady(p) && p.token != StringToken && !(cfg.listening && IsLiteral(p.token))
  }

  lemma StepCloser(cfg: Config, p: Parser)
    requires Closable(cfg, p) && |p.modes| > 1
    ensures var o := Step(cfg, p, Closers(p.modes)[0]);
            o.Go? && Closable(cfg, o.next) && o.next.modes == p.modes[..|p.modes| - 1]
  {
    hide Flush, Step, ModesOk, CloseFlushed, Pending, IsLiteral;
    CloserTop(cfg, p);
    OkEnds();
    BracketClasses();
    var list := Top(p) == ArrayMode;
    var c := if list then ']' as int else '}' as int;
    StepSeparator(cfg, p, c, if list then RSQRB else RCURB);
    FlushStored(cfg, p, p.(buf := p.buf + [c]));
    CloserFlushed(cfg, p.(buf := [], log := p.log + Pending(cfg, p)));
  }

  lemma OkEnds()
    ensures Ending(OK)
  {
  }

  lemma CloserFlushed(cfg: Config, q: Parser)
    requires Closable(cfg, q) && |q.modes| > 1 && q.buf == []
    ensures var list := Top(q) == ArrayMode;
            var o := CloseFlushed(cfg, q, if list then EndArray else EndObject, if list then ArrayMode else ObjectMode);
            o.Go? && Closable(cfg, o.next) && o.next.modes == q.modes[..|q.modes| - 1]
  {
    hide ModesOk;
    ModesPopped(cfg.depth, q.modes);
    CloserTop(cfg, q);
  }

  lemma CloserTop(cfg: Config, p: Parser)
    requires ModesOk(cfg.depth, p.modes) && |p.modes| > 1 && Top(p) != KeyMode
    ensures Top(p) == ArrayMode || Top(p) == ObjectMode
  {
  }

  /** Any complete value can be brought to an accepted text. */
  lemma {:induction false} RunClosers(cfg: Config, p: Parser)
    requires Closable(cfg, p)
    ensures Accepted(cfg, p, Closers(p.modes))
    decreases |p.modes|
  {
    hide Step;
    if |p.modes| > 1 {
      StepCloser(cfg, p);
      RunClosers(cfg, Step(cfg, p, Closers(p.modes)[0]).next);
    }
  }

  /** The states in which a comment and a space part ways. */
  predicate Exceptional(cfg: Config, s: State) {
    s == FX || s == E3 || (!cfg.listening && (s == T3 || s == F4 || s == N3))
  }

  lemma ExceptionalTable(s: State)
    ensures s == FX || s == E3 ==> Transition(s, SLASH).Error?
    ensures s == T3 || s == F4 || s == N3 ==> Transition(s, SLASH).CommentBegin? && Transition(s, SPACE).Error?
  {
  }

  /** The states that take neither. */
  lemma ClosedTable(s: State)
    requires Outside(s) && !Boundary(s) && s != FX && s != E3 && s != T3 && s != F4 && s != N3
    ensures Transition(s, SLASH).Error? && Transition(s, SPACE).Error?
  {
  }

  lemma StepErrs(cfg: Config, p: Parser, c: nat, k: Class)
    requires ClassOf(c) == Some(k) && Transition(p.state, k).Error?
    ensures !Step(cfg, p, c).Go?
  {
    hide ClassOf, Transition;
  }

  lemma {:induction false} NotAcceptedBy(cfg: Config, p: Parser, c: int, s: seq<int>)
    requires s != [] && s[0] == c && !Step(cfg, p, c).Go?
    ensures !Accepted(cfg, p, s)
  {
    hide Step;
  }

  /** After a point or an exponent's digits a comment is refused where a space is not. */
  lemma {:induction false} CommentRefused(cfg: Config, p: Parser, body: seq<int>)
    requires cfg.comments && Inv(cfg, p) && (p.state == FX || p.state == E3)
    ensures !Accepted(cfg, p, CommentText(body) + Closers(p.modes))
    ensures Accepted(cfg, p, [SPACE_CODE] + Closers(p.modes))
  {
    hide Step, Run, Transition, Accepted, ModesOk, Closers;
    ExceptionalTable(p.state);
    ExceptionalFacts(cfg, p);
    StepErrs(cfg, p, SLASH_CODE, SLASH);
    NotAcceptedBy(cfg, p, SLASH_CODE, CommentText(body) + Closers(p.modes));
    AcceptedAfter(cfg, p, [SPACE_CODE], Closers(p.modes));
    RunOne(cfg, p, SPACE_CODE);
    StepBlankPending(cfg, p, SPACE_CODE);
    RunClosers(cfg, p.(state := OK, buf := p.buf + [SPACE_CODE]));
  }

  /** One letter short of a literal a comment completes it and a space is refused. */
  lemma {:induction false} CommentCompletes(cfg: Config, p: Parser, body: seq<int>)
    requires cfg.comments && Inv(cfg, p) && IsBody(body)
    requires !cfg.listening && (p.state == T3 || p.state == F4 || p.state == N3)
    ensures Accepted(cfg, p, CommentText(body) + Closers(p.modes))
    ensures !Accepted(cfg, p, [SPACE_CODE] + Closers(p.modes))
  {
    hide Step, Run, Transition, IsBody, Accepted, ModesOk, Closers, Pending, ResumeState;
    ExceptionalTable(p.state);
    ExceptionalFacts(cfg, p);
    StepErrs(cfg, p, SPACE_CODE, SPACE);
    NotAcceptedBy(cfg, p, SPACE_CODE, [SPACE_CODE] + Closers(p.modes));
    AcceptedAfter(cfg, p, CommentText(body), Closers(p.modes));
    RunComment(cfg, p, body);
    RunClosers(cfg, Resumed(cfg, p));
  }

  lemma ExceptionalFacts(cfg: Config, p: Parser)
    requires Inv(cfg, p) && Exceptional(cfg, p.state)
    ensures ModesOk(cfg.depth, p.modes) && Steady(p) && p.token != StringToken && Top(p) != KeyMode
    ensures ResumeState(p) == OK && Resumed(cfg, p).state == OK
    ensures p.state == FX || p.state == E3 ==> p.token == FloatToken && Ending(p.state)
  {
    hide ModesOk;
  }

  lemma {:induction false} NeitherAccepted(cfg: Config, p: Parser, body: seq<int>, b: seq<int>)
    requires Inv(cfg, p) && Outside(p.state) && !Boundary(p.state) && !Exceptional(cfg, p.state)
    ensures !Accepted(cfg, p, CommentText(body) + b) && !Accepted(cfg, p, [SPACE_CODE] + b)
  {
    hide Step, Transition, ModesOk, Boundary, Accepted;
    if p.state == T3 || p.state == F4 || p.state == N3 {
      ExceptionalTable(p.state);
      DueComment(cfg, p);
    } else {
      ClosedTable(p.state);
      StepErrs(cfg, p, SLASH_CODE, SLASH);
    }
    StepErrs(cfg, p, SPACE_CODE, SPACE);
    NotAcceptedBy(cfg, p, SLASH_CODE, CommentText(body) + b);
    NotAcceptedBy(cfg, p, SPACE_CODE, [SPACE_CODE] + b);
  }

  lemma DueComment(cfg: Config, p: Parser)
    requires Inv(cfg, p) && cfg.listening && (p.state == T3 || p.state == F4 || p.state == N3)
    ensures !Step(cfg, p, SLASH_CODE).Go?
  {
    hide Step, Transition, ModesOk, Flush;
    ExceptionalTable(p.state);
    StepStored(cfg, p, SLASH_CODE, SLASH);
    FlushStored(cfg, p, p.(buf := p.buf + [SLASH_CODE]));
  }

  /** Outside strings and comments, a comment may replace a space before every continuation, with
      the same verdict and the same events, exactly if the state is not one after a point or an
      exponent's digits, nor, without a callback, one letter short of a literal. */
  lemma {:induction false} CommentIsSpaceExactly(cfg: Config, p: Parser, body: seq<int>)
    requires cfg.comments && Inv(cfg, p) && Outside(p.state) && IsBody(body)
    ensures (forall b :: Accepted(cfg, p, CommentText(body) + b) <==> Accepted(cfg, p, [SPACE_CODE] + b))
            <==> !Exceptional(cfg, p.state)
    ensures (forall b :: AsGoodAsSpace(cfg, p, CommentText(body), b)) <==> !Exceptional(cfg, p.state)
  {
    hide Step, Run, Inv, IsBody, CommentText, Accepted, Closers, Exact;
    if Exceptional(cfg, p.state) {
      if p.state == FX || p.state == E3 { CommentRefused(cfg, p, body); } else { CommentCompletes(cfg, p, body); }
      var b := Closers(p.modes);
      assert Accepted(cfg, p, CommentText(body) + b) <==> !Accepted(cfg, p, [SPACE_CODE] + b);
      assert !AsGoodAsSpace(cfg, p, CommentText(body), b);
    } else {
      forall b
        ensures AsGoodAsSpace(cfg, p, CommentText(body), b)
        ensures Accepted(cfg, p, CommentText(body) + b) <==> Accepted(cfg, p, [SPACE_CODE] + b)
      {
        if Boundary(p.state) { CommentIsSpace(cfg, p, body, b); } else { NeitherAccepted(cfg, p, body, b); }
      }
    }
  }

  // ----- texts

  /** In a text: where the parser is between tokens after `a`, a comment and a space give the
      same verdict, whatever follows, and the same events. */
  lemma CommentInText(cfg: Config, a: seq<int>, body: seq<int>, b: seq<int>)
    requires cfg.comments && IsBody(body)
    requires Run(cfg, Initial, a).Go? && Boundary(Run(cfg, Initial, a).next.state)
    ensures var spaced, commented := a + [SPACE_CODE] + b, a + CommentText(body) + b;
            && (Accepted(cfg, Initial, commented) <==> Accepted(cfg, Initial, spaced))
            && (Accepted(cfg, Initial, commented) ==>
                  (Run(cfg, Initial, commented).next.log == Run(cfg, Initial, spaced).next.log
                   <==> Exact(cfg, Run(cfg, Initial, a).next)))
  {
    hide Run, Accepted, Inv, IsBody, Boundary, CommentText, Exact;
    InitialInv(cfg);
    RunKeepsInv(cfg, Initial, a);
    CommentIsSpace(cfg, Run(cfg, Initial, a).next, body, b);
    AcceptedAfter(cfg, Initial, a, [SPACE_CODE] + b);
    AcceptedAfter(cfg, Initial, a, CommentText(body) + b);
    assert a + [SPACE_CODE] + b == a + ([SPACE_CODE] + b);
    assert a + CommentText(body) + b == a + (CommentText(body) + b);
  }

  const EMPTY_COMMENT := [SLASH_CODE, STAR_CODE, STAR_CODE, SLASH_CODE]

  /** The text with a comment, and that with a space, before the closing bracket of an array. */
  function Commented(a: seq<int>): seq<int> { ['[' as int] + a + EMPTY_COMMENT + [']' as int] }

  function Spaced(a: seq<int>): seq<int> { ['[' as int] + a + [SPACE_CODE] + [']' as int] }

  lemma NothingIsBody()
    ensures IsBody([]) && CommentText([]) == EMPTY_COMMENT
  {
  }

  /** The parser in an array, before its first element. */
  function InList(cfg: Config): Parser {
    Advance(cfg, Initial, [BeginArray]).(state := AR, modes := [DoneMode, ArrayMode])
  }

  lemma ListOpens(cfg: Config)
    requires cfg.depth >= 1
    ensures Run(cfg, Initial, ['[' as int]) == Go(InList(cfg)) && Slot(InList(cfg))
  {
    hide Step, Run;
    StepOpen(cfg, Initial, true);
    RunOne(cfg, Initial, '[' as int);
    assert Initial.modes + [ArrayMode] == [DoneMode, ArrayMode];
  }

  /** What follows the start of a list is decided from the state after its first characters. */
  lemma InListAccepted(cfg: Config, a: seq<int>, x: seq<int>, p: Parser)
    requires cfg.depth >= 1 && Run(cfg, InList(cfg), a) == Go(p) && p.modes == InList(cfg).modes
    ensures Inv(cfg, p) && Closers(p.modes) == [']' as int]
    ensures Accepted(cfg, Initial, ['[' as int] + a + x + [']' as int]) <==> Accepted(cfg, p, x + [']' as int])
  {
    hide Run, Accepted, Inv;
    var text := ['[' as int] + a;
    ListOpens(cfg);
    RunConcat(cfg, Initial, ['[' as int], a);
    InitialInv(cfg);
    RunKeepsInv(cfg, Initial, text);
    AcceptedAfter(cfg, Initial, text, x + [']' as int]);
    assert text + x + [']' as int] == text + (x + [']' as int]);
    ListCloses();
  }

  lemma ListCloses()
    ensures Closers([DoneMode, ArrayMode]) == [']' as int]
  {
    assert [DoneMode, ArrayMode][..1] == [DoneMode];
    assert Closers([DoneMode]) == [];
  }

  /** An array of `tru` and a comment is accepted, and one of `tru` and a space is not. */
  lemma LiteralCutShort(cfg: Config)
    requires cfg.comments && !cfg.listening && cfg.depth >= 1
    ensures Accepted(cfg, Initial, Commented(WordText(TrueWord)[..3]))
    ensures !Accepted(cfg, Initial, Spaced(WordText(TrueWord)[..3]))
  {
    hide Step, Run, Accepted, Inv, Closers, IsBody;
    var p := InList(cfg);
    var a := WordText(TrueWord)[..3];
    var q := p.(state := T3, token := TrueToken, buf := a);
    ListOpens(cfg);
    ThreeLetters(cfg, p);
    InListAccepted(cfg, a, EMPTY_COMMENT, q);
    InListAccepted(cfg, a, [SPACE_CODE], q);
    NothingIsBody();
    CommentCompletes(cfg, q, []);
  }

  lemma ThreeLetters(cfg: Config, p: Parser)
    requires Slot(p)
    ensures var a := WordText(TrueWord)[..3]; Run(cfg, p, a) == Go(p.(state := T3, token := TrueToken, buf := a))
  {
    hide Step, Run;
    var t, r, u := 't' as int, 'r' as int, 'u' as int;
    var p1 := p.(state := T1, token := TrueToken, buf := [t]);
    var p2 := p1.(state := T2, buf := [t] + [r]);
    StepFirstLetter(cfg, p, TrueWord);
    StepLetter(cfg, p1, TrueWord, 1);
    StepLetter(cfg, p2, TrueWord, 2);
    RunOne(cfg, p, t);
    RunOne(cfg, p1, r);
    RunOne(cfg, p2, u);
    RunConcat(cfg, p, [t], [r]);
    RunConcat(cfg, p, [t] + [r], [u]);
    assert [t] + [r] + [u] == WordText(TrueWord)[..3];
  }

  /** A number that ends in its point or in an exponent, before a comment and before a space. */
  lemma NumberBeforeComment(cfg: Config, n: Number)
    requires cfg.comments && cfg.depth >= 1 && WfNumber(n) && (NumberEnd(n) == FX || NumberEnd(n) == E3)
    ensures !Accepted(cfg, Initial, Commented(NumberText(n, POINT_CODE)))
    ensures Accepted(cfg, Initial, Spaced(NumberText(n, POINT_CODE)))
  {
    hide Step, Run, Accepted, Inv, Closers, IsBody, NumberEnd, NumberText, WfNumber;
    var p, a := InList(cfg), NumberText(n, POINT_CODE);
    ListOpens(cfg);
    RunNumber(cfg, p, n);
    var q := Run(cfg, p, a).next;
    InListAccepted(cfg, a, EMPTY_COMMENT, q);
    InListAccepted(cfg, a, [SPACE_CODE], q);
    NothingIsBody();
    CommentRefused(cfg, q, []);
  }

  /** `[1.]` and `[1e5]` are the shortest of them. */
  lemma PointBeforeComment(cfg: Config)
    requires cfg.comments && cfg.depth >= 1
    ensures !Accepted(cfg, Initial, Commented(['1' as int, '.' as int]))
    ensures Accepted(cfg, Initial, Spaced(['1' as int, '.' as int]))
    ensures !Accepted(cfg, Initial, Commented(['1' as int, 'e' as int, '5' as int]))
    ensures Accepted(cfg, Initial, Spaced(['1' as int, 'e' as int, '5' as int]))
  {
    hide Accepted, Run, Commented, Spaced;
    var one, two := Number(false, ['1' as int], Some([]), None),
      Number(false, ['1' as int], None, Some(Exponent('e' as int, [], ['5' as int])));
    NumberBeforeComment(cfg, one);
    NumberBeforeComment(cfg, two);
    assert NumberText(one, POINT_CODE) == ['1' as int, '.' as int];
    assert NumberText(two, POINT_CODE) == ['1' as int, 'e' as int, '5' as int];
  }
}
