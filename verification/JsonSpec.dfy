/** The JSON parser as a function on values: one step per character code, and runs.
    Every assertion of the source is a branch to Aborted. */
module JsonSpec {
  import opened Wrappers
  import opened JsonTables

  datatype Mode = ArrayMode | DoneMode | KeyMode | ObjectMode

  /** The type of the pending token. */
  datatype Token =
    NoToken | IntegerToken | FloatToken | NullToken | TrueToken | FalseToken | StringToken

  /** What the callback is told. */
  datatype Event =
    | BeginArray | EndArray | BeginObject | EndObject
    | IntegerValue(n: int) | FloatValue(text: seq<int>) | StringValue(bytes: seq<int>)
    | KeyName(name: seq<int>)

  /** `listening` says that a callback is set. */
  datatype Config = Config(
    depth: nat, comments: bool, manualFloats: bool, decimalPoint: int, listening: bool)

  datatype Parser = Parser(
    state: State,
    beforeComment: State,
    token: Token,
    escaped: bool,
    comment: bool,
    high: int,
    modes: seq<Mode>,
    buf: seq<int>,
    log: seq<Event>)

  /** A step goes on, refuses the text, or runs into an assertion. */
  datatype Outcome =
    | Go(next: Parser)
    | Refused(log: seq<Event>)
    | Aborted(log: seq<Event>)

  function LogOf(o: Outcome): seq<Event> {
    match o
    case Go(p) => p.log
    case Refused(log) => log
    case Aborted(log) => log
  }

  const Initial: Parser := Parser(GO, GO, NoToken, false, false, 0, [DoneMode], [], [])

  function Top(p: Parser): Mode {
    if p.modes == [] then DoneMode else p.modes[|p.modes| - 1]
  }

  // ----- mode stack

  function Push(cfg: Config, p: Parser, m: Mode): Outcome {
    if |p.modes| == cfg.depth + 1 then Refused(p.log) else Go(p.(modes := p.modes + [m]))
  }

  function Pop(p: Parser, m: Mode): Outcome {
    if p.modes == [] || Top(p) != m then Refused(p.log)
    else Go(p.(modes := p.modes[..|p.modes| - 1]))
  }

  // ----- token buffer

  function PopBack(p: Parser): Outcome {
    if p.buf == [] then Aborted(p.log) else Go(p.(buf := p.buf[..|p.buf| - 1]))
  }

  /** The bytes a single character escape leaves in the buffer; 'u' keeps its backslash. */
  function EscapeBytes(c: int): Option<seq<int>> {
    if c == 'b' as int then Some([8])
    else if c == 'f' as int then Some([12])
    else if c == 'n' as int then Some([10])
    else if c == 'r' as int then Some([13])
    else if c == 't' as int then Some([9])
    else if c == '"' as int then Some(['"' as int])
    else if c == '\\' as int then Some(['\\' as int])
    else if c == '/' as int then Some(['/' as int])
    else if c == 'u' as int then Some(['\\' as int, 'u' as int])
    else None
  }

  function AddEscaped(p: Parser, c: int): Outcome {
    if p.buf == [] then Aborted(p.log)
    else
      match EscapeBytes(c)
      case None => Refused(p.log)
      case Some(bytes) => Go(p.(escaped := false, buf := p.buf[..|p.buf| - 1] + bytes))
  }

  /** Stores a code as a C char: its low eight bits. */
  function AddChar(p: Parser, c: int, k: Class): Outcome {
    if p.escaped then AddEscaped(p, c)
    else if !p.comment && (p.token != NoToken || !IsWhite(k))
    then Go(p.(buf := p.buf + [c % 256]))
    else Go(p)
  }

  // ----- \uXXXX

  /** The value the decoder computes for one stored hexadecimal digit; 16 or more is the
      failed assertion. */
  function HexOf(x: int): int {
    if x >= 'a' as int then x - ('a' as int - 10)
    else if x >= 'A' as int then x - ('A' as int - 10)
    else x % 16 + x / 64 * 64
  }

  predicate IsHighSurrogate(u: int) { 0xD800 <= u < 0xDC00 }

  predicate IsLowSurrogate(u: int) { 0xDC00 <= u < 0xE000 }

  function SurrogatePair(high: int, low: int): int {
    (high - 0xD800) * 0x400 + (low - 0xDC00) + 0x10000
  }

  function Lead(trail: nat): int {
    if trail == 0 then 0 else if trail == 1 then 0xC0 else if trail == 2 then 0xE0 else 0xF0
  }

  /** `u` shifted right by `trail` groups of six bits. */
  function Shifted(u: int, trail: nat): int {
    if trail == 0 then u else Shifted(u, trail - 1) / 64
  }

  /** The continuation bytes for groups trail-1 down to 0. */
  function Continuation(u: int, trail: nat): seq<int> {
    if trail == 0 then [] else [0x80 + Shifted(u, trail - 1) % 64] + Continuation(u, trail - 1)
  }

  /** The lead bits are disjoint from the shifted value, so the source's `|` is a sum. */
  function Encoded(u: int, trail: nat): seq<int> {
    [Lead(trail) + Shifted(u, trail)] + Continuation(u, trail)
  }

  lemma EncodedFirst(kept: seq<int>, u: int, trail: nat)
    ensures kept + [Lead(trail) + Shifted(u, trail)] + Continuation(u, trail) == kept + Encoded(u, trail)
  {
    hide Lead, Shifted, Continuation;
  }

  lemma EncodedNext(done: seq<int>, u: int, i: nat)
    ensures done + [0x80 + Shifted(u, i) % 64] + Continuation(u, i) == done + Continuation(u, i + 1)
  {
    hide Shifted;
  }

  lemma EncodedLast(done: seq<int>, u: int)
    ensures done + Continuation(u, 0) == done
  {
  }

  function CodeUnit(s: seq<int>): int
    requires |s| == 4
  {
    HexOf(s[0]) * 0x1000 + HexOf(s[1]) * 0x100 + HexOf(s[2]) * 0x10 + HexOf(s[3])
  }

  predicate AllHex(s: seq<int>) { forall i :: 0 <= i < |s| ==> 0 <= HexOf(s[i]) < 16 }

  function Decode(p: Parser): Outcome {
    var n := |p.buf|;
    if n < 6 || !AllHex(p.buf[n - 4..]) then Aborted(p.log)
    else
      var u := CodeUnit(p.buf[n - 4..]);
      var kept := p.buf[..n - 6];
      if p.high != 0 then
        if IsLowSurrogate(u)
        then Go(p.(high := 0, buf := kept + Encoded(SurrogatePair(p.high, u), 3)))
        else Refused(p.log)
      else if u < 0x80 then Go(p.(buf := kept + Encoded(u, 0)))
      else if u < 0x800 then Go(p.(buf := kept + Encoded(u, 1)))
      else if IsHighSurrogate(u) then Go(p.(high := u, buf := kept))
      else if IsLowSurrogate(u) then Refused(p.log)
      else Go(p.(buf := kept + Encoded(u, 2)))
  }

  // ----- tokens and events

  predicate IsDigitCode(c: int) { '0' as int <= c <= '9' as int }

  /** The value of the leading decimal digits of `s`, continuing from `acc`. */
  function DigitsValue(s: seq<int>, acc: int): int {
    if s == [] || !IsDigitCode(s[0]) then acc
    else DigitsValue(s[1..], acc * 10 + (s[0] - '0' as int))
  }

  /** What the integer conversion reads: an optional sign and the digits after it. */
  function IntegerOf(s: seq<int>): int {
    if s != [] && s[0] == '-' as int then -DigitsValue(s[1..], 0) else DigitsValue(s, 0)
  }

  predicate IsBlankCode(c: int) { c == 32 || c == 9 || c == 10 || c == 13 }

  function TrimRight(s: seq<int>): seq<int> {
    if s != [] && IsBlankCode(s[|s| - 1]) then TrimRight(s[..|s| - 1]) else s
  }

  /** A float is told as text: the raw buffer if floats are handled manually, else the
      part of it that the conversion reads. */
  function TokenEvent(cfg: Config, token: Token, buf: seq<int>): Event {
    match token
    case IntegerToken => IntegerValue(IntegerOf(buf))
    case FloatToken => FloatValue(if cfg.manualFloats then buf else TrimRight(buf))
    case _ => StringValue(buf)
  }

  predicate IsLiteral(token: Token) { token == NullToken || token == TrueToken || token == FalseToken }

  function Tell(cfg: Config, p: Parser, event: Event): Parser {
    if cfg.listening then p.(log := p.log + [event]) else p
  }

  /** Reports the pending token and clears the buffer; a literal cannot be reported. */
  function EmitToken(cfg: Config, p: Parser): Outcome {
    if cfg.listening && p.token != NoToken then
      if IsLiteral(p.token) then Aborted(p.log)
      else Go(Tell(cfg, p, TokenEvent(cfg, p.token, p.buf)).(buf := []))
    else Go(p.(buf := []))
  }

  /** Drops the current character and reports the token before it. */
  function Flush(cfg: Config, p: Parser): Outcome {
    match PopBack(p)
    case Go(q) => EmitToken(cfg, q)
    case stop => stop
  }

  // ----- actions

  /** The state to come back to once a comment has closed. */
  function ResumeState(p: Parser): State {
    if Top(p) == ArrayMode || Top(p) == ObjectMode
    then (if p.state == VA || p.state == AR then p.state else OK)
    else p.state
  }

  function CommentFlushed(q: Parser): Outcome {
    if q.token == StringToken then Aborted(q.log)
    else Go(q.(beforeComment := ResumeState(q), token := NoToken, state := C1, comment := true))
  }

  function BeginComment(cfg: Config, p: Parser): Outcome {
    if !cfg.comments then Refused(p.log)
    else
      match Flush(cfg, p)
      case Go(q) => CommentFlushed(q)
      case stop => stop
  }

  function EndComment(p: Parser): Outcome {
    if p.buf != [] || p.token != NoToken then Aborted(p.log)
    else Go(p.(comment := false, state := p.beforeComment))
  }

  function BeginToken(p: Parser, token: Token, target: State): Outcome {
    if p.token != NoToken then Aborted(p.log) else Go(p.(token := token, state := target))
  }

  function BeginInteger(p: Parser, target: State): Outcome {
    Go(p.(token := IntegerToken, state := target))
  }

  function BeginFloat(cfg: Config, p: Parser, point: bool): Outcome {
    var n := |p.buf|;
    if IsLiteral(p.token) || p.token == StringToken then Aborted(p.log)
    else if !point then Go(p.(token := FloatToken, state := E1))
    else if cfg.manualFloats then Go(p.(token := FloatToken, state := FX))
    else if n == 0 || p.buf[n - 1] != '.' as int then Aborted(p.log)
    else Go(p.(token := FloatToken, state := FX, buf := p.buf[n - 1 := cfg.decimalPoint]))
  }

  /** An opening bracket. */
  function Open(cfg: Config, p: Parser, event: Event, mode: Mode, target: State): Outcome {
    match PopBack(p)
    case Go(q) =>
      (match Push(cfg, Tell(cfg, q, event), mode)
       case Go(r) => if r.token != NoToken then Aborted(r.log) else Go(r.(state := target))
       case stop => stop)
    case stop => stop
  }

  function CloseFlushed(cfg: Config, q: Parser, event: Event, mode: Mode): Outcome {
    match Pop(Tell(cfg, q, event), mode)
    case Go(r) => Go(r.(token := NoToken, state := OK))
    case stop => stop
  }

  /** A closing bracket after at least one member, or of an array in any case. */
  function Close(cfg: Config, p: Parser, event: Event, mode: Mode): Outcome {
    match Flush(cfg, p)
    case Go(q) => CloseFlushed(cfg, q, event, mode)
    case stop => stop
  }

  /** The closing brace of an object without members. */
  function CloseEmptyObject(cfg: Config, p: Parser): Outcome {
    match Pop(Tell(cfg, p.(buf := []), EndObject), KeyMode)
    case Go(r) => Go(r.(state := OK))
    case stop => stop
  }

  function EndKey(cfg: Config, q: Parser): Outcome {
    if q.token != StringToken then Aborted(q.log)
    else Go(Tell(cfg, q, KeyName(q.buf)).(token := NoToken, state := CO, buf := []))
  }

  function EndText(cfg: Config, q: Parser): Outcome {
    if q.token != StringToken then Aborted(q.log)
    else
      match EmitToken(cfg, q)
      case Go(r) => Go(r.(token := NoToken, state := OK))
      case stop => stop
  }

  function EndString(cfg: Config, p: Parser): Outcome {
    match PopBack(p)
    case Go(q) =>
      (match Top(q)
       case DoneMode => Refused(q.log)
       case KeyMode => EndKey(cfg, q)
       case _ => EndText(cfg, q))
    case stop => stop
  }

  function Flip(cfg: Config, p: Parser, from: Mode, into: Mode): Outcome {
    match Pop(p, from)
    case Go(q) => Push(cfg, q, into)
    case stop => stop
  }

  function NextFlushed(cfg: Config, q: Parser): Outcome {
    match Top(q)
    case ObjectMode =>
      (match Flip(cfg, q, ObjectMode, KeyMode)
       case Go(r) =>
         if r.token == StringToken then Aborted(r.log) else Go(r.(token := NoToken, state := KE))
       case stop => stop)
    case ArrayMode =>
      if q.token == StringToken then Aborted(q.log) else Go(q.(token := NoToken, state := VA))
    case _ => Refused(q.log)
  }

  function NextMember(cfg: Config, p: Parser): Outcome {
    match Flush(cfg, p)
    case Go(q) => NextFlushed(cfg, q)
    case stop => stop
  }

  function AfterKey(cfg: Config, p: Parser): Outcome {
    match PopBack(p)
    case Go(q) =>
      (match Flip(cfg, q, KeyMode, ObjectMode)
       case Go(r) => if r.token != NoToken then Aborted(r.log) else Go(r.(state := VA))
       case stop => stop)
    case stop => stop
  }

  function ReadUnicode(p: Parser): Outcome {
    match Decode(p)
    case Go(q) => Go(q.(state := if q.high != 0 then D1 else ST))
    case stop => stop
  }

  /** Carries out a table entry on a parser whose buffer already holds the character. */
  function Act(cfg: Config, p: Parser, entry: Entry): Outcome {
    match entry
    case Error => Refused(p.log)
    case To(target) => Go(p.(state := target))
    case UnicodeRead => ReadUnicode(p)
    case Escape => Go(p.(escaped := true, state := ES))
    case IntegerByMinus => BeginInteger(p, MI)
    case IntegerByZero => BeginInteger(p, ZE)
    case IntegerByDigit => BeginInteger(p, IT)
    case FloatByExponent => BeginFloat(cfg, p, false)
    case FloatByPoint => BeginFloat(cfg, p, true)
    case StringBegin => BeginToken(p.(buf := []), StringToken, ST)
    case NullBegin => BeginToken(p, NullToken, N1)
    case FalseBegin => BeginToken(p, FalseToken, F1)
    case TrueBegin => BeginToken(p, TrueToken, T1)
    case CommentEnd => EndComment(p)
    case CommentBegin => BeginComment(cfg, p)
    case EmptyObjectEnd => CloseEmptyObject(cfg, p)
    case ObjectEnd => Close(cfg, p, EndObject, ObjectMode)
    case ArrayEnd => Close(cfg, p, EndArray, ArrayMode)
    case ObjectBegin => Open(cfg, p, BeginObject, KeyMode, OB)
    case ArrayBegin => Open(cfg, p, BeginArray, ArrayMode, AR)
    case StringEnd => EndString(cfg, p)
    case Comma => NextMember(cfg, p)
    case Colon => AfterKey(cfg, p)
  }

  // ----- steps and runs

  /** One character code, with a callback that lets parsing go on. */
  function Step(cfg: Config, p: Parser, c: int): Outcome {
    if c < 0 then Refused(p.log)
    else
      match ClassOf(c)
      case None => Refused(p.log)
      case Some(k) =>
        match AddChar(p, c, k)
        case Go(q) => Act(cfg, q, Transition(p.state, k))
        case stop => stop
  }

  function Run(cfg: Config, p: Parser, s: seq<int>): Outcome
    decreases |s|
  {
    if s == [] then Go(p)
    else
      match Step(cfg, p, s[0])
      case Go(q) => Run(cfg, q, s[1..])
      case stop => stop
  }

  /** What the end-of-text call requires. */
  predicate Finished(p: Parser) {
    (p.state == OK || p.state == GO) && p.modes != [] && Top(p) == DoneMode
  }

  predicate Accepted(cfg: Config, p: Parser, s: seq<int>) {
    var o := Run(cfg, p, s);
    o.Go? && Finished(o.next)
  }

  /** A run over a concatenation is the run over its second part from where the first ends. */
  lemma {:induction false} RunConcat(cfg: Config, p: Parser, a: seq<int>, b: seq<int>)
    ensures Run(cfg, p, a + b) ==
            match Run(cfg, p, a)
            case Go(q) => Run(cfg, q, b)
            case stop => stop
    decreases |a|
  {
    if a == [] {
      assert a + b == b;
    } else {
      assert (a + b)[1..] == a[1..] + b;
      match Step(cfg, p, a[0])
      case Go(q) => RunConcat(cfg, q, a[1..], b);
      case stop =>
    }
  }

  lemma RunOne(cfg: Config, p: Parser, c: int)
    ensures Run(cfg, p, [c]) == Step(cfg, p, c)
  {
    match Step(cfg, p, c)
    case Go(q) => assert Run(cfg, q, [c][1..]) == Go(q);
    case stop =>
  }

  /** `q` is `p` with one more character in the buffer. */
  predicate Stored(p: Parser, q: Parser) {
    |q.buf| == |p.buf| + 1 && q == p.(buf := p.buf + [q.buf[|p.buf|]])
  }

  /** The report that a pending token still owes. */
  function Pending(cfg: Config, p: Parser): seq<Event> {
    if cfg.listening && p.token != NoToken then [TokenEvent(cfg, p.token, p.buf)] else []
  }

  lemma FlushStored(cfg: Config, p: Parser, q: Parser)
    requires Stored(p, q)
    ensures Flush(cfg, q) ==
            if cfg.listening && IsLiteral(p.token) then Aborted(p.log)
            else Go(p.(buf := [], log := p.log + Pending(cfg, p)))
  {
    assert q.buf[..|q.buf| - 1] == p.buf;
    assert PopBack(q) == Go(p);
    assert p.log + [] == p.log;
  }

  // ----- callbacks that may stop the parser

  /** A callback answers after every event; its answer may depend on all it has been told. */
  type Verdicts = seq<Event> -> bool

  /** The events of `log` after the first `n`, up to the first one the callback refuses. */
  function HeardOf(accept: Verdicts, log: seq<Event>, n: nat): seq<Event>
    requires n <= |log|
    decreases |log| - n
  {
    if n == |log| || !accept(log[..n + 1]) then log[..if n == |log| then n else n + 1]
    else HeardOf(accept, log, n + 1)
  }

  predicate Welcome(accept: Verdicts, log: seq<Event>, n: nat) {
    forall k :: n < k <= |log| ==> accept(log[..k])
  }

  /** The outcome of a step that starts with `n` events told, when the callback can refuse. */
  function Heard(accept: Verdicts, n: nat, o: Outcome): (r: Outcome)
    ensures r.Refused? || r == o
  {
    if n > |LogOf(o)| || Welcome(accept, LogOf(o), n) then o
    else Refused(HeardOf(accept, LogOf(o), n))
  }

  function StepHeard(cfg: Config, accept: Verdicts, p: Parser, c: int): Outcome {
    Heard(accept, |p.log|, Step(cfg, p, c))
  }

  function RunHeard(cfg: Config, accept: Verdicts, p: Parser, s: seq<int>): Outcome
    decreases |s|
  {
    if s == [] then Go(p)
    else
      match StepHeard(cfg, accept, p, s[0])
      case Go(q) => RunHeard(cfg, accept, q, s[1..])
      case stop => stop
  }

  lemma HeardQuiet(accept: Verdicts, n: nat, o: Outcome)
    requires |LogOf(o)| <= n
    ensures Heard(accept, n, o) == o
  {
  }

  lemma HeardAfterOne(accept: Verdicts, base: seq<Event>, e: Event, o: Outcome)
    requires LogOf(o) == base + [e]
    ensures Heard(accept, |base|, o) == if accept(LogOf(o)) then o else Refused(LogOf(o))
  {
    assert LogOf(o)[..|base| + 1] == LogOf(o);
  }

  /** A step that goes on from `q` is heard from `q` on, if all before was welcome. */
  lemma HeardThen(accept: Verdicts, n: nat, q: Parser, o: Outcome)
    requires n <= |q.log| && q.log <= LogOf(o)
    ensures Heard(accept, n, o) ==
            match Heard(accept, n, Go(q))
            case Go(r) => Heard(accept, |q.log|, o)
            case stop => stop
  {
    var log := LogOf(o);
    assert forall k :: 0 <= k <= |q.log| ==> log[..k] == q.log[..k];
    HeardOfThen(accept, n, q.log, log);
    if Welcome(accept, q.log, n) && Welcome(accept, log, |q.log|) {
      forall k | n < k <= |log| ensures accept(log[..k]) {
        if k <= |q.log| { assert log[..k] == q.log[..k]; }
      }
    }
  }

  lemma {:induction false} HeardOfThen(accept: Verdicts, n: nat, a: seq<Event>, b: seq<Event>)
    requires n <= |a| && a <= b
    ensures HeardOf(accept, b, n) ==
            if Welcome(accept, a, n) then HeardOf(accept, b, |a|) else HeardOf(accept, a, n)
    decreases |a| - n
  {
    if n < |a| {
      assert b[..n + 1] == a[..n + 1];
      if accept(a[..n + 1]) {
        HeardOfThen(accept, n + 1, a, b);
        assert Welcome(accept, a, n) <==> Welcome(accept, a, n + 1);
      }
    }
  }

  /** The same for a step that first flushes the pending token. */
  lemma HeardAfterFlush(cfg: Config, accept: Verdicts, p: Parser, o: Outcome)
    requires
      match Flush(cfg, p)
      case Go(q) => q.log <= LogOf(o)
      case stop => o == stop
    ensures Heard(accept, |p.log|, o) ==
            match Heard(accept, |p.log|, Flush(cfg, p))
            case Go(q) => Heard(accept, |q.log|, o)
            case stop => stop
  {
    hide Heard;
    var flushed := Flush(cfg, p);
    if flushed.Go? {
      HeardThen(accept, |p.log|, flushed.next, o);
    } else {
      HeardQuiet(accept, |p.log|, o);
    }
  }

  lemma CloseFlushedLog(cfg: Config, p: Parser, event: Event, mode: Mode)
    ensures Flush(cfg, p).Go? ==>
              Flush(cfg, p).next.log <= LogOf(CloseFlushed(cfg, Flush(cfg, p).next, event, mode))
  {
  }

  lemma NextFlushedLog(cfg: Config, p: Parser)
    ensures Flush(cfg, p).Go? ==>
              LogOf(NextFlushed(cfg, Flush(cfg, p).next)) == Flush(cfg, p).next.log
  {
  }
}
