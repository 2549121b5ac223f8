/** The JSON parser as the source has it: an object with a mode stack and a growing token
    buffer, both written in place.  Its methods are proved against JsonSpec. */
module JsonMachine {
  import opened Wrappers
  import opened JsonTables
  import opened JsonSpec
  import opened JsonInvariant
  import JsonHeard

  const STACK_SIZE := 128
  const PARSE_BUFFER_SIZE := 3500

  datatype Reply = Continue | Refuse | Abort

  class JsonParser {
    const depth: nat
    const comments: bool
    const manualFloats: bool
    const decimalPoint: int
    const callback: Option<Verdicts>

    var state: State
    var beforeComment: State
    var token: Token
    var escaped: bool
    var comment: bool
    var high: int
    var stack: array<Mode>
    var top: int
    var buffer: array<int>
    var count: nat
    var log: seq<Event>

    function Cfg(): Config {
      Config(depth, comments, manualFloats, decimalPoint, callback.Some?)
    }

    function Accept(): Verdicts {
      if callback.Some? then callback.value else (_ => true)
    }

    /** The arrays are big enough. */
    ghost predicate Room()
      reads this
    {
      && 1 <= depth < STACK_SIZE
      && stack.Length == STACK_SIZE && -1 <= top <= depth
      && PARSE_BUFFER_SIZE <= buffer.Length && count < buffer.Length
    }

    /** The buffer also holds a terminating zero. */
    ghost predicate Shape()
      reads this, buffer
    {
      Room() && buffer[count] == 0
    }

    ghost function Abs(): (p: Parser)
      requires Room()
      reads this, stack, buffer
    {
      Parser(state, beforeComment, token, escaped, comment, high,
             stack[..top + 1], buffer[..count], log)
    }

    ghost predicate Valid()
      reads this, stack, buffer
    {
      Shape() && Inv(Cfg(), Abs())
    }

    /** The object and its answer are what an outcome of the specification says. */
    ghost predicate Realizes(o: Outcome, r: Reply)
      reads this, stack, buffer
    {
      match o
      case Go(p) => r == Continue && Shape() && Abs() == p
      case Refused(events) => r == Refuse && log == events
      case Aborted(events) => r == Abort && log == events
    }

    constructor (depth: nat, comments: bool, manualFloats: bool, decimalPoint: int,
                 callback: Option<Verdicts>)
      requires depth < STACK_SIZE
      ensures this.depth == (if depth == 0 then 1 else depth)
      ensures this.comments == comments && this.manualFloats == manualFloats
      ensures this.decimalPoint == decimalPoint && this.callback == callback
      ensures Valid() && fresh(stack) && fresh(buffer) && Abs() == Initial
    {
      this.depth := if depth == 0 then 1 else depth;
      this.comments, this.manualFloats := comments, manualFloats;
      this.decimalPoint, this.callback := decimalPoint, callback;
      state, beforeComment, token := GO, GO, NoToken;
      escaped, comment, high := false, false, 0;
      stack, top := new Mode[STACK_SIZE], -1;
      buffer, count := new int[PARSE_BUFFER_SIZE], 0;
      log := [];
      new;
      top := top + 1;
      stack[top] := DoneMode;
      buffer[0] := 0;
      InitialInv(Cfg());
    }

    // ----- mode stack

    method Push(mode: Mode) returns (ok: bool)
      requires Shape()
      modifies this`top, stack
      ensures Shape()
      ensures JsonSpec.Push(Cfg(), old(Abs()), mode) ==
              if ok then Go(Abs()) else Refused(log)
      ensures !ok ==> Abs() == old(Abs())
      ensures buffer[..count] == old(buffer[..count])
    {
      if top == depth { return false; }
      top := top + 1;
      stack[top] := mode;
      return true;
    }

    method Pop(mode: Mode) returns (ok: bool)
      requires Shape()
      modifies this`top
      ensures Shape()
      ensures JsonSpec.Pop(old(Abs()), mode) ==
              if ok then Go(Abs()) else Refused(log)
      ensures !ok ==> Abs() == old(Abs())
    {
      if top < 0 || stack[top] != mode { return false; }
      top := top - 1;
      return true;
    }

    // ----- token buffer

    method ClearBuffer()
      requires Shape()
      modifies this`count, buffer
      ensures Shape() && Abs() == old(Abs()).(buf := [])
    {
      count := 0;
      buffer[0] := 0;
    }

    method PopBackChar()
      requires Room() && count >= 1
      modifies this`count, buffer
      ensures Shape() && count == old(count) - 1 && JsonSpec.PopBack(old(Abs())) == Go(Abs())
    {
      assert count >= 1;
      count := count - 1;
      buffer[count] := 0;
    }

    method PushBackChar(c: int)
      requires Room() && count + 2 <= buffer.Length
      modifies this`count, buffer
      ensures Shape() && count == old(count) + 1 && Abs() == old(Abs()).(buf := old(Abs()).buf + [c])
    {
      buffer[count] := c;
      count := count + 1;
      buffer[count] := 0;
    }

    /** Doubles the buffer; only the bytes in use are copied. */
    method Grow()
      requires count <= buffer.Length && 0 < buffer.Length
      modifies this`buffer
      ensures fresh(buffer) && buffer.Length == 2 * old(buffer.Length)
      ensures buffer[..count] == old(buffer[..count])
    {
      var larger := new int[2 * buffer.Length];
      forall i | 0 <= i < count { larger[i] := buffer[i]; }
      buffer := larger;
    }

    /** Makes room for `chars` more characters and a zero.  The bytes in use are kept, but a
        buffer that grew has lost its zero. */
    method ReserveFor(chars: nat)
      requires Shape()
      modifies this`buffer
      ensures Room() && count + chars + 1 <= buffer.Length && Abs() == old(Abs())
      ensures if old(count + chars + 1 <= buffer.Length) then buffer == old(buffer) else fresh(buffer)
    {
      while count + chars + 1 > buffer.Length
        invariant count <= buffer.Length && PARSE_BUFFER_SIZE <= buffer.Length
        invariant if old(count + chars + 1 <= buffer.Length) then buffer == old(buffer)
                  else buffer == old(buffer) || fresh(buffer)
        invariant buffer[..count] == old(buffer[..count])
        decreases count + chars + 1 - buffer.Length
      {
        Grow();
      }
    }

    method AddEscapedChar(c: int) returns (ok: bool)
      requires Room() && 1 <= count && count + 2 <= buffer.Length
      modifies this`escaped, this`count, buffer
      ensures Shape()
      ensures JsonSpec.AddEscaped(old(Abs()), c) == if ok then Go(Abs()) else Refused(log)
    {
      escaped := false;
      PopBackChar();
      var code;
      if c == 'b' as int {
        code := 8;
      } else if c == 'f' as int {
        code := 12;
      } else if c == 'n' as int {
        code := 10;
      } else if c == 'r' as int {
        code := 13;
      } else if c == 't' as int {
        code := 9;
      } else if c == '"' as int {
        code := '"' as int;
      } else if c == '\\' as int {
        code := '\\' as int;
      } else if c == '/' as int {
        code := '/' as int;
      } else if c == 'u' as int {
        code := '\\' as int;
      } else {
        return false;
      }
      PushBackChar(code);
      if c == 'u' as int {
        PushBackChar('u' as int);
      }
      return true;
    }

    method AddCharToBuffer(c: int, k: Class) returns (ok: bool)
      requires Valid()
      modifies this`escaped, this`count, this`buffer, buffer
      ensures buffer == old(buffer) || fresh(buffer)
      ensures Shape()
      ensures JsonSpec.AddChar(old(Abs()), c, k) ==
              if ok then Go(Abs()) else Refused(log)
    {
      hide Inv, JsonSpec.AddChar;
      BufferEmpty(Cfg(), Abs());
      ReserveFor(1);
      ok := StoreChar(c, k);
    }

    /** Stores a character where there is room for it: as the end of an escape, as it is, or
        not at all. */
    method StoreChar(c: int, k: Class) returns (ok: bool)
      requires Room() && count + 2 <= buffer.Length && (escaped ==> count >= 1)
      requires comment || token == NoToken ==> Shape()
      modifies this`escaped, this`count, buffer
      ensures Shape()
      ensures JsonSpec.AddChar(old(Abs()), c, k) == if ok then Go(Abs()) else Refused(log)
    {
      hide JsonSpec.AddEscaped, IsWhite;
      if escaped {
        ok := AddEscapedChar(c);
        return;
      }
      if !comment && (token != NoToken || !IsWhite(k)) {
        PushBackChar(c % 256);
      }
      return true;
    }

    // ----- the callback

    method Call(event: Event) returns (ok: bool)
      requires callback.Some?
      modifies this`log
      ensures log == old(log) + [event] && ok == callback.value(log)
    {
      log := log + [event];
      ok := callback.value(log);
    }

    /** The source's `jc->callback && !callback(..)` test, the other way round. */
    method TellBracket(event: Event) returns (ok: bool)
      requires Room()
      modifies this`log
      ensures Abs() == Tell(Cfg(), old(Abs()), event)
      ensures ok == (callback.Some? ==> callback.value(log))
    {
      if callback.None? { return true; }
      ok := Call(event);
    }

    /** Reports the pending token, if there is a callback, and clears the buffer. */
    method ParseParseBuffer() returns (r: Reply)
      requires Shape()
      modifies this`count, this`log, buffer
      ensures Realizes(Heard(Accept(), old(|log|), EmitToken(Cfg(), old(Abs()))), r)
      ensures r == Continue ==> Shape()
    {
      hide IntegerOf, TrimRight, Heard;
      ghost var o := EmitToken(Cfg(), Abs());
      if callback.Some? && token != NoToken {
        assert token == NullToken || token == FalseToken || token == TrueToken || token == FloatToken
            || token == IntegerToken || token == StringToken;
        var event;
        if token == FloatToken {
          event := FloatValue(if manualFloats then buffer[..count] else TrimRight(buffer[..count]));
        } else if token == IntegerToken {
          event := IntegerValue(IntegerOf(buffer[..count]));
        } else if token == StringToken {
          event := StringValue(buffer[..count]);
        } else {
          HeardQuiet(Accept(), |log|, o);
          return Abort;
        }
        HeardAfterOne(Accept(), log, event, o);
        var ok := Call(event);
        if !ok { return Refuse; }
      } else {
        HeardQuiet(Accept(), |log|, o);
      }
      ClearBuffer();
      return Continue;
    }

    // ----- actions

    /** Drops the current character and reports the token before it. */
    method FlushToken() returns (r: Reply)
      requires Shape() && count >= 1
      modifies this`count, this`log, buffer
      ensures Realizes(Heard(Accept(), old(|log|), Flush(Cfg(), old(Abs()))), r)
      ensures r == Continue ==> Shape() && count == 0
    {
      PopBackChar();
      r := ParseParseBuffer();
    }

    method BeginComment() returns (r: Reply)
      requires Shape() && count >= 1 && token != StringToken && 0 <= top
      modifies this`beforeComment, this`token, this`state, this`comment, this`count, this`log, buffer
      ensures Realizes(Heard(Accept(), old(|log|), JsonSpec.BeginComment(Cfg(), old(Abs()))), r)
    {
      hide Flush, Heard;
      ghost var o := JsonSpec.BeginComment(Cfg(), Abs());
      if !comments { HeardQuiet(Accept(), |log|, o); return Refuse; }
      HeardAfterFlush(Cfg(), Accept(), Abs(), o);
      r := FlushToken();
      if r != Continue { return; }
      HeardQuiet(Accept(), |log|, o);
      CommentFlushed();
    }

    method CommentFlushed()
      requires Shape() && count == 0 && token != StringToken && 0 <= top
      modifies this`beforeComment, this`token, this`state, this`comment
      ensures Shape() && JsonSpec.CommentFlushed(old(Abs())) == Go(Abs())
    {
      hide Top, InContainer;
      assert count == 0;
      assert token != StringToken;
      ghost var before := Abs();
      TopIs();
      if stack[top] == ArrayMode || stack[top] == ObjectMode {
        beforeComment := if state == VA || state == AR then state else OK;
      } else {
        beforeComment := state;
      }
      token := NoToken;
      state := C1;
      comment := true;
    }

    lemma TopIs()
      requires Room() && 0 <= top
      ensures Top(Abs()) == stack[top]
      ensures InContainer(Top(Abs())) <==> stack[top] == ArrayMode || stack[top] == ObjectMode
    {
    }

    method EndComment()
      requires Shape() && token == NoToken && count == 0
      modifies this`comment, this`state
      ensures Shape() && JsonSpec.EndComment(old(Abs())) == Go(Abs())
    {
      comment := false;
      assert count == 0;
      assert token == NoToken;
      state := beforeComment;
    }

    /** The two closing brackets that may follow a pending token. */
    method Close(event: Event, mode: Mode) returns (r: Reply)
      requires Shape() && count >= 1
      modifies this`top, this`token, this`state, this`count, this`log, buffer
      ensures Realizes(Heard(Accept(), old(|log|), JsonSpec.Close(Cfg(), old(Abs()), event, mode)), r)
    {
      hide Flush, Heard, JsonSpec.CloseFlushed;
      CloseFlushedLog(Cfg(), Abs(), event, mode);
      HeardAfterFlush(Cfg(), Accept(), Abs(), JsonSpec.Close(Cfg(), Abs(), event, mode));
      r := FlushToken();
      if r != Continue { return; }
      r := CloseFlushed(event, mode);
    }

    method CloseFlushed(event: Event, mode: Mode) returns (r: Reply)
      requires Shape()
      modifies this`top, this`token, this`state, this`log
      ensures Realizes(Heard(Accept(), old(|log|), JsonSpec.CloseFlushed(Cfg(), old(Abs()), event, mode)), r)
    {
      hide Heard;
      HeardBracket(log, event, JsonSpec.CloseFlushed(Cfg(), Abs(), event, mode));
      var ok := TellBracket(event);
      if !ok { return Refuse; }
      ok := Pop(mode);
      if !ok { return Refuse; }
      token := NoToken;
      state := OK;
      return Continue;
    }

    method CloseEmptyObject() returns (r: Reply)
      requires Shape()
      modifies this`top, this`state, this`count, this`log, buffer
      ensures Realizes(Heard(Accept(), old(|log|), JsonSpec.CloseEmptyObject(Cfg(), old(Abs()))), r)
    {
      ghost var o := JsonSpec.CloseEmptyObject(Cfg(), Abs());
      HeardBracket(log, EndObject, o);
      ClearBuffer();
      var ok := TellBracket(EndObject);
      if !ok { return Refuse; }
      ok := Pop(KeyMode);
      if !ok { return Refuse; }
      state := OK;
      return Continue;
    }

    lemma HeardBracket(base: seq<Event>, event: Event, o: Outcome)
      requires LogOf(o) == if callback.Some? then base + [event] else base
      ensures Heard(Accept(), |base|, o) ==
              if callback.Some? && !callback.value(LogOf(o)) then Refused(LogOf(o)) else o
    {
      if callback.Some? {
        HeardAfterOne(Accept(), base, event, o);
      } else {
        HeardQuiet(Accept(), |base|, o);
      }
    }

    method Open(event: Event, mode: Mode, target: State) returns (r: Reply)
      requires Shape() && count >= 1 && token == NoToken
      modifies this`top, this`state, this`count, this`log, stack, buffer
      ensures Realizes(Heard(Accept(), old(|log|), JsonSpec.Open(Cfg(), old(Abs()), event, mode, target)), r)
    {
      hide Heard;
      ghost var o := JsonSpec.Open(Cfg(), Abs(), event, mode, target);
      HeardBracket(log, event, o);
      PopBackChar();
      var ok := TellBracket(event);
      if !ok { return Refuse; }
      ok := Push(mode);
      if !ok { return Refuse; }
      assert token == NoToken;
      state := target;
      return Continue;
    }

    method EndKey() returns (r: Reply)
      requires Shape() && token == StringToken
      modifies this`token, this`state, this`count, this`log, buffer
      ensures Realizes(Heard(Accept(), old(|log|), JsonSpec.EndKey(Cfg(), old(Abs()))), r)
    {
      hide Heard;
      HeardBracket(log, KeyName(buffer[..count]), JsonSpec.EndKey(Cfg(), Abs()));
      assert token == StringToken;
      token := NoToken;
      state := CO;
      var ok := TellBracket(KeyName(buffer[..count]));
      if !ok { return Refuse; }
      ClearBuffer();
      return Continue;
    }

    method EndText() returns (r: Reply)
      requires Shape() && token == StringToken
      modifies this`token, this`state, this`count, this`log, buffer
      ensures Realizes(Heard(Accept(), old(|log|), JsonSpec.EndText(Cfg(), old(Abs()))), r)
    {
      hide HeardOf, Welcome;
      assert token == StringToken;
      r := ParseParseBuffer();
      if r != Continue { return; }
      token := NoToken;
      state := OK;
    }

    method EndString() returns (r: Reply)
      requires Shape() && count >= 1 && token == StringToken
      requires 0 <= top && stack[top] != DoneMode
      modifies this`token, this`state, this`count, this`log, buffer
      ensures Realizes(Heard(Accept(), old(|log|), JsonSpec.EndString(Cfg(), old(Abs()))), r)
    {
      hide Heard, JsonSpec.EndKey, JsonSpec.EndText;
      PopBackChar();
      if stack[top] == KeyMode {
        r := EndKey();
      } else if stack[top] == ArrayMode || stack[top] == ObjectMode {
        r := EndText();
      } else {
        assert false;
      }
    }

    method NextFlushed() returns (r: Reply)
      requires Shape() && token != StringToken && 0 <= top
      modifies this`top, this`token, this`state, stack
      ensures Realizes(JsonSpec.NextFlushed(Cfg(), old(Abs())), r)
    {
      match stack[top] {
        case ObjectMode =>
          var ok := Pop(ObjectMode);
          if ok { ok := Push(KeyMode); }
          if !ok { return Refuse; }
          assert token != StringToken;
          token := NoToken;
          state := KE;
        case ArrayMode =>
          assert token != StringToken;
          token := NoToken;
          state := VA;
        case _ =>
          return Refuse;
      }
      return Continue;
    }

    method NextMember() returns (r: Reply)
      requires Shape() && count >= 1 && token != StringToken && 0 <= top
      modifies this`top, this`token, this`state, this`count, this`log, stack, buffer
      ensures Realizes(Heard(Accept(), old(|log|), JsonSpec.NextMember(Cfg(), old(Abs()))), r)
    {
      hide Flush, Heard, JsonSpec.NextFlushed;
      ghost var o := JsonSpec.NextMember(Cfg(), Abs());
      NextFlushedLog(Cfg(), Abs());
      HeardAfterFlush(Cfg(), Accept(), Abs(), o);
      r := FlushToken();
      if r != Continue { return; }
      HeardQuiet(Accept(), |log|, o);
      r := NextFlushed();
    }

    method AfterKey() returns (r: Reply)
      requires Shape() && count >= 1 && token == NoToken
      modifies this`top, this`state, this`count, stack, buffer
      ensures Realizes(JsonSpec.AfterKey(Cfg(), old(Abs())), r)
    {
      PopBackChar();
      var ok := Pop(KeyMode);
      if ok { ok := Push(ObjectMode); }
      if !ok { return Refuse; }
      assert token == NoToken;
      state := VA;
      return Continue;
    }

    method BeginFloat(point: bool) returns (r: Reply)
      requires Shape() && token == IntegerToken
      requires point ==> count >= 1 && buffer[count - 1] == '.' as int
      modifies this`token, this`state, buffer
      ensures Realizes(JsonSpec.BeginFloat(Cfg(), old(Abs()), point), r)
    {
      assert token != FalseToken;
      assert token != TrueToken;
      assert token != NullToken;
      assert token != StringToken;
      if point && !manualFloats {
        assert buffer[count - 1] == '.' as int;
        buffer[count - 1] := decimalPoint;
      }
      token := FloatToken;
      state := if point then FX else E1;
      return Continue;
    }

    // ----- \uXXXX

    /** The four stored digits, most significant first. */
    method ReadCodeUnit(from: nat) returns (u: int)
      requires Room() && from + 4 == count && AllHex(buffer[from..count])
      ensures u == CodeUnit(buffer[from..count]) && 0 <= u < 0x10000
    {
      u := 0;
      var p, weight := from, 0x1000;
      assert forall i :: 0 <= i < 4 ==> buffer[from..count][i] == buffer[from + i];
      while p < from + 4
        invariant from <= p <= from + 4
        invariant weight == if p == from then 0x1000 else if p == from + 1 then 0x100
                            else if p == from + 2 then 0x10 else if p == from + 3 then 1 else 0
        invariant u == (if p > from then HexOf(buffer[from]) * 0x1000 else 0)
                     + (if p > from + 1 then HexOf(buffer[from + 1]) * 0x100 else 0)
                     + (if p > from + 2 then HexOf(buffer[from + 2]) * 0x10 else 0)
                     + (if p > from + 3 then HexOf(buffer[from + 3]) else 0)
      {
        var x := buffer[p];
        if x >= 'a' as int {
          x := x - ('a' as int - 10);
        } else if x >= 'A' as int {
          x := x - ('A' as int - 10);
        } else {
          x := x % 16 + x / 64 * 64;
        }
        assert x == HexOf(buffer[from..count][p - from]);
        assert x < 16;
        u := u + x * weight;
        weight := weight / 16;
        p := p + 1;
      }
    }

    method AppendByte(x: int)
      requires Room() && count + 1 < buffer.Length
      modifies this`count, buffer
      ensures Room() && count == old(count) + 1
      ensures buffer[..count] == old(buffer[..count]) + [x]
    {
      buffer[count] := x;
      count := count + 1;
    }

    /** Appends the UTF-8 form of `u` with the given number of continuation bytes. */
    method AppendEncoded(u: int, trail: nat)
      requires Room() && trail <= 3 && count + 4 < buffer.Length
      modifies this`count, buffer
      ensures Shape() && Abs() == old(Abs()).(buf := old(Abs()).buf + Encoded(u, trail))
    {
      hide Shifted, Continuation, Encoded;
      ghost var kept := buffer[..count];
      AppendByte(Lead(trail) + Shifted(u, trail));
      var i := trail;
      EncodedFirst(kept, u, trail);
      while i > 0
        invariant 0 <= i <= trail && Room() && count + i < buffer.Length
        invariant buffer[..count] + Continuation(u, i) == kept + Encoded(u, trail)
      {
        i := i - 1;
        EncodedNext(buffer[..count], u, i);
        AppendByte(0x80 + Shifted(u, i) % 64);
      }
      EncodedLast(buffer[..count], u);
      buffer[count] := 0;
    }

    method DecodeUnicodeChar() returns (ok: bool)
      requires Shape() && count >= 6 && AllHex(buffer[count - 4..count])
      modifies this`high, this`count, buffer
      ensures Shape()
      ensures Decode(old(Abs())) == if ok then Go(Abs()) else Refused(log)
    {
      hide Encoded, CodeUnit, HexOf, SurrogatePair;
      assert count >= 6;
      ghost var before := Abs();
      assert before.buf[count - 4..] == buffer[count - 4..count];
      var u := ReadCodeUnit(count - 4);
      count := count - 6;
      buffer[count] := 0;
      assert buffer[..count] == before.buf[..count];
      if high != 0 {
        if IsLowSurrogate(u) {
          u := SurrogatePair(high, u);
          high := 0;
          AppendEncoded(u, 3);
        } else {
          return false;
        }
      } else if u < 0x80 {
        AppendEncoded(u, 0);
      } else if u < 0x800 {
        AppendEncoded(u, 1);
      } else if IsHighSurrogate(u) {
        high := u;
      } else if IsLowSurrogate(u) {
        return false;
      } else {
        AppendEncoded(u, 2);
      }
      return true;
    }

    // ----- one character

    method Perform(entry: Entry) returns (r: Reply)
      requires Shape() && 0 <= top && Needs(Abs(), entry)
      modifies this, stack, buffer
      ensures stack == old(stack) && buffer == old(buffer)
      ensures Realizes(Heard(Accept(), old(|log|), Act(Cfg(), old(Abs()), entry)), r)
    {
      hide JsonSpec.Close, JsonSpec.NextMember, JsonSpec.Open, JsonSpec.AfterKey, JsonSpec.CloseEmptyObject,
        JsonSpec.EndString, JsonSpec.BeginComment, JsonSpec.EndComment, Decode, JsonSpec.BeginFloat, Heard;
      ghost var o := Act(Cfg(), Abs(), entry);
      match entry {
        case ObjectEnd => r := Close(EndObject, ObjectMode);
        case ArrayEnd => r := Close(EndArray, ArrayMode);
        case ObjectBegin => r := Open(BeginObject, KeyMode, OB);
        case ArrayBegin => r := Open(BeginArray, ArrayMode, AR);
        case EmptyObjectEnd => r := CloseEmptyObject();
        case StringEnd => r := EndString();
        case Comma => r := NextMember();
        case CommentBegin => r := BeginComment();
        case _ =>
          r := PerformQuietly(entry);
          HeardQuiet(Accept(), old(|log|), o);
      }
    }

    /** The actions that never tell the callback anything. */
    method PerformQuietly(entry: Entry) returns (r: Reply)
      requires Shape() && 0 <= top && Needs(Abs(), entry)
      requires !IsBracketEntry(entry) || entry.Colon?
      requires !entry.StringEnd? && !entry.CommentBegin?
      modifies this, stack, buffer
      ensures stack == old(stack) && buffer == old(buffer)
      ensures Realizes(Act(Cfg(), old(Abs()), entry), r)
      ensures |LogOf(Act(Cfg(), old(Abs()), entry))| <= old(|log|)
    {
      hide JsonSpec.AfterKey, JsonSpec.EndComment, Decode, AllHex;
      QuietActs(Cfg(), Abs(), entry);
      if IsScalarEntry(entry) || entry.StringBegin? {
        r := PerformScalar(entry);
        return;
      }
      r := Continue;
      match entry {
        case Error => r := Refuse;
        case To(target) => state := target;
        case UnicodeRead =>
          var ok := DecodeUnicodeChar();
          if !ok { return Refuse; }
          state := if high != 0 then D1 else ST;
        case Escape =>
          escaped := true;
          state := ES;
        case CommentEnd => EndComment();
        case Colon => r := AfterKey();
      }
    }

    /** The actions that begin a token, or turn an integer into a float. */
    method PerformScalar(entry: Entry) returns (r: Reply)
      requires Shape() && Needs(Abs(), entry) && (IsScalarEntry(entry) || entry.StringBegin?)
      modifies this, stack, buffer
      ensures stack == old(stack) && buffer == old(buffer)
      ensures Realizes(Act(Cfg(), old(Abs()), entry), r)
    {
      hide JsonSpec.BeginFloat, JsonSpec.BeginToken;
      r := Continue;
      match entry {
        case IntegerByMinus => token, state := IntegerToken, MI;
        case IntegerByZero => token, state := IntegerToken, ZE;
        case IntegerByDigit => token, state := IntegerToken, IT;
        case FloatByExponent => r := BeginFloat(false);
        case FloatByPoint => r := BeginFloat(true);
        case StringBegin =>
          ClearBuffer();
          Begin(StringToken, ST);
        case NullBegin => Begin(NullToken, N1);
        case FalseBegin => Begin(FalseToken, F1);
        case TrueBegin => Begin(TrueToken, T1);
      }
    }

    /** No other token may be pending when one begins. */
    method Begin(kind: Token, target: State)
      requires Shape() && token == NoToken
      modifies this`token, this`state
      ensures Shape() && JsonSpec.BeginToken(old(Abs()), kind, target) == Go(Abs())
    {
      assert token == NoToken;
      token, state := kind, target;
    }

    /** Feeds one character code.  Answers Abort exactly where the source's assertion about
        literal tokens would stop the program. */
    method Char(c: int) returns (r: Reply)
      requires Valid()
      modifies this, stack, buffer
      ensures stack == old(stack) && (buffer == old(buffer) || fresh(buffer))
      ensures Realizes(StepHeard(Cfg(), Accept(), old(Abs()), c), r)
      ensures r == Continue ==> Valid()
    {
      hide Inv, Act, Heard, Transition, ClassOf;
      ghost var p := Abs();
      StepKeepsInv(Cfg(), p, c);
      if c < 0 || ClassOf(c).None? {
        HeardQuiet(Accept(), |log|, Step(Cfg(), p, c));
        return Refuse;
      }
      var k := ClassOf(c).value;
      var here := state;
      var ok := AddCharToBuffer(c, k);
      if !ok {
        HeardQuiet(Accept(), |log|, Step(Cfg(), p, c));
        return Refuse;
      }
      NeedsMet(Cfg(), p, c, k);
      r := Perform(Transition(here, k));
    }

    /** The end of the text. */
    method Done() returns (ok: bool)
      requires Valid()
      modifies this`top
      ensures ok <==> Finished(old(Abs()))
      ensures log == old(log)
    {
      if state == OK || state == GO {
        ok := Pop(DoneMode);
        return;
      }
      return false;
    }
  }

  /** These actions leave the log as it is. */
  lemma QuietActs(cfg: Config, p: Parser, entry: Entry)
    requires (!IsBracketEntry(entry) || entry.Colon?) && !entry.StringEnd? && !entry.CommentBegin?
    ensures LogOf(Act(cfg, p, entry)) == p.log
  {
    hide Decode;
    if entry.UnicodeRead? { JsonHeard.DecodeKeepsLog(p); }
  }

  /** With nothing pending the buffer is empty; an escape has its backslash there. */
  lemma BufferEmpty(cfg: Config, p: Parser)
    requires Inv(cfg, p)
    ensures p.token == NoToken ==> p.buf == []
    ensures p.comment ==> p.token == NoToken
    ensures p.escaped ==> p.buf != []
  {
    hide ModesOk, TopOk, ResumeOk, HighOk, AllHex;
  }
}
