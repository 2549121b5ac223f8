/** What of its configuration a parser's step depends on. */
module JsonAlike {
  import opened JsonTables
  import opened JsonSpec

  /** Configurations that tell the same; the depth and the wish for comments may differ. */
  predicate Alike(a: Config, b: Config) {
    a.listening == b.listening && a.manualFloats == b.manualFloats && a.decimalPoint == b.decimalPoint
  }

  /** Neither depth stops another push, or both stop the same ones. */
  predicate SameRoom(a: Config, b: Config, p: Parser) {
    a.depth == b.depth || (|p.modes| <= a.depth && |p.modes| <= b.depth)
  }

  lemma FlushKeepsModes(cfg: Config, p: Parser)
    ensures Flush(cfg, p).Go? ==> Flush(cfg, p).next.modes == p.modes
  {
  }

  lemma FlushAlike(a: Config, b: Config, p: Parser)
    requires Alike(a, b)
    ensures Flush(a, p) == Flush(b, p) && EmitToken(a, p) == EmitToken(b, p)
    ensures forall point :: BeginFloat(a, p, point) == BeginFloat(b, p, point)
  {
    hide TrimRight, IntegerOf;
  }

  lemma StringAlike(a: Config, b: Config, p: Parser)
    requires Alike(a, b)
    ensures EndString(a, p) == EndString(b, p)
  {
    hide EmitToken;
    if p.buf != [] { FlushAlike(a, b, PopBack(p).next); }
  }

  lemma CloseAlike(a: Config, b: Config, p: Parser, e: Event, mode: Mode)
    requires Alike(a, b)
    ensures CloseFlushed(a, p, e, mode) == CloseFlushed(b, p, e, mode)
    ensures CloseEmptyObject(a, p) == CloseEmptyObject(b, p)
  {
  }

  lemma OpenAlike(a: Config, b: Config, p: Parser, e: Event, mode: Mode, target: State)
    requires Alike(a, b) && SameRoom(a, b, p)
    ensures Open(a, p, e, mode, target) == Open(b, p, e, mode, target)
  {
  }

  lemma FlipAlike(a: Config, b: Config, p: Parser)
    requires SameRoom(a, b, p)
    ensures NextFlushed(a, p) == NextFlushed(b, p) && AfterKey(a, p) == AfterKey(b, p)
  {
  }

  lemma ActAlike(a: Config, b: Config, p: Parser, e: Entry)
    requires Alike(a, b) && SameRoom(a, b, p) && (e.CommentBegin? ==> a.comments == b.comments)
    ensures Act(a, p, e) == Act(b, p, e)
  {
    hide Flush, EndString, CloseFlushed, CloseEmptyObject, Open, NextFlushed, AfterKey, BeginFloat;
    FlushAlike(a, b, p);
    StringAlike(a, b, p);
    CloseAlike(a, b, p, EndArray, ArrayMode);
    FlushKeepsModes(a, p);
    if Flush(a, p).Go? {
      var q := Flush(a, p).next;
      CloseAlike(a, b, q, EndArray, ArrayMode);
      CloseAlike(a, b, q, EndObject, ObjectMode);
      FlipAlike(a, b, q);
    }
    FlipAlike(a, b, p);
    OpenAlike(a, b, p, BeginArray, ArrayMode, AR);
    OpenAlike(a, b, p, BeginObject, KeyMode, OB);
  }

  /** A step is the same in both, but for the beginning of a comment. */
  lemma StepAlike(a: Config, b: Config, p: Parser, c: int)
    requires Alike(a, b) && SameRoom(a, b, p)
    requires c >= 0 && ClassOf(c).Some? && Transition(p.state, ClassOf(c).value).CommentBegin? ==>
               a.comments == b.comments
    ensures Step(a, p, c) == Step(b, p, c)
  {
    hide Act, ClassOf, Transition;
    if c >= 0 && ClassOf(c).Some? && AddChar(p, c, ClassOf(c).value).Go? {
      ActAlike(a, b, AddChar(p, c, ClassOf(c).value).next, Transition(p.state, ClassOf(c).value));
    }
  }
}
