/** Which characters a parser without comments can take at each place: the converse of the
    step lemmas. */
module JsonInversion {
  import opened Wrappers
  import opened JsonTables
  import opened JsonSpec
  import opened JsonGrammar
  import opened JsonSteps
  import opened JsonComplete

  /** The codes that the single-character classes stand for. */
  function CodeOf(k: Class): int {
    match k
    case LCURB => '{' as int
    case RCURB => '}' as int
    case LSQRB => '[' as int
    case RSQRB => ']' as int
    case COLON => ':' as int
    case COMMA => ',' as int
    case QUOTE => '"' as int
    case BACKS => '\\' as int
    case SLASH => '/' as int
    case PLUS => '+' as int
    case MINUS => '-' as int
    case POINT => '.' as int
    case ZERO => '0' as int
    case LOW_A => 'a' as int
    case LOW_B => 'b' as int
    case LOW_E => 'e' as int
    case LOW_F => 'f' as int
    case LOW_L => 'l' as int
    case LOW_N => 'n' as int
    case LOW_R => 'r' as int
    case LOW_S => 's' as int
    case LOW_T => 't' as int
    case LOW_U => 'u' as int
    case CAP_E => 'E' as int
    case STAR => '*' as int
    case _ => -1
  }

  lemma ClassCode(c: nat)
    requires ClassOf(c).Some?
    ensures CodeOf(ClassOf(c).value) >= 0 ==> c == CodeOf(ClassOf(c).value)
    ensures ClassOf(c).value == DIGIT ==> IsDigitCode(c) && c != ZERO_CODE
    ensures IsWhite(ClassOf(c).value) <==> IsBlankCode(c)
    ensures ClassOf(c).value == WHITE ==> c < 32
    ensures ClassOf(c).value != WHITE ==> c >= 32
  {
  }

  lemma HexClassCode(c: nat)
    requires ClassOf(c).Some? && IsHexClass(ClassOf(c).value)
    ensures IsHexCode(c)
  {
  }

  /** A step that goes on has a class, and the table has no error for it. */
  lemma StepGoes(cfg: Config, p: Parser, c: int)
    requires Step(cfg, p, c).Go?
    ensures c >= 0 && ClassOf(c).Some? && !Transition(p.state, ClassOf(c).value).Error?
    ensures !cfg.comments ==> !Transition(p.state, ClassOf(c).value).CommentBegin?
  {
    hide ClassOf, Transition;
  }

  predicate StartsValue(c: int) {
    || c == '"' as int || c == '[' as int || c == '{' as int || c == '-' as int
    || IsDigitCode(c) || c == 't' as int || c == 'f' as int || c == 'n' as int
  }

  lemma SlotTakes(cfg: Config, p: Parser, c: int)
    requires (p.state == VA || p.state == AR) && !cfg.comments && Step(cfg, p, c).Go?
    ensures IsBlankCode(c) || StartsValue(c) || (p.state == AR && c == ']' as int)
  {
    hide ClassOf, Step;
    StepGoes(cfg, p, c);
    ClassCode(c);
  }

  lemma KeySlotTakes(cfg: Config, p: Parser, c: int)
    requires (p.state == OB || p.state == KE) && !cfg.comments && Step(cfg, p, c).Go?
    ensures IsBlankCode(c) || c == '"' as int || (p.state == OB && c == '}' as int)
  {
    hide ClassOf, Step;
    StepGoes(cfg, p, c);
    ClassCode(c);
  }

  lemma ColonTaken(cfg: Config, p: Parser, c: int)
    requires p.state == CO && !cfg.comments && Step(cfg, p, c).Go?
    ensures IsBlankCode(c) || c == ':' as int
  {
    hide ClassOf, Step;
    StepGoes(cfg, p, c);
    ClassCode(c);
  }

  lemma StartTakes(cfg: Config, p: Parser, c: int)
    requires p.state == GO && !cfg.comments && Step(cfg, p, c).Go?
    ensures IsBlankCode(c) || c == '[' as int || c == '{' as int
  {
    hide ClassOf, Step;
    StepGoes(cfg, p, c);
    ClassCode(c);
  }

  lemma TextTakes(cfg: Config, p: Parser, c: int)
    requires p.state == ST && Step(cfg, p, c).Go?
    ensures IsPlainCode(c) || c == '"' as int || c == '\\' as int
  {
    hide ClassOf, Step;
    StepGoes(cfg, p, c);
    ClassCode(c);
  }

  lemma EscapeTakes(cfg: Config, p: Parser, c: int)
    requires p.state == ES && p.escaped && Step(cfg, p, c).Go?
    ensures SimpleMeaning(c).Some? || c == 'u' as int
  {
  }

  lemma HexTakes(cfg: Config, p: Parser, c: int)
    requires p.state == U1 || p.state == U2 || p.state == U3 || p.state == U4
    requires Step(cfg, p, c).Go?
    ensures IsHexCode(c)
  {
    hide ClassOf, Step, IsHexClass;
    StepGoes(cfg, p, c);
    HexClassCode(c);
  }

  lemma LowHeadTakes(cfg: Config, p: Parser, c: int)
    requires (p.state == D1 || p.state == D2) && Step(cfg, p, c).Go?
    ensures c == if p.state == D1 then '\\' as int else 'u' as int
  {
    hide ClassOf, Step;
    StepGoes(cfg, p, c);
    ClassCode(c);
  }

  lemma NumberTakes(cfg: Config, p: Parser, c: int)
    requires (p.state == MI || p.state == E1 || p.state == E2) && Step(cfg, p, c).Go?
    ensures IsDigitCode(c) || (p.state == E1 && IsSign([c]))
  {
    hide ClassOf, Step;
    StepGoes(cfg, p, c);
    ClassCode(c);
  }

  /** The characters that carry a number on. */
  predicate Continues(s: State, c: int) {
    match s
    case ZE => c == POINT_CODE
    case IT => IsDigitCode(c) || c == POINT_CODE || IsMark(c)
    case FX => IsDigitCode(c) || IsMark(c)
    case FR => IsDigitCode(c) || IsMark(c)
    case E3 => IsDigitCode(c)
    case _ => false
  }

  lemma EndingTakes(cfg: Config, p: Parser, c: int)
    requires Ending(p.state) && !cfg.comments && Step(cfg, p, c).Go?
    ensures IsBlankCode(c) || Continues(p.state, c)
         || c == ',' as int || c == ']' as int || c == '}' as int
  {
    hide ClassOf, Step;
    StepGoes(cfg, p, c);
    ClassCode(c);
  }

  /** A closing bracket has to fit the mode on top, and a comma needs a container. */
  lemma SeparatorFits(cfg: Config, p: Parser, c: int)
    requires Ending(p.state) && Steady(p) && Step(cfg, p, c).Go?
    requires c == ',' as int || c == ']' as int || c == '}' as int
    ensures c == ']' as int ==> Top(p) == ArrayMode
    ensures c == '}' as int ==> Top(p) == ObjectMode
    ensures c == ',' as int ==> Top(p) == ArrayMode || Top(p) == ObjectMode
    ensures !(cfg.listening && IsLiteral(p.token))
  {
    hide Step, Flush, ClassOf, CloseFlushed, NextFlushed, Pending, Ending;
    var k := if c == ',' as int then COMMA else if c == ']' as int then RSQRB else RCURB;
    SeparatorClass(c);
    StepSeparator(cfg, p, c, k);
    FlushStored(cfg, p, p.(buf := p.buf + [c % 256]));
    var q := p.(buf := [], log := p.log + Pending(cfg, p));
    if c == ',' as int {
      NextFits(cfg, q);
    } else if c == ']' as int {
      CloseFits(cfg, q, EndArray, ArrayMode);
    } else {
      CloseFits(cfg, q, EndObject, ObjectMode);
    }
  }

  lemma CloseFits(cfg: Config, q: Parser, e: Event, mode: Mode)
    requires CloseFlushed(cfg, q, e, mode).Go?
    ensures Top(q) == mode
  {
  }

  lemma NextFits(cfg: Config, q: Parser)
    requires NextFlushed(cfg, q).Go?
    ensures Top(q) == ArrayMode || Top(q) == ObjectMode
  {
  }

  lemma SeparatorClass(c: int)
    ensures c == ',' as int ==> ClassOf(c) == Some(COMMA)
    ensures c == ']' as int ==> ClassOf(c) == Some(RSQRB)
    ensures c == '}' as int ==> ClassOf(c) == Some(RCURB)
  {
  }

  /** The class of each letter of a word. */
  function LetterClasses(w: Word): seq<Class> {
    match w
    case TrueWord => [LOW_T, LOW_R, LOW_U, LOW_E]
    case FalseWord => [LOW_F, LOW_A, LOW_L, LOW_S, LOW_E]
    case NullWord => [LOW_N, LOW_U, LOW_L, LOW_L]
  }

  predicate OnlyOn(s: State, k: Class, wanted: Class) {
    k == wanted || Transition(s, k).Error? || Transition(s, k).CommentBegin?
  }

  lemma TrueRows(k: Class)
    ensures OnlyOn(T1, k, LOW_R) && OnlyOn(T2, k, LOW_U) && OnlyOn(T3, k, LOW_E)
  {
  }

  lemma FirstFalseRows(k: Class)
    ensures OnlyOn(F1, k, LOW_A) && OnlyOn(F2, k, LOW_L)
  {
  }

  lemma LastFalseRows(k: Class)
    ensures OnlyOn(F3, k, LOW_S) && OnlyOn(F4, k, LOW_E)
  {
  }

  lemma FalseRows(k: Class)
    ensures OnlyOn(F1, k, LOW_A) && OnlyOn(F2, k, LOW_L) && OnlyOn(F3, k, LOW_S) && OnlyOn(F4, k, LOW_E)
  {
    hide OnlyOn;
    FirstFalseRows(k);
    LastFalseRows(k);
  }

  lemma NullRows(k: Class)
    ensures OnlyOn(N1, k, LOW_U) && OnlyOn(N2, k, LOW_L) && OnlyOn(N3, k, LOW_L)
  {
  }

  lemma LetterTable(w: Word, i: nat, k: Class)
    requires 1 <= i < |WordText(w)|
    ensures OnlyOn(WordStates(w)[i - 1], k, LetterClasses(w)[i])
  {
    hide OnlyOn;
    TrueRows(k);
    FalseRows(k);
    NullRows(k);
  }

  lemma LetterCode(w: Word, i: nat)
    requires i < |WordText(w)|
    ensures CodeOf(LetterClasses(w)[i]) == WordText(w)[i] >= 0
  {
  }

  lemma LetterTakes(cfg: Config, p: Parser, w: Word, i: nat, c: int)
    requires 1 <= i < |WordText(w)| && p.state == WordStates(w)[i - 1] && !cfg.comments
    requires Step(cfg, p, c).Go?
    ensures c == WordText(w)[i]
  {
    hide ClassOf, Step, Transition, LetterClasses, CodeOf;
    StepGoes(cfg, p, c);
    LetterTable(w, i, ClassOf(c).value);
    LetterCode(w, i);
    ClassCode(c);
  }

  /** A bracket opens only while the depth allows it. */
  lemma OpenFits(cfg: Config, p: Parser, c: int)
    requires OpenSlot(p) && |p.modes| <= cfg.depth + 1
    requires (c == '[' as int || c == '{' as int) && Step(cfg, p, c).Go?
    ensures |p.modes| <= cfg.depth
  {
    hide Step, Transition, ClassOf;
    BracketClasses();
    OpeningRows(p.state);
    StepStored(cfg, p, c, if c == '[' as int then LSQRB else LCURB);
    assert (p.buf + [c])[..|p.buf|] == p.buf;
  }
}
