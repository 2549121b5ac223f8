/** A scanner that knows strings and the tails of numbers, and nothing else of the grammar, and
    its agreement with the parser's control states. */
module JsonLexer {
  import opened JsonTables
  import opened JsonSpec
  import opened JsonGrammar

  /** What the last characters were, outside strings: a decimal point, the head of an exponent,
      or its digits. */
  datatype Tail = NoTail | AfterPoint | AfterMark | AfterExponent

  /** Outside a string, inside one, or after a backslash in one. */
  datatype Lex = Code(tail: Tail) | Chars | Escaped

  function NextTail(t: Tail, c: int): Tail {
    if c == POINT_CODE then AfterPoint
    else if IsMark(c) || (IsSign([c]) && t == AfterMark) then AfterMark
    else if IsDigitCode(c) && (t == AfterMark || t == AfterExponent) then AfterExponent
    else NoTail
  }

  function NextLex(l: Lex, c: int): Lex {
    match l
    case Escaped => Chars
    case Chars => if c == '\\' as int then Escaped else if c == '"' as int then Code(NoTail) else Chars
    case Code(t) => if c == '"' as int then Chars else Code(NextTail(t, c))
  }

  /** Nothing is scanned yet. */
  const START := Code(NoTail)

  /** As much of a control state as the scanner can tell. */
  datatype Sort = Within | AfterBackslash | Aside | AtPoint | AtMark | AtExponent | AtEnd | Elsewhere

  function SortOf(s: State): Sort {
    match s
    case ST => Within
    case U1 => Within
    case U2 => Within
    case U3 => Within
    case U4 => Within
    case D1 => Within
    case ES => AfterBackslash
    case D2 => AfterBackslash
    case C1 => Aside
    case C2 => Aside
    case C3 => Aside
    case FX => AtPoint
    case E1 => AtMark
    case E2 => AtMark
    case E3 => AtExponent
    case OK => AtEnd
    case _ => Elsewhere
  }

  predicate IsCodeSort(d: Sort) { d != Within && d != AfterBackslash && d != Aside }

  predicate Agrees(d: Sort, l: Lex) {
    match l
    case Escaped => d == AfterBackslash
    case Chars => d == Within
    case Code(t) =>
      && IsCodeSort(d) && (d == AtPoint <==> t == AfterPoint) && (d == AtExponent <==> t == AfterExponent)
      && (d == AtMark ==> t == AfterMark) && (t == AfterMark ==> d == AtMark || d == AtEnd)
  }

  predicate Matches(s: State, l: Lex) { Agrees(SortOf(s), l) }

  // ----- the same on character classes

  function NextTailOf(t: Tail, k: Class): Tail {
    if k == POINT then AfterPoint
    else if k == LOW_E || k == CAP_E || ((k == PLUS || k == MINUS) && t == AfterMark) then AfterMark
    else if IsDigitClass(k) && (t == AfterMark || t == AfterExponent) then AfterExponent
    else NoTail
  }

  function NextLexOf(l: Lex, k: Class): Lex {
    match l
    case Escaped => Chars
    case Chars => if k == BACKS then Escaped else if k == QUOTE then Code(NoTail) else Chars
    case Code(t) => if k == QUOTE then Chars else Code(NextTailOf(t, k))
  }

  lemma ClassesDecide(c: nat)
    requires ClassOf(c).Some?
    ensures var k := ClassOf(c).value;
            && (k == QUOTE <==> c == '"' as int) && (k == BACKS <==> c == '\\' as int)
            && (k == POINT <==> c == POINT_CODE) && (k == LOW_E || k == CAP_E <==> IsMark(c))
            && (k == PLUS || k == MINUS <==> c == '+' as int || c == '-' as int)
            && (IsDigitClass(k) <==> IsDigitCode(c)) && (k == SLASH <==> c == '/' as int)
  {
  }

  lemma LexOfClass(l: Lex, c: nat)
    requires ClassOf(c).Some?
    ensures NextLex(l, c) == NextLexOf(l, ClassOf(c).value)
  {
    hide ClassOf;
    ClassesDecide(c);
    assert IsSign([c]) <==> c == '+' as int || c == '-' as int by {
      assert [c][0] == c && ['+' as int][0] == '+' as int && ['-' as int][0] == '-' as int;
    }
  }

  // ----- where a step can lead

  /** The control states in which an entry can leave the parser. */
  predicate MayGo(e: Entry, t: State) {
    match e
    case Error => false
    case To(target) => t == target
    case UnicodeRead => t == ST || t == D1
    case Escape => t == ES
    case IntegerByMinus => t == MI
    case IntegerByZero => t == ZE
    case IntegerByDigit => t == IT
    case FloatByExponent => t == E1
    case FloatByPoint => t == FX
    case StringBegin => t == ST
    case NullBegin => t == N1
    case FalseBegin => t == F1
    case TrueBegin => t == T1
    case CommentEnd => true
    case CommentBegin => t == C1
    case EmptyObjectEnd => t == OK
    case ObjectEnd => t == OK
    case ArrayEnd => t == OK
    case ObjectBegin => t == OB
    case ArrayBegin => t == AR
    case StringEnd => t == OK || t == CO
    case Comma => t == VA || t == KE
    case Colon => t == VA
  }

  lemma StringGoes(cfg: Config, p: Parser)
    ensures EndString(cfg, p).Go? ==> EndString(cfg, p).next.state == OK || EndString(cfg, p).next.state == CO
  {
  }

  lemma ActGoes(cfg: Config, p: Parser, e: Entry)
    ensures Act(cfg, p, e).Go? ==> MayGo(e, Act(cfg, p, e).next.state)
  {
    hide Flush, EndString, Push, Pop, Decode;
    StringGoes(cfg, p);
  }

  lemma StepGoesTo(cfg: Config, p: Parser, c: int)
    requires Step(cfg, p, c).Go?
    ensures c >= 0 && ClassOf(c).Some? && MayGo(Transition(p.state, ClassOf(c).value), Step(cfg, p, c).next.state)
  {
    hide Act, ClassOf, Transition, MayGo;
    var k := ClassOf(c).value;
    ActGoes(cfg, AddChar(p, c, k).next, Transition(p.state, k));
  }

  // ----- the table, state by state

  /** The sorts of state that a class of character leads to, from one sort. */
  predicate Leads(d: Sort, k: Class, e: Sort) {
    if d == Within then
      if k == BACKS then e == AfterBackslash else if k == QUOTE then e == AtEnd || e == Elsewhere else e == Within
    else if d == AfterBackslash then e == Within
    else if k == QUOTE then e == Within
    else if k == POINT then e == AtPoint
    else if k == LOW_E || k == CAP_E then e == AtMark || e == AtEnd
    else if k == PLUS || k == MINUS then d != AtEnd && e == if d == AtMark then AtMark else Elsewhere
    else if IsDigitClass(k) then
      d != AtEnd && e == if d == AtMark || d == AtExponent then AtExponent else Elsewhere
    else e == AtEnd || e == Elsewhere
  }

  lemma LeadsAgrees(d: Sort, l: Lex, k: Class, e: Sort)
    requires Agrees(d, l) && Leads(d, k, e)
    ensures Agrees(e, NextLexOf(l, k))
  {
  }

  /** An entry leads only to such sorts of state. */
  predicate EntryLeads(d: Sort, k: Class, entry: Entry) {
    match entry
    case Error => true
    case CommentBegin => k == SLASH && IsCodeSort(d)
    case CommentEnd => d == Aside
    case To(t) => Leads(d, k, SortOf(t))
    case UnicodeRead => Leads(d, k, Within)
    case Escape => Leads(d, k, AfterBackslash)
    case StringBegin => Leads(d, k, Within)
    case FloatByExponent => Leads(d, k, AtMark)
    case FloatByPoint => Leads(d, k, AtPoint)
    case EmptyObjectEnd => Leads(d, k, AtEnd)
    case ObjectEnd => Leads(d, k, AtEnd)
    case ArrayEnd => Leads(d, k, AtEnd)
    case StringEnd => Leads(d, k, AtEnd) && Leads(d, k, Elsewhere)
    case _ => Leads(d, k, Elsewhere)
  }

  /** An entry of the table, but for the slash that begins a comment. */
  predicate Follows(s: State, k: Class) {
    SortOf(s) == Aside || (k == SLASH && IsCodeSort(SortOf(s))) || EntryLeads(SortOf(s), k, Transition(s, k))
  }

  lemma SortsOfText()
    ensures SortOf(ST) == SortOf(U1) == SortOf(U2) == SortOf(U3) == SortOf(U4) == SortOf(D1) == Within
    ensures SortOf(ES) == SortOf(D2) == AfterBackslash
  {
  }

  lemma SortsOfComment()
    ensures SortOf(C1) == SortOf(C2) == SortOf(C3) == Aside
  {
  }

  lemma SortsOfNumbers()
    ensures SortOf(FX) == AtPoint && SortOf(E1) == SortOf(E2) == AtMark && SortOf(E3) == AtExponent
    ensures SortOf(MI) == SortOf(ZE) == SortOf(IT) == SortOf(FR) == Elsewhere && SortOf(OK) == AtEnd
  {
  }

  lemma SortsBetween()
    ensures SortOf(GO) == SortOf(OB) == SortOf(KE) == SortOf(CO) == SortOf(VA) == SortOf(AR) == Elsewhere
  {
  }

  lemma SortsOfWords()
    ensures SortOf(T1) == SortOf(T2) == SortOf(T3) == SortOf(N1) == SortOf(N2) == SortOf(N3) == Elsewhere
    ensures SortOf(OK) == AtEnd
  {
  }

  lemma SortsOfFalse()
    ensures SortOf(F1) == SortOf(F2) == SortOf(F3) == SortOf(F4) == Elsewhere && SortOf(OK) == AtEnd
  {
  }

  lemma AfterLeads(d: Sort, k: Class, comment: bool)
    requires IsCodeSort(d)
    ensures k == SLASH || EntryLeads(d, k, AfterValue(k, comment))
  {
    hide SortOf;
    SortsOfNumbers();
  }

  lemma BeforeLeads(s: State, k: Class)
    requires s == VA || s == AR
    ensures k == SLASH || EntryLeads(Elsewhere, k, BeforeValue(s, k))
  {
    hide SortOf;
    SortsBetween();
  }

  lemma FractionLeads(d: Sort, k: Class, comment: bool)
    requires d == AtPoint || d == Elsewhere
    ensures k == SLASH || EntryLeads(d, k, FractionRow(k, comment))
  {
    hide SortOf, AfterValue;
    SortsOfNumbers();
    AfterLeads(d, k, comment);
  }

  lemma FollowsText(s: State, k: Class)
    requires s == ST
    ensures Follows(s, k)
  {
    hide AfterValue, BeforeValue, FractionRow, IsHexClass, IsSimpleEscape, SortOf;
    SortsOfText();
  }

  lemma FollowsEscape(s: State, k: Class)
    requires s == ES || s == D1 || s == D2
    ensures Follows(s, k)
  {
    hide AfterValue, BeforeValue, FractionRow, IsHexClass, SortOf;
    SortsOfText();
  }

  lemma FollowsHex(s: State, k: Class)
    requires s == U1 || s == U2 || s == U3 || s == U4
    ensures Follows(s, k)
  {
    hide AfterValue, BeforeValue, FractionRow, IsSimpleEscape, SortOf;
    SortsOfText();
  }

  lemma FollowsBlank(s: State, k: Class)
    requires s == GO || s == OB || s == KE || s == CO
    ensures Follows(s, k)
  {
    hide AfterValue, BeforeValue, FractionRow, IsHexClass, IsSimpleEscape, SortOf;
    SortsBetween();
  }

  lemma FollowsBefore(s: State, k: Class)
    requires s == VA || s == AR
    ensures Follows(s, k)
  {
    hide AfterValue, BeforeValue, FractionRow, IsHexClass, IsSimpleEscape, SortOf;
    SortsBetween();
    BeforeLeads(s, k);
  }

  lemma FollowsWhole(s: State, k: Class)
    requires s == OK || s == MI || s == ZE || s == IT
    ensures Follows(s, k)
  {
    hide AfterValue, BeforeValue, FractionRow, IsHexClass, IsSimpleEscape, SortOf;
    SortsOfNumbers();
    AfterLeads(SortOf(s), k, s != E3);
  }

  lemma FollowsFraction(s: State, k: Class)
    requires s == FX || s == FR
    ensures Follows(s, k)
  {
    hide AfterValue, BeforeValue, FractionRow, IsHexClass, IsSimpleEscape, SortOf, Leads, EntryLeads;
    SortsOfNumbers();
    FractionLeads(SortOf(s), k, s == FR);
  }

  lemma FollowsExponent(s: State, k: Class)
    requires s == E1 || s == E2 || s == E3
    ensures Follows(s, k)
  {
    hide AfterValue, BeforeValue, FractionRow, IsHexClass, IsSimpleEscape, SortOf;
    SortsOfNumbers();
    AfterLeads(SortOf(s), k, s != E3);
  }

  lemma FollowsTrue(s: State, k: Class)
    requires s == T1 || s == T2 || s == T3
    ensures Follows(s, k)
  {
    hide AfterValue, BeforeValue, FractionRow, IsHexClass, IsSimpleEscape, SortOf;
    SortsOfWords();
  }

  lemma FollowsFalse(s: State, k: Class)
    requires s == F1 || s == F2
    ensures Follows(s, k)
  {
    hide AfterValue, BeforeValue, FractionRow, IsHexClass, IsSimpleEscape, SortOf;
    SortsOfFalse();
  }

  lemma FollowsFalseEnd(s: State, k: Class)
    requires s == F3 || s == F4
    ensures Follows(s, k)
  {
    hide AfterValue, BeforeValue, FractionRow, IsHexClass, IsSimpleEscape, SortOf;
    SortsOfFalse();
  }

  lemma FollowsNull(s: State, k: Class)
    requires s == N1 || s == N2 || s == N3
    ensures Follows(s, k)
  {
    hide AfterValue, BeforeValue, FractionRow, IsHexClass, IsSimpleEscape, SortOf;
    SortsOfWords();
  }

  lemma TableFollows(s: State, k: Class)
    ensures Follows(s, k)
  {
    hide Follows, Transition;
    match s
    case ST => FollowsText(s, k);
    case ES => FollowsEscape(s, k);
    case D1 => FollowsEscape(s, k);
    case D2 => FollowsEscape(s, k);
    case U1 => FollowsHex(s, k);
    case U2 => FollowsHex(s, k);
    case U3 => FollowsHex(s, k);
    case U4 => FollowsHex(s, k);
    case GO => FollowsBlank(s, k);
    case OB => FollowsBlank(s, k);
    case KE => FollowsBlank(s, k);
    case CO => FollowsBlank(s, k);
    case VA => FollowsBefore(s, k);
    case AR => FollowsBefore(s, k);
    case OK => FollowsWhole(s, k);
    case MI => FollowsWhole(s, k);
    case ZE => FollowsWhole(s, k);
    case IT => FollowsWhole(s, k);
    case FX => FollowsFraction(s, k);
    case FR => FollowsFraction(s, k);
    case E1 => FollowsExponent(s, k);
    case E2 => FollowsExponent(s, k);
    case E3 => FollowsExponent(s, k);
    case T1 => FollowsTrue(s, k);
    case T2 => FollowsTrue(s, k);
    case T3 => FollowsTrue(s, k);
    case F1 => FollowsFalse(s, k);
    case F2 => FollowsFalse(s, k);
    case F3 => FollowsFalseEnd(s, k);
    case F4 => FollowsFalseEnd(s, k);
    case N1 => FollowsNull(s, k);
    case N2 => FollowsNull(s, k);
    case N3 => FollowsNull(s, k);
    case C1 => CommentFollows(s, k);
    case C2 => CommentFollows(s, k);
    case C3 => CommentFollows(s, k);
  }

  lemma CommentFollows(s: State, k: Class)
    requires s == C1 || s == C2 || s == C3
    ensures Follows(s, k)
  {
    hide Transition, EntryLeads, SortOf;
    SortsOfComment();
  }

  lemma EntryGoes(d: Sort, k: Class, e: Entry, t: State)
    requires EntryLeads(d, k, e) && MayGo(e, t) && !e.CommentBegin? && !e.CommentEnd?
    ensures Leads(d, k, SortOf(t))
  {
    hide Leads, SortOf;
    match e
    case To(_) =>
    case UnicodeRead => SortsOfText();
    case Escape => SortsOfText();
    case StringBegin => SortsOfText();
    case IntegerByMinus => SortsOfNumbers();
    case IntegerByZero => SortsOfNumbers();
    case IntegerByDigit => SortsOfNumbers();
    case FloatByExponent => SortsOfNumbers();
    case FloatByPoint => SortsOfNumbers();
    case NullBegin => SortsOfWords();
    case TrueBegin => SortsOfWords();
    case FalseBegin => SortsOfFalse();
    case EmptyObjectEnd => SortsOfNumbers();
    case ObjectEnd => SortsOfNumbers();
    case ArrayEnd => SortsOfNumbers();
    case ObjectBegin => SortsBetween();
    case ArrayBegin => SortsBetween();
    case Comma => SortsBetween();
    case Colon => SortsBetween();
    case StringEnd => SortsOfNumbers(); SortsBetween();
  }

  /** Only a slash begins a comment. */
  lemma CommentLeads(d: Sort, k: Class, e: Entry)
    requires EntryLeads(d, k, e)
    ensures e.CommentBegin? ==> k == SLASH && IsCodeSort(d)
    ensures e.CommentEnd? ==> d == Aside
  {
  }

  /** The scanner and the parser stay in agreement on every character but the slash of a comment. */
  lemma StepMatches(cfg: Config, p: Parser, l: Lex, c: int)
    requires Matches(p.state, l) && Step(cfg, p, c).Go? && !(l.Code? && c == '/' as int)
    ensures Matches(Step(cfg, p, c).next.state, NextLex(l, c))
  {
    hide Step, ClassOf, Transition, NextLex, NextLexOf, MayGo, SortOf, EntryLeads, Leads;
    StepGoesTo(cfg, p, c);
    var k, t := ClassOf(c).value, Step(cfg, p, c).next.state;
    ClassesDecide(c);
    LexOfClass(l, c);
    TableFollows(p.state, k);
    CommentLeads(SortOf(p.state), k, Transition(p.state, k));
    EntryGoes(SortOf(p.state), k, Transition(p.state, k), t);
    LeadsAgrees(SortOf(p.state), l, k, SortOf(t));
  }

  /** A comment begins at a slash outside strings. */
  lemma CommentNeedsSlash(s: State, l: Lex, c: int)
    requires Matches(s, l) && c >= 0 && ClassOf(c).Some? && Transition(s, ClassOf(c).value).CommentBegin?
    ensures l.Code? && c == '/' as int
  {
    hide ClassOf, Transition, SortOf, EntryLeads;
    var k := ClassOf(c).value;
    ClassesDecide(c);
    TableFollows(s, k);
    if EntryLeads(SortOf(s), k, Transition(s, k)) { CommentLeads(SortOf(s), k, Transition(s, k)); }
  }
}
