/** The constant data of the JSON parser: character classes, control states, and the
    transition table that maps a state and a class to a new state or to an action. */
module JsonTables {
  import opened Wrappers

  /** Character classes.  Every code outside ASCII is in ETC. */
  datatype Class =
    | SPACE | WHITE | LCURB | RCURB | LSQRB | RSQRB | COLON | COMMA
    | QUOTE | BACKS | SLASH | PLUS | MINUS | POINT | ZERO | DIGIT
    | LOW_A | LOW_B | LOW_C | LOW_D | LOW_E | LOW_F | LOW_L | LOW_N
    | LOW_R | LOW_S | LOW_T | LOW_U | ABCDF | CAP_E | ETC | STAR

  /** Control states. */
  datatype State =
    | GO | OK | OB | KE | CO | VA | AR | ST | ES | U1 | U2 | U3 | U4
    | MI | ZE | IT | FR | E1 | E2 | E3 | T1 | T2 | T3 | F1 | F2 | F3 | F4
    | N1 | N2 | N3 | C1 | C2 | C3 | FX | D1 | D2

  /** A table entry: an error, a plain move, or one of the actions. */
  datatype Entry =
    | Error
    | To(target: State)
    | CommentBegin | CommentEnd
    | FalseBegin | TrueBegin | NullBegin
    | FloatByExponent | FloatByPoint
    | StringBegin
    | IntegerByMinus | IntegerByZero | IntegerByDigit
    | Escape | UnicodeRead
    | EmptyObjectEnd | ObjectEnd | ArrayEnd | ObjectBegin | ArrayBegin
    | StringEnd | Comma | Colon

  /** The class of a character code, None for the control characters that are errors. */
  function ClassOf(c: nat): Option<Class> {
    if c >= 128 then Some(ETC)
    else if c < 32 then (if c == 9 || c == 10 || c == 13 then Some(WHITE) else None)
    else if c < 64 then Some(
      if c == ' ' as int then SPACE
      else if c == '"' as int then QUOTE
      else if c == '*' as int then STAR
      else if c == '+' as int then PLUS
      else if c == ',' as int then COMMA
      else if c == '-' as int then MINUS
      else if c == '.' as int then POINT
      else if c == '/' as int then SLASH
      else if c == '0' as int then ZERO
      else if '1' as int <= c <= '9' as int then DIGIT
      else if c == ':' as int then COLON
      else ETC)
    else if c < 96 then Some(
      if c == 'E' as int then CAP_E
      else if 'A' as int <= c <= 'F' as int then ABCDF
      else if c == '[' as int then LSQRB
      else if c == '\\' as int then BACKS
      else if c == ']' as int then RSQRB
      else ETC)
    else Some(
      if c == 'a' as int then LOW_A
      else if c == 'b' as int then LOW_B
      else if c == 'c' as int then LOW_C
      else if c == 'd' as int then LOW_D
      else if c == 'e' as int then LOW_E
      else if c == 'f' as int then LOW_F
      else if c == 'l' as int then LOW_L
      else if c == 'n' as int then LOW_N
      else if c == 'r' as int then LOW_R
      else if c == 's' as int then LOW_S
      else if c == 't' as int then LOW_T
      else if c == 'u' as int then LOW_U
      else if c == '{' as int then LCURB
      else if c == '}' as int then RCURB
      else ETC)
  }

  predicate IsWhite(k: Class) { k == SPACE || k == WHITE }

  predicate IsDigitClass(k: Class) { k == ZERO || k == DIGIT }

  predicate IsHexClass(k: Class) {
    || k == ZERO || k == DIGIT || k == ABCDF || k == CAP_E
    || k == LOW_A || k == LOW_B || k == LOW_C || k == LOW_D || k == LOW_E || k == LOW_F
  }

  /** The columns shared by every state in which a value has just ended. */
  function AfterValue(k: Class, comment: bool): Entry {
    match k
    case SPACE => To(OK)
    case WHITE => To(OK)
    case RCURB => ObjectEnd
    case RSQRB => ArrayEnd
    case COMMA => Comma
    case SLASH => if comment then CommentBegin else Error
    case _ => Error
  }

  /** The columns shared by the two states in which a value may begin. */
  function BeforeValue(here: State, k: Class): Entry {
    match k
    case SPACE => To(here)
    case WHITE => To(here)
    case LCURB => ObjectBegin
    case LSQRB => ArrayBegin
    case QUOTE => StringBegin
    case SLASH => CommentBegin
    case MINUS => IntegerByMinus
    case ZERO => IntegerByZero
    case DIGIT => IntegerByDigit
    case LOW_F => FalseBegin
    case LOW_N => NullBegin
    case LOW_T => TrueBegin
    case _ => Error
  }

  /** Whether an escape of one character may name this class. */
  predicate IsSimpleEscape(k: Class) {
    || k == QUOTE || k == BACKS || k == SLASH
    || k == LOW_B || k == LOW_F || k == LOW_N || k == LOW_R || k == LOW_T
  }

  function Only(k: Class, wanted: Class, entry: Entry): Entry {
    if k == wanted then entry else Error
  }

  /** The transition table, one case per row. */
  function Transition(s: State, k: Class): Entry {
    match s
    case GO =>
      (match k
       case SPACE => To(GO)
       case WHITE => To(GO)
       case LCURB => ObjectBegin
       case LSQRB => ArrayBegin
       case SLASH => CommentBegin
       case _ => Error)
    case OK => AfterValue(k, true)
    case OB =>
      (match k
       case SPACE => To(OB)
       case WHITE => To(OB)
       case RCURB => EmptyObjectEnd
       case QUOTE => StringBegin
       case SLASH => CommentBegin
       case _ => Error)
    case KE =>
      (match k
       case SPACE => To(KE)
       case WHITE => To(KE)
       case QUOTE => StringBegin
       case SLASH => CommentBegin
       case _ => Error)
    case CO =>
      (match k
       case SPACE => To(CO)
       case WHITE => To(CO)
       case COLON => Colon
       case SLASH => CommentBegin
       case _ => Error)
    case VA => BeforeValue(VA, k)
    case AR => if k == RSQRB then ArrayEnd else BeforeValue(AR, k)
    case ST =>
      (match k
       case WHITE => Error
       case QUOTE => StringEnd
       case BACKS => Escape
       case _ => To(ST))
    case ES =>
      if IsSimpleEscape(k) then To(ST) else Only(k, LOW_U, To(U1))
    case U1 => if IsHexClass(k) then To(U2) else Error
    case U2 => if IsHexClass(k) then To(U3) else Error
    case U3 => if IsHexClass(k) then To(U4) else Error
    case U4 => if IsHexClass(k) then UnicodeRead else Error
    case D1 => Only(k, BACKS, To(D2))
    case D2 => Only(k, LOW_U, To(U1))
    case MI =>
      (match k
       case ZERO => To(ZE)
       case DIGIT => To(IT)
       case _ => Error)
    case ZE => if k == POINT then FloatByPoint else AfterValue(k, true)
    case IT =>
      (match k
       case POINT => FloatByPoint
       case ZERO => To(IT)
       case DIGIT => To(IT)
       case LOW_E => FloatByExponent
       case CAP_E => FloatByExponent
       case _ => AfterValue(k, true))
    case FX => FractionRow(k, false)
    case FR => FractionRow(k, true)
    case E1 =>
      (match k
       case PLUS => To(E2)
       case MINUS => To(E2)
       case ZERO => To(E3)
       case DIGIT => To(E3)
       case _ => Error)
    case E2 => if IsDigitClass(k) then To(E3) else Error
    case E3 => if IsDigitClass(k) then To(E3) else AfterValue(k, false)
    case T1 => Only(k, LOW_R, To(T2))
    case T2 => Only(k, LOW_U, To(T3))
    case T3 => if k == SLASH then CommentBegin else Only(k, LOW_E, To(OK))
    case F1 => Only(k, LOW_A, To(F2))
    case F2 => Only(k, LOW_L, To(F3))
    case F3 => Only(k, LOW_S, To(F4))
    case F4 => if k == SLASH then CommentBegin else Only(k, LOW_E, To(OK))
    case N1 => Only(k, LOW_U, To(N2))
    case N2 => Only(k, LOW_L, To(N3))
    case N3 => if k == SLASH then CommentBegin else Only(k, LOW_L, To(OK))
    case C1 => Only(k, STAR, To(C2))
    case C2 => To(if k == STAR then C3 else C2)
    case C3 =>
      (match k
       case SLASH => CommentEnd
       case STAR => To(C3)
       case _ => To(C2))
  }

  /** The rows of the two states after a decimal point; only the one that has seen a
      digit lets a comment begin. */
  function FractionRow(k: Class, comment: bool): Entry {
    match k
    case ZERO => To(FR)
    case DIGIT => To(FR)
    case LOW_E => To(E1)
    case CAP_E => To(E1)
    case _ => AfterValue(k, comment)
  }
}
