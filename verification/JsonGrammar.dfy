/** The grammar of section 2 of RFC 4627 with the parser's own deviations, as concrete
    syntax trees: what each tree prints as, how deep it nests, and what it means. */
module JsonGrammar {
  import opened Wrappers
  import opened JsonSpec
  import opened Unicode

  /** A piece of a string: a code as it is, an escape of one character, a \uXXXX escape of
      a code unit that is no surrogate, or a pair of escapes that are surrogates. */
  datatype Item =
    | Plain(code: int)
    | Simple(code: int)
    | Unit(digits: seq<int>)
    | Pair(highDigits: seq<int>, lowDigits: seq<int>)

  datatype Exponent = Exponent(mark: int, sign: seq<int>, digits: seq<int>)

  datatype Number = Number(
    minus: bool, whole: seq<int>, fraction: Option<seq<int>>, exponent: Option<Exponent>)

  datatype Word = TrueWord | FalseWord | NullWord

  datatype Value =
    | Text(items: seq<Item>)
    | Num(number: Number)
    | Literal(word: Word)
    | EmptyArray(blank: seq<int>)
    | Array(elements: Elements)
    | EmptyObject(blank: seq<int>)
    | Object(members: Members)

  /** Elements and members with the blanks around them. */
  datatype Elements =
    | LastElement(before: seq<int>, value: Value, after: seq<int>)
    | MoreElements(before: seq<int>, value: Value, after: seq<int>, rest: Elements)

  datatype Name = Name(before: seq<int>, items: seq<Item>, after: seq<int>)

  datatype Members =
    | LastMember(name: Name, before: seq<int>, value: Value, after: seq<int>)
    | MoreMembers(name: Name, before: seq<int>, value: Value, after: seq<int>, rest: Members)

  /** A text is blank or has a container at its root. */
  datatype Doc =
    | BlankDoc(blank: seq<int>)
    | RootedDoc(before: seq<int>, root: Value, after: seq<int>)

  // ----- well-formed pieces

  predicate IsBlank(s: seq<int>) { forall i :: 0 <= i < |s| ==> IsBlankCode(s[i]) }

  predicate AreDigits(s: seq<int>) { forall i :: 0 <= i < |s| ==> IsDigitCode(s[i]) }

  predicate IsHexCode(c: int) {
    || IsDigitCode(c) || 'a' as int <= c <= 'f' as int || 'A' as int <= c <= 'F' as int
  }

  function HexDigitValue(c: int): int {
    if IsDigitCode(c) then c - '0' as int
    else if c >= 'a' as int then c - 'a' as int + 10
    else c - 'A' as int + 10
  }

  predicate AreHex4(s: seq<int>) {
    |s| == 4 && IsHexCode(s[0]) && IsHexCode(s[1]) && IsHexCode(s[2]) && IsHexCode(s[3])
  }

  function Hex4Value(s: seq<int>): int
    requires |s| == 4
  {
    ((HexDigitValue(s[0]) * 16 + HexDigitValue(s[1])) * 16 + HexDigitValue(s[2])) * 16
    + HexDigitValue(s[3])
  }

  predicate IsPlainCode(c: int) { c >= 32 && c != '"' as int && c != '\\' as int }

  /** The meaning of a backslash and one character. */
  function SimpleMeaning(c: int): Option<int> {
    match c
    case 34 => Some(34)
    case 92 => Some(92)
    case 47 => Some(47)
    case 98 => Some(8)
    case 102 => Some(12)
    case 110 => Some(10)
    case 114 => Some(13)
    case 116 => Some(9)
    case _ => None
  }

  predicate WfItem(x: Item) {
    match x
    case Plain(c) => IsPlainCode(c)
    case Simple(c) => SimpleMeaning(c).Some?
    case Unit(h) =>
      AreHex4(h) && !IsHighSurrogate(Hex4Value(h)) && !IsLowSurrogate(Hex4Value(h))
    case Pair(h, l) =>
      AreHex4(h) && AreHex4(l) && IsHighSurrogate(Hex4Value(h)) && IsLowSurrogate(Hex4Value(l))
  }

  predicate WfItems(items: seq<Item>) { forall i :: 0 <= i < |items| ==> WfItem(items[i]) }

  const ZERO_CODE := '0' as int
  const POINT_CODE := '.' as int

  predicate IsMark(c: int) { c == 'e' as int || c == 'E' as int }

  predicate IsSign(s: seq<int>) { s == [] || s == ['+' as int] || s == ['-' as int] }

  predicate WfExponent(x: Exponent) {
    IsMark(x.mark) && IsSign(x.sign) && x.digits != [] && AreDigits(x.digits)
  }

  /** Two deviations from the RFC: a point needs no digit after it, and an exponent may not
      follow a whole part of zero directly. */
  predicate WfNumber(n: Number) {
    && n.whole != [] && AreDigits(n.whole)
    && (n.whole[0] == ZERO_CODE ==> n.whole == [ZERO_CODE])
    && (n.fraction.Some? ==> AreDigits(n.fraction.value))
    && (n.exponent.Some? ==> WfExponent(n.exponent.value))
    && (n.exponent.Some? && n.fraction.None? ==> n.whole != [ZERO_CODE])
  }

  predicate WfName(x: Name) { IsBlank(x.before) && WfItems(x.items) && IsBlank(x.after) }

  predicate WfValue(v: Value) {
    match v
    case Text(items) => WfItems(items)
    case Num(n) => WfNumber(n)
    case Literal(_) => true
    case EmptyArray(b) => IsBlank(b)
    case Array(es) => WfElements(es)
    case EmptyObject(b) => IsBlank(b)
    case Object(ms) => WfMembers(ms)
  }

  predicate WfElements(es: Elements) {
    match es
    case LastElement(b, v, a) => IsBlank(b) && WfValue(v) && IsBlank(a)
    case MoreElements(b, v, a, rest) => IsBlank(b) && WfValue(v) && IsBlank(a) && WfElements(rest)
  }

  predicate WfMembers(ms: Members) {
    match ms
    case LastMember(k, b, v, a) => WfName(k) && IsBlank(b) && WfValue(v) && IsBlank(a)
    case MoreMembers(k, b, v, a, rest) =>
      WfName(k) && IsBlank(b) && WfValue(v) && IsBlank(a) && WfMembers(rest)
  }

  predicate IsContainer(v: Value) { v.EmptyArray? || v.Array? || v.EmptyObject? || v.Object? }

  predicate WfDoc(d: Doc) {
    match d
    case BlankDoc(b) => IsBlank(b)
    case RootedDoc(b, v, a) => IsBlank(b) && IsContainer(v) && WfValue(v) && IsBlank(a)
  }

  // ----- nesting

  function Max(a: nat, b: nat): nat { if a < b then b else a }

  function Height(v: Value): nat {
    match v
    case Array(es) => 1 + ElementsHeight(es)
    case Object(ms) => 1 + MembersHeight(ms)
    case EmptyArray(_) => 1
    case EmptyObject(_) => 1
    case _ => 0
  }

  function ElementsHeight(es: Elements): nat {
    match es
    case LastElement(_, v, _) => Height(v)
    case MoreElements(_, v, _, rest) => Max(Height(v), ElementsHeight(rest))
  }

  function MembersHeight(ms: Members): nat {
    match ms
    case LastMember(_, _, v, _) => Height(v)
    case MoreMembers(_, _, v, _, rest) => Max(Height(v), MembersHeight(rest))
  }

  function DocHeight(d: Doc): nat {
    if d.RootedDoc? then Height(d.root) else 0
  }

  // ----- text

  function ItemText(x: Item): seq<int> {
    match x
    case Plain(c) => [c]
    case Simple(c) => ['\\' as int, c]
    case Unit(h) => ['\\' as int, 'u' as int] + h
    case Pair(h, l) => ['\\' as int, 'u' as int] + h + (['\\' as int, 'u' as int] + l)
  }

  function ItemsText(items: seq<Item>): seq<int> {
    if items == [] then [] else ItemText(items[0]) + ItemsText(items[1..])
  }

  function QuotedText(items: seq<Item>): seq<int> {
    ['"' as int] + ItemsText(items) + ['"' as int]
  }

  function ExponentText(x: Exponent): seq<int> { [x.mark] + x.sign + x.digits }

  function MinusText(minus: bool): seq<int> { if minus then ['-' as int] else [] }

  /** A number with the given code for its point. */
  function NumberText(n: Number, point: int): seq<int> {
    MinusText(n.minus) + n.whole
    + (if n.fraction.Some? then [point] + n.fraction.value else [])
    + (if n.exponent.Some? then ExponentText(n.exponent.value) else [])
  }

  function WordText(w: Word): seq<int> {
    match w
    case TrueWord => ['t' as int, 'r' as int, 'u' as int, 'e' as int]
    case FalseWord => ['f' as int, 'a' as int, 'l' as int, 's' as int, 'e' as int]
    case NullWord => ['n' as int, 'u' as int, 'l' as int, 'l' as int]
  }

  function ValueText(v: Value): seq<int> {
    match v
    case Text(items) => QuotedText(items)
    case Num(n) => NumberText(n, POINT_CODE)
    case Literal(w) => WordText(w)
    case EmptyArray(b) => ['[' as int] + (b + [']' as int])
    case Array(es) => ['[' as int] + ElementsText(es)
    case EmptyObject(b) => ['{' as int] + (b + ['}' as int])
    case Object(ms) => ['{' as int] + MembersText(ms)
  }

  /** Elements up to and including the closing bracket. */
  function ElementsText(es: Elements): seq<int> {
    match es
    case LastElement(b, v, a) => b + (ValueText(v) + a) + [']' as int]
    case MoreElements(b, v, a, rest) => b + (ValueText(v) + a) + [',' as int] + ElementsText(rest)
  }

  function NameText(x: Name): seq<int> {
    x.before + (QuotedText(x.items) + (x.after + [':' as int]))
  }

  /** Members up to and including the closing brace. */
  function MembersText(ms: Members): seq<int> {
    match ms
    case LastMember(k, b, v, a) => NameText(k) + (b + (ValueText(v) + a)) + ['}' as int]
    case MoreMembers(k, b, v, a, rest) =>
      NameText(k) + (b + (ValueText(v) + a)) + [',' as int] + MembersText(rest)
  }

  function DocText(d: Doc): seq<int> {
    match d
    case BlankDoc(b) => b
    case RootedDoc(b, v, a) => b + ValueText(v) + a
  }

  // ----- meaning

  function ItemBytes(x: Item): seq<int> {
    match x
    case Plain(c) => [c % 256]
    case Simple(c) => (match SimpleMeaning(c) case Some(m) => [m] case None => [])
    case Unit(h) => if |h| == 4 then Utf8(Hex4Value(h)) else []
    case Pair(h, l) =>
      if |h| == 4 && |l| == 4 then Utf8(SurrogatePair(Hex4Value(h), Hex4Value(l))) else []
  }

  function ItemsBytes(items: seq<Item>): seq<int> {
    if items == [] then [] else ItemBytes(items[0]) + ItemsBytes(items[1..])
  }

  predicate IsFloat(n: Number) { n.fraction.Some? || n.exponent.Some? }

  /** The decimal value of a digit string, least significant digit last. */
  function Decimal(digits: seq<int>): int {
    if digits == [] then 0
    else Decimal(digits[..|digits| - 1]) * 10 + (digits[|digits| - 1] - ZERO_CODE)
  }

  /** An integer is told by value, a float by its text; if floats are handled manually the
      text comes with the blanks that followed it. */
  function NumberEvent(cfg: Config, n: Number, after: seq<int>): Event {
    if !IsFloat(n) then IntegerValue(if n.minus then -Decimal(n.whole) else Decimal(n.whole))
    else if cfg.manualFloats then FloatValue(NumberText(n, POINT_CODE) + after)
    else FloatValue(NumberText(n, if n.fraction.Some? then cfg.decimalPoint else POINT_CODE))
  }

  function Events(cfg: Config, v: Value, after: seq<int>): seq<Event> {
    match v
    case Text(items) => [StringValue(ItemsBytes(items))]
    case Num(n) => [NumberEvent(cfg, n, after)]
    case Literal(_) => []
    case EmptyArray(_) => [BeginArray, EndArray]
    case Array(es) => [BeginArray] + ElementsEvents(cfg, es)
    case EmptyObject(_) => [BeginObject, EndObject]
    case Object(ms) => [BeginObject] + MembersEvents(cfg, ms)
  }

  function ElementsEvents(cfg: Config, es: Elements): seq<Event> {
    match es
    case LastElement(_, v, a) => Events(cfg, v, a) + [EndArray]
    case MoreElements(_, v, a, rest) => Events(cfg, v, a) + ElementsEvents(cfg, rest)
  }

  function MembersEvents(cfg: Config, ms: Members): seq<Event> {
    match ms
    case LastMember(k, _, v, a) => [KeyName(ItemsBytes(k.items))] + Events(cfg, v, a) + [EndObject]
    case MoreMembers(k, _, v, a, rest) =>
      [KeyName(ItemsBytes(k.items))] + Events(cfg, v, a) + MembersEvents(cfg, rest)
  }

  function DocEvents(cfg: Config, d: Doc): seq<Event> {
    if d.RootedDoc? then Events(cfg, d.root, d.after) else []
  }

  // ----- literals

  predicate LiteralFree(v: Value) {
    match v
    case Literal(_) => false
    case Array(es) => ElementsLiteralFree(es)
    case Object(ms) => MembersLiteralFree(ms)
    case _ => true
  }

  predicate ElementsLiteralFree(es: Elements) {
    match es
    case LastElement(_, v, _) => LiteralFree(v)
    case MoreElements(_, v, _, rest) => LiteralFree(v) && ElementsLiteralFree(rest)
  }

  predicate MembersLiteralFree(ms: Members) {
    match ms
    case LastMember(_, _, v, _) => LiteralFree(v)
    case MoreMembers(_, _, v, _, rest) => LiteralFree(v) && MembersLiteralFree(rest)
  }

  predicate DocLiteralFree(d: Doc) { d.RootedDoc? ==> LiteralFree(d.root) }
}
