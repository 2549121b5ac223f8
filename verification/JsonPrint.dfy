/** Printing a value and parsing the text again gives the value's events, whatever blanks and
    whatever spelling of its strings the printer chose. */
module JsonPrint {
  import opened Wrappers
  import opened JsonSpec
  import opened JsonGrammar
  import opened JsonNumbers
  import opened JsonComplete
  import opened Unicode

  /** A value without its layout.  Strings are bytes. */
  datatype Json =
    | JString(bytes: seq<int>)
    | JInt(n: int)
    | JFloat(number: Number)
    | JWord(word: Word)
    | JArray(items: Items)
    | JObject(fields: Fields)

  datatype Items = NoItems | OneItem(first: Json, rest: Items)

  datatype Fields = NoFields | OneField(key: seq<int>, value: Json, rest: Fields)

  // ----- what a syntax tree means

  function Meaning(v: Value): Json {
    match v
    case Text(items) => JString(ItemsBytes(items))
    case Num(n) =>
      if IsFloat(n) then JFloat(n) else JInt(if n.minus then -Decimal(n.whole) else Decimal(n.whole))
    case Literal(w) => JWord(w)
    case EmptyArray(_) => JArray(NoItems)
    case Array(es) => JArray(ItemsMeaning(es))
    case EmptyObject(_) => JObject(NoFields)
    case Object(ms) => JObject(FieldsMeaning(ms))
  }

  function ItemsMeaning(es: Elements): Items {
    match es
    case LastElement(_, v, _) => OneItem(Meaning(v), NoItems)
    case MoreElements(_, v, _, rest) => OneItem(Meaning(v), ItemsMeaning(rest))
  }

  function FieldsMeaning(ms: Members): Fields {
    match ms
    case LastMember(k, _, v, _) => OneField(ItemsBytes(k.items), Meaning(v), NoFields)
    case MoreMembers(k, _, v, _, rest) => OneField(ItemsBytes(k.items), Meaning(v), FieldsMeaning(rest))
  }

  // ----- the events of a value, in order

  function ValueEvents(cfg: Config, j: Json): seq<Event> {
    match j
    case JString(bytes) => [StringValue(bytes)]
    case JInt(n) => [IntegerValue(n)]
    case JFloat(n) => [NumberEvent(cfg, n, [])]
    case JWord(_) => []
    case JArray(items) => [BeginArray] + ItemsEvents(cfg, items)
    case JObject(fields) => [BeginObject] + FieldsEvents(cfg, fields)
  }

  function ItemsEvents(cfg: Config, items: Items): seq<Event> {
    match items
    case NoItems => [EndArray]
    case OneItem(j, rest) => ValueEvents(cfg, j) + ItemsEvents(cfg, rest)
  }

  function FieldsEvents(cfg: Config, fields: Fields): seq<Event> {
    match fields
    case NoFields => [EndObject]
    case OneField(k, j, rest) => [KeyName(k)] + ValueEvents(cfg, j) + FieldsEvents(cfg, rest)
  }

  predicate FloatFree(j: Json) {
    match j
    case JFloat(_) => false
    case JArray(items) => ItemsFloatFree(items)
    case JObject(fields) => FieldsFloatFree(fields)
    case _ => true
  }

  predicate ItemsFloatFree(items: Items) {
    items.OneItem? ==> FloatFree(items.first) && ItemsFloatFree(items.rest)
  }

  predicate FieldsFloatFree(fields: Fields) {
    fields.OneField? ==> FloatFree(fields.value) && FieldsFloatFree(fields.rest)
  }

  /** A float that is handled manually is told with the blanks after it, all else without. */
  lemma {:induction false} EventsOfMeaning(cfg: Config, v: Value, after: seq<int>)
    requires cfg.manualFloats ==> FloatFree(Meaning(v))
    ensures Events(cfg, v, after) == ValueEvents(cfg, Meaning(v))
    decreases v
  {
    match v
    case Array(es) => EventsOfItems(cfg, es);
    case Object(ms) => EventsOfFields(cfg, ms);
    case EmptyArray(_) => assert [BeginArray] + [EndArray] == [BeginArray, EndArray];
    case EmptyObject(_) => assert [BeginObject] + [EndObject] == [BeginObject, EndObject];
    case Text(_) =>
    case Num(_) =>
    case Literal(_) =>
  }

  lemma {:induction false} EventsOfItems(cfg: Config, es: Elements)
    requires cfg.manualFloats ==> ItemsFloatFree(ItemsMeaning(es))
    ensures ElementsEvents(cfg, es) == ItemsEvents(cfg, ItemsMeaning(es))
    decreases es
  {
    EventsOfMeaning(cfg, es.value, es.after);
    if es.MoreElements? { EventsOfItems(cfg, es.rest); }
  }

  lemma {:induction false} EventsOfFields(cfg: Config, ms: Members)
    requires cfg.manualFloats ==> FieldsFloatFree(FieldsMeaning(ms))
    ensures MembersEvents(cfg, ms) == FieldsEvents(cfg, FieldsMeaning(ms))
    decreases ms
  {
    EventsOfMeaning(cfg, ms.value, ms.after);
    if ms.MoreMembers? { EventsOfFields(cfg, ms.rest); }
  }

  // ----- printing

  predicate IsByte(b: int) { 0 <= b < 0x100 }

  predicate AreBytes(s: seq<int>) { forall i :: 0 <= i < |s| ==> IsByte(s[i]) }

  function HexCode(d: int): int
    requires 0 <= d < 16
  {
    if d < 10 then '0' as int + d else 'a' as int + d - 10
  }

  function Hex4(u: int): seq<int>
    requires 0 <= u < 0x10000
  {
    [HexCode(u / 0x1000), HexCode(u / 0x100 % 16), HexCode(u / 0x10 % 16), HexCode(u % 16)]
  }

  lemma HexCodeInverts(d: int)
    requires 0 <= d < 16
    ensures IsHexCode(HexCode(d)) && HexDigitValue(HexCode(d)) == d
  {
  }

  lemma Hex4Inverts(u: int)
    requires 0 <= u < 0x10000
    ensures AreHex4(Hex4(u)) && Hex4Value(Hex4(u)) == u
  {
    hide HexCode, HexDigitValue, IsHexCode;
    var a, b := u / 0x10, u / 0x100;
    assert a / 16 == b && b / 16 == u / 0x1000;
    HexCodeInverts(u / 0x1000);
    HexCodeInverts(b % 16);
    HexCodeInverts(a % 16);
    HexCodeInverts(u % 16);
  }

  /** A byte is printed as it is where the grammar allows that. */
  function SpellByte(b: int): Item
    requires IsByte(b)
  {
    if b == '"' as int || b == '\\' as int then Simple(b)
    else if b < 32 then Unit(Hex4(b))
    else Plain(b)
  }

  function SpellBytes(s: seq<int>): seq<Item>
    requires AreBytes(s)
  {
    if s == [] then [] else [SpellByte(s[0])] + SpellBytes(s[1..])
  }

  lemma SpellByteMeans(b: int)
    requires IsByte(b)
    ensures WfItem(SpellByte(b)) && ItemBytes(SpellByte(b)) == [b]
  {
    if b < 32 { Hex4Inverts(b); }
  }

  lemma {:induction false} SpellBytesMeans(s: seq<int>)
    requires AreBytes(s)
    ensures WfItems(SpellBytes(s)) && ItemsBytes(SpellBytes(s)) == s
  {
    hide WfItem, ItemBytes, SpellByte;
    if s != [] {
      SpellByteMeans(s[0]);
      SpellBytesMeans(s[1..]);
      assert SpellBytes(s)[1..] == SpellBytes(s[1..]);
      assert s == [s[0]] + s[1..];
    }
  }

  /** A scalar value as \uXXXX, or as two of them above 0xFFFF. */
  function SpellScalar(u: int): Item
    requires IsScalar(u)
  {
    if u < 0x10000 then Unit(Hex4(u)) else Pair(Hex4(HighHalf(u)), Hex4(LowHalf(u)))
  }

  function SpellScalars(us: seq<int>): seq<Item>
    requires forall i :: 0 <= i < |us| ==> IsScalar(us[i])
  {
    if us == [] then [] else [SpellScalar(us[0])] + SpellScalars(us[1..])
  }

  lemma SpellScalarMeans(u: int)
    requires IsScalar(u)
    ensures WfItem(SpellScalar(u)) && ItemBytes(SpellScalar(u)) == Utf8(u)
  {
    hide Hex4, Hex4Value, AreHex4, Utf8;
    if u < 0x10000 {
      Hex4Inverts(u);
      AreHex4Size(Hex4(u));
    } else {
      HalvesArePair(u);
      Hex4Inverts(HighHalf(u));
      Hex4Inverts(LowHalf(u));
      AreHex4Size(Hex4(HighHalf(u)));
      AreHex4Size(Hex4(LowHalf(u)));
    }
  }

  lemma AreHex4Size(h: seq<int>)
    requires AreHex4(h)
    ensures |h| == 4
  {
  }

  /** Scalar values written as \uXXXX escapes reach the token buffer as their UTF-8 form, which
      an independent decoder turns back into the scalar values. */
  lemma {:induction false} EscapedScalarsMean(us: seq<int>)
    requires forall i :: 0 <= i < |us| ==> IsScalar(us[i])
    ensures WfItems(SpellScalars(us)) && ItemsBytes(SpellScalars(us)) == Utf8All(us)
    ensures DecodeAll(ItemsBytes(SpellScalars(us))) == Some(us)
  {
    EscapedScalarsAreUtf8(us);
    DecodeInvertsUtf8(us);
  }

  lemma {:induction false} EscapedScalarsAreUtf8(us: seq<int>)
    requires forall i :: 0 <= i < |us| ==> IsScalar(us[i])
    ensures WfItems(SpellScalars(us)) && ItemsBytes(SpellScalars(us)) == Utf8All(us)
  {
    hide WfItem, ItemBytes, SpellScalar, Utf8, IsScalar;
    if us != [] {
      SpellScalarMeans(us[0]);
      EscapedScalarsAreUtf8(us[1..]);
      assert SpellScalars(us)[1..] == SpellScalars(us[1..]);
    }
  }

  /** The digits of a natural number, without leading zeros. */
  function DigitsOf(n: nat): seq<int> {
    if n < 10 then [ZERO_CODE + n] else DigitsOf(n / 10) + [ZERO_CODE + n % 10]
  }

  lemma {:induction false} DigitsOfInverts(n: nat)
    ensures WfWhole(DigitsOf(n)) && Decimal(DigitsOf(n)) == n
    ensures n > 0 ==> DigitsOf(n)[0] != ZERO_CODE
  {
    var ds := DigitsOf(n);
    if n < 10 {
      assert ds[..0] == [];
    } else {
      DigitsOfInverts(n / 10);
      assert ds[..|ds| - 1] == DigitsOf(n / 10);
      assert ds[0] == DigitsOf(n / 10)[0];
    }
  }

  function SpellInt(n: int): Number {
    Number(n < 0, DigitsOf(if n < 0 then -n else n), None, None)
  }

  /** Every string of the value is made of bytes, and its floats are numbers. */
  predicate Printable(j: Json) {
    match j
    case JString(s) => AreBytes(s)
    case JFloat(n) => WfNumber(n) && IsFloat(n)
    case JArray(items) => ItemsPrintable(items)
    case JObject(fields) => FieldsPrintable(fields)
    case _ => true
  }

  predicate ItemsPrintable(items: Items) {
    items.OneItem? ==> Printable(items.first) && ItemsPrintable(items.rest)
  }

  predicate FieldsPrintable(fields: Fields) {
    fields.OneField? ==> AreBytes(fields.key) && Printable(fields.value) && FieldsPrintable(fields.rest)
  }

  /** Prints a value with the given blanks between all tokens. */
  function Print(j: Json, gap: seq<int>): Value
    requires Printable(j)
  {
    match j
    case JString(s) => Text(SpellBytes(s))
    case JInt(n) => Num(SpellInt(n))
    case JFloat(n) => Num(n)
    case JWord(w) => Literal(w)
    case JArray(items) => if items.NoItems? then EmptyArray(gap) else Array(PrintItems(items, gap))
    case JObject(fields) => if fields.NoFields? then EmptyObject(gap) else Object(PrintFields(fields, gap))
  }

  function PrintItems(items: Items, gap: seq<int>): Elements
    requires items.OneItem? && ItemsPrintable(items)
  {
    var v := Print(items.first, gap);
    if items.rest.NoItems? then LastElement(gap, v, gap)
    else MoreElements(gap, v, gap, PrintItems(items.rest, gap))
  }

  function PrintFields(fields: Fields, gap: seq<int>): Members
    requires fields.OneField? && FieldsPrintable(fields)
  {
    var name := Name(gap, SpellBytes(fields.key), gap);
    var v := Print(fields.value, gap);
    if fields.rest.NoFields? then LastMember(name, gap, v, gap)
    else MoreMembers(name, gap, v, gap, PrintFields(fields.rest, gap))
  }

  /** Every printable value has texts that mean it. */
  lemma {:induction false} PrintMeans(j: Json, gap: seq<int>)
    requires Printable(j) && IsBlank(gap)
    ensures WfValue(Print(j, gap)) && Meaning(Print(j, gap)) == j
    decreases j
  {
    hide SpellBytes, ItemsBytes, WfItems, DigitsOf, Decimal, WfNumber, AreBytes, IsBlank;
    match j
    case JString(s) => SpellBytesMeans(s);
    case JInt(n) => SpellIntMeans(n);
    case JFloat(_) =>
    case JWord(_) =>
    case JArray(items) => if items.OneItem? { PrintItemsMeans(items, gap); }
    case JObject(fields) => if fields.OneField? { PrintFieldsMeans(fields, gap); }
  }

  lemma SpellIntMeans(n: int)
    ensures WfNumber(SpellInt(n)) && Meaning(Num(SpellInt(n))) == JInt(n)
  {
    DigitsOfInverts(if n < 0 then -n else n);
  }

  lemma {:induction false} PrintItemsMeans(items: Items, gap: seq<int>)
    requires items.OneItem? && ItemsPrintable(items) && IsBlank(gap)
    ensures WfElements(PrintItems(items, gap)) && ItemsMeaning(PrintItems(items, gap)) == items
    decreases items
  {
    hide Print, IsBlank;
    PrintMeans(items.first, gap);
    if items.rest.OneItem? { PrintItemsMeans(items.rest, gap); }
  }

  lemma {:induction false} PrintFieldsMeans(fields: Fields, gap: seq<int>)
    requires fields.OneField? && FieldsPrintable(fields) && IsBlank(gap)
    ensures WfMembers(PrintFields(fields, gap)) && FieldsMeaning(PrintFields(fields, gap)) == fields
    decreases fields
  {
    hide Print, IsBlank, SpellBytes, ItemsBytes, WfItems, AreBytes;
    SpellBytesMeans(fields.key);
    PrintMeans(fields.value, gap);
    if fields.rest.OneField? { PrintFieldsMeans(fields.rest, gap); }
  }

  // ----- print, then parse

  function JHeight(j: Json): nat {
    match j
    case JArray(items) => 1 + ItemsHeight(items)
    case JObject(fields) => 1 + FieldsHeight(fields)
    case _ => 0
  }

  function ItemsHeight(items: Items): nat {
    if items.NoItems? then 0 else Max(JHeight(items.first), ItemsHeight(items.rest))
  }

  function FieldsHeight(fields: Fields): nat {
    if fields.NoFields? then 0 else Max(JHeight(fields.value), FieldsHeight(fields.rest))
  }

  lemma {:induction false} HeightOfMeaning(v: Value)
    ensures Height(v) == JHeight(Meaning(v))
    decreases v
  {
    match v
    case Array(es) => HeightOfItems(es);
    case Object(ms) => HeightOfFields(ms);
    case _ =>
  }

  lemma {:induction false} HeightOfItems(es: Elements)
    ensures ElementsHeight(es) == ItemsHeight(ItemsMeaning(es))
    decreases es
  {
    HeightOfMeaning(es.value);
    if es.MoreElements? { HeightOfItems(es.rest); }
  }

  lemma {:induction false} HeightOfFields(ms: Members)
    ensures MembersHeight(ms) == FieldsHeight(FieldsMeaning(ms))
    decreases ms
  {
    HeightOfMeaning(ms.value);
    if ms.MoreMembers? { HeightOfFields(ms.rest); }
  }

  predicate WordFree(j: Json) {
    match j
    case JWord(_) => false
    case JArray(items) => ItemsWordFree(items)
    case JObject(fields) => FieldsWordFree(fields)
    case _ => true
  }

  predicate ItemsWordFree(items: Items) {
    items.OneItem? ==> WordFree(items.first) && ItemsWordFree(items.rest)
  }

  predicate FieldsWordFree(fields: Fields) {
    fields.OneField? ==> WordFree(fields.value) && FieldsWordFree(fields.rest)
  }

  lemma {:induction false} WordFreeMeaning(v: Value)
    ensures LiteralFree(v) <==> WordFree(Meaning(v))
    decreases v
  {
    match v
    case Array(es) => WordFreeItems(es);
    case Object(ms) => WordFreeFields(ms);
    case _ =>
  }

  lemma {:induction false} WordFreeItems(es: Elements)
    ensures ElementsLiteralFree(es) <==> ItemsWordFree(ItemsMeaning(es))
    decreases es
  {
    WordFreeMeaning(es.value);
    if es.MoreElements? { WordFreeItems(es.rest); }
  }

  lemma {:induction false} WordFreeFields(ms: Members)
    ensures MembersLiteralFree(ms) <==> FieldsWordFree(FieldsMeaning(ms))
    decreases ms
  {
    WordFreeMeaning(ms.value);
    if ms.MoreMembers? { WordFreeFields(ms.rest); }
  }

  /** Any text that means `j`, with any blanks and any spelling of its strings, is accepted,
      and the callback hears exactly the events of `j`; only the text of a float that is handled
      manually depends on the blanks. */
  lemma {:induction false} PrintThenParse(cfg: Config, j: Json, d: Doc)
    requires ConfigOk(cfg)
    requires d.RootedDoc? && WfDoc(d) && Meaning(d.root) == j
    requires JHeight(j) <= cfg.depth && (cfg.listening ==> WordFree(j))
    ensures Accepted(cfg, Initial, DocText(d))
    ensures (cfg.manualFloats ==> FloatFree(j)) ==>
              Run(cfg, Initial, DocText(d)).next.log == Told(cfg, ValueEvents(cfg, j))
  {
    hide WfDoc, Accepted, Run, DocText;
    HeightOfMeaning(d.root);
    WordFreeMeaning(d.root);
    if cfg.manualFloats ==> FloatFree(j) { EventsOfMeaning(cfg, d.root, d.after); }
    RunDoc(cfg, d);
  }

  /** In particular the canonical text of a container, with any blanks as gaps. */
  lemma {:induction false} CanonicalRoundTrip(cfg: Config, j: Json, gap: seq<int>)
    requires ConfigOk(cfg) && IsBlank(gap)
    requires Printable(j) && (j.JArray? || j.JObject?)
    requires JHeight(j) <= cfg.depth && (cfg.listening ==> WordFree(j))
    ensures var text := DocText(RootedDoc(gap, Print(j, gap), gap));
            && Accepted(cfg, Initial, text)
            && ((cfg.manualFloats ==> FloatFree(j)) ==>
                 Run(cfg, Initial, text).next.log == Told(cfg, ValueEvents(cfg, j)))
  {
    hide Accepted, Run, DocText, IsBlank;
    PrintMeans(j, gap);
    PrintThenParse(cfg, j, RootedDoc(gap, Print(j, gap), gap));
  }
}
