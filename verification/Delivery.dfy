/** From the text of a response to the user's callbacks. */
module Delivery {
  import opened Wrappers
  import opened JsonSpec
  import opened JsonInvariant
  import opened JsonGrammar
  import opened JsonComplete
  import opened JsonHeard
  import opened JsonLiterals
  import opened JsonMachine
  import opened JsonPrint
  import JsonLexer
  import JsonWithComments
  import A = MessageAssembly

  lemma {:induction false} HeardOfExtends(accept: Verdicts, log: seq<Event>, n: nat)
    requires n <= |log|
    ensures log[..n] <= HeardOf(accept, log, n)
    decreases |log| - n
  {
    if n < |log| && accept(log[..n + 1]) {
      HeardOfExtends(accept, log, n + 1);
      assert log[..n] <= log[..n + 1];
    }
  }

  lemma StepHeardExtends(cfg: Config, accept: Verdicts, p: Parser, c: int)
    ensures p.log <= LogOf(StepHeard(cfg, accept, p, c))
    ensures var o := StepHeard(cfg, accept, p, c);
            o.Go? && |o.next.log| > |p.log| ==> accept(o.next.log)
  {
    hide Step;
    StepKeepsLog(cfg, p, c);
    var o := Step(cfg, p, c);
    HeardOfExtends(accept, LogOf(o), |p.log|);
    assert LogOf(o)[..|p.log|] == p.log;
    assert LogOf(o)[..|LogOf(o)|] == LogOf(o);
  }

  /** The assembler has heard what the parser has told. */
  ghost predicate Together(jc: JsonParser, assembler: A.Assembler, kind: A.Kind, u: A.Unescaping)
    reads jc, jc.stack, jc.buffer, assembler
  {
    && jc.Valid() && jc.callback == Some(A.Answering(kind, u)) && assembler.kind == kind && assembler.unescape == u
    && (assembler.View(), true) == A.AbsorbAll(kind, u, A.Empty, jc.log)
  }

  /** One byte; what the parser tells goes to the assembler. */
  method Feed(jc: JsonParser, assembler: A.Assembler, c: int, ghost kind: A.Kind, ghost u: A.Unescaping)
    returns (r: Reply)
    requires Together(jc, assembler, kind, u)
    modifies jc, jc.stack, jc.buffer, assembler
    ensures jc.stack == old(jc.stack) && (jc.buffer == old(jc.buffer) || fresh(jc.buffer))
    ensures match StepHeard(jc.Cfg(), A.Answering(kind, u), old(jc.Abs()), c)
            case Go(q) => r == Continue && Together(jc, assembler, kind, u) && jc.Abs() == q
            case Refused(log) => r == Refuse && assembler.out == A.AbsorbAll(kind, u, A.Empty, log).0.out
            case Aborted(log) => r == Abort && assembler.out == A.AbsorbAll(kind, u, A.Empty, log).0.out
  {
    hide StepHeard, A.Absorb, A.AbsorbAll, Inv;
    ghost var before := jc.Abs();
    StepHeardExtends(jc.Cfg(), A.Answering(kind, u), before, c);
    var n := |jc.log|;
    r := jc.Char(c);
    assert jc.log == before.log + jc.log[n..];
    A.AbsorbConcat(kind, u, A.Empty, before.log, jc.log[n..]);
    var ok := assembler.Hear(jc.log[n..]);
    if r == Continue { StillWelcome(kind, u, before.log, jc.log); }
  }

  /** Feeds a response byte by byte; the parser's callback is the assembler's. */
  method ParseJson(kind: A.Kind, u: A.Unescaping, decimalPoint: int, signed: bool, text: A.Bytes)
    returns (status: A.Status, out: seq<A.Delivery>)
    ensures (status, out) == A.Response(kind, u, decimalPoint, A.CharsOf(text, signed))
  {
    hide RunHeard, StepHeard, A.Absorb, A.AbsorbAll, Inv, A.Answering;
    var assembler := new A.Assembler(kind, u);
    var jc := new JsonParser(A.DEPTH, true, false, decimalPoint, Some(A.Answering(kind, u)));
    ghost var cfg, accept, chars := jc.Cfg(), A.Answering(kind, u), A.CharsOf(text, signed);
    assert chars[0..] == chars;
    NothingAbsorbed(kind, u);
    var i := 0;
    while i < |text|
      invariant 0 <= i <= |text| == |chars| && fresh(jc) && fresh(jc.stack) && fresh(jc.buffer) && fresh(assembler)
      invariant Together(jc, assembler, kind, u) && jc.Cfg() == cfg
      invariant RunHeard(cfg, accept, Initial, chars) == RunHeard(cfg, accept, jc.Abs(), chars[i..])
    {
      RunHeardNext(cfg, accept, jc.Abs(), chars, i);
      var r := Feed(jc, assembler, A.CharOf(text[i], signed), kind, u);
      if r == Refuse { return A.Malformed, assembler.out; }
      if r == Abort { return A.Stopped, assembler.out; }
      i := i + 1;
    }
    RunHeardEnd(cfg, accept, jc.Abs());
    assert chars[i..] == [];
    var done := jc.Done();
    return if done then A.Success else A.Malformed, assembler.out;
  }

  lemma NothingAbsorbed(kind: A.Kind, u: A.Unescaping)
    ensures A.AbsorbAll(kind, u, A.Empty, []) == (A.Empty, true)
  {
  }

  lemma RunHeardNext(cfg: Config, accept: Verdicts, p: Parser, s: A.Bytes, i: nat)
    requires i < |s|
    ensures RunHeard(cfg, accept, p, s[i..]) ==
            match StepHeard(cfg, accept, p, s[i])
            case Go(q) => RunHeard(cfg, accept, q, s[i + 1..])
            case stop => stop
  {
    hide StepHeard;
    assert s[i..][1..] == s[i + 1..];
  }

  lemma RunHeardEnd(cfg: Config, accept: Verdicts, p: Parser)
    ensures RunHeard(cfg, accept, p, []) == Go(p)
  {
  }

  lemma StillWelcome(kind: A.Kind, u: A.Unescaping, before: seq<Event>, log: seq<Event>)
    requires A.AbsorbAll(kind, u, A.Empty, before).1 && before <= log
    requires |log| > |before| ==> A.Answering(kind, u)(log)
    ensures A.AbsorbAll(kind, u, A.Empty, log).1
  {
    if |log| == |before| { assert log == before; }
  }

  // ----- messages

  const ID: A.Bytes := ['i' as int, 'd' as int]
  const BODY: A.Bytes := ['b' as int, 'o' as int, 'd' as int, 'y' as int]
  const TTL: A.Bytes := ['t' as int, 't' as int, 'l' as int]
  const HIDE: A.Bytes := ['h' as int, 'i' as int, 'd' as int, 'e' as int]

  lemma {:induction false} NoZeros(s: A.Bytes)
    requires forall i :: 0 <= i < |s| ==> s[i] != 0
    ensures A.CString(s) == s
  {
    if s != [] { NoZeros(s[1..]); }
  }

  lemma NamesDiffer()
    ensures A.Codes("id") == ID && A.Codes("body") == BODY && A.Codes("ttl") == TTL && A.Codes("hide") == HIDE
    ensures A.CString(ID) == ID && A.CString(BODY) == BODY && A.CString(TTL) == TTL && A.CString(HIDE) == HIDE
    ensures ID != BODY && TTL != HIDE
  {
    NoZeros(ID);
    NoZeros(BODY);
    NoZeros(TTL);
    NoZeros(HIDE);
    assert |ID| != |BODY| && |TTL| != |HIDE|;
  }

  function FieldOf(fields: Fields, key: A.Bytes): Option<Json> {
    match fields
    case NoFields => None
    case OneField(k, v, rest) => if k == key then Some(v) else FieldOf(rest, key)
  }

  /** An object with a message's fields, each at most once. */
  predicate IsMessage(fields: Fields) {
    match fields
    case NoFields => true
    case OneField(k, v, rest) =>
      && FieldOf(rest, k).None? && IsMessage(rest)
      && (((k == ID || k == BODY) && v.JString?) || ((k == TTL || k == HIDE) && v.JInt? && 0 <= v.n < 0x1_0000_0000))
  }

  predicate AreMessages(items: Items) {
    items.OneItem? ==> items.first.JObject? && IsMessage(items.first.fields) && AreMessages(items.rest)
  }

  function BytesOf(j: Option<Json>): Option<A.Bytes> {
    if j.Some? && j.value.JString? then Some(j.value.bytes) else None
  }

  function NumberOf(j: Option<Json>): Option<nat> {
    if j.Some? && j.value.JInt? && j.value.n >= 0 then Some(j.value.n) else None
  }

  /** What the user's callback is to be given for an object. */
  function Expected(u: A.Unescaping, fields: Fields): A.Delivery {
    var id := BytesOf(FieldOf(fields, ID));
    A.Message(if id.Some? then Some(A.Plain(u, id.value)) else None, BytesOf(FieldOf(fields, BODY)),
              A.Attributes(NumberOf(FieldOf(fields, TTL)), NumberOf(FieldOf(fields, HIDE))))
  }

  function ExpectedAll(u: A.Unescaping, items: Items): seq<A.Delivery> {
    match items
    case NoItems => []
    case OneItem(j, rest) => (if j.JObject? then [Expected(u, j.fields)] else []) + ExpectedAll(u, rest)
  }

  /** A later value, or what is there already. */
  function Or<T>(later: Option<T>, now: Option<T>): Option<T> { if later.Some? then later else now }

  function OptPlain(u: A.Unescaping, s: Option<A.Bytes>): Option<A.Bytes> {
    if s.Some? then Some(A.Plain(u, s.value)) else None
  }

  /** The message that an object completes, started from what has been collected before. */
  function Completing(u: A.Unescaping, s: A.State, fields: Fields): A.Delivery {
    A.Message(Or(OptPlain(u, BytesOf(FieldOf(fields, ID))), s.id), Or(BytesOf(FieldOf(fields, BODY)), s.body),
              A.Attributes(Or(NumberOf(FieldOf(fields, TTL)), s.attributes.ttl),
                           Or(NumberOf(FieldOf(fields, HIDE)), s.attributes.hiding)))
  }

  /** The assembler after one field. */
  function WithField(u: A.Unescaping, s: A.State, k: A.Bytes, v: Json): A.State
    requires v.JString? || (v.JInt? && v.n >= 0)
  {
    var t := s.(key := k, isKey := false);
    if k == ID && v.JString? then t.(id := Some(A.Plain(u, v.bytes)))
    else if k == BODY && v.JString? then t.(body := Some(v.bytes))
    else if k == TTL && v.JInt? then t.(attributes := t.attributes.(ttl := Some(v.n)))
    else if k == HIDE && v.JInt? then t.(attributes := t.attributes.(hiding := Some(v.n)))
    else t
  }

  lemma AbsorbField(cfg: Config, u: A.Unescaping, s: A.State, k: A.Bytes, v: Json)
    requires ((k == ID || k == BODY) && v.JString?) || ((k == TTL || k == HIDE) && v.JInt? && 0 <= v.n < 0x1_0000_0000)
    ensures A.AbsorbAll(A.Messages, u, s, [KeyName(k)] + ValueEvents(cfg, v)) == (WithField(u, s, k, v), true)
  {
    hide A.CString, A.Codes, A.Plain, A.AbsorbAll;
    NamesDiffer();
    var t := s.(isKey := true, key := k);
    A.AbsorbOne(A.Messages, u, s, KeyName(k));
    assert A.Absorb(A.Messages, u, s, KeyName(k)) == (t, true);
    A.AbsorbConcat(A.Messages, u, s, [KeyName(k)], ValueEvents(cfg, v));
    A.AbsorbOne(A.Messages, u, t, ValueEvents(cfg, v)[0]);
    assert ValueEvents(cfg, v) == [ValueEvents(cfg, v)[0]];
  }

  lemma {:induction false} AbsorbFields(cfg: Config, u: A.Unescaping, s: A.State, fields: Fields)
    requires IsMessage(fields)
    ensures var (t, ok) := A.AbsorbAll(A.Messages, u, s, FieldsEvents(cfg, fields));
            && ok && t.id == None && t.body == None && t.attributes == A.Unset
            && t.out == s.out + [Completing(u, s, fields)]
    decreases fields
  {
    hide A.AbsorbAll, A.Plain;
    match fields {
      case NoFields => A.AbsorbOne(A.Messages, u, s, EndObject);
      case OneField(k, v, rest) =>
        AbsorbField(cfg, u, s, k, v);
        A.AbsorbConcat(A.Messages, u, s, [KeyName(k)] + ValueEvents(cfg, v), FieldsEvents(cfg, rest));
        AbsorbFields(cfg, u, WithField(u, s, k, v), rest);
        CompletingNext(u, s, k, v, rest);
    }
  }

  lemma CompletingNext(u: A.Unescaping, s: A.State, k: A.Bytes, v: Json, rest: Fields)
    requires IsMessage(OneField(k, v, rest))
    ensures Completing(u, WithField(u, s, k, v), rest) == Completing(u, s, OneField(k, v, rest))
    ensures WithField(u, s, k, v).out == s.out
  {
    hide A.Plain;
    NamesDiffer();
    assert ID != TTL && ID != HIDE && BODY != TTL && BODY != HIDE by {
      assert |ID| != |TTL| && |ID| != |HIDE| && |BODY| != |TTL| && BODY[0] != HIDE[0];
    }
  }

  lemma AbsorbObject(cfg: Config, u: A.Unescaping, s: A.State, fields: Fields)
    requires IsMessage(fields) && s.id == None && s.body == None
    ensures var (t, ok) := A.AbsorbAll(A.Messages, u, s, ValueEvents(cfg, JObject(fields)));
            && ok && t.id == None && t.body == None && t.out == s.out + [Expected(u, fields)]
  {
    hide A.AbsorbAll, A.Plain;
    A.AbsorbOne(A.Messages, u, s, BeginObject);
    A.AbsorbConcat(A.Messages, u, s, [BeginObject], FieldsEvents(cfg, fields));
    AbsorbFields(cfg, u, s.(attributes := A.Unset), fields);
  }

  lemma {:induction false} AbsorbItems(cfg: Config, u: A.Unescaping, s: A.State, items: Items)
    requires AreMessages(items) && s.id == None && s.body == None
    ensures var (t, ok) := A.AbsorbAll(A.Messages, u, s, ItemsEvents(cfg, items));
            ok && t.out == s.out + ExpectedAll(u, items)
    decreases items
  {
    hide A.AbsorbAll, Expected;
    match items {
      case NoItems => A.AbsorbOne(A.Messages, u, s, EndArray);
      case OneItem(j, rest) =>
        AbsorbObject(cfg, u, s, j.fields);
        A.AbsorbConcat(A.Messages, u, s, ValueEvents(cfg, j), ItemsEvents(cfg, rest));
        AbsorbItems(cfg, u, A.AbsorbAll(A.Messages, u, s, ValueEvents(cfg, j)).0, rest);
    }
  }

  lemma {:induction false} MessagesAreFlat(items: Items)
    requires AreMessages(items)
    ensures ItemsHeight(items) <= 1 && ItemsWordFree(items)
  {
    if items.OneItem? {
      FieldsAreFlat(items.first.fields);
      MessagesAreFlat(items.rest);
    }
  }

  lemma {:induction false} FieldsAreFlat(fields: Fields)
    requires IsMessage(fields)
    ensures FieldsHeight(fields) == 0 && FieldsWordFree(fields)
  {
    if fields.OneField? { FieldsAreFlat(fields.rest); }
  }

  /** A text whose events the assembler takes is read to its end and delivered in full. */
  lemma Delivered(kind: A.Kind, u: A.Unescaping, decimalPoint: int, d: Doc, j: Json)
    requires ConfigOk(A.ResponseConfig(decimalPoint))
    requires d.RootedDoc? && WfDoc(d) && Meaning(d.root) == j && JHeight(j) <= A.DEPTH && WordFree(j)
    requires A.AbsorbAll(kind, u, A.Empty, ValueEvents(A.ResponseConfig(decimalPoint), j)).1
    ensures A.Response(kind, u, decimalPoint, DocText(d)) ==
            (A.Success, A.AbsorbAll(kind, u, A.Empty, ValueEvents(A.ResponseConfig(decimalPoint), j)).0.out)
  {
    hide Run, RunHeard, DocText, WfDoc, ValueEvents, A.AbsorbAll, A.Absorb;
    var cfg := A.ResponseConfig(decimalPoint);
    var accept := A.Answering(kind, u);
    PrintThenParse(cfg, j, d);
    AcceptedHeardIff(cfg, accept, Initial, DocText(d));
    var log := ValueEvents(cfg, j);
    forall k | 0 < k <= |log|
      ensures accept(log[..k])
    {
      A.AnswersAreFinal(kind, u, log, k);
    }
  }

  /** End to end: any text for an array of messages, with any blanks and any spelling of its
      strings, makes the message callback run once per object, in order, with exactly that
      object's fields; nothing is carried over from one message to the next. */
  lemma MessagesAreDelivered(u: A.Unescaping, decimalPoint: int, d: Doc, items: Items)
    requires ConfigOk(A.ResponseConfig(decimalPoint))
    requires d.RootedDoc? && WfDoc(d) && Meaning(d.root) == JArray(items) && AreMessages(items)
    ensures A.Response(A.Messages, u, decimalPoint, DocText(d)) == (A.Success, ExpectedAll(u, items))
  {
    hide WfDoc, A.AbsorbAll, A.Response, Expected;
    var cfg := A.ResponseConfig(decimalPoint);
    MessagesAreFlat(items);
    A.AbsorbOne(A.Messages, u, A.Empty, BeginArray);
    A.AbsorbConcat(A.Messages, u, A.Empty, [BeginArray], ItemsEvents(cfg, items));
    AbsorbItems(cfg, u, A.Empty, items);
    assert [] + ExpectedAll(u, items) == ExpectedAll(u, items);
    Delivered(A.Messages, u, decimalPoint, d, JArray(items));
  }

  /** The same for a response that is a single message. */
  lemma MessageIsDelivered(u: A.Unescaping, decimalPoint: int, d: Doc, fields: Fields)
    requires ConfigOk(A.ResponseConfig(decimalPoint))
    requires d.RootedDoc? && WfDoc(d) && Meaning(d.root) == JObject(fields) && IsMessage(fields)
    ensures A.Response(A.Messages, u, decimalPoint, DocText(d)) == (A.Success, [Expected(u, fields)])
  {
    hide WfDoc, A.AbsorbAll, A.Response, Expected;
    FieldsAreFlat(fields);
    AbsorbObject(A.ResponseConfig(decimalPoint), u, A.Empty, fields);
    assert [] + [Expected(u, fields)] == [Expected(u, fields)];
    Delivered(A.Messages, u, decimalPoint, d, JObject(fields));
  }

  // ----- what is refused

  /** An object of strings and numbers; a float has a fraction or an exponent. */
  predicate IsFlat(fields: Fields) {
    fields.OneField? ==>
      (fields.value.JString? || fields.value.JInt? || (fields.value.JFloat? && IsFloat(fields.value.number)))
      && IsFlat(fields.rest)
  }

  predicate AreFlat(items: Items) {
    items.OneItem? ==> items.first.JObject? && IsFlat(items.first.fields) && AreFlat(items.rest)
  }

  /** Every string is an id or a body and every number an integer ttl or hide; names are
      compared as C strings. */
  predicate IsKnown(fields: Fields) {
    match fields
    case NoFields => true
    case OneField(k, v, rest) =>
      && (v.JString? ==> A.CString(k) == ID || A.CString(k) == BODY)
      && (v.JInt? ==> A.CString(k) == TTL || A.CString(k) == HIDE)
      && !v.JFloat? && IsKnown(rest)
  }

  predicate AreKnown(items: Items) {
    items.OneItem? ==> (items.first.JObject? ==> IsKnown(items.first.fields)) && AreKnown(items.rest)
  }

  lemma FieldTakenIff(cfg: Config, u: A.Unescaping, s: A.State, k: A.Bytes, v: Json)
    requires v.JString? || v.JInt? || (v.JFloat? && IsFloat(v.number))
    ensures A.AbsorbAll(A.Messages, u, s, [KeyName(k)] + ValueEvents(cfg, v)).1 <==>
            IsKnown(OneField(k, v, NoFields))
  {
    hide A.CString, A.Codes, A.Plain, A.AbsorbAll, NumberEvent;
    NamesDiffer();
    var t := s.(isKey := true, key := k);
    A.AbsorbOne(A.Messages, u, s, KeyName(k));
    assert A.Absorb(A.Messages, u, s, KeyName(k)) == (t, true);
    A.AbsorbConcat(A.Messages, u, s, [KeyName(k)], ValueEvents(cfg, v));
    A.AbsorbOne(A.Messages, u, t, ValueEvents(cfg, v)[0]);
    assert ValueEvents(cfg, v) == [ValueEvents(cfg, v)[0]];
    if v.JFloat? { FloatIsFloat(cfg, v.number); }
  }

  lemma FloatIsFloat(cfg: Config, n: Number)
    requires IsFloat(n)
    ensures NumberEvent(cfg, n, []).FloatValue?
  {
  }

  lemma {:induction false} FieldsTakenIff(cfg: Config, u: A.Unescaping, s: A.State, fields: Fields)
    requires IsFlat(fields)
    ensures A.AbsorbAll(A.Messages, u, s, FieldsEvents(cfg, fields)).1 <==> IsKnown(fields)
    decreases fields
  {
    hide A.AbsorbAll, A.Absorb, A.CString;
    match fields {
      case NoFields => EndTaken(u, s);
      case OneField(k, v, rest) =>
        FieldTakenIff(cfg, u, s, k, v);
        A.AbsorbConcat(A.Messages, u, s, [KeyName(k)] + ValueEvents(cfg, v), FieldsEvents(cfg, rest));
        FieldsTakenIff(cfg, u, A.AbsorbAll(A.Messages, u, s, [KeyName(k)] + ValueEvents(cfg, v)).0, rest);
    }
  }

  lemma EndTaken(u: A.Unescaping, s: A.State)
    ensures A.AbsorbAll(A.Messages, u, s, [EndObject]).1 && A.AbsorbAll(A.Messages, u, s, [BeginObject]).1
    ensures A.AbsorbAll(A.Messages, u, s, [EndArray]).1 && A.AbsorbAll(A.Messages, u, s, [BeginArray]).1
  {
    hide A.AbsorbAll;
    A.AbsorbOne(A.Messages, u, s, EndObject);
    A.AbsorbOne(A.Messages, u, s, BeginObject);
    A.AbsorbOne(A.Messages, u, s, EndArray);
    A.AbsorbOne(A.Messages, u, s, BeginArray);
  }

  lemma {:induction false} ItemsTakenIff(cfg: Config, u: A.Unescaping, s: A.State, items: Items)
    requires AreFlat(items)
    ensures A.AbsorbAll(A.Messages, u, s, ItemsEvents(cfg, items)).1 <==> AreKnown(items)
    decreases items
  {
    hide A.AbsorbAll, A.Absorb, IsKnown, FieldsEvents;
    EndTaken(u, s);
    match items {
      case NoItems =>
      case OneItem(j, rest) =>
        A.AbsorbConcat(A.Messages, u, s, [BeginObject], FieldsEvents(cfg, j.fields));
        FieldsTakenIff(cfg, u, A.AbsorbAll(A.Messages, u, s, [BeginObject]).0, j.fields);
        A.AbsorbConcat(A.Messages, u, s, ValueEvents(cfg, j), ItemsEvents(cfg, rest));
        ItemsTakenIff(cfg, u, A.AbsorbAll(A.Messages, u, s, ValueEvents(cfg, j)).0, rest);
    }
  }

  lemma {:induction false} FlatIsShallow(items: Items)
    requires AreFlat(items)
    ensures ItemsHeight(items) <= 1 && ItemsWordFree(items)
  {
    if items.OneItem? {
      FlatFields(items.first.fields);
      FlatIsShallow(items.rest);
    }
  }

  lemma {:induction false} FlatFields(fields: Fields)
    requires IsFlat(fields)
    ensures FieldsHeight(fields) == 0 && FieldsWordFree(fields)
  {
    if fields.OneField? { FlatFields(fields.rest); }
  }

  /** A response succeeds exactly if the assembler takes all its events. */
  lemma SucceedsIff(kind: A.Kind, u: A.Unescaping, decimalPoint: int, d: Doc, j: Json)
    requires ConfigOk(A.ResponseConfig(decimalPoint))
    requires d.RootedDoc? && WfDoc(d) && Meaning(d.root) == j && JHeight(j) <= A.DEPTH && WordFree(j)
    ensures A.Response(kind, u, decimalPoint, DocText(d)).0 == A.Success <==>
            A.AbsorbAll(kind, u, A.Empty, ValueEvents(A.ResponseConfig(decimalPoint), j)).1
  {
    hide Run, RunHeard, DocText, WfDoc, ValueEvents, A.AbsorbAll, A.Absorb;
    var cfg := A.ResponseConfig(decimalPoint);
    var accept := A.Answering(kind, u);
    PrintThenParse(cfg, j, d);
    AcceptedHeardIff(cfg, accept, Initial, DocText(d));
    var log := ValueEvents(cfg, j);
    if A.AbsorbAll(kind, u, A.Empty, log).1 {
      Delivered(kind, u, decimalPoint, d, j);
    } else {
      assert log[..|log|] == log;
      NothingAbsorbed(kind, u);
      assert !accept(log) && log != [];
    }
  }

  /** An array of flat objects is taken exactly if all their fields are known ones of the right
      type; one unknown name, or one float, makes the whole response EINVAL. */
  lemma FlatSucceedsIffKnown(u: A.Unescaping, decimalPoint: int, d: Doc, items: Items)
    requires ConfigOk(A.ResponseConfig(decimalPoint))
    requires d.RootedDoc? && WfDoc(d) && Meaning(d.root) == JArray(items) && AreFlat(items)
    ensures A.Response(A.Messages, u, decimalPoint, DocText(d)).0 == A.Success <==> AreKnown(items)
  {
    hide WfDoc, A.AbsorbAll, A.Response, AreKnown;
    var cfg := A.ResponseConfig(decimalPoint);
    FlatIsShallow(items);
    EndTaken(u, A.Empty);
    A.AbsorbConcat(A.Messages, u, A.Empty, [BeginArray], ItemsEvents(cfg, items));
    ItemsTakenIff(cfg, u, A.AbsorbAll(A.Messages, u, A.Empty, [BeginArray]).0, items);
    SucceedsIff(A.Messages, u, decimalPoint, d, JArray(items));
  }

  // ----- names

  predicate AreNames(items: Items) {
    items.OneItem? ==> items.first.JString? && AreNames(items.rest)
  }

  function NameOf(kind: A.Kind, u: A.Unescaping, s: A.Bytes): A.Delivery {
    if kind == A.Queues then A.QueueName(A.Plain(u, s)) else A.AccountName(A.Plain(u, s))
  }

  function NamesOf(kind: A.Kind, u: A.Unescaping, items: Items): seq<A.Delivery> {
    match items
    case NoItems => []
    case OneItem(j, rest) => (if j.JString? then [NameOf(kind, u, j.bytes)] else []) + NamesOf(kind, u, rest)
  }

  lemma {:induction false} AbsorbNames(cfg: Config, kind: A.Kind, u: A.Unescaping, s: A.State, items: Items)
    requires (kind == A.Queues || kind == A.Accounts) && AreNames(items)
    ensures var (t, ok) := A.AbsorbAll(kind, u, s, ItemsEvents(cfg, items));
            ok && t.out == s.out + NamesOf(kind, u, items)
    decreases items
  {
    hide A.AbsorbAll, A.Plain;
    match items {
      case NoItems => A.AbsorbOne(kind, u, s, EndArray);
      case OneItem(j, rest) =>
        A.AbsorbOne(kind, u, s, StringValue(j.bytes));
        A.AbsorbConcat(kind, u, s, ValueEvents(cfg, j), ItemsEvents(cfg, rest));
        AbsorbNames(cfg, kind, u, A.AbsorbAll(kind, u, s, ValueEvents(cfg, j)).0, rest);
    }
  }

  lemma {:induction false} NamesAreFlat(items: Items)
    requires AreNames(items)
    ensures ItemsHeight(items) == 0 && ItemsWordFree(items)
  {
    if items.OneItem? { NamesAreFlat(items.rest); }
  }

  /** A list of queues or accounts is delivered name by name, in order. */
  lemma NamesAreDelivered(kind: A.Kind, u: A.Unescaping, decimalPoint: int, d: Doc, items: Items)
    requires ConfigOk(A.ResponseConfig(decimalPoint)) && (kind == A.Queues || kind == A.Accounts)
    requires d.RootedDoc? && WfDoc(d) && Meaning(d.root) == JArray(items) && AreNames(items)
    ensures A.Response(kind, u, decimalPoint, DocText(d)) == (A.Success, NamesOf(kind, u, items))
  {
    hide WfDoc, A.AbsorbAll, A.Response;
    var cfg := A.ResponseConfig(decimalPoint);
    NamesAreFlat(items);
    A.AbsorbOne(kind, u, A.Empty, BeginArray);
    A.AbsorbConcat(kind, u, A.Empty, [BeginArray], ItemsEvents(cfg, items));
    AbsorbNames(cfg, kind, u, A.Empty, items);
    assert [] + NamesOf(kind, u, items) == NamesOf(kind, u, items);
    Delivered(kind, u, decimalPoint, d, JArray(items));
  }

  // ----- every response

  /** A syntax tree for a response whose comments have been replaced, and whose events the
      assembler takes. */
  ghost predicate IsResponse(kind: A.Kind, u: A.Unescaping, cfg: Config, d: Doc, text: A.Bytes) {
    var spaced := JsonWithComments.Replaced(JsonLexer.START, text);
    && spaced.Some? && JsonWithComments.IsDocOf(cfg, d, spaced.value)
    && A.AbsorbAll(kind, u, A.Empty, DocEvents(cfg, d)).1
  }

  /** What a response with such a tree delivers. */
  lemma TreeIsDelivered(kind: A.Kind, u: A.Unescaping, decimalPoint: int, d: Doc, text: A.Bytes)
    requires ConfigOk(A.ResponseConfig(decimalPoint)) && IsResponse(kind, u, A.ResponseConfig(decimalPoint), d, text)
    ensures A.Response(kind, u, decimalPoint, text) ==
            (A.Success, A.AbsorbAll(kind, u, A.Empty, DocEvents(A.ResponseConfig(decimalPoint), d)).0.out)
  {
    hide Run, RunHeard, JsonWithComments.Replaced, JsonWithComments.IsDocOf, DocEvents, A.AbsorbAll, Accepted;
    var cfg, accept := A.ResponseConfig(decimalPoint), A.Answering(kind, u);
    JsonWithComments.AcceptedEvents(cfg, text, d);
    AcceptedHeardIff(cfg, accept, Initial, text);
    var log := DocEvents(cfg, d);
    forall k | 0 < k <= |log|
      ensures accept(log[..k])
    {
      A.AnswersAreFinal(kind, u, log, k);
    }
  }

  /** Any text at all: the response succeeds if and only if, with a space for each comment, it is
      a text of the grammar whose events the assembler takes. */
  lemma ResponseSucceedsIff(kind: A.Kind, u: A.Unescaping, decimalPoint: int, text: A.Bytes)
    requires ConfigOk(A.ResponseConfig(decimalPoint))
    ensures A.Response(kind, u, decimalPoint, text).0 == A.Success <==>
            exists d :: IsResponse(kind, u, A.ResponseConfig(decimalPoint), d, text)
  {
    hide Run, RunHeard, JsonWithComments.Replaced, JsonWithComments.IsDocOf, DocEvents, A.AbsorbAll;
    var cfg, accept := A.ResponseConfig(decimalPoint), A.Answering(kind, u);
    if A.Response(kind, u, decimalPoint, text).0 == A.Success {
      AcceptedHeardIff(cfg, accept, Initial, text);
      JsonWithComments.AcceptedIffInGrammar(cfg, text);
      var d :| JsonWithComments.IsDocOf(cfg, d, JsonWithComments.Replaced(JsonLexer.START, text).value);
      JsonWithComments.AcceptedEvents(cfg, text, d);
      AllTaken(kind, u, DocEvents(cfg, d));
      assert IsResponse(kind, u, cfg, d, text);
    }
    forall d | IsResponse(kind, u, cfg, d, text)
      ensures A.Response(kind, u, decimalPoint, text).0 == A.Success
    {
      TreeIsDelivered(kind, u, decimalPoint, d, text);
    }
  }

  lemma AllTaken(kind: A.Kind, u: A.Unescaping, log: seq<Event>)
    requires Welcome(A.Answering(kind, u), log, 0)
    ensures A.AbsorbAll(kind, u, A.Empty, log).1
  {
    hide A.AbsorbAll;
    NothingAbsorbed(kind, u);
    if log != [] {
      assert log[..|log|] == log;
      assert A.Answering(kind, u)(log[..|log|]);
    }
  }

  // ----- literals

  /** What the assembler makes of the events before the first literal. */
  function UpToLiteral(kind: A.Kind, u: A.Unescaping, cfg: Config, v: Value): (A.State, bool) {
    A.AbsorbAll(kind, u, A.Empty, Before(cfg, v))
  }

  /** A response stops at the failed assertion if and only if it holds a true, false or null and
      the assembler takes the events before the first of them; these have then been delivered. */
  lemma ResponseStopsIff(kind: A.Kind, u: A.Unescaping, decimalPoint: int, d: Doc)
    requires ConfigOk(A.ResponseConfig(decimalPoint)) && d.RootedDoc? && WfDoc(d) && DocHeight(d) <= A.DEPTH
    ensures var (state, taken) := UpToLiteral(kind, u, A.ResponseConfig(decimalPoint), d.root);
            var (status, out) := A.Response(kind, u, decimalPoint, DocText(d));
            && (status == A.Stopped <==> !LiteralFree(d.root) && taken)
            && (!LiteralFree(d.root) && !taken ==> status == A.Malformed)
            && (status == A.Stopped ==> out == state.out)
  {
    hide Run, RunHeard, DocText, WfDoc, DocHeight, A.AbsorbAll, Before, LiteralFree;
    var cfg, accept := A.ResponseConfig(decimalPoint), A.Answering(kind, u);
    StoppedIffLiteral(cfg, d);
    RefusedIsCut(cfg, accept, Initial, DocText(d));
    InitialSlot();
    if !LiteralFree(d.root) {
      var log := Before(cfg, d.root);
      if A.AbsorbAll(kind, u, A.Empty, log).1 {
        forall k | 0 < k <= |log|
          ensures accept(log[..k])
        {
          A.AnswersAreFinal(kind, u, log, k);
        }
      } else {
        NothingAbsorbed(kind, u);
        assert log[..|log|] == log && !accept(log);
      }
    }
  }

  // ----- bytes and chars

  lemma AsciiCharsAreBytes(text: A.Bytes, signed: bool)
    requires signed ==> forall i :: 0 <= i < |text| ==> text[i] < 128
    ensures A.CharsOf(text, signed) == text
  {
  }

  lemma {:induction false} NoNegativeChar(cfg: Config, p: Parser, s: A.Bytes)
    requires Run(cfg, p, s).Go?
    ensures forall i :: 0 <= i < |s| ==> s[i] >= 0
    decreases |s|
  {
    if s != [] { NoNegativeChar(cfg, Step(cfg, p, s[0]).next, s[1..]); }
  }

  predicate IsAscii(text: A.Bytes) { forall i :: 0 <= i < |text| ==> text[i] < 128 }

  /** A run that goes on with unsigned chars is, with signed ones, cut off at the first byte
      that is not ASCII. */
  lemma {:induction false} SignedRun(cfg: Config, accept: Verdicts, p: Parser, text: A.Bytes)
    requires AreBytes(text) && RunHeard(cfg, accept, p, text).Go?
    ensures !IsAscii(text) ==> RunHeard(cfg, accept, p, A.CharsOf(text, true)).Refused?
    decreases |text|
  {
    hide Step, Heard;
    if text != [] {
      var chars := A.CharsOf(text, true);
      assert chars[1..] == A.CharsOf(text[1..], true);
      if text[0] >= 128 {
        NegativeIsRefused(cfg, p, chars[0]);
        HeardQuiet(accept, |p.log|, Refused(p.log));
      } else {
        SignedRun(cfg, accept, StepHeard(cfg, accept, p, text[0]).next, text[1..]);
      }
    }
  }

  lemma NegativeIsRefused(cfg: Config, p: Parser, c: int)
    requires c < 0
    ensures Step(cfg, p, c) == Refused(p.log)
  {
  }

  /** Where chars are signed, a response succeeds exactly if it is plain ASCII and succeeds
      where they are not: the upper half of every UTF-8 sequence reaches the parser as a
      negative code, and a response that has one is EINVAL. */
  lemma SignedCharsRefuseUtf8(kind: A.Kind, u: A.Unescaping, decimalPoint: int, text: A.Bytes)
    requires AreBytes(text)
    ensures A.Response(kind, u, decimalPoint, A.CharsOf(text, true)).0 == A.Success <==>
            IsAscii(text) && A.Response(kind, u, decimalPoint, text).0 == A.Success
    ensures A.Response(kind, u, decimalPoint, text).0 == A.Success && !IsAscii(text) ==>
              A.Response(kind, u, decimalPoint, A.CharsOf(text, true)).0 == A.Malformed
  {
    hide Run, RunHeard;
    var cfg, accept, chars := A.ResponseConfig(decimalPoint), A.Answering(kind, u), A.CharsOf(text, true);
    if IsAscii(text) { AsciiCharsAreBytes(text, true); }
    if A.Response(kind, u, decimalPoint, chars).0 == A.Success {
      AcceptedHeardIff(cfg, accept, Initial, chars);
      NoNegativeChar(cfg, Initial, chars);
      forall i | 0 <= i < |text|
        ensures text[i] < 128
      {
        assert chars[i] >= 0;
      }
    }
    if A.Response(kind, u, decimalPoint, text).0 == A.Success { SignedRun(cfg, accept, Initial, text); }
  }

  /** The queue that is named by an e with an acute accent, in two bytes of UTF-8. */
  const ACCENTED := ['[' as int, '"' as int, 0xC3, 0xA9, '"' as int, ']' as int]

  /** The list of this one queue is delivered where chars are unsigned and is EINVAL where they
      are signed. */
  lemma AccentedNameIsRefused(u: A.Unescaping, decimalPoint: int)
    requires ConfigOk(A.ResponseConfig(decimalPoint))
    ensures A.Response(A.Queues, u, decimalPoint, A.CharsOf(ACCENTED, false)) ==
            (A.Success, [A.QueueName(A.Plain(u, [0xC3, 0xA9]))])
    ensures A.Response(A.Queues, u, decimalPoint, A.CharsOf(ACCENTED, true)).0 == A.Malformed
  {
    hide A.Response;
    var name := [Plain(0xC3), Plain(0xA9)];
    var d := RootedDoc([], Array(LastElement([], Text(name), [])), []);
    TwoPlain(0xC3, 0xA9);
    assert DocText(d) == ACCENTED;
    var items := OneItem(JString([0xC3, 0xA9]), NoItems);
    NamesAreDelivered(A.Queues, u, decimalPoint, d, items);
    assert NamesOf(A.Queues, u, items) == [A.QueueName(A.Plain(u, [0xC3, 0xA9]))];
    AsciiCharsAreBytes(ACCENTED, false);
    assert ACCENTED[2] >= 128;
    SignedCharsRefuseUtf8(A.Queues, u, decimalPoint, ACCENTED);
  }

  lemma TwoPlain(c: int, d: int)
    requires 0 <= c < 256 && 0 <= d < 256
    ensures ItemsText([Plain(c), Plain(d)]) == [c, d] && ItemsBytes([Plain(c), Plain(d)]) == [c, d]
  {
    var last := [Plain(d)];
    assert last[1..] == [] && ItemsText(last) == [d] + [] && ItemsBytes(last) == [d] + [];
    assert [Plain(c), Plain(d)][1..] == last;
  }
}
