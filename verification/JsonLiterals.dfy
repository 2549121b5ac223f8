/** What a parser with a callback does on true, false and null: it stops at an assertion as
    soon as the first of them has ended, having told what comes before it. */
module JsonLiterals {
  import opened JsonTables
  import opened JsonSpec
  import opened JsonGrammar
  import opened JsonSteps
  import opened JsonNumbers
  import opened JsonComplete

  // ----- the events before the first literal

  function Before(cfg: Config, v: Value): seq<Event>
    decreases v, 0
  {
    match v
    case Array(es) => [BeginArray] + ElementsBefore(cfg, es)
    case Object(ms) => [BeginObject] + MembersBefore(cfg, ms)
    case _ => []
  }

  function ElementsBefore(cfg: Config, es: Elements): seq<Event>
    decreases es, 0
  {
    match es
    case LastElement(_, v, _) => Before(cfg, v)
    case MoreElements(_, v, a, rest) =>
      if LiteralFree(v) then Events(cfg, v, a) + ElementsBefore(cfg, rest) else Before(cfg, v)
  }

  function MembersBefore(cfg: Config, ms: Members): seq<Event>
    decreases ms, 1
  {
    [KeyName(ItemsBytes(ms.name.items))] + AfterNameBefore(cfg, ms)
  }

  function AfterNameBefore(cfg: Config, ms: Members): seq<Event>
    decreases ms, 0
  {
    match ms
    case LastMember(_, _, v, _) => Before(cfg, v)
    case MoreMembers(_, _, v, a, rest) =>
      if LiteralFree(v) then Events(cfg, v, a) + MembersBefore(cfg, rest) else Before(cfg, v)
  }

  // ----- the first literal

  predicate IsSeparator(c: int) { c == ',' as int || c == ']' as int || c == '}' as int }

  ghost predicate Stops(cfg: Config, p: Parser, text: seq<int>, events: seq<Event>) {
    Run(cfg, p, text) == Aborted(p.log + events)
  }

  lemma StopsAtOnce(cfg: Config, p: Parser, text: seq<int>, more: seq<int>, events: seq<Event>)
    requires Stops(cfg, p, text, events)
    ensures Stops(cfg, p, text + more, events)
  {
    hide Run;
    RunConcat(cfg, p, text, more);
  }

  lemma StopsLater(cfg: Config, p: Parser, first: seq<int>, told: seq<Event>, q: Parser, text: seq<int>,
    events: seq<Event>)
    requires Run(cfg, p, first) == Go(q) && q.log == p.log + told && Stops(cfg, q, text, events)
    ensures Stops(cfg, p, first + text, told + events)
  {
    hide Run;
    RunConcat(cfg, p, first, text);
    assert p.log + told + events == p.log + (told + events);
  }

  /** The token of a literal cannot be told. */
  lemma SeparatorStops(cfg: Config, q: Parser, c: int)
    requires cfg.listening && q.state == OK && Steady(q) && IsLiteral(q.token) && IsSeparator(c)
    ensures Step(cfg, q, c) == Aborted(q.log)
  {
    hide Step, Flush, ClassOf, CloseFlushed, NextFlushed;
    MarkClasses();
    BracketClasses();
    var k := if c == ',' as int then COMMA else if c == ']' as int then RSQRB else RCURB;
    StepSeparator(cfg, q, c, k);
    FlushStored(cfg, q, q.(buf := q.buf + [c]));
  }

  lemma WordStops(cfg: Config, p: Parser, w: Word, blank: seq<int>, c: int)
    requires cfg.listening && Slot(p) && IsBlank(blank) && IsSeparator(c)
    ensures Stops(cfg, p, WordText(w) + blank + [c], [])
  {
    hide Step, Run, WordText, IsBlank, IsSeparator;
    var q := p.(state := OK, token := WordToken(w), buf := WordText(w));
    var r := q.(buf := q.buf + blank);
    RunWord(cfg, p, w);
    RunConcat(cfg, p, WordText(w), blank);
    RunBlankPending(cfg, q, blank);
    RunConcat(cfg, p, WordText(w) + blank, [c]);
    SeparatorStops(cfg, r, c);
    RunOne(cfg, r, c);
    assert p.log + [] == p.log;
  }

  // ----- values, elements, members

  lemma {:induction false} ContainerStops(cfg: Config, p: Parser, v: Value)
    requires cfg.listening && ConfigOk(cfg) && OpenSlot(p) && IsContainer(v) && WfValue(v) && !LiteralFree(v)
    requires |p.modes| + Height(v) <= cfg.depth + 1
    ensures Stops(cfg, p, ValueText(v), Before(cfg, v))
    decreases v, 0
  {
    hide Step, Run, Stops, OpenSlot, ElementsText, MembersText, ElementsBefore, MembersBefore;
    match v {
      case Array(es) =>
        var q := Advance(cfg, p, [BeginArray]).(state := AR, modes := p.modes + [ArrayMode]);
        OpenedSlot(cfg, p, true);
        StepOpen(cfg, p, true);
        RunOne(cfg, p, '[' as int);
        ElementsStop(cfg, q, es);
        StopsLater(cfg, p, ['[' as int], [BeginArray], q, ElementsText(es), ElementsBefore(cfg, es));
      case Object(ms) =>
        var q := Advance(cfg, p, [BeginObject]).(state := OB, modes := p.modes + [KeyMode]);
        OpenedSlot(cfg, p, false);
        StepOpen(cfg, p, false);
        RunOne(cfg, p, '{' as int);
        MembersStop(cfg, q, ms);
        StopsLater(cfg, p, ['{' as int], [BeginObject], q, MembersText(ms), MembersBefore(cfg, ms));
    }
  }

  /** A value with a literal in it, up to the separator after it. */
  lemma {:induction false} ValueStops(cfg: Config, p: Parser, v: Value, blank: seq<int>, c: int)
    requires cfg.listening && ConfigOk(cfg) && Slot(p) && p.modes != [] && WfValue(v) && !LiteralFree(v)
    requires |p.modes| + Height(v) <= cfg.depth + 1 && IsBlank(blank) && IsSeparator(c)
    ensures Stops(cfg, p, ValueText(v) + blank + [c], Before(cfg, v))
    decreases v, 1
  {
    hide Step, Run, Stops, IsBlank, IsSeparator;
    if v.Literal? {
      WordStops(cfg, p, v.word, blank, c);
    } else {
      ContainerStops(cfg, p, v);
      StopsAtOnce(cfg, p, ValueText(v), blank, Before(cfg, v));
      StopsAtOnce(cfg, p, ValueText(v) + blank, [c], Before(cfg, v));
    }
  }

  /** The same with the blanks before it. */
  lemma {:induction false} PaddedStops(cfg: Config, p: Parser, before: seq<int>, v: Value, after: seq<int>, c: int)
    requires cfg.listening && ConfigOk(cfg) && Slot(p) && p.modes != [] && WfValue(v) && !LiteralFree(v)
    requires |p.modes| + Height(v) <= cfg.depth + 1 && IsBlank(before) && IsBlank(after) && IsSeparator(c)
    ensures Stops(cfg, p, before + (ValueText(v) + after) + [c], Before(cfg, v))
    decreases v, 2
  {
    hide Step, Run, Stops, IsBlank, IsSeparator, ValueText, WfValue, Height, LiteralFree, Before;
    RunBlankIdle(cfg, p, before);
    ValueStops(cfg, p, v, after, c);
    assert p.log + [] == p.log && [] + Before(cfg, v) == Before(cfg, v);
    StopsLater(cfg, p, before, [], p, ValueText(v) + after + [c], Before(cfg, v));
    assert before + (ValueText(v) + after + [c]) == before + (ValueText(v) + after) + [c];
  }

  lemma {:induction false} ElementsStop(cfg: Config, p: Parser, es: Elements)
    requires cfg.listening && ConfigOk(cfg) && Slot(p) && p.modes != [] && Top(p) == ArrayMode
    requires WfElements(es) && !ElementsLiteralFree(es)
    requires |p.modes| + ElementsHeight(es) <= cfg.depth + 1
    ensures Stops(cfg, p, ElementsText(es), ElementsBefore(cfg, es))
    decreases es, 0
  {
    hide Step, Run, Stops, IsBlank, Events, ValueText, WfValue, Height, LiteralFree, Before;
    var v, c := es.value, if es.LastElement? then ']' as int else ',' as int;
    var value := es.before + (ValueText(v) + es.after) + [c];
    var tail := if es.LastElement? then [] else ElementsText(es.rest);
    assert ElementsText(es) == value + tail;
    if LiteralFree(v) {
      var events := Events(cfg, v, es.after);
      var q := Advance(cfg, p, events).(state := VA);
      ElementThen(cfg, p, es);
      ElementsStop(cfg, q, es.rest);
      StopsLater(cfg, p, value, events, q, tail, ElementsBefore(cfg, es.rest));
    } else {
      PaddedStops(cfg, p, es.before, v, es.after, c);
      StopsAtOnce(cfg, p, value, tail, Before(cfg, v));
    }
  }

  /** One element without literals, up to the comma after it. */
  lemma ElementThen(cfg: Config, p: Parser, es: Elements)
    requires ConfigOk(cfg) && Slot(p) && p.modes != [] && Top(p) == ArrayMode
    requires es.MoreElements? && WfElements(es) && LiteralFree(es.value)
    requires |p.modes| + Height(es.value) <= cfg.depth + 1
    ensures Run(cfg, p, es.before + (ValueText(es.value) + es.after) + [',' as int]) ==
            Go(Advance(cfg, p, Events(cfg, es.value, es.after)).(state := VA))
  {
    hide Step, Run, IsBlank, Ended, Events, ValueText, WfValue, Height, LiteralFree;
    var body := es.before + (ValueText(es.value) + es.after);
    RunConcat(cfg, p, es.before, ValueText(es.value) + es.after);
    RunBlankIdle(cfg, p, es.before);
    RunValue(cfg, p, es.value, es.after);
    var q := Run(cfg, p, ValueText(es.value) + es.after).next;
    RunConcat(cfg, p, body, [',' as int]);
    StepComma(cfg, p, q, Events(cfg, es.value, es.after));
    RunOne(cfg, q, ',' as int);
  }

  lemma {:induction false} MembersStop(cfg: Config, p: Parser, ms: Members)
    requires cfg.listening && ConfigOk(cfg) && KeySlot(p) && WfMembers(ms) && !MembersLiteralFree(ms)
    requires |p.modes| + MembersHeight(ms) <= cfg.depth + 1
    ensures Stops(cfg, p, MembersText(ms), MembersBefore(cfg, ms))
    decreases ms, 1
  {
    hide Step, Run, Stops, IsBlank, WfValue, Height, LiteralFree, WfName, NameText, ItemsBytes, MembersText,
      AfterNameText, AfterNameBefore;
    var key := [KeyName(ItemsBytes(ms.name.items))];
    var q := Advance(cfg, p, key).(state := VA, modes := Popped(p.modes) + [ObjectMode]);
    RunName(cfg, p, ms.name);
    AfterNameStops(cfg, q, ms);
    StopsLater(cfg, p, NameText(ms.name), key, q, AfterNameText(ms), AfterNameBefore(cfg, ms));
    MembersTextIs(ms);
  }

  /** What follows the name of the first member. */
  function AfterNameText(ms: Members): seq<int> {
    var value := ms.before + (ValueText(ms.value) + ms.after);
    if ms.LastMember? then value + ['}' as int] + [] else value + [',' as int] + MembersText(ms.rest)
  }

  lemma MembersTextIs(ms: Members)
    ensures MembersText(ms) == NameText(ms.name) + AfterNameText(ms)
  {
    hide ValueText, NameText;
  }

  lemma {:induction false} AfterNameStops(cfg: Config, p: Parser, ms: Members)
    requires cfg.listening && ConfigOk(cfg) && Slot(p) && p.modes != [] && Top(p) == ObjectMode
    requires WfMembers(ms) && !MembersLiteralFree(ms) && |p.modes| + MembersHeight(ms) <= cfg.depth + 1
    ensures Stops(cfg, p, AfterNameText(ms), AfterNameBefore(cfg, ms))
    decreases ms, 0
  {
    hide Step, Run, Stops, IsBlank, Events, ValueText, WfValue, Height, LiteralFree, WfName, Before, MembersBefore,
      MembersText;
    var v, c := ms.value, if ms.LastMember? then '}' as int else ',' as int;
    var value := ms.before + (ValueText(v) + ms.after) + [c];
    var tail := if ms.LastMember? then [] else MembersText(ms.rest);
    if LiteralFree(v) {
      var events := Events(cfg, v, ms.after);
      var q := Advance(cfg, p, events).(state := KE, modes := Popped(p.modes) + [KeyMode]);
      MemberThen(cfg, p, ms);
      MembersStop(cfg, q, ms.rest);
      StopsLater(cfg, p, value, events, q, tail, MembersBefore(cfg, ms.rest));
    } else {
      PaddedStops(cfg, p, ms.before, v, ms.after, c);
      StopsAtOnce(cfg, p, value, tail, Before(cfg, v));
    }
  }

  /** One member's value without literals, up to the comma after it. */
  lemma MemberThen(cfg: Config, p: Parser, ms: Members)
    requires ConfigOk(cfg) && Slot(p) && p.modes != [] && Top(p) == ObjectMode
    requires ms.MoreMembers? && WfMembers(ms) && LiteralFree(ms.value)
    requires |p.modes| + Height(ms.value) <= cfg.depth + 1
    ensures Run(cfg, p, ms.before + (ValueText(ms.value) + ms.after) + [',' as int]) ==
            Go(Advance(cfg, p, Events(cfg, ms.value, ms.after)).(state := KE, modes := Popped(p.modes) + [KeyMode]))
  {
    hide Step, Run, IsBlank, Ended, Events, ValueText, WfValue, Height, LiteralFree, WfName;
    var body := ms.before + (ValueText(ms.value) + ms.after);
    RunConcat(cfg, p, ms.before, ValueText(ms.value) + ms.after);
    RunBlankIdle(cfg, p, ms.before);
    RunValue(cfg, p, ms.value, ms.after);
    var q := Run(cfg, p, ValueText(ms.value) + ms.after).next;
    RunConcat(cfg, p, body, [',' as int]);
    StepNextMember(cfg, p, q, Events(cfg, ms.value, ms.after));
    RunOne(cfg, q, ',' as int);
  }

  // ----- texts

  lemma InitialSlot()
    ensures OpenSlot(Initial) && |Initial.modes| == 1 && Initial.log == [] && Waiting(Initial.state)
    ensures Steady(Initial) && Initial.token == NoToken
  {
  }

  /** With a callback the parser stops at its assertion exactly on the texts with a true, false
      or null in them, and has then told the events before the first one. */
  lemma StoppedIffLiteral(cfg: Config, d: Doc)
    requires cfg.listening && ConfigOk(cfg) && WfDoc(d) && DocHeight(d) <= cfg.depth
    ensures Run(cfg, Initial, DocText(d)).Aborted? <==> !DocLiteralFree(d)
    ensures !DocLiteralFree(d) ==> Run(cfg, Initial, DocText(d)) == Aborted(Before(cfg, d.root))
  {
    hide Step, Run, Stops, IsBlank, WfValue, ValueText, Height, LiteralFree, Before;
    if DocLiteralFree(d) {
      RunDoc(cfg, d);
    } else {
      InitialSlot();
      RunBlankIdle(cfg, Initial, d.before);
      ContainerStops(cfg, Initial, d.root);
      StopsLater(cfg, Initial, d.before, [], Initial, ValueText(d.root), Before(cfg, d.root));
      StopsAtOnce(cfg, Initial, d.before + ValueText(d.root), d.after, [] + Before(cfg, d.root));
      StoppedIs(cfg, DocText(d), Before(cfg, d.root));
    }
  }

  lemma StoppedIs(cfg: Config, text: seq<int>, events: seq<Event>)
    requires Stops(cfg, Initial, text, [] + events)
    ensures Run(cfg, Initial, text) == Aborted(events)
  {
    hide Run;
    assert [] + ([] + events) == events;
  }

  /** The shortest case: an array that holds the literal true. */
  lemma TrueStops(cfg: Config)
    requires cfg.listening && cfg.depth >= 1
    ensures Run(cfg, Initial, ['[' as int] + WordText(TrueWord) + [']' as int]) == Aborted([BeginArray])
  {
    hide Step, Run, WordText, IsSeparator;
    var q := Advance(cfg, Initial, [BeginArray]).(state := AR, modes := Initial.modes + [ArrayMode]);
    InitialSlot();
    OpenedSlot(cfg, Initial, true);
    StepOpen(cfg, Initial, true);
    RunOne(cfg, Initial, '[' as int);
    assert IsSeparator(']' as int) by { ClosingIsSeparator(); }
    WordStops(cfg, q, TrueWord, [], ']' as int);
    assert WordText(TrueWord) + [] + [']' as int] == WordText(TrueWord) + [']' as int];
    StopsLater(cfg, Initial, ['[' as int], [BeginArray], q, WordText(TrueWord) + [']' as int], []);
    assert ['[' as int] + (WordText(TrueWord) + [']' as int]) == ['[' as int] + WordText(TrueWord) + [']' as int];
  }

  lemma ClosingIsSeparator()
    ensures IsSeparator(']' as int)
  {
  }
}
