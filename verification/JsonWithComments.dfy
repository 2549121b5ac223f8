/** The exact language of a parser that takes comments and has a callback: the grammar's, once
    every comment has been replaced by a space. */
module JsonWithComments {
  import opened Wrappers
  import opened JsonTables
  import opened JsonSpec
  import opened JsonInvariant
  import opened JsonGrammar
  import opened JsonSteps
  import opened JsonComplete
  import opened JsonSound
  import opened JsonAlike
  import opened JsonComments
  import opened JsonLexer

  // ----- comments, as the scanner sees them

  /** What follows the end of a comment, if it ends; `star` says that a star has just been read. */
  function AfterComment(s: seq<int>, star: bool): (r: Option<seq<int>>)
    ensures r.Some? ==> |r.value| < |s| && s[|s| - |r.value|..] == r.value
  {
    if s == [] then None
    else if star && s[0] == SLASH_CODE then Some(s[1..])
    else if !IsCode(s[0]) then None
    else AfterComment(s[1..], s[0] == STAR_CODE)
  }

  predicate InNumber(t: Tail) { t == AfterPoint || t == AfterExponent }

  /** What follows the comment at the front of a text; none if there is no whole comment. */
  function CommentEnd(s: seq<int>): (r: Option<seq<int>>)
    ensures r.Some? ==> |r.value| < |s|
  {
    if |s| < 2 || s[0] != SLASH_CODE || s[1] != STAR_CODE then None else AfterComment(s[2..], false)
  }

  /** The text with a space for every comment outside strings; none if a slash there begins no
      whole comment, or comes directly after a decimal point or an exponent's digits. */
  function Replaced(l: Lex, s: seq<int>): (r: Option<seq<int>>)
    decreases |s|
  {
    if s == [] then Some([])
    else if l.Code? && s[0] == SLASH_CODE then
      if InNumber(l.tail) || CommentEnd(s).None? then None
      else Put(SPACE_CODE, Replaced(START, CommentEnd(s).value))
    else Put(s[0], Replaced(NextLex(l, s[0]), s[1..]))
  }

  function Put(c: int, s: Option<seq<int>>): Option<seq<int>> {
    if s.Some? then Some([c] + s.value) else None
  }

  // ----- the parser inside a comment

  /** A comment that does not end is part of no accepted text. */
  lemma {:induction false} UnendedIsRefused(cfg: Config, p: Parser, s: seq<int>, star: bool)
    requires p.comment && !p.escaped && p.state == (if star then C3 else C2) && AfterComment(s, star).None?
    ensures !Accepted(cfg, p, s)
    decreases |s|
  {
    hide Step, IsCode;
    if s != [] {
      if IsCode(s[0]) {
        StepInComment(cfg, p, s[0]);
        UnendedIsRefused(cfg, p.(state := if s[0] == STAR_CODE then C3 else C2), s[1..], s[0] == STAR_CODE);
      } else {
        NoCode(cfg, p, s[0]);
      }
    }
  }

  lemma NoCode(cfg: Config, p: Parser, c: int)
    requires !IsCode(c)
    ensures !Step(cfg, p, c).Go?
  {
    NoStep(cfg, p, c);
  }

  /** What a comment that ends looks like. */
  lemma {:induction false} EndedIs(s: seq<int>, star: bool)
    requires AfterComment(s, star).Some?
    ensures var n := |s| - |AfterComment(s, star).value|;
            && 1 <= n <= |s| && s[n - 1] == SLASH_CODE && (if n == 1 then star else s[n - 2] == STAR_CODE)
            && (forall i :: 0 <= i < n - 1 ==> IsCode(s[i]))
            && (forall i :: 0 <= i < n - 2 ==> !(s[i] == STAR_CODE && s[i + 1] == SLASH_CODE))
            && (star && n > 1 ==> s[0] != SLASH_CODE)
  {
    hide IsCode;
    if !(star && s[0] == SLASH_CODE) {
      var t := s[1..];
      EndedIs(t, s[0] == STAR_CODE);
      var n := |s| - |AfterComment(s, star).value|;
      forall i | 0 <= i < n - 1
        ensures IsCode(s[i])
      {
        if i > 0 { assert t[i - 1] == s[i]; }
      }
      forall i | 0 <= i < n - 2
        ensures !(s[i] == STAR_CODE && s[i + 1] == SLASH_CODE)
      {
        assert t[i] == s[i + 1];
        if i > 0 { assert t[i - 1] == s[i]; }
      }
    }
  }

  /** A text that begins with a whole comment. */
  lemma CommentSplits(s: seq<int>) returns (body: seq<int>)
    requires CommentEnd(s).Some?
    ensures IsBody(body) && s == CommentText(body) + CommentEnd(s).value
  {
    hide IsCode, AfterComment;
    var t := s[2..];
    var rest := AfterComment(t, false).value;
    var n := |t| - |rest|;
    EndedIs(t, false);
    body := t[..n - 2];
    assert t[n..] == rest;
    assert t == body + [t[n - 2]] + [t[n - 1]] + t[n..];
    assert s == [s[0], s[1]] + t;
  }

  // ----- replacing comments one by one

  lemma SlashTable(s: State)
    requires Outside(s)
    ensures Transition(s, SLASH).CommentBegin? || Transition(s, SLASH).Error?
  {
  }

  lemma CodeIsOutside(s: State, l: Lex)
    requires l.Code? && Matches(s, l)
    ensures Outside(s) && (InNumber(l.tail) <==> s == FX || s == E3)
  {
  }

  lemma SlashClass()
    ensures ClassOf(SLASH_CODE) == Some(SLASH)
  {
  }

  /** A slash that begins no whole comment is part of no accepted text, nor is one after a point
      or an exponent's digits. */
  lemma BadSlash(cfg: Config, p: Parser, l: Lex, s: seq<int>)
    requires cfg.comments && cfg.listening && Inv(cfg, p) && l.Code? && Matches(p.state, l)
    requires s != [] && s[0] == SLASH_CODE && (InNumber(l.tail) || CommentEnd(s).None?)
    ensures !Accepted(cfg, p, s)
  {
    hide Step, Run, Transition, Inv, AfterComment, Accepted, Matches, Outside;
    CodeIsOutside(p.state, l);
    SlashTable(p.state);
    if Transition(p.state, SLASH).Error? {
      SlashClass();
      StepErrs(cfg, p, SLASH_CODE, SLASH);
      NotAcceptedBy(cfg, p, SLASH_CODE, s);
    } else if Accepted(cfg, p, s) {
      ExceptionalTable(p.state);
      AcceptedStep(cfg, p, s);
      AfterSlash(cfg, p);
      CommentOpens(cfg, Step(cfg, p, s[0]).next, s[1..]);
    }
  }

  /** The parser after the slash of a comment. */
  lemma AfterSlash(cfg: Config, p: Parser)
    requires cfg.comments && Inv(cfg, p) && Outside(p.state) && Transition(p.state, SLASH).CommentBegin?
    requires Step(cfg, p, SLASH_CODE).Go?
    ensures var q := Step(cfg, p, SLASH_CODE).next; q.state == C1 && q.comment && !q.escaped
  {
    hide Step, Transition, ModesOk, TopOk, EscapeOk;
    StepCommentBegin(cfg, p);
  }

  /** After it an accepted text goes on with a star and a comment that ends. */
  lemma CommentOpens(cfg: Config, q: Parser, s: seq<int>)
    requires q.state == C1 && q.comment && !q.escaped && Accepted(cfg, q, s)
    ensures s != [] && s[0] == STAR_CODE && AfterComment(s[1..], false).Some?
  {
    hide Step, Run, IsCode, AfterComment, Accepted;
    NotFinished(cfg, q, s);
    AcceptedStep(cfg, q, s);
    StarOnly(cfg, q, s[0]);
    StarIsCode();
    StepInComment(cfg, q, s[0]);
    if AfterComment(s[1..], false).None? { UnendedIsRefused(cfg, q.(state := C2), s[1..], false); }
  }

  lemma NotFinished(cfg: Config, q: Parser, s: seq<int>)
    requires q.state == C1 && Accepted(cfg, q, s)
    ensures s != []
  {
  }

  lemma StarOnly(cfg: Config, q: Parser, c: int)
    requires q.state == C1 && Step(cfg, q, c).Go?
    ensures c == STAR_CODE
  {
    hide ClassOf;
    if c >= 0 && ClassOf(c).Some? { StarClass(c); }
  }

  lemma StarClass(c: nat)
    requires ClassOf(c) == Some(STAR)
    ensures c == STAR_CODE
  {
  }

  lemma AcceptedCons(cfg: Config, p: Parser, c: int, s: seq<int>)
    ensures Accepted(cfg, p, [c] + s) <==> Step(cfg, p, c).Go? && Accepted(cfg, Step(cfg, p, c).next, s)
    ensures Step(cfg, p, c).Go? ==> Run(cfg, p, [c] + s) == Run(cfg, Step(cfg, p, c).next, s)
  {
    hide Step, Run, Finished;
    RunCons(cfg, p, c, s);
  }

  /** Both texts are accepted or both are not; and they are heard alike, unless floats are handled
      manually. */
  ghost predicate HeardAlike(cfg: Config, p: Parser, s: seq<int>, t: seq<int>) {
    && (Accepted(cfg, p, s) <==> Accepted(cfg, p, t))
    && (Accepted(cfg, p, s) && !cfg.manualFloats ==> Run(cfg, p, s).next.log == Run(cfg, p, t).next.log)
  }

  lemma SpaceForComment(cfg: Config, p: Parser, l: Lex, body: seq<int>, rest: seq<int>)
    requires cfg.comments && cfg.listening && Inv(cfg, p) && l.Code? && Matches(p.state, l) && !InNumber(l.tail)
    requires IsBody(body)
    ensures HeardAlike(cfg, p, CommentText(body) + rest, [SPACE_CODE] + rest)
  {
    hide Run, Accepted, Inv, IsBody, CommentText, Matches, Outside, Boundary;
    CodeIsOutside(p.state, l);
    if Boundary(p.state) {
      CommentIsSpace(cfg, p, body, rest);
    } else {
      NeitherAccepted(cfg, p, body, rest);
    }
  }

  lemma HeardAfter(cfg: Config, p: Parser, c: int, s: seq<int>, t: seq<int>)
    requires Step(cfg, p, c).Go? ==> HeardAlike(cfg, Step(cfg, p, c).next, s, t)
    ensures HeardAlike(cfg, p, [c] + s, [c] + t)
  {
    hide Step, Run, Accepted;
    AcceptedCons(cfg, p, c, s);
    AcceptedCons(cfg, p, c, t);
  }

  lemma HeardThrough(cfg: Config, p: Parser, s: seq<int>, t: seq<int>, u: seq<int>)
    requires HeardAlike(cfg, p, s, t) && HeardAlike(cfg, p, t, u)
    ensures HeardAlike(cfg, p, s, u)
  {
    hide Run, Accepted;
  }

  lemma SpaceEndsTail(l: Lex)
    requires l.Code?
    ensures NextLex(l, SPACE_CODE) == START
  {
  }

  /** Replacing the comments changes neither the verdict nor what is heard. */
  lemma {:induction false} ReplacedIsHeard(cfg: Config, p: Parser, l: Lex, s: seq<int>)
    requires cfg.comments && cfg.listening && Inv(cfg, p) && Matches(p.state, l)
    ensures if Replaced(l, s).Some? then HeardAlike(cfg, p, s, Replaced(l, s).value) else !Accepted(cfg, p, s)
    decreases |s|, 0
  {
    hide Step, Run, Accepted, Inv, Matches, HeardAlike, NextLex, CommentEnd, InNumber;
    if s == [] {
      HeardItself(cfg, p);
    } else if l.Code? && s[0] == SLASH_CODE {
      if InNumber(l.tail) || CommentEnd(s).None? {
        BadSlash(cfg, p, l, s);
      } else {
        var rest := CommentEnd(s).value;
        var body := CommentSplits(s);
        SpaceForComment(cfg, p, l, body, rest);
        SpaceEndsTail(l);
        OneReplaced(cfg, p, l, SPACE_CODE, rest);
        NextReplaced(cfg, p, s, SPACE_CODE, rest, Replaced(START, rest));
      }
    } else {
      assert s == [s[0]] + s[1..];
      OneReplaced(cfg, p, l, s[0], s[1..]);
      HeardSame(cfg, p, s);
      NextReplaced(cfg, p, s, s[0], s[1..], Replaced(NextLex(l, s[0]), s[1..]));
    }
  }

  lemma HeardItself(cfg: Config, p: Parser)
    ensures HeardAlike(cfg, p, [], [])
  {
  }

  lemma HeardSame(cfg: Config, p: Parser, s: seq<int>)
    ensures HeardAlike(cfg, p, s, s)
  {
    hide Run, Accepted;
  }

  /** The rest after one character that is kept. */
  ghost predicate RestHeard(cfg: Config, p: Parser, c: int, rest: seq<int>, t: Option<seq<int>>) {
    Step(cfg, p, c).Go? ==>
      if t.Some? then HeardAlike(cfg, Step(cfg, p, c).next, rest, t.value)
      else !Accepted(cfg, Step(cfg, p, c).next, rest)
  }

  lemma {:induction false} OneReplaced(cfg: Config, p: Parser, l: Lex, c: int, rest: seq<int>)
    requires cfg.comments && cfg.listening && Inv(cfg, p) && Matches(p.state, l) && !(l.Code? && c == SLASH_CODE)
    ensures RestHeard(cfg, p, c, rest, Replaced(NextLex(l, c), rest))
    decreases |rest|, 1
  {
    hide Step, Run, Accepted, Inv, Matches, HeardAlike, NextLex, Replaced;
    if Step(cfg, p, c).Go? {
      StepKeepsInv(cfg, p, c);
      StepMatches(cfg, p, l, c);
      ReplacedIsHeard(cfg, Step(cfg, p, c).next, NextLex(l, c), rest);
    }
  }

  lemma NextReplaced(cfg: Config, p: Parser, s: seq<int>, c: int, rest: seq<int>, t: Option<seq<int>>)
    requires HeardAlike(cfg, p, s, [c] + rest) && RestHeard(cfg, p, c, rest, t)
    ensures if t.Some? then HeardAlike(cfg, p, s, [c] + t.value) else !Accepted(cfg, p, s)
  {
    hide Step, Run, Accepted, HeardAlike;
    AcceptedCons(cfg, p, c, rest);
    if t.Some? {
      HeardAfter(cfg, p, c, rest, t.value);
      HeardThrough(cfg, p, s, [c] + rest, [c] + t.value);
    } else {
      HeardVerdict(cfg, p, s, [c] + rest);
    }
  }

  lemma HeardVerdict(cfg: Config, p: Parser, s: seq<int>, t: seq<int>)
    requires HeardAlike(cfg, p, s, t)
    ensures Accepted(cfg, p, s) <==> Accepted(cfg, p, t)
    ensures Accepted(cfg, p, s) && !cfg.manualFloats ==> Run(cfg, p, s).next.log == Run(cfg, p, t).next.log
  {
    hide Run, Accepted;
  }

  // ----- without comments

  /** No slash outside strings. */
  predicate NoSlash(l: Lex, s: seq<int>)
    decreases |s|
  {
    s != [] ==> !(l.Code? && s[0] == SLASH_CODE) && NoSlash(NextLex(l, s[0]), s[1..])
  }

  lemma {:induction false} ReplacedHasNoSlash(l: Lex, s: seq<int>)
    ensures Replaced(l, s).Some? ==> NoSlash(l, Replaced(l, s).value)
    decreases |s|
  {
    hide NextLex, CommentEnd, InNumber;
    if s != [] && Replaced(l, s).Some? {
      if l.Code? && s[0] == SLASH_CODE {
        var rest := CommentEnd(s).value;
        SpaceEndsTail(l);
        ReplacedHasNoSlash(START, rest);
        assert Replaced(l, s).value[1..] == Replaced(START, rest).value;
      } else {
        ReplacedHasNoSlash(NextLex(l, s[0]), s[1..]);
        assert Replaced(l, s).value[1..] == Replaced(NextLex(l, s[0]), s[1..]).value;
      }
    }
  }

  lemma {:induction false} NoSlashNoComment(cfg: Config, p: Parser, l: Lex, s: seq<int>)
    requires Matches(p.state, l) && NoSlash(l, s)
    ensures Run(cfg.(comments := false), p, s) == Run(cfg, p, s)
    decreases |s|
  {
    hide Step, Matches, NextLex, ClassOf, Transition;
    if s != [] {
      if s[0] >= 0 && ClassOf(s[0]).Some? && Transition(p.state, ClassOf(s[0]).value).CommentBegin? {
        CommentNeedsSlash(p.state, l, s[0]);
        assert false;
      }
      StepAlike(cfg.(comments := false), cfg, p, s[0]);
      if Step(cfg, p, s[0]).Go? {
        StepMatches(cfg, p, l, s[0]);
        NoSlashNoComment(cfg, Step(cfg, p, s[0]).next, NextLex(l, s[0]), s[1..]);
      }
    }
  }

  // ----- the language

  predicate IsDocOf(cfg: Config, d: Doc, s: seq<int>) {
    WfDoc(d) && DocText(d) == s && DocHeight(d) <= cfg.depth && DocLiteralFree(d)
  }

  lemma InitialMatches(cfg: Config)
    ensures Inv(cfg, Initial) && Matches(Initial.state, START)
  {
    InitialInv(cfg);
  }

  /** With comments and a callback, a text is accepted if and only if every slash outside strings
      begins a whole comment that does not directly follow a decimal point or an exponent's
      digits, and the text with a space for each comment is one of the grammar, nested no deeper
      than the depth and free of literals. */
  lemma AcceptedIffInGrammar(cfg: Config, s: seq<int>)
    requires cfg.comments && cfg.listening && ConfigOk(cfg)
    ensures Accepted(cfg, Initial, s) <==>
            Replaced(START, s).Some? && exists d :: IsDocOf(cfg, d, Replaced(START, s).value)
  {
    hide Run, Accepted, Inv, Matches, HeardAlike, WfDoc, DocText, DocHeight, DocLiteralFree, Replaced;
    InitialMatches(cfg);
    ReplacedIsHeard(cfg, Initial, START, s);
    if Replaced(START, s).Some? {
      var t := Replaced(START, s).value;
      HeardVerdict(cfg, Initial, s, t);
      ReplacedHasNoSlash(START, s);
      NoSlashNoComment(cfg, Initial, START, t);
      SameVerdict(cfg, t);
      JsonSound.AcceptedIffInGrammar(cfg.(comments := false), t);
      assert forall d :: IsDocOf(cfg, d, t) <==> WfDoc(d) && DocText(d) == t && DocHeight(d) <= cfg.depth
                                                  && DocLiteralFree(d);
    }
  }

  lemma SameVerdict(cfg: Config, t: seq<int>)
    requires Run(cfg.(comments := false), Initial, t) == Run(cfg, Initial, t)
    ensures Accepted(cfg.(comments := false), Initial, t) <==> Accepted(cfg, Initial, t)
  {
    hide Run;
  }

  /** And what is heard of it are the events of the tree, unless floats are handled manually. */
  lemma AcceptedEvents(cfg: Config, s: seq<int>, d: Doc)
    requires cfg.comments && cfg.listening && ConfigOk(cfg) && !cfg.manualFloats
    requires Replaced(START, s).Some? && IsDocOf(cfg, d, Replaced(START, s).value)
    ensures Accepted(cfg, Initial, s) && Run(cfg, Initial, s).next.log == DocEvents(cfg, d)
  {
    hide Run, Accepted, Inv, Matches, HeardAlike, WfDoc, DocText, DocHeight, DocLiteralFree, Replaced, DocEvents;
    InitialMatches(cfg);
    ReplacedIsHeard(cfg, Initial, START, s);
    HeardVerdict(cfg, Initial, s, Replaced(START, s).value);
    RunDoc(cfg, d);
  }
}
