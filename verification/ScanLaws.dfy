/** What a scan does to every message of its queue, and what it tells. */
module ScanLaws {
  import opened Wrappers
  import opened AssocList
  import opened MemoryStore
  import opened MemoryLaws

  /** A message that is neither expired nor passed over. */
  predicate Acted(sc: Scan, m: Msg) {
    !Expired(m, sc.now) && (sc.matchHidden || !Hidden(m, sc.now))
  }

  function Find<V>(s: seq<Entry<V>>, key: string): Option<V> {
    if Has(s, key) then Some(Lookup(s, key)) else None
  }

  lemma FindFirst<V>(e: Entry<V>, s: seq<Entry<V>>, key: string)
    ensures Find([e] + s, key) == if e.0 == key then Some(e.1) else Find(s, key)
  {
    assert ([e] + s)[1..] == s;
  }

  lemma {:induction false} FindJoin<V>(s: seq<Entry<V>>, t: seq<Entry<V>>, key: string)
    ensures Find(s + t, key) == if Has(s, key) then Find(s, key) else Find(t, key)
  {
    hide IndexOf, Find;
    if s == [] {
      NoneInNothing<V>(key);
      assert s + t == t;
    } else {
      assert s + t == [s[0]] + (s[1..] + t) && s == [s[0]] + s[1..];
      FindFirst(s[0], s[1..] + t, key);
      FindFirst(s[0], s[1..], key);
      FindJoin(s[1..], t, key);
      FindIs(s, key);
      FindIs(s[1..], key);
    }
  }

  lemma FindIs<V>(s: seq<Entry<V>>, key: string)
    ensures Find(s, key).Some? <==> Has(s, key)
  {
  }

  lemma NoneInNothing<V>(key: string)
    ensures !Has<V>([], key) && Find<V>([], key) == None
  {
  }

  lemma FindAt<V>(s: seq<Entry<V>>, k: nat)
    requires Unique(s) && k < |s|
    ensures Find(s, s[k].0) == Some(s[k].1)
  {
    IndexOfUnique(s, k);
  }

  lemma NotFound<V>(s: seq<Entry<V>>, key: string)
    requires forall k :: 0 <= k < |s| ==> s[k].0 != key
    ensures Find(s, key) == None && !Has(s, key)
  {
  }

  // ----- one slice

  lemma {:induction false} LeftFind(sc: Scan, q: Queue, k: nat)
    requires Unique(q) && k < |q|
    ensures Find(Left(sc, q), q[k].0) == Visit(sc, q[k].0, q[k].1).0
  {
    hide IndexOf, Visit, Find;
    var rest := Left(sc, q[1..]);
    var first := Visit(sc, q[0].0, q[0].1).0;
    assert first.Some? ==> Left(sc, q) == [(q[0].0, first.value)] + rest;
    assert first.None? ==> Left(sc, q) == rest;
    if first.Some? { FindFirst((q[0].0, first.value), rest, q[k].0); }
    if k > 0 {
      LeftFind(sc, q[1..], k - 1);
    } else {
      LeftKeeps(sc, q[1..]);
      forall x | 0 <= x < |rest|
        ensures rest[x].0 != q[0].0
      {
        HasRest(q, rest[x].0);
      }
      NotFound(rest, q[0].0);
    }
  }

  /** Every message of the queue, by its place. */
  lemma ScanPartition(sc: Scan, q: Queue, r: Range, k: nat)
    requires Unique(q) && k < |q|
    ensures var m := q[k].1;
            var inside := Start(q, r.marker) <= k < Stop(q, r.marker, r.limit);
            Find(Scanned(sc, q, r), q[k].0) ==
            if !inside then Some(m)
            else if Expired(m, sc.now) then None
            else if !Acted(sc, m) then Some(m)
            else if sc.action == Update then Some(Updated(m, sc.ttl, sc.hiding))
            else if sc.action == Get then Some(m)
            else None
  {
    hide IndexOf, Find, Start, Stop, Left, Unique;
    var st, sp := Start(q, r.marker), Stop(q, r.marker, r.limit);
    var left := Left(sc, q[st..sp]);
    var id := q[k].0;
    UniqueParts(q, st, sp, k);
    LeftKeeps(sc, q[st..sp]);
    FindJoin(q[..st] + left, q[sp..], id);
    FindJoin(q[..st], left, id);
    FindIs(q[..st] + left, id);
    FindIs(q[..st], id);
    FindIs(left, id);
    if k < st {
      FindAt(q[..st], k);
    } else if k < sp {
      LeftFind(sc, q[st..sp], k - st);
      NotFound(q[..st], id);
      NotFound(q[sp..], id);
    } else {
      NotFound(q[..st], id);
      FindAt(q[sp..], k - sp);
      NotLeft(sc, q, st, sp, k);
    }
  }

  lemma UniqueParts<V>(q: seq<Entry<V>>, st: nat, sp: nat, k: nat)
    requires Unique(q) && st <= sp <= |q| && k < |q|
    ensures Unique(q[..st]) && Unique(q[st..sp]) && Unique(q[sp..])
    ensures k >= st ==> forall x :: 0 <= x < st ==> q[..st][x].0 != q[k].0
    ensures k < sp ==> forall x :: 0 <= x < |q| - sp ==> q[sp..][x].0 != q[k].0
    ensures !(st <= k < sp) ==> forall x :: 0 <= x < sp - st ==> q[st..sp][x].0 != q[k].0
  {
  }

  lemma NotLeft(sc: Scan, q: Queue, st: nat, sp: nat, k: nat)
    requires Unique(q) && st <= sp <= k < |q|
    ensures Find(Left(sc, q[st..sp]), q[k].0) == None
  {
    hide IndexOf, Find, Left, Unique;
    UniqueParts(q, st, sp, k);
    LeftKeeps(sc, q[st..sp]);
    var left := Left(sc, q[st..sp]);
    forall x | 0 <= x < |left|
      ensures left[x].0 != q[k].0
    {
      KeyInSlice(q, st, sp, left[x].0);
      var y :| st <= y < sp && q[y].0 == left[x].0;
      assert q[st..sp][y - st].0 == left[x].0;
    }
    NotFound(left, q[k].0);
  }

  // ----- order

  /** One list is the other without some of its entries, the rest in order under the same keys. */
  predicate Thinned<V>(s: seq<Entry<V>>, t: seq<Entry<V>>) {
    if s == [] then t == []
    else (t != [] && t[0].0 == s[0].0 && Thinned(s[1..], t[1..])) || Thinned(s[1..], t)
  }

  lemma {:induction false} ThinnedSelf<V>(s: seq<Entry<V>>)
    ensures Thinned(s, s)
  {
    if s != [] { ThinnedSelf(s[1..]); }
  }

  lemma {:induction false} ThinnedJoin<V>(s: seq<Entry<V>>, t: seq<Entry<V>>, u: seq<Entry<V>>, v: seq<Entry<V>>)
    requires Thinned(s, t) && Thinned(u, v)
    ensures Thinned(s + u, t + v)
  {
    if s == [] {
      assert s + u == u && t + v == v;
    } else {
      assert (s + u)[1..] == s[1..] + u;
      if t != [] && t[0].0 == s[0].0 && Thinned(s[1..], t[1..]) {
        assert (t + v)[1..] == t[1..] + v;
        ThinnedJoin(s[1..], t[1..], u, v);
      } else {
        ThinnedJoin(s[1..], t, u, v);
      }
    }
  }

  lemma {:induction false} LeftThins(sc: Scan, q: Queue)
    ensures Thinned(q, Left(sc, q))
  {
    hide Visit;
    if q != [] {
      LeftThins(sc, q[1..]);
      var first := Visit(sc, q[0].0, q[0].1).0;
      if first.Some? {
        assert Left(sc, q)[1..] == Left(sc, q[1..]);
      } else {
        assert Left(sc, q) == Left(sc, q[1..]);
      }
    }
  }

  /** A scan never reorders and never adds. */
  lemma ScanKeepsOrder(sc: Scan, q: Queue, r: Range)
    ensures Thinned(q, Scanned(sc, q, r))
  {
    hide Thinned, Left, Start, Stop;
    var st, sp := Start(q, r.marker), Stop(q, r.marker, r.limit);
    LeftThins(sc, q[st..sp]);
    ThinnedSelf(q[..st]);
    ThinnedSelf(q[sp..]);
    ThinnedJoin(q[..st], q[..st], q[st..sp], Left(sc, q[st..sp]));
    ThinnedJoin(q[..st] + q[st..sp], q[..st] + Left(sc, q[st..sp]), q[sp..], q[sp..]);
    assert q[..st] + q[st..sp] + q[sp..] == q;
  }

  // ----- what is told

  function Filter<T>(p: T -> bool, s: seq<T>): seq<T> {
    if s == [] then [] else (if p(s[0]) then [s[0]] else []) + Filter(p, s[1..])
  }

  function Map<T, U>(f: T -> U, s: seq<T>): seq<U> {
    if s == [] then [] else [f(s[0])] + Map(f, s[1..])
  }

  /** A message as it stands when it is told. */
  function Seen(sc: Scan, m: Msg): Msg {
    if sc.action == Update then Updated(m, sc.ttl, sc.hiding) else m
  }

  function Acting(sc: Scan): Entry<Msg> -> bool { (e: Entry<Msg>) => Acted(sc, e.1) }

  function Telling(sc: Scan): Entry<Msg> -> Report { (e: Entry<Msg>) => Told(e.0, Seen(sc, e.1), sc.now) }

  /** Exactly the messages acted on are told, each once and in order, as they then stand;
      a silent deletion tells nothing. */
  lemma {:induction false} ReportsAre(sc: Scan, q: Queue)
    ensures Reports(sc, q) ==
            if sc.action == Delete && !sc.report then []
            else Map(Telling(sc), Filter(Acting(sc), q))
  {
    if q != [] {
      ReportsAre(sc, q[1..]);
      var acted := Filter(Acting(sc), q[1..]);
      if Acted(sc, q[0].1) {
        assert ([q[0]] + acted)[1..] == acted;
      } else {
        assert Filter(Acting(sc), q) == acted;
      }
    }
  }

  /** Nothing is lost or counted twice. */
  lemma {:induction false} ScanConserves(sc: Scan, q: Queue)
    ensures var expired := |Filter((e: Entry<Msg>) => Expired(e.1, sc.now), q)|;
            var acted := |Filter(Acting(sc), q)|;
            |Left(sc, q)| == |q| - expired - (if sc.action == Delete then acted else 0)
  {
    if q != [] { ScanConserves(sc, q[1..]); }
  }

  // ----- honest times

  predicate Fits(m: Msg) { m.ttl < WORD && m.hiding < WORD }

  /** The seconds told are the exact difference to the time stored: no subtraction wraps. */
  predicate Honest(report: Report, now: nat) {
    report.MessageReport? ==> report.ttl + now < WORD && report.hiding + now < WORD
  }

  lemma ToldHonestly(id: string, m: Msg, now: nat)
    requires Fits(m) && now < WORD
    ensures Honest(Told(id, m, now), now) <==> m.ttl >= now
    ensures m.ttl >= now ==> Told(id, m, now).ttl == m.ttl - now
  {
  }

  predicate AllHonest(log: seq<Report>, now: nat) {
    forall k :: 0 <= k < |log| ==> Honest(log[k], now)
  }

  lemma AllHonestJoin(first: seq<Report>, rest: seq<Report>, now: nat)
    ensures AllHonest(first + rest, now) <==> AllHonest(first, now) && AllHonest(rest, now)
  {
    hide Honest;
    var log := first + rest;
    assert forall k :: 0 <= k < |first| ==> log[k] == first[k];
    assert forall k :: 0 <= k < |rest| ==> log[|first| + k] == rest[k];
  }

  predicate ActsOnSome(sc: Scan, q: Queue) {
    exists k :: 0 <= k < |q| && Acted(sc, q[k].1)
  }

  lemma ActsOnFirst(sc: Scan, q: Queue)
    requires q != []
    ensures ActsOnSome(sc, q) <==> Acted(sc, q[0].1) || ActsOnSome(sc, q[1..])
  {
    hide Acted;
    if ActsOnSome(sc, q[1..]) {
      var k :| 0 <= k < |q[1..]| && Acted(sc, q[1..][k].1);
      assert q[k + 1] == q[1..][k];
    }
    if ActsOnSome(sc, q) && !Acted(sc, q[0].1) {
      var k :| 0 <= k < |q| && Acted(sc, q[k].1);
      assert q[1..][k - 1] == q[k];
    }
  }

  /** A scan tells a wrong time exactly if it sets a ttl that is already over on some message
      that it acts on. */
  lemma {:induction false} ScanToldHonestly(sc: Scan, q: Queue)
    requires sc.now < WORD && sc.ttl < WORD && sc.hiding < WORD
    requires forall k :: 0 <= k < |q| ==> Fits(q[k].1)
    ensures AllHonest(Reports(sc, q), sc.now) <==>
            !(sc.action == Update && 0 < sc.ttl < sc.now && ActsOnSome(sc, q))
  {
    hide AllHonest, ActsOnSome;
    if q == [] {
      NothingToTell(sc);
    } else {
      ScanToldHonestly(sc, q[1..]);
      ActsOnFirst(sc, q);
      AllHonestJoin(Visit(sc, q[0].0, q[0].1).1, Reports(sc, q[1..]), sc.now);
      VisitToldHonestly(sc, q[0].0, q[0].1);
    }
  }

  lemma NothingToTell(sc: Scan)
    ensures AllHonest([], sc.now) && !ActsOnSome(sc, [])
  {
  }

  lemma VisitToldHonestly(sc: Scan, id: string, m: Msg)
    requires sc.now < WORD && sc.ttl < WORD && sc.hiding < WORD && Fits(m)
    ensures AllHonest(Visit(sc, id, m).1, sc.now) <==>
            !(sc.action == Update && 0 < sc.ttl < sc.now && Acted(sc, m))
  {
    hide Honest, Told;
    if Acted(sc, m) {
      ToldHonestly(id, Seen(sc, m), sc.now);
      assert Visit(sc, id, m).1 == [] || Visit(sc, id, m).1 == [Told(id, Seen(sc, m), sc.now)];
      if Visit(sc, id, m).1 != [] { assert Visit(sc, id, m).1[0] == Told(id, Seen(sc, m), sc.now); }
    }
  }
}
