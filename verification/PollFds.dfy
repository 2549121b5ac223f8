/** The client's own list of watched descriptors: a growing array, polled and compacted in place. */
module PollFds {
  datatype PollFd = PollFd(fd: int, events: bv16, revents: bv16)

  const POLLIN: bv16 := 1
  const POLLOUT: bv16 := 4

  datatype Event = Event(fd: int, read: bool, write: bool)

  /** The bits to poll for. */
  function Wanted(read: bool, write: bool): bv16 {
    (if read then POLLIN else 0) | (if write then POLLOUT else 0)
  }

  predicate Live(p: PollFd) { p.revents != 0 }

  /** What the backend is told of a live descriptor. */
  function Dispatch(p: PollFd): Event { Event(p.fd, p.revents & POLLIN != 0, p.revents & POLLOUT != 0) }

  function Dispatched(s: seq<PollFd>): seq<Event> {
    if s == [] then [] else Dispatched(s[..|s| - 1]) + [Dispatch(s[|s| - 1])]
  }

  function Only(s: seq<PollFd>, live: bool): seq<PollFd> {
    if s == [] then [] else Only(s[..|s| - 1], live) + if Live(s[|s| - 1]) == live then [s[|s| - 1]] else []
  }

  lemma {:induction false} OnlyCounts(s: seq<PollFd>, live: bool, p: PollFd)
    ensures multiset(Only(s, live))[p] == if Live(p) == live then multiset(s)[p] else 0
  {
    if s != [] {
      OnlyCounts(s[..|s| - 1], live, p);
      assert s == s[..|s| - 1] + [s[|s| - 1]];
    }
  }

  predicate Alike(s: seq<PollFd>, live: bool) {
    forall k :: 0 <= k < |s| ==> Live(s[k]) == live
  }

  lemma AlikeMembers(s: seq<PollFd>, live: bool, p: PollFd)
    requires Alike(s, live) && Live(p) != live
    ensures multiset(s)[p] == 0
  {
    assert p !in s;
  }

  /** A list that splits into quiet and live entries splits into the quiet and the live ones of
      any list with the same entries. */
  lemma SplitIs(quiet: seq<PollFd>, live: seq<PollFd>, s: seq<PollFd>)
    requires Alike(quiet, false) && Alike(live, true) && multiset(quiet) + multiset(live) == multiset(s)
    ensures multiset(quiet) == multiset(Only(s, false)) && multiset(live) == multiset(Only(s, true))
  {
    hide Alike, Only;
    forall p: PollFd
      ensures multiset(quiet)[p] == multiset(Only(s, false))[p] && multiset(live)[p] == multiset(Only(s, true))[p]
    {
      OnlyCounts(s, false, p);
      OnlyCounts(s, true, p);
      if Live(p) { AlikeMembers(quiet, false, p); } else { AlikeMembers(live, true, p); }
      assert (multiset(quiet) + multiset(live))[p] == multiset(s)[p];
    }
  }

  // ----- how often an event is told

  /** An entry with some bit raised, of this descriptor, whose first and third bit are as given. */
  predicate Shows(p: PollFd, fd: int, read: bool, write: bool) {
    p.revents != 0 && p.fd == fd && (p.revents & 1 == 1) == read && (p.revents & 4 == 4) == write
  }

  function Shown(s: seq<PollFd>, fd: int, read: bool, write: bool): nat {
    if s == [] then 0 else Shown(s[..|s| - 1], fd, read, write) + if Shows(s[|s| - 1], fd, read, write) then 1 else 0
  }

  /** What was asked for and is raised is told back. */
  lemma WantedIsTold(fd: int, events: bv16, read: bool, write: bool)
    ensures Dispatch(PollFd(fd, events, Wanted(read, write))) == Event(fd, read, write)
    ensures read || write <==> Shows(PollFd(fd, events, Wanted(read, write)), fd, read, write)
  {
  }

  lemma DispatchShows(p: PollFd, fd: int, read: bool, write: bool)
    requires Live(p)
    ensures Dispatch(p) == Event(fd, read, write) <==> Shows(p, fd, read, write)
  {
  }

  lemma {:induction false} DispatchedCounts(s: seq<PollFd>, fd: int, read: bool, write: bool)
    requires Alike(s, true)
    ensures multiset(Dispatched(s))[Event(fd, read, write)] == Shown(s, fd, read, write)
  {
    hide Dispatch, Shows, Live;
    if s != [] {
      DispatchedCounts(s[..|s| - 1], fd, read, write);
      assert Live(s[|s| - 1]);
      DispatchShows(s[|s| - 1], fd, read, write);
    }
  }

  lemma {:induction false} ShownTwice(s: seq<PollFd>, t: seq<PollFd>, fd: int, read: bool, write: bool)
    ensures Shown(s + t, fd, read, write) == Shown(s, fd, read, write) + Shown(t, fd, read, write)
    decreases |t|
  {
    hide Shows;
    if t == [] {
      assert s + t == s;
    } else {
      ShownTwice(s, t[..|t| - 1], fd, read, write);
      assert (s + t)[..|s + t| - 1] == s + t[..|t| - 1];
    }
  }

  lemma PlaceOf<T>(s: seq<T>, x: T, t: seq<T>) returns (i: nat)
    requires multiset(s + [x]) == multiset(t)
    ensures i < |t| && t == t[..i] + ([x] + t[i + 1..]) && multiset(s) == multiset(t[..i] + t[i + 1..])
  {
    assert (s + [x])[|s|] == x;
    assert x in multiset(t);
    i :| 0 <= i < |t| && t[i] == x;
    assert t == t[..i] + ([x] + t[i + 1..]);
    SameWithout(multiset(s), multiset(t[..i] + t[i + 1..]), x);
  }

  lemma SameWithout<T>(a: multiset<T>, b: multiset<T>, x: T)
    requires a + multiset{x} == b + multiset{x}
    ensures a == b
  {
    forall y
      ensures a[y] == b[y]
    {
      assert (a + multiset{x})[y] == (b + multiset{x})[y];
    }
  }

  /** The order of the entries does not matter. */
  lemma {:induction false} ShownPermuted(s: seq<PollFd>, t: seq<PollFd>, fd: int, read: bool, write: bool)
    requires multiset(s) == multiset(t)
    ensures Shown(s, fd, read, write) == Shown(t, fd, read, write)
    decreases |s|
  {
    hide Shows;
    if s == [] {
      assert |multiset(t)| == 0;
    } else {
      var p := s[|s| - 1];
      assert s == s[..|s| - 1] + [p];
      var i := PlaceOf(s[..|s| - 1], p, t);
      ShownPermuted(s[..|s| - 1], t[..i] + t[i + 1..], fd, read, write);
      ShownTwice(t[..i], t[i + 1..], fd, read, write);
      ShownTwice(t[..i], [p] + t[i + 1..], fd, read, write);
      ShownTwice([p], t[i + 1..], fd, read, write);
      assert [p][..0] == [];
    }
  }

  lemma {:induction false} OnlyLiveShown(s: seq<PollFd>, fd: int, read: bool, write: bool)
    ensures Shown(Only(s, true), fd, read, write) == Shown(s, fd, read, write)
  {
    if s != [] {
      var p := s[|s| - 1];
      OnlyLiveShown(s[..|s| - 1], fd, read, write);
      ShownTwice(Only(s[..|s| - 1], true), if Live(p) then [p] else [], fd, read, write);
      assert [p][..0] == [];
    }
  }

  /** Each event is told as often as an entry shows it in its bits, and the entries without a bit
      raised are the ones that stay. */
  lemma ToldAsShown(s: seq<PollFd>, quiet: seq<PollFd>, order: seq<PollFd>)
    requires Alike(order, true)
    requires multiset(quiet) == multiset(Only(s, false)) && multiset(order) == multiset(Only(s, true))
    ensures forall fd, read, write ::
              multiset(Dispatched(order))[Event(fd, read, write)] == Shown(s, fd, read, write)
    ensures forall p :: multiset(quiet)[p] == if p.revents == 0 then multiset(s)[p] else 0
  {
    hide Only, Shown, Dispatched, Shows, Dispatch, Alike;
    forall fd, read, write
      ensures multiset(Dispatched(order))[Event(fd, read, write)] == Shown(s, fd, read, write)
    {
      DispatchedCounts(order, fd, read, write);
      ShownPermuted(order, Only(s, true), fd, read, write);
      OnlyLiveShown(s, fd, read, write);
    }
    forall p
      ensures multiset(quiet)[p] == if p.revents == 0 then multiset(s)[p] else 0
    {
      OnlyCounts(s, false, p);
    }
  }

  class Watcher {
    var pfds: array<PollFd>
    var size: nat

    ghost predicate Valid()
      reads this
    {
      size <= pfds.Length
    }

    ghost function Entries(): seq<PollFd>
      requires Valid()
      reads this, pfds
    {
      pfds[..size]
    }

    constructor ()
      ensures Valid() && Entries() == []
    {
      pfds := new PollFd[0];
      size := 0;
    }

    /** Appends a descriptor, making room for it if there is none. */
    method Watch(fd: int, read: bool, write: bool)
      requires Valid()
      modifies this, pfds
      ensures Valid() && size == old(size) + 1 && Entries()[..old(size)] == old(Entries())
      ensures Entries()[old(size)].fd == fd && Entries()[old(size)].events == Wanted(read, write)
      ensures pfds == old(pfds) || fresh(pfds)
    {
      var needed := size + 1;
      if pfds.Length < needed {
        var room := new PollFd[needed](_ => PollFd(0, 0, 0));
        forall k | 0 <= k < size { room[k] := pfds[k]; }
        pfds := room;
      }
      size := needed;
      var events: bv16 := 0;
      if read { events := events | POLLIN; }
      if write { events := events | POLLOUT; }
      WantedIs(read, write, events);
      pfds[needed - 1] := PollFd(fd, events, pfds[needed - 1].revents);
    }

    /** The last entry still there takes the place of entry i. */
    method TakeOut(i: nat, last: nat)
      requires i <= last < pfds.Length
      modifies pfds
      ensures multiset(pfds[..last]) + multiset{old(pfds[i])} == multiset(old(pfds[..last + 1]))
      ensures pfds[..i] == old(pfds[..i]) && pfds[last..] == old(pfds[last..])
    {
      ghost var before := pfds[..last + 1];
      if last > i {
        pfds[i] := pfds[last];
      }
      SwapLast(before, i, pfds[..last]);
    }

    /** Goes over the polled entries: each live one is told of and its place is taken by the
        last entry still there, which is looked at next. */
    method Compact() returns (told: seq<Event>, ghost order: seq<PollFd>)
      requires Valid()
      modifies this, pfds
      ensures Valid() && pfds == old(pfds)
      ensures forall p :: multiset(Entries())[p] == if p.revents == 0 then multiset(old(Entries()))[p] else 0
      ensures forall fd, read, write ::
                multiset(told)[Event(fd, read, write)] == Shown(old(Entries()), fd, read, write)
      ensures multiset(order) == multiset(Only(old(Entries()), true)) && told == Dispatched(order)
      ensures size + |told| == old(size)
    {
      hide Only, Dispatched, Alike, Dispatch, Live, Shown;
      told, order := [], [];
      NothingDispatched();
      var i, left := 0, size;
      while i < left
        invariant 0 <= i <= left <= size <= pfds.Length && size == old(size) && pfds == old(pfds)
        invariant Alike(pfds[..i], false) && Alike(order, true)
        invariant multiset(pfds[..left]) + multiset(order) == multiset(old(pfds[..size]))
        invariant told == Dispatched(order) && left + |told| == size
        decreases left - i
      {
        var p := pfds[i];
        if Live(p) {
          told := told + [Dispatch(p)];
          DispatchedMore(order, p);
          AlikeMore(order, p);
          order := order + [p];
          left := left - 1;
          TakeOut(i, left);
        } else {
          AlikeMore(pfds[..i], p);
          assert pfds[..i + 1] == pfds[..i] + [p];
          i := i + 1;
        }
      }
      size := left;
      SplitIs(pfds[..left], order, old(pfds[..size]));
      ToldAsShown(old(pfds[..size]), pfds[..left], order);
    }
  }

  lemma AlikeMore(s: seq<PollFd>, p: PollFd)
    ensures Alike(s, Live(p)) ==> Alike(s + [p], Live(p))
  {
  }

  lemma WantedIs(read: bool, write: bool, events: bv16)
    requires events == (if write then (if read then 0 | POLLIN else 0) | POLLOUT else if read then 0 | POLLIN else 0)
    ensures events == Wanted(read, write)
  {
  }

  lemma NothingDispatched()
    ensures Dispatched([]) == [] && Alike([], false) && Alike([], true)
  {
  }

  lemma DispatchedMore(s: seq<PollFd>, p: PollFd)
    ensures Dispatched(s + [p]) == Dispatched(s) + [Dispatch(p)]
  {
    assert (s + [p])[..|s|] == s;
  }

  /** Moving the last entry into a place takes out just the entry that was there. */
  lemma SwapLast<T>(before: seq<T>, i: nat, after: seq<T>)
    requires i < |before| && |after| == |before| - 1
    requires forall k :: 0 <= k < |after| ==> after[k] == if k == i then before[|after|] else before[k]
    ensures multiset(after) + multiset{before[i]} == multiset(before)
  {
    var last := |after|;
    if i == last {
      assert before == after + [before[i]];
    } else {
      assert before == before[..i] + [before[i]] + before[i + 1..last] + [before[last]];
      assert after == before[..i] + [before[last]] + before[i + 1..last];
    }
  }
}
