/** Ordered dictionaries as sequences of pairs, with the operations of the backend's
    dictionary and the laws of paging through one. */
module AssocList {
  import opened Wrappers

  type Entry<V> = (string, V)

  /** The position of the first entry with this key, or the length. */
  function IndexOf<V>(s: seq<Entry<V>>, key: string): (i: nat)
    ensures i <= |s| && (i < |s| ==> s[i].0 == key)
    ensures forall j :: 0 <= j < i ==> s[j].0 != key
  {
    if s == [] || s[0].0 == key then 0 else 1 + IndexOf(s[1..], key)
  }

  predicate Has<V>(s: seq<Entry<V>>, key: string) { IndexOf(s, key) < |s| }

  function Without<V>(s: seq<Entry<V>>, i: nat): seq<Entry<V>>
    requires i < |s|
  {
    s[..i] + s[i + 1..]
  }

  /** The list without the first entry with this key. */
  function Remove<V>(s: seq<Entry<V>>, key: string): seq<Entry<V>> {
    var i := IndexOf(s, key);
    if i < |s| then Without(s, i) else s
  }

  /** Where a marker starts an iteration: at its entry, or at the front. */
  function Start<V>(s: seq<Entry<V>>, marker: Option<string>): (i: nat)
    ensures i <= |s|
  {
    if marker.Some? && Has(s, marker.value) then IndexOf(s, marker.value) else 0
  }

  /** Where an iteration ends; a limit of zero means no limit. */
  function Stop<V>(s: seq<Entry<V>>, marker: Option<string>, limit: nat): (j: nat)
    ensures Start(s, marker) <= j <= |s|
  {
    var i := Start(s, marker);
    if limit == 0 || i + limit > |s| then |s| else i + limit
  }

  function Slice<V>(s: seq<Entry<V>>, marker: Option<string>, limit: nat): seq<Entry<V>> {
    s[Start(s, marker)..Stop(s, marker, limit)]
  }

  predicate Unique<V>(s: seq<Entry<V>>) {
    forall i, j :: 0 <= i < j < |s| ==> s[i].0 != s[j].0
  }

  lemma IndexOfUnique<V>(s: seq<Entry<V>>, i: nat)
    requires Unique(s) && i < |s|
    ensures IndexOf(s, s[i].0) == i
  {
  }

  lemma RemoveKeepsUnique<V>(s: seq<Entry<V>>, key: string)
    requires Unique(s)
    ensures Unique(Remove(s, key)) && !Has(Remove(s, key), key)
  {
    var t := Remove(s, key);
    var i := IndexOf(s, key);
    assert forall j :: 0 <= j < |t| ==> t[j] == if j < i then s[j] else s[j + 1];
  }

  lemma AppendKeepsUnique<V>(s: seq<Entry<V>>, key: string, v: V)
    requires Unique(s) && !Has(s, key)
    ensures Unique(s + [(key, v)])
  {
  }

  // ----- paging

  /** Reads a dictionary page by page: each page after the first starts at the last key of
      the page before, which is therefore dropped; a page that is not full is the last. */
  function Pages<V>(s: seq<Entry<V>>, marker: Option<string>, limit: nat): seq<Entry<V>>
    requires Unique(s) && limit >= 2
    decreases |s| - Start(s, marker)
  {
    var page := Slice(s, marker, limit);
    if |page| < limit then page
    else
      var key := page[limit - 1].0;
      IndexOfUnique(s, Start(s, marker) + limit - 1);
      page[..limit - 1] + Pages(s, Some(key), limit)
  }

  lemma {:induction false} PagesFrom<V>(s: seq<Entry<V>>, marker: Option<string>, limit: nat)
    requires Unique(s) && limit >= 2
    ensures Pages(s, marker, limit) == s[Start(s, marker)..]
    decreases |s| - Start(s, marker)
  {
    hide Unique, Start;
    var i := Start(s, marker);
    var page := Slice(s, marker, limit);
    if |page| == limit {
      var last := i + limit - 1;
      StartAt(s, last);
      assert page[limit - 1] == s[last];
      PagesFrom(s, Some(s[last].0), limit);
      SplitPage(s, i, last);
    }
  }

  lemma SplitPage<T>(s: seq<T>, i: nat, last: nat)
    requires i <= last < |s|
    ensures s[i..last + 1][..last - i] + s[last..] == s[i..]
  {
  }

  lemma StartAt<V>(s: seq<Entry<V>>, i: nat)
    requires Unique(s) && i < |s|
    ensures Start(s, Some(s[i].0)) == i
  {
    IndexOfUnique(s, i);
  }

  /** With a limit of at least two, paging from the front reads the whole dictionary once. */
  lemma PagesReadAll<V>(s: seq<Entry<V>>, limit: nat)
    requires Unique(s) && limit >= 2
    ensures Pages(s, None, limit) == s
  {
    PagesFrom(s, None, limit);
  }

  /** With a limit of one, a page that starts at a key ends at the same key: paging by last
      keys never gets past it. */
  lemma PageOfOneStays<V>(s: seq<Entry<V>>, key: string)
    requires Has(s, key)
    ensures |Slice(s, Some(key), 1)| == 1 && Slice(s, Some(key), 1)[0].0 == key
  {
  }
}
