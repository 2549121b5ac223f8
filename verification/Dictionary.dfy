/** The memory backend's dictionary: a doubly linked list of keyed nodes. */
module Dictionary {
  import opened Wrappers
  import opened AssocList

  class Node<V> {
    /** The dictionary that the node was made for. */
    ghost const owner: object
    const key: string
    var previous: Node?<V>
    var next: Node?<V>
    var data: V

    constructor (ghost owner: object, key: string, data: V)
      ensures this.owner == owner && this.key == key && this.data == data
      ensures this.previous == null && this.next == null
    {
      this.owner, this.key, this.data := owner, key, data;
      this.previous, this.next := null, null;
    }
  }

  /** The node at a position, null outside the list. */
  ghost function At<V>(nodes: seq<Node<V>>, i: int): Node?<V> {
    if 0 <= i < |nodes| then nodes[i] else null
  }

  ghost predicate LinkedAt<V>(nodes: seq<Node<V>>, i: int)
    requires 0 <= i < |nodes|
    reads nodes[i]
  {
    nodes[i].next == At(nodes, i + 1) && nodes[i].previous == At(nodes, i - 1)
  }

  /** Different nodes, each linked to its neighbours. */
  ghost predicate Chain<V>(nodes: seq<Node<V>>)
    reads nodes
  {
    && Different(nodes)
    && (forall i :: 0 <= i < |nodes| ==> LinkedAt(nodes, i))
  }

  ghost predicate Different<V>(nodes: seq<Node<V>>) {
    forall i, j :: 0 <= i < j < |nodes| ==> nodes[i] != nodes[j]
  }

  lemma DifferentWithout<V>(nodes: seq<Node<V>>, i: nat)
    requires Different(nodes) && i < |nodes|
    ensures Different(nodes[..i] + nodes[i + 1..])
    ensures nodes[i] !in nodes[..i] + nodes[i + 1..]
  {
    var rest := nodes[..i] + nodes[i + 1..];
    assert forall j :: 0 <= j < |rest| ==> rest[j] == nodes[if j < i then j else j + 1];
  }

  lemma DifferentAt<V>(nodes: seq<Node<V>>, i: nat, j: nat)
    requires Different(nodes) && i < |nodes| && j < |nodes| && i != j
    ensures nodes[i] != nodes[j]
  {
  }

  lemma DifferentNext<V>(nodes: seq<Node<V>>, i: nat, j: nat)
    requires Different(nodes) && i < |nodes| && j < |nodes|
    ensures nodes[j] == At(nodes, i + 1) <==> j == i + 1
    ensures nodes[j] == At(nodes, i - 1) <==> j == i - 1
  {
  }

  lemma DifferentMore<V>(nodes: seq<Node<V>>, node: Node<V>)
    requires Different(nodes) && node !in nodes
    ensures Different(nodes + [node])
  {
  }

  class Dictionary<V> {
    var first: Node?<V>
    var last: Node?<V>
    var length: nat
    ghost var Nodes: seq<Node<V>>
    /** What the dictionary holds, in order. */
    ghost var Entries: seq<Entry<V>>
    /** The dictionary that this one is held by, and the key it is held under. */
    ghost const owner: object?
    ghost const name: string

    /** The links are those of the sequence Nodes, and the nodes hold the entries. */
    ghost predicate Valid()
      reads this, Nodes
    {
      && Ends()
      && Chain(Nodes)
      && (forall i :: 0 <= i < |Nodes| ==> Stands(Nodes[i], Entries[i]))
    }

    ghost predicate Ends()
      reads this
    {
      && length == |Nodes| == |Entries|
      && first == At(Nodes, 0) && last == At(Nodes, |Nodes| - 1)
    }

    ghost predicate Stands(node: Node<V>, entry: Entry<V>)
      reads node
    {
      node.owner == this && node.key == entry.0 && node.data == entry.1
    }

    constructor (ghost owner: object?, ghost name: string)
      ensures Valid() && Nodes == [] && Entries == [] && this.owner == owner && this.name == name
    {
      first, last, length := null, null, 0;
      Nodes, Entries := [], [];
      this.owner, this.name := owner, name;
    }

    /** Appends a node; nothing checks that the key is new. */
    method Add(key: string, data: V) returns (node: Node<V>)
      requires Valid()
      modifies this, Nodes
      ensures Valid() && fresh(node) && Nodes == old(Nodes) + [node]
      ensures Entries == old(Entries) + [(key, data)]
    {
      node := new Node(this, key, data);
      node.previous := last;
      if last != null {
        last.next := node;
      }
      last := node;
      if first == null {
        first := node;
      }
      node.next := null;
      length := length + 1;
      DifferentMore(Nodes, node);
      Nodes, Entries := Nodes + [node], Entries + [(key, data)];
      forall i | 0 <= i < |Nodes|
        ensures LinkedAt(Nodes, i) && Stands(Nodes[i], Entries[i])
      {
        if i < |Nodes| - 1 { assert old(LinkedAt(Nodes, i)) && old(Stands(Nodes[i], Entries[i])); }
      }
    }

    /** The first node with this key; a null key finds nothing. */
    method Search(key: Option<string>) returns (node: Node?<V>)
      requires Valid()
      ensures key.None? ==> node == null
      ensures key.Some? ==>
                var i := IndexOf(Entries, key.value);
                node == if i < |Nodes| then Nodes[i] else null
    {
      if key.None? { return null; }
      node := first;
      var i := 0;
      while i < length
        invariant 0 <= i <= |Nodes|
        invariant node == if i < |Nodes| then Nodes[i] else null
        invariant forall j :: 0 <= j < i ==> Nodes[j].key != key.value
      {
        if node.key == key.value {
          FirstIndex(Entries, key.value, i);
          return;
        }
        assert LinkedAt(Nodes, i);
        node := node.next;
        i := i + 1;
      }
    }

    /** Unlinks the first node with this key, if there is one. */
    method DeleteNode(key: string)
      requires Valid()
      modifies this, Nodes
      ensures Valid()
      ensures Entries == Remove(old(Entries), key)
      ensures Nodes == var i := IndexOf(old(Entries), key);
                       if i < |old(Nodes)| then old(Nodes)[..i] + old(Nodes)[i + 1..] else old(Nodes)
      ensures var i := IndexOf(old(Entries), key);
              i < |old(Nodes)| ==> old(Nodes)[i].next == old(Nodes[i].next)
    {
      var node := Search(Some(key));
      if node == null { return; }
      ghost var i := IndexOf(Entries, key);
      Unlink(node, i);
    }

    /** Where an iteration starts: at the marker's node, or at the front. */
    method From(marker: Option<string>) returns (node: Node?<V>)
      requires Valid()
      ensures node == At(Nodes, Start(Entries, marker))
    {
      node := Search(marker);
      if node == null { node := first; }
    }

    lemma LengthIs()
      requires Valid()
      ensures Ends() && Different(Nodes) && length == |Nodes| == |Entries|
    {
    }

    lemma MakeValid()
      requires Ends() && Different(Nodes)
      requires forall i :: 0 <= i < |Nodes| ==> LinkedAt(Nodes, i)
      requires forall i :: 0 <= i < |Nodes| ==> Stands(Nodes[i], Entries[i])
      ensures Valid()
    {
    }

    lemma LinksIn(i: nat)
      requires Valid() && i < |Nodes|
      ensures |Nodes| == |Entries|
      ensures Nodes[i].next == At(Nodes, i + 1) && Nodes[i].previous == At(Nodes, i - 1)
      ensures Nodes[i].key == Entries[i].0 && Nodes[i].data == Entries[i].1
    {
      assert LinkedAt(Nodes, i) && Stands(Nodes[i], Entries[i]);
    }

    /** Deletes up to `bound` nodes from the marker on, or from the front; a negative bound
        never runs out.  Each node is deleted by its key, so where a key is repeated it is the
        first node with that key that goes. */
    method Delete(marker: Option<string>, bound: int)
      requires Valid()
      modifies this, Nodes
      ensures Valid()
      ensures var s := old(Entries);
              var i := Start(s, marker);
              var j := if bound < 0 || i + bound > |s| then |s| else i + bound;
              Entries == WithoutKeys(s, i, j) && (Unique(s) ==> Entries == s[..i] + s[j..])
    {
      hide Valid, Start, Unique, WithoutKeys, Deleting;
      LengthIs();
      ghost var s, i := Entries, Start(Entries, marker);
      WithoutNone(s, i);
      if Unique(s) { WithoutKeysUnique(s, i, i); }
      if length == 0 { return; }
      var node := From(marker);
      var left := bound;
      ghost var k := i;
      DeletingNone(Nodes, Entries, node, i);
      while node != null && left != 0
        invariant Valid() && i <= k <= |s| && Deleting(Nodes, Entries, node, s, i, k)
        invariant left == bound - (k - i) && (bound >= 0 ==> left >= 0)
        invariant forall x :: 0 <= x < |Nodes| ==> Nodes[x] in old(Nodes)
        decreases |s| - k
      {
        DeletingMeans(Nodes, Entries, node, s, i, k);
        node := DeleteAt(node, s, i, k);
        left := left - 1;
        k := k + 1;
      }
      DeletingMeans(Nodes, Entries, node, s, i, k);
      if Unique(s) { WithoutKeysUnique(s, i, k); }
    }

    /** One turn of that loop: deletes the first node with a node's key and goes on to the next. */
    method DeleteAt(node: Node<V>, ghost s: seq<Entry<V>>, ghost i: nat, ghost k: nat) returns (next: Node?<V>)
      requires Valid() && i <= k < |s| && Deleting(Nodes, Entries, node, s, i, k)
      modifies this, Nodes
      ensures Valid() && Deleting(Nodes, Entries, next, s, i, k + 1)
      ensures forall x :: 0 <= x < |Nodes| ==> Nodes[x] in old(Nodes)
    {
      hide Valid, IndexOf, WithoutKeys, Remove, Deleting;
      ghost var before, kept, m := Nodes, Entries, |Nodes| - (|s| - k);
      DeletingAt(before, kept, node, s, i, k);
      LinksIn(m);
      next := node.next;
      DeleteNode(node.key);
      RemoveIs(kept, m);
      DeletingNext(before, kept, node, s, i, k, Nodes, Entries);
    }

    /** A fresh dictionary with the entries of a slice; the data are shared. */
    method Iter(marker: Option<string>, limit: nat) returns (d: Dictionary<V>)
      requires Valid()
      ensures d.Valid() && fresh(d) && fresh(d.Nodes)
      ensures d.Entries == Slice(Entries, marker, limit)
    {
      hide Valid, Start, Stop;
      LengthIs();
      d := new Dictionary(null, "");
      ghost var s := Entries;
      ghost var i := Start(s, marker);
      var node := From(marker);
      var left := if limit == 0 then length else limit;
      ghost var k := i;
      while node != null && left != 0
        invariant d.Valid() && fresh(d) && fresh(d.Nodes)
        invariant i <= k <= |s| && node == At(Nodes, k) && d.Entries == s[i..k]
        invariant left == (if limit == 0 then |s| else limit) - (k - i) && left >= 0
        decreases left
      {
        LinksIn(k);
        var copy := d.Add(node.key, node.data);
        SliceMore(s, i, k);
        node := node.next;
        left := left - 1;
        k := k + 1;
      }
      StopIs(s, marker, limit, k);
    }

    /** The node's neighbours are linked to each other. */
    method Relink(node: Node<V>, ghost i: nat)
      requires Valid() && i < |Nodes| && node == Nodes[i]
      modifies this, Nodes
      ensures Nodes == old(Nodes) && Entries == old(Entries) && length == old(length)
      ensures node.next == old(node.next)
      ensures first == if i == 0 then At(Nodes, 1) else At(Nodes, 0)
      ensures last == At(Nodes, if i == |Nodes| - 1 then i - 1 else |Nodes| - 1)
      ensures forall j :: 0 <= j < |Nodes| && j != i ==> LinkedAcross(Nodes, i, j)
      ensures forall j :: 0 <= j < |Nodes| ==> Stands(Nodes[j], Entries[j])
    {
      hide Different;
      LinksIn(i);
      if node.previous != null {
        node.previous.next := node.next;
      } else {
        first := node.next;
      }
      if node.next != null {
        node.next.previous := node.previous;
      } else {
        last := node.previous;
      }
      hide *;
      Relinked(i);
    }

    twostate lemma Relinked(i: nat)
      requires old(Valid()) && Nodes == old(Nodes) && Entries == old(Entries) && i < |Nodes|
      requires forall n :: n in Nodes && n != At(Nodes, i - 1) ==> n.next == old(n.next)
      requires forall n :: n in Nodes && n != At(Nodes, i + 1) ==> n.previous == old(n.previous)
      requires forall n :: n in Nodes ==> n.data == old(n.data)
      requires i > 0 ==> Nodes[i - 1].next == old(Nodes[i].next)
      requires i + 1 < |Nodes| ==> Nodes[i + 1].previous == old(Nodes[i].previous)
      ensures forall j :: 0 <= j < |Nodes| && j != i ==> LinkedAcross(Nodes, i, j)
      ensures forall j :: 0 <= j < |Nodes| ==> Stands(Nodes[j], Entries[j])
    {
      hide Different;
      assert old(LinkedAt(Nodes, i));
      forall j | 0 <= j < |Nodes|
        ensures j != i ==> LinkedAcross(Nodes, i, j)
        ensures Stands(Nodes[j], Entries[j])
      {
        DifferentNext(Nodes, i, j);
        assert old(LinkedAt(Nodes, j)) && old(Stands(Nodes[j], Entries[j]));
      }
    }

    method Unlink(node: Node<V>, ghost i: nat)
      requires Valid() && i < |Nodes| && node == Nodes[i]
      modifies this, Nodes
      ensures Valid()
      ensures Nodes == old(Nodes)[..i] + old(Nodes)[i + 1..] && Entries == Without(old(Entries), i)
      ensures node.next == old(node.next)
    {
      hide Valid, Different, LinkedAt, LinkedAcross;
      LengthIs();
      Relink(node, i);
      length := length - 1;
      ghost var before, kept := Nodes, Entries;
      Nodes, Entries := Nodes[..i] + Nodes[i + 1..], Without(Entries, i);
      DifferentWithout(before, i);
      forall j | 0 <= j < |Nodes|
        ensures LinkedAt(Nodes, j) && Stands(Nodes[j], Entries[j])
      {
        Skipped(before, i, j);
        assert Stands(before[if j < i then j else j + 1], kept[if j < i then j else j + 1]);
      }
      MakeValid();
    }

    /** Puts other data under the key of a node. */
    method Replace(node: Node<V>, ghost i: nat, data: V)
      requires Valid() && i < |Nodes| && node == Nodes[i]
      modifies this`Entries, node`data
      ensures Valid() && Nodes == old(Nodes) && Entries == old(Entries)[i := (node.key, data)]
    {
      hide Valid, Different;
      LengthIs();
      node.data := data;
      Entries := Entries[i := (node.key, data)];
      DataReplaced(i);
    }

    twostate lemma DataReplaced(i: nat)
      requires old(Valid()) && Nodes == old(Nodes) && first == old(first) && last == old(last) && length == old(length)
      requires i < |Nodes| == |old(Entries)| && Different(Nodes) && Ends()
      requires Entries == old(Entries)[i := (Nodes[i].key, Nodes[i].data)]
      requires forall n :: n in Nodes ==> n.next == old(n.next)
      requires forall n :: n in Nodes ==> n.previous == old(n.previous)
      requires forall n :: n in Nodes && n != Nodes[i] ==> n.data == old(n.data)
      ensures Valid()
    {
      hide Different, Ends;
      forall j | 0 <= j < |Nodes|
        ensures LinkedAt(Nodes, j) && Stands(Nodes[j], Entries[j])
      {
        if j != i { DifferentAt(Nodes, i, j); }
        assert old(LinkedAt(Nodes, j)) && old(Stands(Nodes[j], Entries[j]));
      }
      MakeValid();
    }
  }

  /** Node j's links once node i has been skipped. */
  ghost predicate LinkedAcross<V>(nodes: seq<Node<V>>, i: nat, j: nat)
    requires i < |nodes| && j < |nodes|
    reads nodes[j]
  {
    && nodes[j].next == At(nodes, if j + 1 == i then j + 2 else j + 1)
    && nodes[j].previous == At(nodes, if j == i + 1 then j - 2 else j - 1)
  }

  lemma Skipped<V>(before: seq<Node<V>>, i: nat, j: nat)
    requires i < |before| && j < |before| - 1 && LinkedAcross(before, i, if j < i then j else j + 1)
    ensures LinkedAt(before[..i] + before[i + 1..], j)
  {
    var after := before[..i] + before[i + 1..];
    assert forall k :: 0 <= k < |after| ==> after[k] == before[if k < i then k else k + 1];
  }

  lemma FirstIndex<V>(s: seq<Entry<V>>, key: string, i: nat)
    requires i < |s| && s[i].0 == key && forall j :: 0 <= j < i ==> s[j].0 != key
    ensures IndexOf(s, key) == i
  {
  }

  /** The entries without the keys from i up to k, deleted one after the other. */
  function WithoutKeys<V>(s: seq<Entry<V>>, i: nat, k: nat): seq<Entry<V>>
    requires k <= |s|
  {
    if k <= i then s else Remove(WithoutKeys(s, i, k - 1), s[k - 1].0)
  }

  lemma WithoutNone<V>(s: seq<Entry<V>>, i: nat)
    requires i <= |s|
    ensures WithoutKeys(s, i, i) == s
  {
  }

  lemma WithoutOneMore<V>(s: seq<Entry<V>>, i: nat, k: nat)
    requires i <= k < |s|
    ensures WithoutKeys(s, i, k + 1) == Remove(WithoutKeys(s, i, k), s[k].0)
  {
  }

  /** Where no key is repeated, that is without the slice. */
  lemma {:induction false} WithoutKeysUnique<V>(s: seq<Entry<V>>, i: nat, k: nat)
    requires Unique(s) && i <= k <= |s|
    ensures WithoutKeys(s, i, k) == s[..i] + s[k..]
  {
    hide Remove, IndexOf;
    if k == i {
      assert s[..i] + s[i..] == s;
    } else {
      WithoutKeysUnique(s, i, k - 1);
      IndexOfRest(s, i, k - 1);
    }
  }

  lemma IndexOfRest<V>(s: seq<Entry<V>>, i: nat, k: nat)
    requires Unique(s) && i <= k < |s|
    ensures Remove(s[..i] + s[k..], s[k].0) == s[..i] + s[k + 1..]
  {
    FirstIndex(s[..i] + s[k..], s[k].0, i);
  }

  /** The keys from i up to k have been deleted, and the node is the one that was at k. */
  ghost predicate Deleting<V>(nodes: seq<Node<V>>, entries: seq<Entry<V>>, node: Node?<V>, s: seq<Entry<V>>, i: nat,
    k: nat)
    requires k <= |s|
  {
    && |nodes| == |entries| && entries == WithoutKeys(s, i, k)
    && |s| - k <= |entries| && entries[|entries| - (|s| - k)..] == s[k..]
    && node == At(nodes, |nodes| - (|s| - k))
  }

  lemma DeletingNone<V>(nodes: seq<Node<V>>, entries: seq<Entry<V>>, node: Node?<V>, i: nat)
    requires |nodes| == |entries| && i <= |entries| && node == At(nodes, i)
    ensures Deleting(nodes, entries, node, entries, i, i)
  {
  }

  lemma DeletingMeans<V>(nodes: seq<Node<V>>, entries: seq<Entry<V>>, node: Node?<V>, s: seq<Entry<V>>, i: nat,
    k: nat)
    requires k <= |s| && Deleting(nodes, entries, node, s, i, k)
    ensures (node != null <==> k < |s|) && entries == WithoutKeys(s, i, k)
  {
  }

  lemma DeletingAt<V>(nodes: seq<Node<V>>, entries: seq<Entry<V>>, node: Node?<V>, s: seq<Entry<V>>, i: nat, k: nat)
    requires k < |s| && Deleting(nodes, entries, node, s, i, k)
    ensures var m := |nodes| - (|s| - k); 0 <= m < |nodes| == |entries| && node == nodes[m] && entries[m] == s[k]
  {
    var m := |nodes| - (|s| - k);
    assert entries[m..][0] == s[k..][0];
  }

  lemma DeletingNext<V>(nodes: seq<Node<V>>, entries: seq<Entry<V>>, node: Node?<V>, s: seq<Entry<V>>, i: nat, k: nat,
    nodes': seq<Node<V>>, entries': seq<Entry<V>>)
    requires i <= k < |s| && Deleting(nodes, entries, node, s, i, k) && entries' == Remove(entries, s[k].0)
    requires var f := IndexOf(entries, s[k].0); f < |nodes| ==> nodes' == nodes[..f] + nodes[f + 1..]
    ensures Deleting(nodes', entries', At(nodes, |nodes| - (|s| - k) + 1), s, i, k + 1)
    ensures forall x :: 0 <= x < |nodes'| ==> nodes'[x] in nodes
  {
    hide WithoutKeys, IndexOf, Remove;
    var m, f := |nodes| - (|s| - k), IndexOf(entries, s[k].0);
    DeletingAt(nodes, entries, node, s, i, k);
    RemoveIs(entries, m);
    WithoutIs(nodes, f, m, nodes');
    WithoutIs(entries, f, m, entries');
    WithoutOneMore(s, i, k);
    assert entries[m..][1..] == s[k..][1..];
  }

  lemma RemoveIs<V>(s: seq<Entry<V>>, m: nat)
    requires m < |s|
    ensures var f := IndexOf(s, s[m].0); f <= m && Remove(s, s[m].0) == s[..f] + s[f + 1..]
  {
  }

  lemma WithoutIs<T>(before: seq<T>, f: nat, m: nat, after: seq<T>)
    requires f <= m < |before| && after == before[..f] + before[f + 1..]
    ensures |after| == |before| - 1 && after[m..] == before[m + 1..]
    ensures forall x :: 0 <= x < |after| ==> after[x] in before
    ensures m < |after| ==> after[m] == before[m + 1]
  {
  }

  lemma StopIs<V>(s: seq<Entry<V>>, marker: Option<string>, limit: nat, k: nat)
    requires Start(s, marker) <= k <= |s|
    requires k == |s| || k - Start(s, marker) == if limit == 0 then |s| else limit
    requires k - Start(s, marker) <= if limit == 0 then |s| else limit
    ensures k == Stop(s, marker, limit)
  {
  }

  lemma SliceMore<T>(s: seq<T>, i: nat, k: nat)
    requires i <= k < |s|
    ensures s[i..k] + [s[k]] == s[i..k + 1]
  {
  }
}
