/** The buffer between the HTTP library and the backend: what is received is appended chunk
    by chunk, and what is to be sent is handed out chunk by chunk. */
module UserBuffer {
  import opened Wrappers

  type Bytes = seq<int>

  /** The chunks one after the other. */
  function Joined(chunks: seq<Bytes>): Bytes {
    if chunks == [] then [] else Joined(chunks[..|chunks| - 1]) + chunks[|chunks| - 1]
  }

  lemma NothingJoined()
    ensures Joined([]) == []
  {
  }

  lemma JoinedMore(chunks: seq<Bytes>, chunk: Bytes)
    ensures Joined(chunks + [chunk]) == Joined(chunks) + chunk
  {
    assert (chunks + [chunk])[..|chunks|] == chunks;
  }

  /** How much of a body is handed out next. */
  function Portion(left: nat, asked: nat): nat { if left <= asked then left else asked }

  /** The chunks in which a body is read from a place on. */
  function ReadFrom(body: Bytes, place: nat, asked: seq<nat>): seq<Bytes>
    requires place <= |body|
    decreases |asked|
  {
    if asked == [] then []
    else
      var n := Portion(|body| - place, asked[0]);
      [body[place..place + n]] + ReadFrom(body, place + n, asked[1..])
  }

  function Sum(sizes: seq<nat>): nat {
    if sizes == [] then 0 else sizes[0] + Sum(sizes[1..])
  }

  lemma {:induction false} JoinedFirst(chunks: seq<Bytes>)
    requires chunks != []
    ensures Joined(chunks) == chunks[0] + Joined(chunks[1..])
  {
    if |chunks| > 1 {
      var front := chunks[..|chunks| - 1];
      JoinedFirst(front);
      assert chunks[1..][..|chunks| - 2] == front[1..];
    }
  }

  /** Whatever sizes are asked for, the pieces are the body from that place on, in order, as
      far as was asked. */
  lemma {:induction false} ReadFromIsSlice(body: Bytes, place: nat, asked: seq<nat>)
    requires place <= |body|
    ensures Joined(ReadFrom(body, place, asked)) == body[place..place + Portion(|body| - place, Sum(asked))]
    decreases |asked|
  {
    if asked != [] {
      var n := Portion(|body| - place, asked[0]);
      var chunks := ReadFrom(body, place, asked);
      ReadFromIsSlice(body, place + n, asked[1..]);
      JoinedFirst(chunks);
      assert chunks[1..] == ReadFrom(body, place + n, asked[1..]);
    }
  }

  /** Reads hand out the whole body once they ask for as much, and after that nothing. */
  lemma ReadsWholeBodyOnce(body: Bytes, asked: seq<nat>, more: nat)
    requires Sum(asked) >= |body|
    ensures Joined(ReadFrom(body, 0, asked)) == body
    ensures Portion(|body| - |Joined(ReadFrom(body, 0, asked))|, more) == 0
  {
    ReadFromIsSlice(body, 0, asked);
  }

  lemma {:induction false} PositiveSum(asked: seq<nat>)
    requires forall i :: 0 <= i < |asked| ==> asked[i] > 0
    ensures Sum(asked) >= |asked|
  {
    if asked != [] { PositiveSum(asked[1..]); }
  }

  /** Whatever their sizes, as many reads as the body has bytes hand out all of it, if none of
      them asks for nothing. */
  lemma PositiveReadsEnd(body: Bytes, asked: seq<nat>)
    requires |asked| >= |body| && forall i :: 0 <= i < |asked| ==> asked[i] > 0
    ensures Joined(ReadFrom(body, 0, asked)) == body
  {
    PositiveSum(asked);
    ReadsWholeBodyOnce(body, asked, 0);
  }

  class Buffer {
    var size: nat
    /** The cursor: the place of the next byte to be written, or to be read. */
    var place: nat
    var buf: array?<int>

    ghost predicate Valid()
      reads this
    {
      if buf == null then size == 0 else size <= buf.Length
    }

    ghost function Contents(): Bytes
      requires Valid()
      reads this, buf
    {
      if buf == null then [] else buf[..size]
    }

    /** Everything received so far is in the buffer, and the cursor is at its end. */
    ghost predicate Filled()
      reads this
    {
      Valid() && place == size
    }

    constructor (data: Option<Bytes>)
      ensures Valid() && place == 0 && Contents() == if data.Some? then data.value else []
      ensures buf != null ==> fresh(buf)
    {
      place := 0;
      if data.None? {
        buf, size := null, 0;
      } else {
        var room := new int[|data.value|](i requires 0 <= i < |data.value| => data.value[i]);
        buf, size := room, |data.value|;
        assert room[..] == data.value;
      }
    }

    /** Receives a chunk at the cursor.  In a buffer that is filled that is the end; in one that
        was made with data it would go over them, and only the room grows. */
    method Write(data: Bytes) returns (taken: nat)
      requires Valid() && place <= size
      modifies this, buf
      ensures Valid() && taken == |data| && size == old(size) + |data| && place == old(place) + |data| <= size
      ensures Contents()[..place] == old(Contents()[..place]) + data
      ensures forall i :: place <= i < old(size) ==> Contents()[i] == old(Contents()[i])
      ensures old(Filled()) ==> Filled() && Contents() == old(Contents()) + data
      ensures buf == old(buf) || fresh(buf)
    {
      var len := |data|;
      ghost var before := Contents();
      if size != 0 {
        if buf != null {
          var room := new int[size + len];
          forall i | 0 <= i < size { room[i] := buf[i]; }
          buf := room;
          size := size + len;
        }
      } else {
        size := len;
        buf := new int[len];
        place := 0;
      }
      forall i | 0 <= i < len { buf[place + i] := data[i]; }
      place := place + len;
      assert buf[..place] == before[..place - len] + data;
      return len;
    }

    /** Any chunks: what is received does not depend on how it was cut. */
    method WriteAll(chunks: seq<Bytes>)
      requires Filled()
      modifies this, buf
      ensures Filled() && Contents() == old(Contents()) + Joined(chunks)
      ensures size == old(size) + |Joined(chunks)| && place == size
    {
      hide Joined;
      NothingJoined();
      var i := 0;
      assert chunks[..0] == [];
      while i < |chunks|
        invariant 0 <= i <= |chunks| && Filled() && (buf == old(buf) || fresh(buf))
        invariant Contents() == old(Contents()) + Joined(chunks[..i])
      {
        JoinedMore(chunks[..i], chunks[i]);
        assert chunks[..i + 1] == chunks[..i] + [chunks[i]];
        var taken := Write(chunks[i]);
        i := i + 1;
      }
      assert chunks[..i] == chunks;
    }

    /** Hands out the next bytes, at most as many as asked for. */
    method Read(asked: nat) returns (data: Bytes)
      requires Valid() && place <= size
      modifies `place
      ensures Valid() && place <= size && Contents() == old(Contents())
      ensures data == old(Contents()[place..place + Portion(size - place, asked)])
      ensures place == old(place) + |data|
    {
      var left := size - place;
      if left == 0 { return []; }
      if left <= asked {
        data := buf[place..place + left];
        place := place + left;
      } else {
        data := buf[place..place + asked];
        place := place + asked;
      }
    }

    method ReadAll(asked: seq<nat>) returns (chunks: seq<Bytes>)
      requires Valid() && place <= size
      modifies `place
      ensures Valid() && place <= size && Contents() == old(Contents())
      ensures chunks == ReadFrom(old(Contents()), old(place), asked)
    {
      chunks := [];
      ghost var body := Contents();
      var i := 0;
      assert asked[0..] == asked;
      while i < |asked|
        invariant 0 <= i <= |asked| && Valid() && place <= size && Contents() == body
        invariant chunks + ReadFrom(body, place, asked[i..]) == ReadFrom(body, old(place), asked)
      {
        assert asked[i..][1..] == asked[i + 1..];
        ghost var rest := ReadFrom(body, place, asked[i..]);
        var data := Read(asked[i]);
        assert rest == [data] + ReadFrom(body, place, asked[i + 1..]);
        chunks := chunks + [data];
        i := i + 1;
      }
    }
  }
}
