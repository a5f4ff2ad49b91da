/** The append-only chunk allocator (static_list.h). */
module StaticLists {

  datatype Option<T> = None | Some(value: T)

  /** A pointer: a chunk and an index into it. */
  datatype Cell = Cell(chunk: nat, index: nat)

  // ---- sections of memory that has been handed out, chunk by chunk -----------------------------------------

  predicate Section<T>(u: seq<seq<T>>, c: Cell, n: nat) {
    c.chunk < |u| && c.index + n <= |u[c.chunk]|
  }

  function Contents<T>(u: seq<seq<T>>, c: Cell, n: nat): (s: seq<T>)
    requires Section(u, c, n)
    ensures |s| == n
  {
    u[c.chunk][c.index..c.index + n]
  }

  /** The section ends where the memory ends, and so can grow. */
  predicate Open<T>(u: seq<seq<T>>, c: Cell, n: nat) {
    Section(u, c, n) && c.chunk == |u| - 1 && c.index + n == |u[c.chunk]|
  }

  /** Memory is added, and nothing handed out changes. */
  predicate Grown<T(==)>(u: seq<seq<T>>, v: seq<seq<T>>) {
    |u| <= |v| && forall i :: 0 <= i < |u| ==> u[i] <= v[i]
  }

  lemma SectionGrows<T>(u: seq<seq<T>>, v: seq<seq<T>>, c: Cell, n: nat)
    requires Section(u, c, n) && Grown(u, v)
    ensures Section(v, c, n) && Contents(v, c, n) == Contents(u, c, n)
  {
    assert u[c.chunk] <= v[c.chunk];
  }

  lemma GrownSelf<T>(u: seq<seq<T>>)
    ensures Grown(u, u)
  {
  }

  lemma GrownTrans<T>(u: seq<seq<T>>, v: seq<seq<T>>, w: seq<seq<T>>)
    requires Grown(u, v) && Grown(v, w)
    ensures Grown(u, w)
  {
    forall i | 0 <= i < |u| ensures u[i] <= w[i] {
      assert u[i] <= v[i] && v[i] <= w[i];
    }
  }

  /** The section stays where it was, or lies in memory not handed out before. */
  predicate OnlyNew<T>(u: seq<seq<T>>, start: Option<Cell>, length: nat, r: Cell) {
    r.chunk < |u| ==> if length > 0 then start == Some(r) else |u[r.chunk]| <= r.index
  }

  predicate SectionsApart(x: Cell, n: nat, y: Cell, m: nat) {
    n == 0 || m == 0 || x.chunk != y.chunk || x.index + n <= y.index || y.index + m <= x.index
  }

  /** A grown section does not run into any other. */
  lemma GrownApart<T>(u: seq<seq<T>>, start: Option<Cell>, n: nat, r: Cell, m: nat, y: Cell, k: nat)
    requires OnlyNew(u, start, n, r) && Section(u, y, k) && n <= m
    requires n > 0 ==> start.Some? && Open(u, start.value, n) && SectionsApart(start.value, n, y, k)
    ensures SectionsApart(r, m, y, k)
  {
  }

  function Last<T>(u: seq<seq<T>>, e: seq<T>): seq<seq<T>>
    requires u != []
  {
    u[|u| - 1 := u[|u| - 1] + e]
  }

  lemma AddedAtEnd<T>(u: seq<seq<T>>, c: Cell, n: nat, e: seq<T>)
    requires Open(u, c, n)
    ensures Grown(u, Last(u, e)) && Open(Last(u, e), c, n + |e|)
    ensures Contents(Last(u, e), c, n + |e|) == Contents(u, c, n) + e
  {
  }

  lemma NewChunk<T>(u: seq<seq<T>>, e: seq<T>)
    ensures Grown(u, u + [e]) && Open(u + [e], Cell(|u|, 0), |e|) && Contents(u + [e], Cell(|u|, 0), |e|) == e
  {
  }

  // ---- room ------------------------------------------------------------------------------------------------

  /**
   What is left of a list's memory: in the chunk of the cursor, and in chunks that can still be had.
   `begun` says that there is a chunk.
   */
  datatype Room = Room(max: nat, left: nat, chunks: nat, begun: bool)

  /** n elements behind a section of that length are refused; `begins` says that there is no section yet. */
  predicate Refuses(r: Room, begins: bool, length: nat, n: nat) {
    || length + n > r.max
    || (n > r.left && r.chunks == 0)
    || (n == 0 && begins && !r.begun)
  }

  /** The room behind them: a section that no longer fits takes up a new chunk. */
  function RoomBehind(r: Room, length: nat, n: nat): Room
    requires length + n <= r.max && (n > r.left ==> r.chunks > 0)
  {
    if n <= r.left then r.(left := r.left - n) else Room(r.max, r.max - length - n, r.chunks - 1, true)
  }

  function Sum(ns: seq<nat>): nat { if ns == [] then 0 else ns[0] + Sum(ns[1..]) }

  /** None of the additions that make up one section is refused; the first i, of that length, are done. */
  predicate Takes(r: Room, ns: seq<nat>, i: nat, length: nat)
    decreases |ns| - i
  {
    i < |ns| ==>
      !Refuses(r, i == 0, length, ns[i]) && Takes(RoomBehind(r, length, ns[i]), ns, i + 1, length + ns[i])
  }

  /**
   A section built up step by step takes at most one new chunk: it fits if a whole chunk can
   hold it, and if there is one to be had or what is left is enough.
   */
  predicate Fits(r: Room, ns: seq<nat>) {
    Sum(ns) <= r.max && (Sum(ns) <= r.left || r.chunks > 0) && (ns != [] && ns[0] == 0 ==> r.begun)
  }
  lemma SumRest(ns: seq<nat>, i: nat)
    requires i < |ns|
    ensures Sum(ns[i..]) == ns[i] + Sum(ns[i + 1..])
  {
    assert ns[i..][1..] == ns[i + 1..];
  }

  /** The rest of a section that has begun. */
  lemma {:induction false} TakesRest(r: Room, ns: seq<nat>, i: nat, length: nat)
    requires 0 < i <= |ns|
    requires length <= r.max
    ensures Takes(r, ns, i, length)
      <==> length + Sum(ns[i..]) <= r.max && (Sum(ns[i..]) <= r.left || r.chunks > 0)
    decreases |ns| - i
  {
    if i < |ns| {
      SumRest(ns, i);
      if !Refuses(r, false, length, ns[i]) {
        TakesRest(RoomBehind(r, length, ns[i]), ns, i + 1, length + ns[i]);
      }
    }
  }

  lemma TakesFits(r: Room, ns: seq<nat>)
    requires r.begun || r.left == 0
    ensures Takes(r, ns, 0, 0) <==> Fits(r, ns)
  {
    if ns != [] {
      assert ns[0..] == ns;
      SumRest(ns, 0);
      if !Refuses(r, true, 0, ns[0]) {
        TakesRest(RoomBehind(r, 0, ns[0]), ns, 1, ns[0]);
      }
    }
  }

  /** Adding nothing to a list that holds nothing is refused, however much memory there is. */
  lemma NothingRefused(max: nat, chunks: nat)
    ensures Refuses(Room(max, 0, chunks, false), true, 0, 0) && !Fits(Room(max, 0, chunks, false), [0])
  {
  }

  /**
   Elements are added at the cursor only.  The section that ends at the cursor can grow,
   and moves to a new chunk when it no longer fits.
   */
  class StaticList<T(0,==)> {
    const maxElements: nat
    var chunks: seq<array<T>>
    var cursor: Option<Cell>
    var sizeLeft: nat

    /** How many chunks the system still has for this list. */
    var supply: nat

    /** The elements that were handed out of each chunk. */
    ghost var used: seq<seq<T>>

    ghost predicate Holds(i: nat)
      reads this, chunks
      requires i < |chunks| == |used|
    {
      chunks[i].Length == maxElements && |used[i]| <= maxElements && chunks[i][..|used[i]|] == used[i]
    }

    ghost predicate Valid()
      reads this, chunks
    {
      && |used| == |chunks| && (forall i :: 0 <= i < |chunks| ==> Holds(i))
      && (forall i, j :: 0 <= i < j < |chunks| ==> chunks[i] != chunks[j])
      && (cursor.None? <==> chunks == []) && (cursor.None? ==> sizeLeft == 0)
      && (cursor.Some? ==>
        cursor.value == Cell(|chunks| - 1, |used[|chunks| - 1]|) && cursor.value.index + sizeLeft == maxElements)
    }

    function Left(): Room
      reads this
    {
      Room(maxElements, sizeLeft, supply, cursor.Some?)
    }

    constructor (numElements: nat, supply: nat)
      ensures Valid() && used == [] && Left() == Room(numElements, 0, supply, false)
    {
      this.supply := supply;
      maxElements := numElements;
      chunks := [];
      cursor := None;
      sizeLeft := 0;
      used := [];
    }

    /** Memory runs out when the system has no more chunks. */
    method Allocate() returns (chunk: array?<T>)
      requires Valid()
      modifies this`supply
      ensures Valid()
      ensures chunk == null <==> old(supply) == 0
      ensures chunk != null ==> fresh(chunk) && chunk.Length == maxElements && supply == old(supply) - 1
      ensures chunk == null ==> supply == 0
    {
      if supply == 0 {
        chunk := null;
      } else {
        chunk := new T[maxElements];
        supply := supply - 1;
        forall i | 0 <= i < |chunks| ensures Holds(i) {
          assert old(Holds(i));
        }
      }
    }

    /** std::copy to a chunk. */
    static method Copy(a: array<T>, at: nat, elements: seq<T>)
      requires at + |elements| <= a.Length
      modifies a
      ensures a[..at + |elements|] == old(a[..at]) + elements
    {
      var i := 0;
      while i < |elements|
        invariant 0 <= i <= |elements|
        invariant a[..at + i] == old(a[..at]) + elements[..i]
      {
        a[at + i] := elements[i];
        assert a[..at + i + 1] == a[..at + i] + [elements[i]];
        i := i + 1;
      }
    }

    /** reallocate: a new chunk that begins with a copy of the section that ends at the cursor. */
    method Reallocate(start: Option<Cell>, storeCount: nat) returns (exhausted: bool)
      requires Valid() && storeCount <= maxElements
      requires storeCount > 0 ==> start.Some? && Open(used, start.value, storeCount)
      modifies this`chunks, this`cursor, this`sizeLeft, this`supply, this`used
      ensures Valid() && (exhausted <==> old(supply) == 0)
      ensures exhausted ==> Left() == old(Left()) && cursor == old(cursor)
      ensures exhausted ==> chunks == old(chunks) && used == old(used)
      ensures !exhausted ==>
        |chunks| == |old(chunks)| + 1 && chunks[..|old(chunks)|] == old(chunks) && fresh(chunks[|old(chunks)|])
      ensures !exhausted ==> Left() == Room(maxElements, maxElements - storeCount, old(supply) - 1, true)
      ensures !exhausted ==>
        used == old(used) + [if storeCount == 0 then [] else Contents(old(used), start.value, storeCount)]
    {
      ghost var content := if storeCount == 0 then [] else Contents(used, start.value, storeCount);
      var elements := [];
      if storeCount > 0 {
        assert Holds(|chunks| - 1);
        elements := chunks[start.value.chunk][start.value.index..start.value.index + storeCount];
        assert elements == content;
      }
      var chunk := Allocate();
      exhausted := chunk == null;
      if !exhausted {
        Copy(chunk, 0, elements);
        assert chunk[..storeCount] == content;
        TakeChunk(chunk, elements);
      }
    }

    /** The cursor moves into a new chunk, behind what is in it already. */
    method TakeChunk(chunk: array<T>, elements: seq<T>)
      requires Valid() && chunk !in chunks && chunk.Length == maxElements
      requires |elements| <= maxElements && chunk[..|elements|] == elements
      modifies this`chunks, this`cursor, this`sizeLeft, this`used
      ensures Valid() && chunks == old(chunks) + [chunk] && used == old(used) + [elements]
      ensures Left() == Room(maxElements, maxElements - |elements|, supply, true)
    {
      chunks := chunks + [chunk];
      cursor := Some(Cell(|chunks| - 1, |elements|));
      sizeLeft := maxElements - |elements|;
      used := used + [elements];
      forall i | 0 <= i < |chunks| ensures Holds(i) {
        assert i < |chunks| - 1 ==> old(Holds(i));
      }
    }

    /** Copies the elements to the cursor. */
    method Append(elements: seq<T>)
      requires Valid() && chunks != [] && |elements| <= sizeLeft
      modifies this`cursor, this`sizeLeft, this`used, chunks[|chunks| - 1]
      ensures Valid() && Left() == old(Left()).(left := old(sizeLeft) - |elements|)
      ensures used == Last(old(used), elements)
    {
      var at := cursor.value.index;
      assert Holds(|chunks| - 1);
      Copy(chunks[cursor.value.chunk], at, elements);
      cursor := Some(Cell(cursor.value.chunk, at + |elements|));
      sizeLeft := sizeLeft - |elements|;
      used := used[|chunks| - 1 := used[|chunks| - 1] + elements];
      forall i | 0 <= i < |chunks| ensures Holds(i) {
        assert i < |chunks| - 1 ==> chunks[i] != chunks[|chunks| - 1] && old(Holds(i));
      }
    }

    /** Where n more elements go behind the section, which moves to a new chunk if it has to. */
    method MakeRoom(start: Option<Cell>, length: nat, n: nat) returns (r: Option<Cell>)
      requires Valid() && length + n <= maxElements
      requires if start.Some? then Open(used, start.value, length) else length == 0
      modifies this`chunks, this`cursor, this`sizeLeft, this`supply, this`used
      ensures Valid() && Grown(old(used), used)
      ensures r.None? <==> Refuses(old(Left()), start.None?, length, n)
      ensures r.None? ==> Left() == old(Left())
      ensures r.Some? ==>
        chunks != [] && n <= sizeLeft && Left().(left := sizeLeft - n) == RoomBehind(old(Left()), length, n)
      ensures r.Some? ==> Open(used, r.value, length) && OnlyNew(old(used), start, length, r.value)
      ensures r.Some? ==>
        Contents(used, r.value, length) == if start.Some? then Contents(old(used), start.value, length) else []
      ensures r.Some? && length > 0 && n <= old(sizeLeft) ==> r == start
      ensures |old(chunks)| <= |chunks| && chunks[..|old(chunks)|] == old(chunks)
      ensures forall k :: |old(chunks)| <= k < |chunks| ==> fresh(chunks[k])
    {
      hide Holds, Grown, Contents;
      GrownSelf(used);
      ghost var content := if start.Some? then Contents(used, start.value, length) else [];
      r := if length > 0 then start else cursor;
      if sizeLeft < n {
        var exhausted := Reallocate(start, length);
        if exhausted {
          return None;
        }
        r := Some(Cell(|chunks| - 1, 0));
        NewChunk(old(used), content);
      }
    }

    /**
     Adds elements behind the section of the given length that ends at the cursor (or
     begins a section).  The new section is contiguous, holds the old contents and the new
     elements, and can grow again; nothing else that was handed out changes.
     */
    method Add(start: Option<Cell>, ghost length: nat, elements: seq<T>) returns (r: Option<Cell>)
      requires Valid()
      requires if start.Some? then Open(used, start.value, length) else length == 0
      modifies this`chunks, this`cursor, this`sizeLeft, this`supply, this`used, chunks
      ensures Valid() && Grown(old(used), used)
      ensures r.None? <==> Refuses(old(Left()), start.None?, length, |elements|)
      ensures Left() == if r.None? then old(Left()) else RoomBehind(old(Left()), length, |elements|)
      ensures r.Some? ==> Open(used, r.value, length + |elements|)
      ensures r.Some? ==>
        Contents(used, r.value, length + |elements|)
          == (if start.Some? then Contents(old(used), start.value, length) else []) + elements
      ensures r.Some? && length > 0 && |elements| <= old(sizeLeft) ==> r == start
      ensures r.Some? ==> OnlyNew(old(used), start, length, r.value)
      ensures |old(chunks)| <= |chunks| && chunks[..|old(chunks)|] == old(chunks)
      ensures forall k :: |old(chunks)| <= k < |chunks| ==> fresh(chunks[k])
    {
      hide Holds, Grown, Contents, Last, OnlyNew, RoomBehind;
      var storeCount := if start.None? then 0 else cursor.value.index - start.value.index;
      if |elements| + storeCount > maxElements {
        GrownSelf(used);
        return None;
      }
      r := MakeRoom(start, storeCount, |elements|);
      if r.Some? {
        ghost var before := used;
        AddedAtEnd(before, r.value, length, elements);
        Append(elements);
        GrownTrans(old(used), before, used);
      }
    }

    /** A single element that never moves. */
    method AllocateEntry() returns (entry: Cell, exhausted: bool)
      requires Valid() && maxElements > 0
      modifies this`chunks, this`cursor, this`sizeLeft, this`supply, this`used
      ensures Valid() && Grown(old(used), used)
      ensures exhausted <==> old(sizeLeft) == 0 && old(supply) == 0
      ensures !exhausted ==> Section(used, entry, 1) && !Section(old(used), entry, 1)
    {
      exhausted := false;
      entry := Cell(0, 0);
      if sizeLeft <= 0 {
        exhausted := Reallocate(None, 0);
        if exhausted {
          return;
        }
      }
      entry := cursor.value;
      TakeEntry();
    }

    /** The cursor moves past one element. */
    method TakeEntry()
      requires Valid() && sizeLeft > 0
      modifies this`cursor, this`sizeLeft, this`used
      ensures Valid() && Grown(old(used), used) && Section(used, old(cursor).value, 1)
    {
      var entry, a := cursor.value, chunks[cursor.value.chunk];
      assert Holds(entry.chunk);
      sizeLeft := sizeLeft - 1;
      cursor := Some(Cell(entry.chunk, entry.index + 1));
      used := used[entry.chunk := used[entry.chunk] + [a[entry.index]]];
      assert a[..entry.index + 1] == a[..entry.index] + [a[entry.index]];
      forall i | 0 <= i < |chunks| ensures Holds(i) {
        assert old(Holds(i));
      }
    }
  }
}
