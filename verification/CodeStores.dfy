/** The store of translated blocks (codestore.cpp). */
module CodeStores {
  import opened StaticLists
  import opened CodeCache

  /** Words one guest instruction may be translated to (codestore.h). */
  const MaxRiscVInstructions: nat := 255

  /** PastPages: the program goes on with a list behind the last page's, and nothing is known of what it does. */
  datatype Added = Added | NotConsecutive | CodeFull | OffsetsFull | PastPages

  predicate AllStored(code: Code, sizes: SizeList, blocks: seq<BlockEntry>) {
    && (forall i :: 0 <= i < |blocks| ==> Stored(code, sizes, blocks[i]))
    && (blocks != [] ==> Growing(code, sizes, blocks[|blocks| - 1]))
    && HostsApart(code, sizes, blocks)
  }

  /** No two blocks share words. */
  predicate HostsApart(code: Code, sizes: SizeList, blocks: seq<BlockEntry>)
    requires forall i :: 0 <= i < |blocks| ==> Stored(code, sizes, blocks[i])
  {
    forall i, j :: 0 <= i < j < |blocks| ==> WordsApart(code, sizes, blocks[i], blocks[j])
  }

  predicate WordsApart(code: Code, sizes: SizeList, b: BlockEntry, c: BlockEntry)
    requires Stored(code, sizes, b) && Stored(code, sizes, c)
  {
    b.count > 0 && c.count > 0 ==>
      SectionsApart(b.riscvStart.value, |WordsOf(code, sizes, b)|, c.riscvStart.value, |WordsOf(code, sizes, c)|)
  }

  function TranslatedBlocks(code: Code, sizes: SizeList, blocks: seq<BlockEntry>): (v: seq<Translated>)
    requires AllStored(code, sizes, blocks)
    ensures |v| == |blocks| && AllValid(v)
    ensures forall i :: 0 <= i < |v| ==> v[i] == Translated(blocks[i], InstsOf(code, sizes, blocks[i]))
  {
    seq(|blocks|, i requires 0 <= i < |blocks| && Stored(code, sizes, blocks[i]) =>
      Translated(blocks[i], InstsOf(code, sizes, blocks[i])))
  }

  /** The block has one more instruction. */
  predicate Extends(code: Code, sizes: SizeList, b: BlockEntry, code1: Code, sizes1: SizeList, c: BlockEntry,
        size: nat, words: seq<bv32>)
    requires Stored(code, sizes, b)
  {
    && Stored(code1, sizes1, c) && Growing(code1, sizes1, c)
    && c.x86Start == b.x86Start && c.count == b.count + 1
    && InstsOf(code1, sizes1, c) == InstsOf(code, sizes, b) + [InstructionOffset(size, 4 * |words|)]
    && WordsOf(code1, sizes1, c) == WordsOf(code, sizes, b) + words
    && OnlyNew(code, b.riscvStart, |WordsOf(code, sizes, b)|, c.riscvStart.value)
  }

  /**
   What the lists answer to one more instruction of n words, behind `count` instructions of
   `length` words: exactly when either of them refuses, and the room they have afterwards.
   */
  predicate Answers(r: Added, code: Room, sizes: Room, count: nat, length: nat, n: nat, code1: Room, sizes1: Room) {
    && (r.CodeFull? <==> Refuses(code, count == 0, length, n))
    && (r.OffsetsFull? <==> !r.CodeFull? && Refuses(sizes, count == 0, count, 1))
    && (r.Added? || r.PastPages? ==> code1 == RoomBehind(code, length, n) && sizes1 == RoomBehind(sizes, count, 1))
  }

  /** The block as its next instruction finds it. */
  function Started(b: BlockEntry, address: nat): BlockEntry { if b.count == 0 then b.(x86Start := address) else b }

  /** The bytes of the next instruction are free, and end inside the image. */
  predicate Free(base: nat, n: nat, blocks: seq<BlockEntry>, h: nat, address: nat, size: nat) {
    && base <= address && address + size <= ImageEnd(base, n)
    && forall i ::
      0 <= i < |blocks| && i != h && blocks[i].count > 0 ==>
        blocks[i].x86End <= address || address + size <= blocks[i].x86Start
  }

  lemma FreePage(base: nat, n: nat, blocks: seq<BlockEntry>, h: nat, address: nat, size: nat)
    requires Free(base, n, blocks, h, address, size) && 0 < size
    ensures base <= address && PageIndex(base, address) < n
  {
  }

  /** No block ends where the image ends. */
  predicate NoneAtEnd(base: nat, n: nat, blocks: seq<BlockEntry>) {
    forall b <- blocks :: b.count > 0 ==> b.x86End < ImageEnd(base, n)
  }

  lemma StillNoneAtEnd(base: nat, n: nat, blocks: seq<BlockEntry>, h: nat, b: BlockEntry)
    requires NoneAtEnd(base, n, blocks) && h < |blocks| && b.x86End < ImageEnd(base, n)
    ensures NoneAtEnd(base, n, blocks[h := b])
  {
  }

  lemma LastStored(code: Code, sizes: SizeList, blocks: seq<BlockEntry>, h: nat, address: nat)
    requires AllStored(code, sizes, blocks) && h == |blocks| - 1
    ensures Stored(code, sizes, blocks[h]) && Growing(code, sizes, blocks[h])
    ensures Stored(code, sizes, Started(blocks[h], address)) && Growing(code, sizes, Started(blocks[h], address))
  {
  }

  lemma ExtendsParts(code: Code, sizes: SizeList, b: BlockEntry, code1: Code, sizes1: SizeList, c: BlockEntry,
        size: nat, words: seq<bv32>)
    requires Stored(code, sizes, b) && Extends(code, sizes, b, code1, sizes1, c, size, words)
    ensures Stored(code1, sizes1, c) && Growing(code1, sizes1, c) && c.x86Start == b.x86Start && c.count == b.count + 1
    ensures WordsOf(code1, sizes1, c) == WordsOf(code, sizes, b) + words
    ensures OnlyNew(code, b.riscvStart, |WordsOf(code, sizes, b)|, c.riscvStart.value)
  {
    hide Growing, Stored;
  }

  /** The grown block keeps clear of another. */
  lemma StillApart(code: Code, sizes: SizeList, b: BlockEntry, o: BlockEntry, code1: Code, sizes1: SizeList,
        c: BlockEntry, words: seq<bv32>)
    requires Stored(code, sizes, o) && Stored(code, sizes, b) && Growing(code, sizes, b)
    requires WordsApart(code, sizes, o, b)
    requires Grown(code, code1) && Grown(sizes, sizes1) && Stored(code1, sizes1, c)
    requires c.count > 0 && WordsOf(code1, sizes1, c) == WordsOf(code, sizes, b) + words
    requires OnlyNew(code, b.riscvStart, |WordsOf(code, sizes, b)|, c.riscvStart.value)
    ensures Stored(code1, sizes1, o) && WordsApart(code1, sizes1, o, c)
  {
    hide Contents, TotalX86, TotalRiscV, Grown, OnlyNew, Sizes;
    StoredGrows(code, sizes, code1, sizes1, o);
    if o.count > 0 {
      var n := |WordsOf(code, sizes, b)|;
      if n > 0 {
        BlockParts(code, sizes, b);
      }
      GrownApart(code, b.riscvStart, n, c.riscvStart.value, n + |words|, o.riscvStart.value, |WordsOf(code, sizes, o)|);
    }
  }

  lemma BothKept(code: Code, sizes: SizeList, code1: Code, sizes1: SizeList, b: BlockEntry, o: BlockEntry)
    requires Stored(code, sizes, b) && Stored(code, sizes, o) && Grown(code, code1) && Grown(sizes, sizes1)
    requires WordsApart(code, sizes, b, o)
    ensures Stored(code1, sizes1, b) && Stored(code1, sizes1, o) && WordsApart(code1, sizes1, b, o)
  {
    hide Stored, Grown, WordsOf, InstsOf;
    StoredGrows(code, sizes, code1, sizes1, b);
    StoredGrows(code, sizes, code1, sizes1, o);
  }

  lemma AddedStored(code: Code, sizes: SizeList, blocks: seq<BlockEntry>, code1: Code, sizes1: SizeList, h: nat,
        address: nat, c: BlockEntry,
          words: seq<bv32>)
    requires AllStored(code, sizes, blocks) && Grown(code, code1) && Grown(sizes, sizes1) && h == |blocks| - 1
    requires Stored(code1, sizes1, c) && Growing(code1, sizes1, c) && c.count > 0
    requires Stored(code, sizes, Started(blocks[h], address))
    requires WordsOf(code1, sizes1, c) == WordsOf(code, sizes, Started(blocks[h], address)) + words
    requires OnlyNew(code, blocks[h].riscvStart, |WordsOf(code, sizes, Started(blocks[h], address))|,
      c.riscvStart.value)
    ensures AllStored(code1, sizes1, blocks[h := c])
  {
    hide Stored, Growing, Grown, WordsApart, WordsOf, OnlyNew;
    var bs := blocks[h := c];
    forall i | 0 <= i < |bs| ensures Stored(code1, sizes1, bs[i]) {
      StoredGrows(code, sizes, code1, sizes1, blocks[i]);
    }
    forall i, j | 0 <= i < j < |bs| ensures WordsApart(code1, sizes1, bs[i], bs[j]) {
      if j < h {
        BothKept(code, sizes, code1, sizes1, blocks[i], blocks[j]);
      } else {
        StartedApart(code, sizes, blocks[i], blocks[h], address);
        StillApart(code, sizes, Started(blocks[h], address), blocks[i], code1, sizes1, c, words);
      }
    }
  }

  lemma StartedApart(code: Code, sizes: SizeList, o: BlockEntry, b: BlockEntry, address: nat)
    requires Stored(code, sizes, o) && Stored(code, sizes, b) && Growing(code, sizes, b)
    requires WordsApart(code, sizes, o, b)
    ensures var c := Started(b, address);
      Stored(code, sizes, c) && Growing(code, sizes, c) && WordsApart(code, sizes, o, c)
  {
  }

  /** An instruction at free addresses keeps blocks apart. */
  lemma FreeGrows(base: nat, pages: seq<seq<nat>>, blocks: seq<BlockEntry>, h: nat, c: BlockEntry, address: nat,
        size: nat)
    requires Indexed(base, pages, blocks) && h < |blocks| && 1 <= size && Free(base, |pages|, blocks, h, address, size)
    requires c.count > 0 && c.x86Start == Started(blocks[h], address).x86Start && c.x86End == address + size
    requires blocks[h].count > 0 ==> blocks[h].x86End == address
    ensures Grows(base, |pages|, blocks, h, c)
  {
    var b := blocks[h];
    assert b in blocks;
    forall i | 0 <= i < |blocks| && i != h && blocks[i].count > 0 ensures c.Apart(blocks[i]) {
      assert blocks[i] in blocks;
      assert b.count > 0 ==> b.Apart(blocks[i]);
    }
  }

  lemma AddedIndexed(base: nat, pages: seq<seq<nat>>, pages1: seq<seq<nat>>, blocks: seq<BlockEntry>, h: nat,
        c: BlockEntry, i: nat,
        address: nat, size: nat)
    requires Indexed(base, pages, blocks) && h < |blocks| && 1 <= size <= 15
    requires Free(base, |pages|, blocks, h, address, size)
    requires c.count == blocks[h].count + 1 && c.x86Start == Started(blocks[h], address).x86Start
    requires c.x86End == address + size
    requires base <= address && PageIndex(base, address) < |pages|
    requires blocks[h].count > 0 ==> pages1 == pages && blocks[h].x86End == address
    requires blocks[h].count == 0 ==> InsertPoint(pages[PageIndex(base, address)], blocks, address, i)
    requires blocks[h].count == 0 ==>
      pages1 == pages[PageIndex(base, address) := Inserted(pages[PageIndex(base, address)], i, h)]
    ensures base % PageSize == 0 && InImage(base, |pages1|, c)
    ensures Indexed(base, WithEnd(base, pages1, h, c), blocks[h := c])
  {
    hide Indexed, InsertPoint, Inserted, Free, WithEnd, PageIndex;
    FreeGrows(base, pages, blocks, h, c, address, size);
    GrowsParts(base, pages, blocks, h, c);
    if blocks[h].count > 0 {
      GrownIndexed(base, pages, blocks, h, c);
    } else {
      BegunIndexed(base, pages, blocks, h, c, i);
    }
  }

  lemma GrowsParts(base: nat, pages: seq<seq<nat>>, blocks: seq<BlockEntry>, h: nat, c: BlockEntry)
    requires Indexed(base, pages, blocks) && Grows(base, |pages|, blocks, h, c)
    ensures base % PageSize == 0 && InImage(base, |pages|, c)
  {
  }

  lemma BlockParts(code: Code, sizes: SizeList, b: BlockEntry)
    requires Stored(code, sizes, b) && Growing(code, sizes, b)
    ensures var s, w := InstsOf(code, sizes, b), WordsOf(code, sizes, b);
      && |s| == b.count && Sizes(s) && |w| == TotalRiscV(s) / 4
        && (b.count > 0 ==> b.x86End == b.x86Start + TotalX86(s))
      && (b.count == 0 ==> s == [] && w == [] && TotalX86(s) == 0)
      && (if b.count == 0 then b.riscvStart.None? && b.offsets.None? else
        && b.riscvStart.Some? && b.offsets.Some? && Open(code, b.riscvStart.value, |w|)
          && Open(sizes, b.offsets.value, b.count)
        && Contents(code, b.riscvStart.value, |w|) == w && Contents(sizes, b.offsets.value, b.count) == s)
  {
  }

  class CodeStore {
    const base: nat
    const code: StaticList<bv32>
    const offsets: StaticList<InstructionOffset>
    var pages: seq<seq<nat>>
    var blocks: seq<BlockEntry>

    ghost predicate ListsValid()
      reads this, code, code.chunks, offsets, offsets.chunks
    {
      && code.Valid() && offsets.Valid() && (code as object) != (offsets as object)
      && forall i, j ::
        0 <= i < |code.chunks| && 0 <= j < |offsets.chunks| ==>
          (code.chunks[i] as object) != (offsets.chunks[j] as object)
    }

    /** The page lists are in order, every block's sections are in place, and the last block can grow. */
    ghost predicate Valid()
      reads this, code, code.chunks, offsets, offsets.chunks
    {
      && ListsValid() && Indexed(base, pages, blocks) && NoneAtEnd(base, |pages|, blocks)
      && AllStored(code.used, offsets.used, blocks)
    }

    /** The blocks with their instructions' sizes. */
    ghost function View(): (v: seq<Translated>)
      reads this, code, code.chunks, offsets, offsets.chunks
      requires Valid()
      ensures AllApart(v)
    {
      TranslatedBlocks(code.used, offsets.used, blocks)
    }

    /** The sizes of the two lists, and how many chunks the system has for each, are parameters. */
    constructor (base: nat, imagePages: nat, codeSize: nat, offsetSize: nat, codeChunks: nat, offsetChunks: nat)
      requires base % PageSize == 0
      ensures Valid() && blocks == [] && |pages| == imagePages && this.base == base && fresh(code) && fresh(offsets)
      ensures code.Left() == Room(codeSize, 0, codeChunks, false)
      ensures offsets.Left() == Room(offsetSize, 0, offsetChunks, false)
    {
      this.base := base;
      code := new StaticList<bv32>(codeSize, codeChunks);
      offsets := new StaticList<InstructionOffset>(offsetSize, offsetChunks);
      pages := seq(imagePages, _ => []);
      blocks := [];
    }

    /** The scan through the instructions of the block that contains the address. */
    method FindInBlock(b: BlockEntry, a: nat) returns (r: Lookup)
      requires Valid() && b in blocks && b.count > 0
      ensures r == ScanBlock(b, InstsOf(code.used, offsets.used, b), a, 0)
    {
      ghost var s := InstsOf(code.used, offsets.used, b);
      var guest, host := b.x86Start, b.riscvStart.value;
      var i := 0;
      while i < b.count
        invariant 0 <= i <= b.count
        invariant guest == GuestAt(b, s, i) && host == HostAt(b, s, i)
        invariant ScanBlock(b, s, a, 0) == ScanBlock(b, s, a, i)
      {
        if guest == a {
          return Found(host);
        }
        var start := b.offsets.value;
        assert offsets.Holds(start.chunk);
        var entry := offsets.chunks[start.chunk][start.index + i];
        assert entry == s[i];
        Prefix(s, i);
        WholeWords(s[..i]);
        guest := guest + entry.x86;
        host := Advance(host, entry.riscv);
        i := i + 1;
      }
      r := InsideInstruction;
    }

    /** Binary search through the list of the address's page; a jump into an instruction ends the program. */
    method Find(a: nat) returns (r: Lookup)
      requires Valid() && base <= a && PageIndex(base, a) < |pages|
      ensures r == Scan(View(), a)
    {
      hide Indexed, Contained, Scan, ScanBlock, AllStored, Stored, InstsOf, AllApart, AllValid;
      var k := PageIndex(base, a);
      var entries := pages[k];
      var l, u := 0, |entries|;
      AllMayContain(blocks, entries, a);
      while l != u
        invariant 0 <= l <= u <= |entries|
        invariant Contained(blocks, entries, a, l, u)
        decreases u - l
      {
        var m := (l + u) / 2;
        EntryListed(base, pages, blocks, k, m);
        var entry := blocks[entries[m]];
        if a < entry.x86Start {
          SearchBelow(base, pages, blocks, k, a, l, m, u);
          u := m;
        } else if a >= entry.x86End {
          SearchAbove(base, pages, blocks, k, a, l, m, u);
          l := m + 1;
        } else {
          r := FindInBlock(entry, a);
          ScanFinds(View(), a, entries[m]);
          return;
        }
      }
      NowhereContained(base, pages, blocks, a, l);
      ScanMisses(View(), a);
      r := Missing;
    }

    /** The block with the least start address at or above the query. */
    method GetNextBlock(a: nat) returns (r: Option<nat>)
      requires Valid() && base <= a
      ensures IsNext(blocks, a, r)
    {
      var k := PageIndex(base, a);
      NoneBeforeFirst(base, blocks, a);
      while k < |pages|
        invariant NoneBefore(base, blocks, a, k)
        decreases |pages| - k
      {
        var entries := pages[k];
        var i := 0;
        while i < |entries|
          invariant 0 <= i <= |entries|
          invariant forall j :: 0 <= j < i ==> StartOf(blocks, entries[j]) < a
        {
          if blocks[entries[i]].x86Start >= a {
            NextFound(base, pages, blocks, a, k, i);
            return Some(entries[i]);
          }
          i := i + 1;
        }
        PageSearched(base, pages, blocks, a, k);
        k := k + 1;
      }
      NothingLeft(base, pages, blocks, a, k);
      r := None;
    }

    /** A new entry at the end of the entry list. */
    method CreateBlock() returns (h: nat)
      requires Valid()
      modifies this`blocks
      ensures Valid() && h == |blocks| - 1
      ensures blocks == old(blocks) + [BlockEntry(0, 0, None, 0, None)]
    {
      h := |blocks|;
      CreatedIndexed(base, pages, blocks);
      blocks := blocks + [BlockEntry(0, 0, None, 0, None)];
    }

    /** Enters a new block into the list of its page. */
    method InsertBlock(h: nat, address: nat) returns (consecutive: bool, ghost i: nat)
      requires Valid() && h < |blocks| && base <= address && PageIndex(base, address) < |pages|
      modifies this`pages, this`blocks
      ensures consecutive == (old(blocks)[h].count == 0 || old(blocks)[h].x86End == address)
      ensures if old(blocks)[h].count != 0 then blocks == old(blocks) && pages == old(pages) else
        var k := PageIndex(base, address);
        && blocks == old(blocks)[h := old(blocks)[h].(x86Start := address)]
        && InsertPoint(old(pages)[k], old(blocks), address, i)
          && pages == old(pages)[k := Inserted(old(pages)[k], i, h)]
    {
      consecutive, i := true, 0;
      if blocks[h].count == 0 {
        var k := PageIndex(base, address);
        var page := pages[k];
        NotListed(base, pages, blocks, h, k);
        blocks := blocks[h := blocks[h].(x86Start := address)];
        var n := 0;
        while n < |page|
          invariant 0 <= n <= |page|
          invariant forall j :: 0 <= j < n ==> StartOf(old(blocks), page[j]) <= address
          invariant pages == old(pages) && blocks == old(blocks)[h := old(blocks)[h].(x86Start := address)]
        {
          if blocks[page[n]].x86Start > address {
            break;
          }
          n := n + 1;
        }
        pages := pages[k := page[..n] + [h] + page[n..]];
        i := n;
      } else if blocks[h].x86End != address {
        consecutive := false;
      }
    }

    /**
     Enters a block that overlaps into another page at the beginning of that page's list.
     There is no such list exactly if the block ends where the image ends.
     */
    method InsertEnd(h: nat) returns (past: bool)
      requires h < |blocks| && base % PageSize == 0 && InImage(base, |pages|, blocks[h])
      modifies this`pages
      ensures past == (blocks[h].x86End == ImageEnd(base, |pages|))
      ensures pages == WithEnd(base, old(pages), h, blocks[h])
    {
      past := false;
      EndListExact(base, |pages|, blocks[h]);
      var b := blocks[h];
      SamePages(base, b.x86Start, b.x86End);
      if b.x86Start / PageSize < b.x86End / PageSize {
        var k := PageIndex(base, b.x86End);
        if k >= |pages| {
          return true;
        }
        var page := pages[k];
        if |page| == 0 {
          pages := pages[k := [h]];
        } else if page[0] != h {
          pages := pages[k := [h] + page];
        }
      }
    }

    /** Adds to the code buffer; the buffer of instruction sizes stays as it is. */
    method AddWords(start: Option<Cell>, ghost length: nat, words: seq<bv32>) returns (r: Option<Cell>)
      requires ListsValid() && if start.Some? then Open(code.used, start.value, length) else length == 0
      modifies code, code.chunks
      ensures ListsValid() && Grown(old(code.used), code.used) && offsets.used == old(offsets.used)
      ensures offsets.chunks == old(offsets.chunks) && offsets.Left() == old(offsets.Left())
      ensures r.None? <==> Refuses(old(code.Left()), start.None?, length, |words|)
      ensures r.Some? ==> code.Left() == RoomBehind(old(code.Left()), length, |words|)
      ensures r.Some? ==> Open(code.used, r.value, length + |words|)
      ensures r.Some? ==>
        Contents(code.used, r.value, length + |words|)
          == (if start.Some? then Contents(old(code.used), start.value, length) else []) + words
      ensures r.Some? ==> OnlyNew(old(code.used), start, length, r.value)
      ensures old(code.chunks) <= code.chunks && forall k ::
        |old(code.chunks)| <= k < |code.chunks| ==> fresh(code.chunks[k])
    {
      r := code.Add(start, length, words);
    }

    /** Adds to the buffer of instruction sizes; the code buffer stays as it is. */
    method AddSize(start: Option<Cell>, ghost length: nat, o: InstructionOffset) returns (r: Option<Cell>)
      requires ListsValid() && if start.Some? then Open(offsets.used, start.value, length) else length == 0
      modifies offsets, offsets.chunks
      ensures ListsValid() && Grown(old(offsets.used), offsets.used) && code.used == old(code.used)
      ensures code.chunks == old(code.chunks) && code.Left() == old(code.Left())
      ensures r.None? <==> Refuses(old(offsets.Left()), start.None?, length, 1)
      ensures r.Some? ==> offsets.Left() == RoomBehind(old(offsets.Left()), length, 1)
      ensures r.Some? ==> Open(offsets.used, r.value, length + 1)
      ensures r.Some? ==>
        Contents(offsets.used, r.value, length + 1)
          == (if start.Some? then Contents(old(offsets.used), start.value, length) else []) + [o]
      ensures old(offsets.chunks) <= offsets.chunks && forall k ::
        |old(offsets.chunks)| <= k < |offsets.chunks| ==> fresh(offsets.chunks[k])
    {
      r := offsets.Add(start, length, [o]);
    }

    /** Stores the translation and the sizes of the next instruction of a block that can grow. */
    method StoreInstruction(h: nat, address: nat, size: nat, words: seq<bv32>) returns (r: Added)
      requires ListsValid() && h < |blocks| && Stored(code.used, offsets.used, blocks[h])
      requires Growing(code.used, offsets.used, blocks[h])
      requires 0 < size && address == if blocks[h].count == 0 then blocks[h].x86Start else blocks[h].x86End
      modifies this`blocks, code, code.chunks, offsets, offsets.chunks
      ensures ListsValid() && !r.NotConsecutive? && !r.PastPages? && Grown(old(code.used), code.used)
      ensures Answers(r, old(code.Left()), old(offsets.Left()), old(blocks)[h].count,
        |WordsOf(old(code.used), old(offsets.used), old(blocks)[h])|, |words|, code.Left(), offsets.Left())
      ensures Grown(old(offsets.used), offsets.used)
      ensures r.Added? ==> |blocks| == |old(blocks)| && blocks == old(blocks)[h := blocks[h]]
      ensures r.Added? ==> blocks[h].x86End == address + size
      ensures r.Added? ==>
        Extends(old(code.used), old(offsets.used), old(blocks)[h], code.used, offsets.used, blocks[h], size, words)
      ensures old(code.chunks) <= code.chunks && forall k ::
        |old(code.chunks)| <= k < |code.chunks| ==> fresh(code.chunks[k])
      ensures old(offsets.chunks) <= offsets.chunks && forall k ::
        |old(offsets.chunks)| <= k < |offsets.chunks| ==> fresh(offsets.chunks[k])
    {
      hide Grown, Open, Contents, InstsOf, WordsOf, TotalX86, TotalRiscV, Sizes, OnlyNew;
      var b, o := blocks[h], InstructionOffset(size, 4 * |words|);
      ghost var insts, before := InstsOf(code.used, offsets.used, b), WordsOf(code.used, offsets.used, b);
      BlockParts(code.used, offsets.used, b);
      GrownSelf(offsets.used);
      var start := AddWords(b.riscvStart, |before|, words);
      if start.None? {
        return CodeFull;
      }
      var first := AddSize(b.offsets, b.count, o);
      if first.None? {
        return OffsetsFull;
      }
      blocks := blocks[h := BlockEntry(b.x86Start, address + size, start, b.count + 1, first)];
      OneMoreStored(b, insts, before, o, words, code.used, offsets.used, start.value, first.value, address + size);
      r := Added.Added;
    }

    /**
     Adds a translated instruction to the newest block.  The block's instructions and words
     grow by it, no other block changes, and the page lists stay in order.  The lists refuse it
     exactly when they have no room.  If nothing else fails, it runs off the page lists exactly
     if the instruction ends where the image ends.
     */
    method AddInstruction(h: nat, address: nat, size: nat, words: seq<bv32>) returns (r: Added)
      requires Valid() && h == |blocks| - 1
      requires 1 <= size <= 15 && |words| <= MaxRiscVInstructions && Free(base, |pages|, blocks, h, address, size)
      modifies this, code, code.chunks, offsets, offsets.chunks
      ensures r.Added? ==> Valid() && |pages| == |old(pages)|
      ensures r.NotConsecutive? <==> old(blocks)[h].count > 0 && old(blocks)[h].x86End != address
      ensures r.Added? || r.PastPages? ==> (r.PastPages? <==> address + size == ImageEnd(base, |old(pages)|))
      ensures r.Added? ==>
        |blocks| == h + 1 && blocks == old(blocks)[h := blocks[h]] && blocks[h].x86End == address + size
      ensures Stored(old(code.used), old(offsets.used), Started(old(blocks)[h], address))
      ensures !r.NotConsecutive? ==>
        Answers(r, old(code.Left()), old(offsets.Left()), old(blocks)[h].count,
          |WordsOf(old(code.used), old(offsets.used), Started(old(blocks)[h], address))|, |words|, code.Left(),
          offsets.Left())
      ensures r.Added? ==>
        Extends(old(code.used), old(offsets.used), Started(old(blocks)[h], address), code.used, offsets.used, blocks[h],
          size, words)
      ensures r.Added? ==> Grown(old(code.used), code.used) && Grown(old(offsets.used), offsets.used)
      ensures old(code.chunks) <= code.chunks && forall k ::
        |old(code.chunks)| <= k < |code.chunks| ==> fresh(code.chunks[k])
      ensures old(offsets.chunks) <= offsets.chunks && forall k ::
        |old(offsets.chunks)| <= k < |offsets.chunks| ==> fresh(offsets.chunks[k])
    {
      hide Indexed, AllStored, Growing, Extends, Grown, WithEnd, Stored, Inserted, InsertPoint, OnlyNew, WordsOf;
      hide NoneAtEnd, Answers, InImage;
      ghost var blocks0, pages0 := blocks, pages;
      LastStored(code.used, offsets.used, blocks, h, address);
      FreePage(base, |pages|, blocks, h, address, size);
      var consecutive, i := InsertBlock(h, address);
      if !consecutive {
        return NotConsecutive;
      }
      ghost var pages1 := pages;
      r := StoreInstruction(h, address, size, words);
      if !r.Added? {
        return;
      }
      ghost var c := blocks[h];
      AddedValid(base, pages0, pages1, blocks0, old(code.used), old(offsets.used), code.used, offsets.used, h, c, i,
        address, size, words);
      assert blocks == blocks0[h := c];
      var past := InsertEnd(h);
      if past {
        AnswersPast(old(code.Left()), old(offsets.Left()), old(blocks)[h].count,
          |WordsOf(old(code.used), old(offsets.used), Started(blocks0[h], address))|, |words|, code.Left(),
          offsets.Left());
        return PastPages;
      }
    }
  }

  lemma AnswersPast(code: Room, sizes: Room, count: nat, length: nat, n: nat, code1: Room, sizes1: Room)
    requires Answers(Added.Added, code, sizes, count, length, n, code1, sizes1)
    ensures Answers(PastPages, code, sizes, count, length, n, code1, sizes1)
  {
    hide Refuses;
  }

  /** The store after the instruction has been added. */
  lemma AddedValid(base: nat, pages: seq<seq<nat>>, pages1: seq<seq<nat>>, blocks: seq<BlockEntry>, code: Code,
        sizes: SizeList, code1: Code, sizes1: SizeList, h: nat, c: BlockEntry, i: nat, address: nat, size: nat,
        words: seq<bv32>)
    requires Indexed(base, pages, blocks) && h == |blocks| - 1 && 1 <= size <= 15
    requires Free(base, |pages|, blocks, h, address, size) && base <= address && PageIndex(base, address) < |pages|
    requires blocks[h].count > 0 ==> pages1 == pages && blocks[h].x86End == address
    requires blocks[h].count == 0 ==> InsertPoint(pages[PageIndex(base, address)], blocks, address, i)
    requires blocks[h].count == 0 ==>
      pages1 == pages[PageIndex(base, address) := Inserted(pages[PageIndex(base, address)], i, h)]
    requires NoneAtEnd(base, |pages|, blocks) && AllStored(code, sizes, blocks) && Grown(code, code1)
    requires Grown(sizes, sizes1) && Stored(code, sizes, Started(blocks[h], address))
    requires Extends(code, sizes, Started(blocks[h], address), code1, sizes1, c, size, words)
    requires c.x86End == address + size
    ensures base % PageSize == 0 && |pages1| == |pages| && InImage(base, |pages1|, c)
    ensures Indexed(base, WithEnd(base, pages1, h, c), blocks[h := c]) && AllStored(code1, sizes1, blocks[h := c])
    ensures c.x86End != ImageEnd(base, |pages|) ==> NoneAtEnd(base, |pages|, blocks[h := c])
  {
    hide Indexed, AllStored, Growing, Extends, Grown, WithEnd, Stored, Inserted, InsertPoint, OnlyNew, WordsOf;
    hide NoneAtEnd;
    ExtendsParts(code, sizes, Started(blocks[h], address), code1, sizes1, c, size, words);
    AddedIndexed(base, pages, pages1, blocks, h, c, i, address, size);
    AddedStored(code, sizes, blocks, code1, sizes1, h, address, c, words);
    if c.x86End != ImageEnd(base, |pages|) {
      StillNoneAtEnd(base, |pages|, blocks, h, c);
    }
  }

  lemma SamePages(base: nat, a: nat, b: nat)
    requires base % PageSize == 0 && base <= a && base <= b
    ensures a / PageSize < b / PageSize <==> PageIndex(base, a) < PageIndex(base, b)
  {
  }

  lemma CreatedIndexed(base: nat, pages: seq<seq<nat>>, blocks: seq<BlockEntry>)
    requires Indexed(base, pages, blocks)
    ensures Indexed(base, pages, blocks + [BlockEntry(0, 0, None, 0, None)])
  {
    var b := BlockEntry(0, 0, None, 0, None);
    var bs := blocks + [b];
    forall k: nat | k < |pages| ensures Sorted(pages[k], bs) && Complete(base, pages[k], bs, k) {
      assert forall h :: 0 <= h < |blocks| ==> bs[h] == blocks[h];
    }
  }

  lemma NotListed(base: nat, pages: seq<seq<nat>>, blocks: seq<BlockEntry>, h: nat, k: nat)
    requires Indexed(base, pages, blocks) && h < |blocks| && blocks[h].count == 0 && k < |pages|
    ensures forall j :: 0 <= j < |pages[k]| ==> pages[k][j] < |blocks| && pages[k][j] != h
  {
    assert h !in pages[k];
  }

  /** Only the entries between l and u may contain the address. */
  predicate Contained(blocks: seq<BlockEntry>, entries: seq<nat>, a: nat, l: nat, u: nat) {
    forall j :: 0 <= j < |entries| && !(l <= j < u) && entries[j] < |blocks| ==> !blocks[entries[j]].Contains(a)
  }

  lemma AllMayContain(blocks: seq<BlockEntry>, entries: seq<nat>, a: nat)
    ensures Contained(blocks, entries, a, 0, |entries|)
  {
  }

  lemma EntryListed(base: nat, pages: seq<seq<nat>>, blocks: seq<BlockEntry>, k: nat, m: nat)
    requires Indexed(base, pages, blocks) && k < |pages| && m < |pages[k]|
    ensures pages[k][m] < |blocks| && blocks[pages[k][m]].count > 0 && blocks[pages[k][m]] in blocks
  {
    assert pages[k][m] in pages[k];
  }

  lemma SearchBelow(base: nat, pages: seq<seq<nat>>, blocks: seq<BlockEntry>, k: nat, a: nat, l: nat, m: nat, u: nat)
    requires Indexed(base, pages, blocks) && k < |pages| && m < |pages[k]| && Contained(blocks, pages[k], a, l, u)
    requires a < StartOf(blocks, pages[k][m])
    ensures Contained(blocks, pages[k], a, l, m)
  {
    forall j | m <= j < |pages[k]| && pages[k][j] < |blocks| ensures !blocks[pages[k][j]].Contains(a) {
      assert StartOf(blocks, pages[k][m]) <= StartOf(blocks, pages[k][j]);
    }
  }

  lemma SearchAbove(base: nat, pages: seq<seq<nat>>, blocks: seq<BlockEntry>, k: nat, a: nat, l: nat, m: nat, u: nat)
    requires Indexed(base, pages, blocks) && k < |pages| && m < |pages[k]| && Contained(blocks, pages[k], a, l, u)
    requires pages[k][m] < |blocks| && blocks[pages[k][m]].x86End <= a
    ensures Contained(blocks, pages[k], a, m + 1, u)
  {
    hide Indexed;
    forall j | 0 <= j <= m && pages[k][j] < |blocks| ensures !blocks[pages[k][j]].Contains(a) {
      EarlierEnds(base, pages, blocks, k, j, m);
    }
  }

  lemma NowhereContained(base: nat, pages: seq<seq<nat>>, blocks: seq<BlockEntry>, a: nat, l: nat)
    requires Indexed(base, pages, blocks) && base <= a && PageIndex(base, a) < |pages|
    requires Contained(blocks, pages[PageIndex(base, a)], a, l, l)
    ensures forall i :: 0 <= i < |blocks| ==> !blocks[i].Contains(a)
  {
    hide Indexed;
    forall i | 0 <= i < |blocks| ensures !blocks[i].Contains(a) {
      if blocks[i].Contains(a) {
        Listed(base, pages, blocks, a, i);
      }
    }
  }

  lemma NothingLeft(base: nat, pages: seq<seq<nat>>, blocks: seq<BlockEntry>, a: nat, k: nat)
    requires Indexed(base, pages, blocks) && base <= a && NoneBefore(base, blocks, a, k) && |pages| <= k
    ensures IsNext(blocks, a, None)
  {
    forall b <- blocks | b.count > 0 && a <= b.x86Start && base <= b.x86Start
      ensures |pages| <= PageIndex(base, b.x86Start)
    {
    }
    NothingFound(base, pages, blocks, a);
  }

  /** Blocks listed earlier end before later ones start. */
  lemma EarlierEnds(base: nat, pages: seq<seq<nat>>, blocks: seq<BlockEntry>, k: nat, j: nat, m: nat)
    requires Indexed(base, pages, blocks) && k < |pages| && j <= m < |pages[k]|
    ensures blocks[pages[k][j]].x86End <= blocks[pages[k][m]].x86End
  {
    if j < m {
      assert pages[k][j] in pages[k] && pages[k][m] in pages[k];
      var x, y := blocks[pages[k][j]], blocks[pages[k][m]];
      assert x.x86Start < y.x86Start by { assert StartOf(blocks, pages[k][j]) < StartOf(blocks, pages[k][m]); }
      assert x.Apart(y) || y.Apart(x);
      assert x in blocks && y in blocks;
    }
  }
}
