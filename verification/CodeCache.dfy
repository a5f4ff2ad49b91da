/** What the code store's page lists say about translated blocks (codestore.cpp). */
module CodeCache {
  import opened StaticLists

  const PageSize: nat := 4096

  /** Bytes of a guest instruction and of its translation. */
  datatype InstructionOffset = InstructionOffset(x86: nat, riscv: nat)

  datatype BlockEntry =
    BlockEntry(x86Start: nat, x86End: nat, riscvStart: Option<Cell>, count: nat, offsets: Option<Cell>) {
    predicate Contains(a: nat) { count > 0 && x86Start <= a < x86End }

    predicate Apart(o: BlockEntry) { x86End <= o.x86Start || o.x86End <= x86Start }
  }

  function PageIndex(base: nat, a: nat): nat
    requires base <= a
  {
    (a - base) / PageSize
  }

  // ---- the invariant ------------------------------------------------------------------------------------

  /** The first address behind an image of n pages. */
  function ImageEnd(base: nat, n: nat): nat { base + n * PageSize }

  /** The block lies inside the image. */
  predicate InImage(base: nat, n: nat, b: BlockEntry) { base <= b.x86Start < b.x86End <= ImageEnd(base, n) }

  lemma StartInside(base: nat, n: nat, b: BlockEntry)
    requires InImage(base, n, b)
    ensures PageIndex(base, b.x86Start) < n
  {
  }

  /**
   A block that ends where the image ends is entered in the list of a page behind the last
   one; every other block only in lists that exist.
   */
  lemma EndListExact(base: nat, n: nat, b: BlockEntry)
    requires InImage(base, n, b)
    ensures PageIndex(base, b.x86End) < n <==> b.x86End != ImageEnd(base, n)
    ensures b.x86End == ImageEnd(base, n) ==> PageIndex(base, b.x86Start) < PageIndex(base, b.x86End) == n
  {
  }

  /** An instruction of two bytes at the end of an image of one page. */
  lemma EndListMissing(b: BlockEntry)
    requires b.x86Start == 4094 && b.x86End == 4096
    ensures InImage(0, 1, b) && PageIndex(0, b.x86Start) == 0 && PageIndex(0, b.x86End) == 1
  {
  }

  /** The page is one of those from the first byte of the block to its end. */
  predicate OnPage(base: nat, b: BlockEntry, k: nat) {
    b.count > 0 && base <= b.x86Start <= b.x86End && PageIndex(base, b.x86Start) <= k <= PageIndex(base, b.x86End)
  }

  predicate AllInImage(base: nat, n: nat, blocks: seq<BlockEntry>) {
    forall b <- blocks :: b.count > 0 ==> InImage(base, n, b)
  }

  predicate Disjoint(blocks: seq<BlockEntry>) {
    forall i, j :: 0 <= i < j < |blocks| && blocks[i].count > 0 && blocks[j].count > 0 ==> blocks[i].Apart(blocks[j])
  }

  function StartOf(blocks: seq<BlockEntry>, h: nat): nat { if h < |blocks| then blocks[h].x86Start else 0 }

  /** Ascending by start address. */
  predicate Sorted(page: seq<nat>, blocks: seq<BlockEntry>) {
    && (forall i :: 0 <= i < |page| ==> page[i] < |blocks|)
    && (forall i, j :: 0 <= i < j < |page| ==> StartOf(blocks, page[i]) < StartOf(blocks, page[j]))
  }

  /** The page list holds every block that reaches the page, and no other. */
  ghost predicate Complete(base: nat, page: seq<nat>, blocks: seq<BlockEntry>, k: nat) {
    forall h: nat :: h in page <==> h < |blocks| && OnPage(base, blocks[h], k)
  }

  ghost predicate Indexed(base: nat, pages: seq<seq<nat>>, blocks: seq<BlockEntry>) {
    && base % PageSize == 0 && AllInImage(base, |pages|, blocks) && Disjoint(blocks)
    && forall k: nat :: k < |pages| ==> Sorted(pages[k], blocks) && Complete(base, pages[k], blocks, k)
  }

  // ---- adding to the lists ---------------------------------------------------------------------------------

  /** A new block goes in front of the first one that starts later. */
  predicate InsertPoint(page: seq<nat>, blocks: seq<BlockEntry>, a: nat, i: nat) {
    && i <= |page|
    && (forall j :: 0 <= j < i ==> StartOf(blocks, page[j]) <= a)
    && (i < |page| ==> a < StartOf(blocks, page[i]))
  }

  function Inserted(page: seq<nat>, i: nat, h: nat): seq<nat>
    requires i <= |page|
  {
    page[..i] + [h] + page[i..]
  }

  /** Growing the block leaves other blocks and their pages alone. */
  ghost predicate Grows(base: nat, n: nat, blocks: seq<BlockEntry>, h: nat, b: BlockEntry) {
    && h < |blocks| && b.count > 0 && InImage(base, n, b)
    && (forall i :: 0 <= i < |blocks| && i != h && blocks[i].count > 0 ==> b.Apart(blocks[i]))
  }

  lemma GrownDisjoint(base: nat, pages: seq<seq<nat>>, blocks: seq<BlockEntry>, h: nat, b: BlockEntry)
    requires Indexed(base, pages, blocks) && Grows(base, |pages|, blocks, h, b)
    ensures AllInImage(base, |pages|, blocks[h := b]) && Disjoint(blocks[h := b])
  {
  }

  /** The list of a page that another block's growth does not reach. */
  lemma OtherPage(base: nat, page: seq<nat>, blocks: seq<BlockEntry>, h: nat, b: BlockEntry, k: nat)
    requires Sorted(page, blocks) && Complete(base, page, blocks, k) && h < |blocks|
    requires OnPage(base, b, k) == OnPage(base, blocks[h], k)
    requires blocks[h].count > 0 ==> b.x86Start == blocks[h].x86Start
    ensures Sorted(page, blocks[h := b]) && Complete(base, page, blocks[h := b], k)
  {
    assert h in page ==> b.x86Start == blocks[h].x86Start;
    forall i, j | 0 <= i < j < |page| ensures StartOf(blocks[h := b], page[i]) < StartOf(blocks[h := b], page[j]) {
      assert page[i] in page && page[j] in page;
    }
  }

  /** The list of a page that the block is new to. */
  lemma NewPage(base: nat, page: seq<nat>, blocks: seq<BlockEntry>, h: nat, b: BlockEntry, k: nat, i: nat)
    requires Sorted(page, blocks) && Complete(base, page, blocks, k) && h < |blocks|
    requires OnPage(base, b, k) && !OnPage(base, blocks[h], k)
    requires i <= |page|
    requires forall j :: 0 <= j < i ==> StartOf(blocks, page[j]) < b.x86Start
    requires forall j :: i <= j < |page| ==> b.x86Start < StartOf(blocks, page[j])
    ensures Sorted(Inserted(page, i, h), blocks[h := b]) && Complete(base, Inserted(page, i, h), blocks[h := b], k)
  {
    hide OnPage;
    var p, bs := Inserted(page, i, h), blocks[h := b];
    assert h !in page;
    forall g: nat ensures g in p <==> g < |bs| && OnPage(base, bs[g], k) {
      assert page == page[..i] + page[i..];
      assert g in p <==> g in page || g == h;
    }
    forall x, y | 0 <= x < y < |p| ensures StartOf(bs, p[x]) < StartOf(bs, p[y]) {
      var u := if x < i then x else x - 1;
      var v := if y < i then y else y - 1;
      assert x != i ==> p[x] == page[u] && page[u] in page;
      assert y != i ==> p[y] == page[v] && page[v] in page;
    }
  }

  /** Blocks apart from one another start apart. */
  lemma StartsApart(base: nat, pages: seq<seq<nat>>, blocks: seq<BlockEntry>, h: nat, b: BlockEntry, k: nat, j: nat)
    requires Indexed(base, pages, blocks) && Grows(base, |pages|, blocks, h, b) && k < |pages|
    requires j < |pages[k]| && pages[k][j] != h
    ensures pages[k][j] < |blocks| && blocks[pages[k][j]].x86Start != b.x86Start
  {
    assert pages[k][j] in pages[k];
  }

  /** The first instruction of a block. */
  lemma FirstPage(base: nat, pages: seq<seq<nat>>, blocks: seq<BlockEntry>, h: nat, b: BlockEntry, i: nat)
    requires Indexed(base, pages, blocks) && Grows(base, |pages|, blocks, h, b) && blocks[h].count == 0
    requires PageIndex(base, b.x86Start) < |pages|
    requires InsertPoint(pages[PageIndex(base, b.x86Start)], blocks, b.x86Start, i)
    ensures var k := PageIndex(base, b.x86Start);
      Sorted(Inserted(pages[k], i, h), blocks[h := b]) && Complete(base, Inserted(pages[k], i, h), blocks[h := b], k)
  {
    var k := PageIndex(base, b.x86Start);
    var page := pages[k];
    assert h !in page;
    forall j | 0 <= j < |page|
      ensures if j < i then StartOf(blocks, page[j]) < b.x86Start else b.x86Start < StartOf(blocks, page[j])
    {
      assert page[j] in page;
      StartsApart(base, pages, blocks, h, b, k, j);
    }
    NewPage(base, page, blocks, h, b, k, i);
  }

  /** A block that reaches a page from below is the first in its list. */
  lemma FromBelow(base: nat, pages: seq<seq<nat>>, blocks: seq<BlockEntry>, h: nat, b: BlockEntry, j: nat)
    requires Indexed(base, pages, blocks) && Grows(base, |pages|, blocks, h, b)
    requires PageIndex(base, b.x86Start) < PageIndex(base, b.x86End) < |pages|
    requires j < |pages[PageIndex(base, b.x86End)]| && pages[PageIndex(base, b.x86End)][j] != h
    ensures b.x86Start < StartOf(blocks, pages[PageIndex(base, b.x86End)][j])
  {
    var k := PageIndex(base, b.x86End);
    var g := pages[k][j];
    assert g in pages[k];
    var o := blocks[g];
    assert OnPage(base, o, k) && b.Apart(o);
    EndsBefore(base, o, b);
  }

  lemma EndsBefore(base: nat, o: BlockEntry, b: BlockEntry)
    requires base <= o.x86Start <= o.x86End && base <= b.x86Start < b.x86End && b.Apart(o)
    requires PageIndex(base, b.x86Start) < PageIndex(base, o.x86End)
    ensures b.x86Start < o.x86Start
  {
  }

  lemma Monotone(base: nat, a: nat, b: nat)
    requires base <= a <= b
    ensures PageIndex(base, a) <= PageIndex(base, b)
  {
  }

  lemma LaterPage(base: nat, a: nat, b: nat)
    requires base <= a && base <= b && PageIndex(base, a) < PageIndex(base, b)
    ensures a < b
  {
  }

  // ---- the lists after an instruction was added -----------------------------------------------------------

  /** The list of the page that the block now ends on, if there is such a page. */
  function EndInserted(page: seq<nat>, h: nat): seq<nat> {
    if page == [] then [h] else if page[0] != h then [h] + page else page
  }

  function WithEnd(base: nat, pages: seq<seq<nat>>, h: nat, b: BlockEntry): (ps: seq<seq<nat>>)
    requires base <= b.x86Start <= b.x86End
    ensures |ps| == |pages|
  {
    var k := PageIndex(base, b.x86End);
    if PageIndex(base, b.x86Start) < k < |pages| then pages[k := EndInserted(pages[k], h)] else pages
  }

  lemma FirstInList(base: nat, pages: seq<seq<nat>>, blocks: seq<BlockEntry>, h: nat, b: BlockEntry)
    requires Indexed(base, pages, blocks) && Grows(base, |pages|, blocks, h, b)
    requires PageIndex(base, b.x86Start) < PageIndex(base, b.x86End) < |pages| && b.x86Start == blocks[h].x86Start
    requires h in pages[PageIndex(base, b.x86End)]
    ensures pages[PageIndex(base, b.x86End)][0] == h
  {
    var page := pages[PageIndex(base, b.x86End)];
    var j :| 0 <= j < |page| && page[j] == h;
    if page[0] != h {
      FromBelow(base, pages, blocks, h, b, 0);
    }
  }

  lemma EndPage(base: nat, pages: seq<seq<nat>>, blocks: seq<BlockEntry>, h: nat, b: BlockEntry)
    requires Indexed(base, pages, blocks) && Grows(base, |pages|, blocks, h, b)
    requires PageIndex(base, b.x86Start) < PageIndex(base, b.x86End) < |pages|
    requires blocks[h].count > 0 ==> b.x86Start == blocks[h].x86Start
    ensures var k := PageIndex(base, b.x86End);
      Sorted(EndInserted(pages[k], h), blocks[h := b]) && Complete(base, EndInserted(pages[k], h), blocks[h := b], k)
  {
    var k := PageIndex(base, b.x86End);
    var page := pages[k];
    if h in page {
      FirstInList(base, pages, blocks, h, b);
      OtherPage(base, page, blocks, h, b, k);
    } else {
      forall j | 0 <= j < |page| ensures b.x86Start < StartOf(blocks, page[j]) {
        assert page[j] in page;
        FromBelow(base, pages, blocks, h, b, j);
      }
      NewPage(base, page, blocks, h, b, k, 0);
      assert EndInserted(page, h) == Inserted(page, 0, h);
    }
  }

  /** The pages a block reaches after it grew by an instruction. */
  lemma OneMorePage(base: nat, o: BlockEntry, b: BlockEntry, k: nat)
    requires base <= o.x86Start <= o.x86End < b.x86End <= o.x86End + 15 && b.x86Start == o.x86Start && b.count > 0
    requires o.count > 0
    ensures PageIndex(base, b.x86Start) <= PageIndex(base, b.x86End)
    ensures k != PageIndex(base, b.x86End) || PageIndex(base, b.x86Start) == PageIndex(base, b.x86End) ==>
      OnPage(base, b, k) == OnPage(base, o, k)
  {
  }

  lemma FirstPages(base: nat, b: BlockEntry, k: nat)
    requires base <= b.x86Start < b.x86End <= b.x86Start + 15 && b.count > 0
    ensures OnPage(base, b, k) <==> k == PageIndex(base, b.x86Start) || k == PageIndex(base, b.x86End)
  {
  }

  /** The lists stay sorted and complete when a block grows. */
  lemma GrownIndexed(base: nat, pages: seq<seq<nat>>, blocks: seq<BlockEntry>, h: nat, b: BlockEntry)
    requires Indexed(base, pages, blocks) && Grows(base, |pages|, blocks, h, b)
    requires blocks[h].count > 0 && b.x86Start == blocks[h].x86Start
    requires blocks[h].x86End < b.x86End <= blocks[h].x86End + 15
    ensures Indexed(base, WithEnd(base, pages, h, b), blocks[h := b])
  {
    var ps, bs := WithEnd(base, pages, h, b), blocks[h := b];
    GrownDisjoint(base, pages, blocks, h, b);
    assert blocks[h] in blocks;
    forall k: nat | k < |ps| ensures Sorted(ps[k], bs) && Complete(base, ps[k], bs, k) {
      hide Sorted, Complete, OnPage, Grows, Disjoint, AllInImage, EndInserted;
      OneMorePage(base, blocks[h], b, k);
      if k == PageIndex(base, b.x86End) && PageIndex(base, b.x86Start) < k {
        EndPage(base, pages, blocks, h, b);
      } else {
        OtherPage(base, pages[k], blocks, h, b, k);
      }
    }
  }

  /** The lists stay sorted and complete when a block gets its first instruction. */
  lemma BegunIndexed(base: nat, pages: seq<seq<nat>>, blocks: seq<BlockEntry>, h: nat, b: BlockEntry, i: nat)
    requires Indexed(base, pages, blocks) && Grows(base, |pages|, blocks, h, b)
    requires blocks[h].count == 0 && b.x86End <= b.x86Start + 15
    requires PageIndex(base, b.x86Start) < |pages|
    requires InsertPoint(pages[PageIndex(base, b.x86Start)], blocks, b.x86Start, i)
    ensures var k := PageIndex(base, b.x86Start);
      Indexed(base, WithEnd(base, pages[k := Inserted(pages[k], i, h)], h, b), blocks[h := b])
  {
    var s := PageIndex(base, b.x86Start);
    var ps, bs := WithEnd(base, pages[s := Inserted(pages[s], i, h)], h, b), blocks[h := b];
    GrownDisjoint(base, pages, blocks, h, b);
    forall k: nat | k < |ps| ensures Sorted(ps[k], bs) && Complete(base, ps[k], bs, k) {
      hide Sorted, Complete, Grows, Disjoint, AllInImage, EndInserted, InsertPoint, Inserted;
      FirstPages(base, b, k);
      if k == s {
        FirstPage(base, pages, blocks, h, b, i);
      } else if k == PageIndex(base, b.x86End) {
        Monotone(base, b.x86Start, b.x86End);
        EndPage(base, pages, blocks, h, b);
      } else {
        OtherPage(base, pages[k], blocks, h, b, k);
      }
    }
  }

  // ---- searching ---------------------------------------------------------------------------------------------

  /** The least start address at or above the query. */
  ghost predicate IsNext(blocks: seq<BlockEntry>, a: nat, r: Option<nat>) {
    match r
    case Some(h) =>
      && h < |blocks| && blocks[h].count > 0 && a <= blocks[h].x86Start
      && forall b <- blocks :: b.count > 0 && a <= b.x86Start ==> blocks[h].x86Start <= b.x86Start
    case None => forall b <- blocks :: b.count > 0 ==> b.x86Start < a
  }

  /** No block that starts at or above the query is on an earlier page. */
  ghost predicate NoneBefore(base: nat, blocks: seq<BlockEntry>, a: nat, k: nat) {
    forall b <- blocks :: b.count > 0 && a <= b.x86Start && base <= b.x86Start ==> k <= PageIndex(base, b.x86Start)
  }

  lemma OnStartPage(base: nat, pages: seq<seq<nat>>, blocks: seq<BlockEntry>, h: nat)
    requires Indexed(base, pages, blocks) && h < |blocks| && blocks[h].count > 0
    ensures base <= blocks[h].x86Start && PageIndex(base, blocks[h].x86Start) < |pages|
    ensures h in pages[PageIndex(base, blocks[h].x86Start)]
  {
    assert blocks[h] in blocks;
    StartInside(base, |pages|, blocks[h]);
  }

  lemma NoneBeforeFirst(base: nat, blocks: seq<BlockEntry>, a: nat)
    requires base <= a
    ensures NoneBefore(base, blocks, a, PageIndex(base, a))
  {
    forall b <- blocks | b.count > 0 && a <= b.x86Start && base <= b.x86Start
      ensures PageIndex(base, a) <= PageIndex(base, b.x86Start)
    {
      Monotone(base, a, b.x86Start);
    }
  }

  lemma PageSearched(base: nat, pages: seq<seq<nat>>, blocks: seq<BlockEntry>, a: nat, k: nat)
    requires Indexed(base, pages, blocks) && base <= a && k < |pages| && NoneBefore(base, blocks, a, k)
    requires forall j :: 0 <= j < |pages[k]| ==> StartOf(blocks, pages[k][j]) < a
    ensures NoneBefore(base, blocks, a, k + 1)
  {
    forall b <- blocks | b.count > 0 && a <= b.x86Start && base <= b.x86Start
      ensures k + 1 <= PageIndex(base, b.x86Start)
    {
      var h: nat :| h < |blocks| && blocks[h] == b;
      OnStartPage(base, pages, blocks, h);
    }
  }

  lemma NothingFound(base: nat, pages: seq<seq<nat>>, blocks: seq<BlockEntry>, a: nat)
    requires Indexed(base, pages, blocks) && base <= a && NoneBefore(base, blocks, a, |pages|)
    ensures IsNext(blocks, a, None)
  {
    forall b <- blocks | b.count > 0 ensures b.x86Start < a {
      var h: nat :| h < |blocks| && blocks[h] == b;
      OnStartPage(base, pages, blocks, h);
    }
  }

  lemma NextFound(base: nat, pages: seq<seq<nat>>, blocks: seq<BlockEntry>, a: nat, k: nat, i: nat)
    requires Indexed(base, pages, blocks) && base <= a && k < |pages| && NoneBefore(base, blocks, a, k)
    requires i < |pages[k]| && (forall j :: 0 <= j < i ==> StartOf(blocks, pages[k][j]) < a)
    requires a <= StartOf(blocks, pages[k][i])
    ensures IsNext(blocks, a, Some(pages[k][i]))
  {
    var h := pages[k][i];
    assert h in pages[k];
    forall b <- blocks | b.count > 0 && a <= b.x86Start ensures blocks[h].x86Start <= b.x86Start {
      var g: nat :| g < |blocks| && blocks[g] == b;
      NotLater(base, pages, blocks, a, k, i, g);
    }
  }

  /** No block starts between the query and the one found. */
  lemma NotLater(base: nat, pages: seq<seq<nat>>, blocks: seq<BlockEntry>, a: nat, k: nat, i: nat, g: nat)
    requires Indexed(base, pages, blocks) && base <= a && k < |pages| && NoneBefore(base, blocks, a, k)
    requires i < |pages[k]| && (forall j :: 0 <= j < i ==> StartOf(blocks, pages[k][j]) < a)
    requires g < |blocks| && blocks[g].count > 0 && a <= blocks[g].x86Start
    ensures StartOf(blocks, pages[k][i]) <= blocks[g].x86Start
  {
    OnStartPage(base, pages, blocks, g);
    assert blocks[g] in blocks;
    if g in pages[k] {
      var j :| 0 <= j < |pages[k]| && pages[k][j] == g;
    } else {
      assert pages[k][i] in pages[k];
      var h := blocks[pages[k][i]];
      LaterPage(base, h.x86Start, blocks[g].x86Start);
    }
  }

  /** A block that contains an address is in the list of the address's page. */
  lemma Listed(base: nat, pages: seq<seq<nat>>, blocks: seq<BlockEntry>, a: nat, h: nat)
    requires Indexed(base, pages, blocks) && base <= a && PageIndex(base, a) < |pages|
    requires h < |blocks| && blocks[h].Contains(a)
    ensures h in pages[PageIndex(base, a)]
  {
    assert blocks[h] in blocks;
    Monotone(base, blocks[h].x86Start, a);
    Monotone(base, a, blocks[h].x86End);
  }

  // ---- instructions inside blocks ----------------------------------------------------------------------------

  function TotalX86(s: seq<InstructionOffset>): nat {
    if s == [] then 0 else TotalX86(s[..|s| - 1]) + s[|s| - 1].x86
  }

  function TotalRiscV(s: seq<InstructionOffset>): nat {
    if s == [] then 0 else TotalRiscV(s[..|s| - 1]) + s[|s| - 1].riscv
  }

  /** Sizes as the store records them: no empty guest instruction, whole words. */
  predicate Sizes(s: seq<InstructionOffset>) {
    forall i :: 0 <= i < |s| ==> 0 < s[i].x86 && s[i].riscv % 4 == 0
  }

  lemma Prefix(s: seq<InstructionOffset>, i: nat)
    requires i < |s|
    ensures TotalX86(s[..i + 1]) == TotalX86(s[..i]) + s[i].x86
    ensures TotalRiscV(s[..i + 1]) == TotalRiscV(s[..i]) + s[i].riscv
  {
    assert s[..i + 1][..i] == s[..i];
  }

  lemma {:induction false} TotalsGrow(s: seq<InstructionOffset>, i: nat, j: nat)
    requires Sizes(s) && i <= j <= |s|
    ensures TotalX86(s[..i]) + (j - i) <= TotalX86(s[..j]) && TotalRiscV(s[..i]) <= TotalRiscV(s[..j])
    decreases j
  {
    hide TotalX86, TotalRiscV;
    if i < j {
      Prefix(s, j - 1);
      TotalsGrow(s, i, j - 1);
    }
  }

  lemma {:induction false} WholeWords(s: seq<InstructionOffset>)
    requires Sizes(s)
    ensures TotalRiscV(s) % 4 == 0
  {
    if s != [] {
      WholeWords(s[..|s| - 1]);
    }
  }

  /** Where instruction i of a block starts. */
  function GuestAt(b: BlockEntry, s: seq<InstructionOffset>, i: nat): nat
    requires i <= |s|
  {
    b.x86Start + TotalX86(s[..i])
  }

  function Advance(c: Cell, bytes: nat): Cell { Cell(c.chunk, c.index + bytes / 4) }

  function HostAt(b: BlockEntry, s: seq<InstructionOffset>, i: nat): Cell
    requires i <= |s| && b.riscvStart.Some?
  {
    Advance(b.riscvStart.value, TotalRiscV(s[..i]))
  }

  datatype Lookup = Found(host: Cell) | Missing | InsideInstruction

  /** The translation of the instruction that starts at an address, looked up in a plain scan. */
  function ScanBlock(b: BlockEntry, s: seq<InstructionOffset>, a: nat, i: nat): Lookup
    requires i <= |s| && b.riscvStart.Some?
    decreases |s| - i
  {
    if i == |s| then InsideInstruction
    else if GuestAt(b, s, i) == a then Found(HostAt(b, s, i))
    else ScanBlock(b, s, a, i + 1)
  }

  // ---- the sections of a block in the code and size lists ------------------------------------------------------

  type Code = seq<seq<bv32>>

  type SizeList = seq<seq<InstructionOffset>>

  /** The sections of the block hold the sizes of its instructions and their translations. */
  predicate Stored(code: Code, sizes: SizeList, b: BlockEntry) {
    b.count > 0 ==>
      && b.riscvStart.Some? && b.offsets.Some? && Section(sizes, b.offsets.value, b.count)
      && var s := Contents(sizes, b.offsets.value, b.count);
      && Sizes(s) && b.x86End == b.x86Start + TotalX86(s) && Section(code, b.riscvStart.value, TotalRiscV(s) / 4)
  }

  function InstsOf(code: Code, sizes: SizeList, b: BlockEntry): (s: seq<InstructionOffset>)
    requires Stored(code, sizes, b)
    ensures |s| == b.count && Sizes(s)
  {
    if b.count == 0 then [] else Contents(sizes, b.offsets.value, b.count)
  }

  function WordsOf(code: Code, sizes: SizeList, b: BlockEntry): (w: seq<bv32>)
    requires Stored(code, sizes, b)
    ensures |w| == TotalRiscV(InstsOf(code, sizes, b)) / 4
  {
    if b.count == 0 then [] else Contents(code, b.riscvStart.value, TotalRiscV(InstsOf(code, sizes, b)) / 4)
  }

  /** The block's sections end where the lists' memory ends. */
  predicate Growing(code: Code, sizes: SizeList, b: BlockEntry)
    requires Stored(code, sizes, b)
  {
    if b.count == 0 then b.riscvStart.None? && b.offsets.None?
    else
      && Open(sizes, b.offsets.value, b.count)
      && Open(code, b.riscvStart.value, TotalRiscV(InstsOf(code, sizes, b)) / 4)
  }

  /** What the store knows of the block's instructions does not change. */
  predicate Unchanged(code: Code, sizes: SizeList, code1: Code, sizes1: SizeList, b: BlockEntry)
    requires Stored(code, sizes, b)
  {
    && Stored(code1, sizes1, b)
    && InstsOf(code1, sizes1, b) == InstsOf(code, sizes, b) && WordsOf(code1, sizes1, b) == WordsOf(code, sizes, b)
  }

  /** Finished blocks never move and never change. */
  lemma StoredGrows(code: Code, sizes: SizeList, code1: Code, sizes1: SizeList, b: BlockEntry)
    requires Stored(code, sizes, b) && Grown(code, code1) && Grown(sizes, sizes1)
    ensures Unchanged(code, sizes, code1, sizes1, b)
  {
    if b.count > 0 {
      hide Grown, Contents, Section;
      SectionGrows(sizes, sizes1, b.offsets.value, b.count);
      SectionGrows(code, code1, b.riscvStart.value, TotalRiscV(InstsOf(code, sizes, b)) / 4);
    }
  }

  lemma Appended(s: seq<InstructionOffset>, o: InstructionOffset)
    requires Sizes(s) && 0 < o.x86 && o.riscv % 4 == 0
    ensures Sizes(s + [o]) && TotalX86(s + [o]) == TotalX86(s) + o.x86
    ensures TotalRiscV(s + [o]) / 4 == TotalRiscV(s) / 4 + o.riscv / 4
  {
    assert (s + [o])[..|s|] == s;
    WholeWords(s);
  }

  /** The block with one more instruction, wherever its sections are now. */
  lemma OneMoreStored(b: BlockEntry, s: seq<InstructionOffset>, words: seq<bv32>, o: InstructionOffset, more: seq<bv32>,
        code1: Code, sizes1: SizeList, start: Cell, first: Cell, end: nat)
    requires |s| == b.count && Sizes(s) && end == b.x86Start + TotalX86(s) + o.x86 && |words| == TotalRiscV(s) / 4
    requires 0 < o.x86 && o.riscv == 4 * |more|
    requires Open(code1, start, |words| + |more|) && Contents(code1, start, |words| + |more|) == words + more
    requires Open(sizes1, first, b.count + 1) && Contents(sizes1, first, b.count + 1) == s + [o]
    ensures var c := BlockEntry(b.x86Start, end, Some(start), b.count + 1, Some(first));
      && Stored(code1, sizes1, c) && Growing(code1, sizes1, c)
      && InstsOf(code1, sizes1, c) == s + [o] && WordsOf(code1, sizes1, c) == words + more
  {
    hide Contents, TotalX86, TotalRiscV;
    Appended(s, o);
  }

  /** Each block with the sizes of its instructions. */
  datatype Translated = Translated(entry: BlockEntry, insts: seq<InstructionOffset>) {
    predicate Valid() {
      && entry.count == |insts| && Sizes(insts)
      && (entry.count > 0 ==> entry.riscvStart.Some? && entry.x86End == entry.x86Start + TotalX86(insts))
    }
  }

  predicate AllValid(ts: seq<Translated>) { forall i :: 0 <= i < |ts| ==> ts[i].Valid() }

  predicate AllApart(ts: seq<Translated>) {
    forall i, j ::
      0 <= i < j < |ts| && ts[i].entry.count > 0 && ts[j].entry.count > 0 ==> ts[i].entry.Apart(ts[j].entry)
  }

  /** The plain guest-to-host map: one block after the other. */
  function Scan(ts: seq<Translated>, a: nat): Lookup
    requires AllValid(ts)
  {
    if ts == [] then Missing
    else if ts[0].entry.Contains(a) then ScanBlock(ts[0].entry, ts[0].insts, a, 0)
    else Scan(ts[1..], a)
  }

  lemma {:induction false} ScanFinds(ts: seq<Translated>, a: nat, h: nat)
    requires AllValid(ts) && AllApart(ts) && h < |ts| && ts[h].entry.Contains(a)
    ensures Scan(ts, a) == ScanBlock(ts[h].entry, ts[h].insts, a, 0)
  {
    if h > 0 {
      assert !ts[0].entry.Contains(a);
      assert ts[1..][h - 1] == ts[h];
      ScanFinds(ts[1..], a, h - 1);
    }
  }

  lemma {:induction false} ScanMisses(ts: seq<Translated>, a: nat)
    requires AllValid(ts) && forall i :: 0 <= i < |ts| ==> !ts[i].entry.Contains(a)
    ensures Scan(ts, a) == Missing
  {
    if ts != [] {
      ScanMisses(ts[1..], a);
    }
  }

  /** The scan through a block finds instruction i at its address, and nothing between instructions. */
  lemma {:induction false} ScanBlockFinds(b: BlockEntry, s: seq<InstructionOffset>, a: nat, i: nat)
    requires i <= |s| && b.riscvStart.Some? && Sizes(s)
    ensures forall k :: i <= k < |s| && GuestAt(b, s, k) == a ==> ScanBlock(b, s, a, i) == Found(HostAt(b, s, k))
    ensures (forall k :: i <= k < |s| ==> GuestAt(b, s, k) != a) ==> ScanBlock(b, s, a, i) == InsideInstruction
    decreases |s| - i
  {
    if i < |s| {
      ScanBlockFinds(b, s, a, i + 1);
      forall k | i < k < |s| ensures GuestAt(b, s, i) < GuestAt(b, s, k) {
        TotalsGrow(s, i, k);
      }
    }
  }

  /**
   What a lookup answers: the host address of the instruction that starts there; nothing if
   no block contains the address; and the end of the program exactly for addresses inside
   an instruction.
   */
  lemma ScanAnswers(ts: seq<Translated>, a: nat)
    requires AllValid(ts) && AllApart(ts)
    ensures forall h, i :: 0 <= h < |ts| && 0 <= i < |ts[h].insts| && GuestAt(ts[h].entry, ts[h].insts, i) == a ==>
      Scan(ts, a) == Found(HostAt(ts[h].entry, ts[h].insts, i))
    ensures Scan(ts, a) == Missing <==> forall h :: 0 <= h < |ts| ==> !ts[h].entry.Contains(a)
    ensures Scan(ts, a) == InsideInstruction <==>
      exists h :: 0 <= h < |ts| && ts[h].entry.Contains(a) && forall i ::
        0 <= i < |ts[h].insts| ==> GuestAt(ts[h].entry, ts[h].insts, i) != a
  {
    hide Scan, ScanBlock, GuestAt, HostAt;
    if h :| 0 <= h < |ts| && ts[h].entry.Contains(a) {
      ScanFinds(ts, a, h);
      ScanBlockFinds(ts[h].entry, ts[h].insts, a, 0);
      forall g | 0 <= g < |ts| && ts[g].entry.Contains(a) ensures g == h {
      }
    } else {
      ScanMisses(ts, a);
    }
    forall h, i | 0 <= h < |ts| && 0 <= i < |ts[h].insts| && GuestAt(ts[h].entry, ts[h].insts, i) == a
      ensures ts[h].entry.Contains(a)
    {
      StartsInside(ts[h], i);
    }
  }

  lemma StartsInside(t: Translated, i: nat)
    requires t.Valid() && i < |t.insts|
    ensures t.entry.Contains(GuestAt(t.entry, t.insts, i))
  {
    TotalsGrow(t.insts, i, |t.insts|);
    assert t.insts[..|t.insts|] == t.insts;
  }

  /** The instruction behind a successful lookup. */
  lemma FoundInstruction(ts: seq<Translated>, a: nat) returns (h: nat, i: nat)
    requires AllValid(ts) && AllApart(ts) && Scan(ts, a).Found?
    ensures h < |ts| && i < |ts[h].insts| && GuestAt(ts[h].entry, ts[h].insts, i) == a
    ensures ts[h].entry.riscvStart.Some? && Scan(ts, a) == Found(HostAt(ts[h].entry, ts[h].insts, i))
  {
    hide Scan, ScanBlock, GuestAt, HostAt;
    ScanAnswers(ts, a);
    h :| 0 <= h < |ts| && ts[h].entry.Contains(a);
    i :| 0 <= i < |ts[h].insts| && GuestAt(ts[h].entry, ts[h].insts, i) == a;
  }
}
