/** Translating a basic block into the store (codegen.cpp, translate). */
module Translation {
  import opened StaticLists
  import opened CodeCache
  import opened CodeStores
  import G = Guest

  /** The executable image: which of its pages can be executed. */
  datatype Image = Image(base: nat, executable: seq<bool>) {
    function End(): nat { ImageEnd(base, |executable|) }

    predicate MayExecute(a: nat) {
      base <= a && PageIndex(base, a) < |executable| && executable[PageIndex(base, a)]
    }
  }

  datatype Outcome = Host(start: Cell) | Fault(reason: Reason)

  datatype Reason = NotExecutable | Undecodable | FindFailed | ListsFull | PastPages

  datatype Decoded = Decoded(address: nat, size: nat)

  // ---- instruction boundaries ----------------------------------------------------------------------------

  /** The set is closed under falling through, and its instructions do not overlap. */
  ghost predicate Boundaries(p: G.Program, s: iset<nat>) {
    forall a: nat :: a in s && a in p.code ==>
      (!p.code[a].eob ==> a + p.code[a].size in s) && forall c: nat :: c in s ==> c <= a || a + p.code[a].size <= c
  }

  /** Instructions end inside the image. */
  predicate EndInside(p: G.Program, base: nat, n: nat) {
    forall a <- p.code :: base <= a && a + p.code[a].size <= ImageEnd(base, n)
  }

  ghost predicate IsInstruction(p: G.Program, s: iset<nat>, a: nat, size: nat) {
    a in s && a in p.code && p.code[a].size == size
  }

  /** Every translated instruction is one of the guest's. */
  ghost predicate OnBoundaries(p: G.Program, s: iset<nat>, t: Translated) {
    forall i :: 0 <= i < |t.insts| ==> IsInstruction(p, s, GuestAt(t.entry, t.insts, i), t.insts[i].x86)
  }

  /** A block that contains a boundary has an instruction there. */
  lemma {:induction false} NoJumpInside(p: G.Program, s: iset<nat>, t: Translated, a: nat, i: nat)
    requires Boundaries(p, s) && t.Valid() && OnBoundaries(p, s, t) && a in s && t.entry.Contains(a)
    requires i <= |t.insts| && GuestAt(t.entry, t.insts, i) <= a
    ensures ScanBlock(t.entry, t.insts, a, i).Found?
    decreases |t.insts| - i
  {
    assert t.insts[..|t.insts|] == t.insts;
    if i < |t.insts| {
      var g := GuestAt(t.entry, t.insts, i);
      assert IsInstruction(p, s, g, t.insts[i].x86);
      if g != a {
        Prefix(t.insts, i);
        NoJumpInside(p, s, t, a, i + 1);
      }
    }
  }

  // ---- decoding ------------------------------------------------------------------------------------------------

  /** Consecutive guest instructions. */
  ghost predicate Chain(p: G.Program, s: iset<nat>, insts: seq<Decoded>, start: nat) {
    && (forall i :: 0 <= i < |insts| ==> IsInstruction(p, s, insts[i].address, insts[i].size))
    && (insts != [] ==> insts[0].address == start)
    && (forall i :: 0 <= i < |insts| - 1 ==> insts[i + 1].address == insts[i].address + insts[i].size)
    && (forall i :: 0 <= i < |insts| - 1 ==> !p.code[insts[i].address].eob)
  }

  /** The last instruction of the chain ends its block. */
  ghost predicate Ends(p: G.Program, insts: seq<Decoded>) {
    insts != [] && insts[|insts| - 1].address in p.code && p.code[insts[|insts| - 1].address].eob
  }

  /** All instructions start below the limit. */
  predicate Below(insts: seq<Decoded>, limit: Option<nat>) {
    limit.Some? ==> forall i :: 0 <= i < |insts| ==> insts[i].address < limit.value
  }

  function EndOf(insts: seq<Decoded>, start: nat): nat {
    if insts == [] then start else insts[|insts| - 1].address + insts[|insts| - 1].size
  }

  lemma ChainGrows(p: G.Program, s: iset<nat>, insts: seq<Decoded>, start: nat, limit: Option<nat>)
    requires Chain(p, s, insts, start) && Below(insts, limit)
    requires EndOf(insts, start) in s && EndOf(insts, start) in p.code
    requires (limit.Some? ==> EndOf(insts, start) < limit.value) && !Ends(p, insts)
    ensures var a := EndOf(insts, start); var more := insts + [Decoded(a, p.code[a].size)];
      && Chain(p, s, more, start) && Below(more, limit) && EndOf(more, start) == a + p.code[a].size
      && Ends(p, more) == p.code[a].eob
  {
  }

  lemma NextBoundary(p: G.Program, s: iset<nat>, a: nat, limit: Option<nat>)
    requires Boundaries(p, s) && a in s && a in p.code && (limit.Some? ==> a < limit.value && limit.value in s)
    ensures limit.Some? ==> a + p.code[a].size <= limit.value
    ensures !p.code[a].eob ==> a + p.code[a].size in s
  {
  }

  lemma Decreases(p: G.Program, a: nat)
    requires p.Valid() && a in p.code
    ensures p.BytesLeft(a + p.code[a].size) < p.BytesLeft(a)
  {
    assert p.code[a].Valid();
  }

  /** A complete block: it ends by itself, or where the next known one starts. */
  ghost predicate BlockFrom(p: G.Program, s: iset<nat>, start: nat, limit: Option<nat>, insts: seq<Decoded>) {
    && insts != [] && Chain(p, s, insts, start) && Below(insts, limit)
    && (Ends(p, insts) || limit == Some(EndOf(insts, start)))
  }

  /** Straight on from the address, and before the limit, the guest comes to bytes that cannot be decoded. */
  ghost predicate Stuck(p: G.Program, s: iset<nat>, start: nat, limit: Option<nat>) {
    exists insts: seq<Decoded> ::
      && Chain(p, s, insts, start) && Below(insts, limit) && !Ends(p, insts)
      && limit != Some(EndOf(insts, start)) && EndOf(insts, start) !in p.code
  }

  lemma IsStuck(p: G.Program, s: iset<nat>, start: nat, limit: Option<nat>, insts: seq<Decoded>)
    requires Chain(p, s, insts, start) && Below(insts, limit) && !Ends(p, insts)
    requires limit != Some(EndOf(insts, start)) && EndOf(insts, start) !in p.code
    ensures Stuck(p, s, start, limit)
  {
    hide Chain, Below, Ends, EndOf;
  }

  /** A chain that is longer than another goes on where that one ends. */
  lemma ChainLonger(p: G.Program, s: iset<nat>, start: nat, limit: Option<nat>, a: seq<Decoded>, b: seq<Decoded>)
    requires Chain(p, s, a, start) && Chain(p, s, b, start) && a < b && Below(b, limit)
    ensures EndOf(a, start) in p.code && !Ends(p, a) && limit != Some(EndOf(a, start))
  {
    assert IsInstruction(p, s, b[|a|].address, b[|a|].size);
    if a != [] {
      assert a[|a| - 1] == b[|a| - 1] && b[|a| - 1 + 1].address == b[|a| - 1].address + b[|a| - 1].size;
    }
  }

  /** Of two chains one begins with the other. */
  lemma {:induction false} ChainPrefix(p: G.Program, s: iset<nat>, start: nat, a: seq<Decoded>, b: seq<Decoded>, k: nat)
    requires Chain(p, s, a, start) && Chain(p, s, b, start) && k <= |a| && k <= |b|
    ensures a[..k] == b[..k]
    decreases k
  {
    if k > 0 {
      ChainPrefix(p, s, start, a, b, k - 1);
      var i := k - 1;
      assert IsInstruction(p, s, a[i].address, a[i].size) && IsInstruction(p, s, b[i].address, b[i].size);
      if i > 0 {
        assert a[..i][i - 1] == b[..i][i - 1];
        assert a[i - 1 + 1].address == a[i - 1].address + a[i - 1].size;
        assert b[i - 1 + 1].address == b[i - 1].address + b[i - 1].size;
      }
      assert a[i] == b[i] && a[..k] == a[..i] + [a[i]] && b[..k] == b[..i] + [b[i]];
    }
  }

  lemma OneIsPrefix(p: G.Program, s: iset<nat>, start: nat, a: seq<Decoded>, b: seq<Decoded>)
    requires Chain(p, s, a, start) && Chain(p, s, b, start)
    ensures a == b || a < b || b < a
  {
    hide Chain;
    ChainPrefix(p, s, start, a, b, if |a| <= |b| then |a| else |b|);
    assert a[..|a|] == a && b[..|b|] == b;
  }

  /** There is one complete block from an address, or the guest gets stuck, or neither can be: a block starts there. */
  lemma BlockOnce(p: G.Program, s: iset<nat>, start: nat, limit: Option<nat>, a: seq<Decoded>, b: seq<Decoded>)
    requires BlockFrom(p, s, start, limit, a) && BlockFrom(p, s, start, limit, b)
    ensures a == b
  {
    hide Chain, Below, Ends, EndOf;
    OneIsPrefix(p, s, start, a, b);
    if a < b {
      ChainLonger(p, s, start, limit, a, b);
    } else if b < a {
      ChainLonger(p, s, start, limit, b, a);
    }
  }

  lemma BlockNotStuck(p: G.Program, s: iset<nat>, start: nat, limit: Option<nat>, a: seq<Decoded>)
    requires BlockFrom(p, s, start, limit, a)
    ensures !Stuck(p, s, start, limit)
  {
    hide Chain, Below, Ends, EndOf;
    forall b: seq<Decoded> | Chain(p, s, b, start) && Below(b, limit) && !Ends(p, b)
        && limit != Some(EndOf(b, start))
      ensures EndOf(b, start) in p.code
    {
      OneIsPrefix(p, s, start, a, b);
      if a < b {
        ChainLonger(p, s, start, limit, a, b);
      } else if b < a {
        ChainLonger(p, s, start, limit, b, a);
      }
    }
  }

  lemma KnownNotStuck(p: G.Program, s: iset<nat>, start: nat)
    ensures !Stuck(p, s, start, Some(start))
  {
    forall b: seq<Decoded> | b != [] && Chain(p, s, b, start) ensures !Below(b, Some(start)) {
      assert !(b[0].address < start);
    }
  }

  /** Decodes up to an end of block or the start of the next block. */
  method DecodeBlock(p: G.Program, ghost s: iset<nat>, start: nat, limit: Option<nat>)
      returns (insts: seq<Decoded>, fault: Option<Reason>, fallsThrough: bool)
    requires p.Valid() && Boundaries(p, s) && start in s && (limit.Some? ==> start <= limit.value && limit.value in s)
    ensures fault.None? ==> BlockFrom(p, s, start, limit, insts) && fallsThrough == !Ends(p, insts)
    ensures fault.Some? ==> fault.value == Undecodable || fault.value == FindFailed
    ensures fault == Some(Undecodable) <==> Stuck(p, s, start, limit)
    ensures fault == Some(FindFailed) <==> limit == Some(start)
  {
    hide Boundaries, Chain, Below, Stuck, Ends, p.Valid, p.BytesLeft;
    insts, fault, fallsThrough := [], None, false;
    var a := start;
    assert Chain(p, s, [], start) && Below([], limit) && !Ends(p, []) by { Nothing(p, s, start, limit); }
    while true
      invariant Chain(p, s, insts, start) && Below(insts, limit)
      invariant a == EndOf(insts, start) && a in s && (limit.Some? ==> a <= limit.value) && !Ends(p, insts)
      invariant limit == Some(start) ==> insts == []
      decreases p.BytesLeft(a)
    {
      if limit == Some(a) {
        if |insts| == 0 {
          fault := Some(FindFailed);
          KnownNotStuck(p, s, start);
        } else {
          BlockNotStuck(p, s, start, limit, insts);
        }
        fallsThrough := true;
        break;
      }
      if a !in p.code {
        fault := Some(Undecodable);
        IsStuck(p, s, start, limit, insts);
        break;
      }
      var inst := p.code[a];
      NextBoundary(p, s, a, limit);
      ChainGrows(p, s, insts, start, limit);
      Decreases(p, a);
      insts := insts + [Decoded(a, inst.size)];
      if inst.eob {
        BlockNotStuck(p, s, start, limit, insts);
        break;
      }
      a := a + inst.size;
    }
  }

  lemma Nothing(p: G.Program, s: iset<nat>, start: nat, limit: Option<nat>)
    ensures Chain(p, s, [], start) && Below([], limit) && !Ends(p, [])
  {
  }

  // ---- what the store holds --------------------------------------------------------------------------------------

  /**
   Which words translate the instruction at an address is left open, also where they end in
   a link to the host address at which the guest goes on.
   */
  type Meaning = (nat, Option<Cell>, seq<bv32>) -> bool

  /** The number of words before instruction i. */
  function WordAt(s: seq<InstructionOffset>, i: nat): nat
    requires i <= |s|
  {
    TotalRiscV(s[..i]) / 4
  }

  lemma WordsInOrder(s: seq<InstructionOffset>, i: nat)
    requires i < |s| && Sizes(s)
    ensures WordAt(s, i) <= WordAt(s, i + 1) <= TotalRiscV(s) / 4
  {
    hide TotalRiscV, TotalX86;
    TotalsGrow(s, i, i + 1);
    TotalsGrow(s, i + 1, |s|);
    assert s[..|s|] == s;
  }

  /** The words of instruction i. */
  function Slice(s: seq<InstructionOffset>, w: seq<bv32>, i: nat): seq<bv32>
    requires i < |s| && Sizes(s) && |w| == TotalRiscV(s) / 4
  {
    WordsInOrder(s, i);
    w[WordAt(s, i)..WordAt(s, i + 1)]
  }

  /** Only the last instruction of a block may be linked. */
  function LinkAt(insts: nat, i: nat, t: Option<Cell>): Option<Cell> { if i + 1 == insts then t else None }

  /** Every instruction of the block is one of the guest's, and its words translate it, the last one linked or not. */
  ghost predicate Faithful(p: G.Program, s: iset<nat>, good: Meaning, b: BlockEntry, insts: seq<InstructionOffset>,
        w: seq<bv32>, t: Option<Cell>)
    requires Sizes(insts) && |w| == TotalRiscV(insts) / 4
  {
    forall i :: 0 <= i < |insts| ==>
      && IsInstruction(p, s, GuestAt(b, insts, i), insts[i].x86)
      && good(GuestAt(b, insts, i), LinkAt(|insts|, i, t), Slice(insts, w, i))
      && (i + 1 < |insts| ==> !p.code[GuestAt(b, insts, i)].eob)
  }

  lemma SliceKept(s: seq<InstructionOffset>, w: seq<bv32>, o: InstructionOffset, more: seq<bv32>, i: nat)
    requires i < |s| && Sizes(s) && Sizes(s + [o]) && |w| == TotalRiscV(s) / 4 && TotalRiscV(s + [o]) / 4 == |w + more|
    ensures Slice(s + [o], w + more, i) == Slice(s, w, i)
  {
    hide TotalRiscV, Sizes;
    WordsInOrder(s, i);
    assert (s + [o])[..i] == s[..i] && (s + [o])[..i + 1] == s[..i + 1];
  }

  lemma Lengthened(s: seq<InstructionOffset>, o: InstructionOffset)
    requires Sizes(s) && o.riscv % 4 == 0
    ensures TotalRiscV(s + [o]) / 4 == TotalRiscV(s) / 4 + o.riscv / 4
  {
    assert (s + [o])[..|s|] == s;
    WholeWords(s);
  }

  lemma LastSlice(s: seq<InstructionOffset>, w: seq<bv32>, o: InstructionOffset, more: seq<bv32>)
    requires Sizes(s) && Sizes(s + [o]) && |w| == TotalRiscV(s) / 4 && TotalRiscV(s + [o]) / 4 == |w + more|
    ensures Slice(s + [o], w + more, |s|) == more
  {
    hide TotalRiscV, Sizes;
    assert (s + [o])[..|s|] == s && (s + [o])[..|s| + 1] == s + [o];
  }

  lemma GuestKept(b: BlockEntry, c: BlockEntry, insts: seq<InstructionOffset>, o: InstructionOffset, i: nat)
    requires i <= |insts| && c.x86Start == b.x86Start
    ensures GuestAt(c, insts + [o], i) == GuestAt(b, insts, i)
  {
    assert (insts + [o])[..i] == insts[..i];
  }

  lemma WholeBlock(b: BlockEntry, insts: seq<InstructionOffset>)
    ensures GuestAt(b, insts, |insts|) == b.x86Start + TotalX86(insts)
  {
    assert insts[..|insts|] == insts;
  }

  lemma AllFaithful(p: G.Program, s: iset<nat>, good: Meaning, b: BlockEntry, insts: seq<InstructionOffset>,
        w: seq<bv32>, c: BlockEntry, all: seq<InstructionOffset>, words: seq<bv32>, t: Option<Cell>)
    requires Sizes(insts) && |w| == TotalRiscV(insts) / 4 && Faithful(p, s, good, b, insts, w, None)
    requires Sizes(all) && |words| == TotalRiscV(all) / 4 && |all| == |insts| + 1 && all[..|insts|] == insts
    requires forall i :: 0 <= i < |insts| ==>
      GuestAt(c, all, i) == GuestAt(b, insts, i) && Slice(all, words, i) == Slice(insts, w, i)
    requires IsInstruction(p, s, GuestAt(c, all, |insts|), all[|insts|].x86)
    requires good(GuestAt(c, all, |insts|), t, Slice(all, words, |insts|))
    requires insts != [] ==> !p.code[GuestAt(b, insts, |insts| - 1)].eob
    ensures Faithful(p, s, good, c, all, words, t)
  {
    hide Slice, GuestAt, TotalRiscV, Sizes;
    forall i | 0 <= i < |all|
      ensures IsInstruction(p, s, GuestAt(c, all, i), all[i].x86)
      ensures good(GuestAt(c, all, i), LinkAt(|all|, i, t), Slice(all, words, i))
      ensures i + 1 < |all| ==> !p.code[GuestAt(c, all, i)].eob
    {
      if i < |insts| {
        assert IsInstruction(p, s, GuestAt(b, insts, i), insts[i].x86);
      }
    }
  }

  lemma FaithfulGrows(p: G.Program, s: iset<nat>, good: Meaning, b: BlockEntry, insts: seq<InstructionOffset>,
        w: seq<bv32>, o: InstructionOffset, more: seq<bv32>, c: BlockEntry, t: Option<Cell>)
    requires Sizes(insts) && |w| == TotalRiscV(insts) / 4 && Faithful(p, s, good, b, insts, w, None)
    requires 0 < o.x86 && o.riscv == 4 * |more| && c.x86Start == b.x86Start
    requires IsInstruction(p, s, b.x86Start + TotalX86(insts), o.x86) && good(b.x86Start + TotalX86(insts), t, more)
    requires insts != [] ==> !p.code[GuestAt(b, insts, |insts| - 1)].eob
    ensures Sizes(insts + [o]) && TotalRiscV(insts + [o]) / 4 == |w + more|
    ensures Faithful(p, s, good, c, insts + [o], w + more, t)
    ensures GuestAt(c, insts + [o], |insts|) == b.x86Start + TotalX86(insts)
  {
    hide Slice, TotalX86, TotalRiscV, Faithful, IsInstruction, GuestAt;
    var all := insts + [o];
    Lengthened(insts, o);
    LastSlice(insts, w, o, more);
    assert all[..|insts|] == insts;
    forall i | 0 <= i < |insts|
      ensures GuestAt(c, all, i) == GuestAt(b, insts, i) && Slice(all, w + more, i) == Slice(insts, w, i)
    {
      GuestKept(b, c, insts, o, i);
      SliceKept(insts, w, o, more, i);
    }
    GuestKept(b, c, insts, o, |insts|);
    WholeBlock(b, insts);
    AllFaithful(p, s, good, b, insts, w, c, all, w + more, t);
  }

  /** The block that starts at the guest address has its code there. */
  predicate StartsAt(b: BlockEntry, a: nat, c: Cell) { b.count > 0 && b.x86Start == a && b.riscvStart == Some(c) }

  /** The block ends, or it is linked to the block that starts behind it. */
  ghost predicate Aims(p: G.Program, blocks: seq<BlockEntry>, b: BlockEntry, insts: seq<InstructionOffset>,
        t: Option<Cell>) {
    insts != [] ==>
      var a := GuestAt(b, insts, |insts| - 1);
      && a in p.code
      && match t
         case None => p.code[a].eob
         case Some(c) => !p.code[a].eob && exists j :: 0 <= j < |blocks| && StartsAt(blocks[j], b.x86End, c)
  }

  ghost predicate FaithfulBlock(p: G.Program, s: iset<nat>, good: Meaning, code: Code, sizes: SizeList,
        blocks: seq<BlockEntry>, b: BlockEntry)
    requires Stored(code, sizes, b)
  {
    var insts, w := InstsOf(code, sizes, b), WordsOf(code, sizes, b);
    exists t: Option<Cell> :: Faithful(p, s, good, b, insts, w, t) && Aims(p, blocks, b, insts, t)
  }

  /** Every block of the store is a faithful translation. */
  ghost predicate Sound(p: G.Program, s: iset<nat>, good: Meaning, code: Code, sizes: SizeList,
        blocks: seq<BlockEntry>) {
    forall i :: 0 <= i < |blocks| ==>
      Stored(code, sizes, blocks[i]) && FaithfulBlock(p, s, good, code, sizes, blocks, blocks[i])
  }

  lemma BlockStarts(p: G.Program, s: iset<nat>, good: Meaning, code: Code, sizes: SizeList, blocks: seq<BlockEntry>,
        i: nat)
    requires Sound(p, s, good, code, sizes, blocks) && i < |blocks| && blocks[i].count > 0
    ensures blocks[i].x86Start in s
  {
    hide Slice, Aims;
    var insts := InstsOf(code, sizes, blocks[i]);
    assert FaithfulBlock(p, s, good, code, sizes, blocks, blocks[i]);
    assert IsInstruction(p, s, GuestAt(blocks[i], insts, 0), insts[0].x86);
    assert insts[..0] == [];
  }

  /** No block lies between the start and the limit. */
  predicate Clear(blocks: seq<BlockEntry>, start: nat, limit: Option<nat>) {
    forall i :: 0 <= i < |blocks| && blocks[i].count > 0 ==>
      blocks[i].x86End <= start || (limit.Some? && limit.value <= blocks[i].x86Start)
  }

  lemma IsFree(p: G.Program, s: iset<nat>, good: Meaning, code: Code, sizes: SizeList, base: nat, n: nat,
        blocks: seq<BlockEntry>, h: nat,
        start: nat, limit: Option<nat>, d: Decoded)
    requires |blocks| == h + 1 && Boundaries(p, s) && EndInside(p, base, n)
    requires Sound(p, s, good, code, sizes, blocks[..h])
    requires Clear(blocks[..h], start, limit) && IsInstruction(p, s, d.address, d.size)
    requires start <= d.address && (limit.Some? ==> d.address < limit.value)
    ensures Free(base, n, blocks, h, d.address, d.size)
  {
    hide Sound;
    forall i | 0 <= i < |blocks| && i != h && blocks[i].count > 0
      ensures blocks[i].x86End <= d.address || d.address + d.size <= blocks[i].x86Start
    {
      assert blocks[..h][i] == blocks[i];
      BlockStarts(p, s, good, code, sizes, blocks[..h], i);
    }
  }

  lemma {:induction false} ChainInOrder(p: G.Program, s: iset<nat>, insts: seq<Decoded>, start: nat, i: nat)
    requires Chain(p, s, insts, start) && i < |insts|
    ensures start <= insts[i].address && IsInstruction(p, s, insts[i].address, insts[i].size)
    ensures insts[i].address == EndOf(insts[..i], start)
    decreases i
  {
    if i > 0 {
      ChainInOrder(p, s, insts, start, i - 1);
      assert insts[i - 1 + 1].address == insts[i - 1].address + insts[i - 1].size;
    }
  }

  lemma AimsMore(p: G.Program, blocks: seq<BlockEntry>, blocks1: seq<BlockEntry>, b: BlockEntry,
        insts: seq<InstructionOffset>, t: Option<Cell>)
    requires Aims(p, blocks, b, insts, t) && blocks <= blocks1
    ensures Aims(p, blocks1, b, insts, t)
  {
    if insts != [] && t.Some? {
      var j :| 0 <= j < |blocks| && StartsAt(blocks[j], b.x86End, t.value);
      assert StartsAt(blocks1[j], b.x86End, t.value);
    }
  }

  /** What was sound stays so when the lists grow and blocks are added. */
  lemma SoundGrows(p: G.Program, s: iset<nat>, good: Meaning, code: Code, sizes: SizeList, code1: Code,
        sizes1: SizeList, blocks: seq<BlockEntry>, blocks1: seq<BlockEntry>)
    requires Sound(p, s, good, code, sizes, blocks) && Grown(code, code1) && Grown(sizes, sizes1) && blocks <= blocks1
    ensures forall i :: 0 <= i < |blocks| ==>
      Stored(code1, sizes1, blocks[i]) && FaithfulBlock(p, s, good, code1, sizes1, blocks1, blocks[i])
  {
    forall i | 0 <= i < |blocks|
      ensures Stored(code1, sizes1, blocks[i])
      ensures FaithfulBlock(p, s, good, code1, sizes1, blocks1, blocks[i])
    {
      hide Stored, Faithful, Grown, InstsOf, WordsOf, Aims;
      var b := blocks[i];
      assert Stored(code, sizes, b) && FaithfulBlock(p, s, good, code, sizes, blocks, b);
      StoredGrows(code, sizes, code1, sizes1, b);
      var insts, w := InstsOf(code, sizes, b), WordsOf(code, sizes, b);
      var t :| Faithful(p, s, good, b, insts, w, t) && Aims(p, blocks, b, insts, t);
      AimsMore(p, blocks, blocks1, b, insts, t);
    }
  }

  /** The block under construction: its instructions so far, in order, are the first i of the chain. */
  ghost predicate PartOf(p: G.Program, s: iset<nat>, good: Meaning, code: Code, sizes: SizeList, b: BlockEntry,
        insts: seq<Decoded>, i: nat, start: nat, t: Option<Cell>)
    requires i <= |insts|
  {
    && Stored(code, sizes, b) && b.count == i
    && Faithful(p, s, good, b, InstsOf(code, sizes, b), WordsOf(code, sizes, b), LinkAt(|insts| + 1, i, t))
    && (i > 0 ==>
      && b.x86Start == start && b.x86End == EndOf(insts[..i], start)
      && GuestAt(b, InstsOf(code, sizes, b), i - 1) == insts[i - 1].address)
  }

  /** It stands behind the finished blocks. */
  ghost predicate Building(p: G.Program, s: iset<nat>, good: Meaning, code: Code, sizes: SizeList,
        blocks: seq<BlockEntry>, done: seq<BlockEntry>, insts: seq<Decoded>, i: nat, start: nat, t: Option<Cell>)
    requires i <= |insts|
  {
    && |blocks| == |done| + 1 && blocks[..|done|] == done && Sound(p, s, good, code, sizes, done)
    && PartOf(p, s, good, code, sizes, blocks[|done|], insts, i, start, t)
  }

  lemma StartBuilding(p: G.Program, s: iset<nat>, good: Meaning, code: Code, sizes: SizeList, done: seq<BlockEntry>,
        insts: seq<Decoded>, start: nat, t: Option<Cell>)
    requires Sound(p, s, good, code, sizes, done)
    ensures Building(p, s, good, code, sizes, done + [BlockEntry(0, 0, None, 0, None)], done, insts, 0, start, t)
  {
    hide Slice, Sound;
  }

  lemma StartedFaithful(p: G.Program, s: iset<nat>, good: Meaning, code: Code, sizes: SizeList, b: BlockEntry,
        address: nat)
    requires Stored(code, sizes, b)
    requires Faithful(p, s, good, b, InstsOf(code, sizes, b), WordsOf(code, sizes, b), None)
    requires (b.count > 0 ==> b.x86End == address)
    ensures var c := Started(b, address);
      Stored(code, sizes, c)
        && Faithful(p, s, good, c, InstsOf(code, sizes, c), WordsOf(code, sizes, c), None)
        && address == c.x86Start + TotalX86(InstsOf(code, sizes, c))
  {
    hide Slice;
  }

  /** The block under construction after one more instruction. */
  lemma ExtendedPart(p: G.Program, s: iset<nat>, good: Meaning, code: Code, sizes: SizeList, b: BlockEntry,
        code1: Code, sizes1: SizeList, c: BlockEntry, insts: seq<Decoded>, i: nat, start: nat, t: Option<Cell>,
        words: seq<bv32>)
    requires Chain(p, s, insts, start) && i < |insts| && p.Valid()
    requires PartOf(p, s, good, code, sizes, b, insts, i, start, t)
    requires good(insts[i].address, LinkAt(|insts|, i, t), words)
    requires Stored(code, sizes, Started(b, insts[i].address))
    requires Extends(code, sizes, Started(b, insts[i].address), code1, sizes1, c, insts[i].size, words)
    requires c.x86End == insts[i].address + insts[i].size
    ensures PartOf(p, s, good, code1, sizes1, c, insts, i + 1, start, t)
  {
    hide Faithful, TotalX86, TotalRiscV, IsInstruction, Growing, Stored, Chain, InstsOf, WordsOf, GuestAt;
    var address, d := insts[i].address, Started(b, insts[i].address);
    ChainInOrder(p, s, insts, start, i);
    ChainGoesOn(p, s, insts, start, i);
    SizePositive(p, s, address, insts[i].size);
    StartedFaithful(p, s, good, code, sizes, b, address);
    ExtendsParts(code, sizes, d, code1, sizes1, c, insts[i].size, words);
    StartedCount(code, sizes, b, address);
    FaithfulGrows(p, s, good, d, InstsOf(code, sizes, d), WordsOf(code, sizes, d),
      InstructionOffset(insts[i].size, 4 * |words|), words, c, LinkAt(|insts|, i, t));
    FirstAddress(p, s, insts, start);
    assert EndOf(insts[..i + 1], start) == address + insts[i].size;
  }

  lemma StartedCount(code: Code, sizes: SizeList, b: BlockEntry, address: nat)
    requires Stored(code, sizes, b)
    ensures var d := Started(b, address);
      Stored(code, sizes, d) && |InstsOf(code, sizes, d)| == b.count && (b.count > 0 ==> d == b)
  {
  }

  lemma ChainGoesOn(p: G.Program, s: iset<nat>, insts: seq<Decoded>, start: nat, i: nat)
    requires Chain(p, s, insts, start) && i < |insts|
    ensures i > 0 ==> insts[i - 1].address in p.code && !p.code[insts[i - 1].address].eob
  {
    if i > 0 {
      assert IsInstruction(p, s, insts[i - 1].address, insts[i - 1].size);
    }
  }

  lemma KeepBuilding(p: G.Program, s: iset<nat>, good: Meaning, code: Code, sizes: SizeList, blocks: seq<BlockEntry>,
        code1: Code, sizes1: SizeList, c: BlockEntry, done: seq<BlockEntry>, insts: seq<Decoded>, i: nat, start: nat,
        t: Option<Cell>, words: seq<bv32>)
    requires Chain(p, s, insts, start) && i < |insts| && p.Valid()
    requires good(insts[i].address, LinkAt(|insts|, i, t), words)
    requires Building(p, s, good, code, sizes, blocks, done, insts, i, start, t)
    requires Stored(code, sizes, Started(blocks[|done|], insts[i].address))
    requires Extends(code, sizes, Started(blocks[|done|], insts[i].address), code1, sizes1, c, insts[i].size, words)
    requires Grown(code, code1) && Grown(sizes, sizes1) && c.x86End == insts[i].address + insts[i].size
    ensures Building(p, s, good, code1, sizes1, blocks[|done| := c], done, insts, i + 1, start, t)
  {
    hide FaithfulBlock, Extends, Stored, Grown, Chain, PartOf;
    ExtendedPart(p, s, good, code, sizes, blocks[|done|], code1, sizes1, c, insts, i, start, t, words);
    SoundGrows(p, s, good, code, sizes, code1, sizes1, done, done);
    assert blocks[|done| := c][..|done|] == done;
  }

  lemma FirstAddress(p: G.Program, s: iset<nat>, insts: seq<Decoded>, start: nat)
    requires Chain(p, s, insts, start) && insts != []
    ensures insts[0].address == start
  {
  }

  lemma SizePositive(p: G.Program, s: iset<nat>, a: nat, size: nat)
    requires IsInstruction(p, s, a, size) && p.Valid()
    ensures 1 <= size <= 15
  {
    assert p.code[a].Valid();
  }

  // ---- room for a block ------------------------------------------------------------------------------------------

  function Lengths(words: seq<seq<bv32>>): (ns: seq<nat>)
    ensures |ns| == |words|
  {
    seq(|words|, i requires 0 <= i < |words| => |words[i]|)
  }

  function Ones(n: nat): (ns: seq<nat>)
    ensures |ns| == n
  {
    seq(n, _ => 1)
  }

  /** Both lists can take the block. */
  predicate FitsIn(code: Room, sizes: Room, words: seq<seq<bv32>>) {
    Fits(code, Lengths(words)) && Fits(sizes, Ones(|words|))
  }

  /** The block so far has i instructions of n words. */
  ghost predicate Long(code: Code, sizes: SizeList, b: BlockEntry, i: nat, n: nat) {
    Stored(code, sizes, b) && b.count == i && |WordsOf(code, sizes, b)| == n
  }

  lemma LongNone(code: Code, sizes: SizeList)
    ensures Long(code, sizes, BlockEntry(0, 0, None, 0, None), 0, 0)
  {
  }

  lemma LongStarted(code: Code, sizes: SizeList, b: BlockEntry, i: nat, n: nat, address: nat)
    requires Long(code, sizes, b, i, n) && Stored(code, sizes, Started(b, address))
    ensures |WordsOf(code, sizes, Started(b, address))| == n && b.count == i
  {
  }

  lemma Longer(code: Code, sizes: SizeList, b: BlockEntry, code1: Code, sizes1: SizeList, c: BlockEntry, i: nat, n: nat,
        address: nat, size: nat, words: seq<bv32>)
    requires Long(code, sizes, b, i, n) && Stored(code, sizes, Started(b, address))
    requires Extends(code, sizes, Started(b, address), code1, sizes1, c, size, words)
    ensures Long(code1, sizes1, c, i + 1, n + |words|)
  {
    hide Stored, WordsOf;
    LongStarted(code, sizes, b, i, n, address);
    ExtendsParts(code, sizes, Started(b, address), code1, sizes1, c, size, words);
  }

  /** What is left of the two lists still takes the rest of the block, or it never fitted. */
  predicate StillTakes(code: Room, sizes: Room, words: seq<seq<bv32>>, i: nat, n: nat) {
    Takes(code, Lengths(words), i, n) && Takes(sizes, Ones(|words|), i, i)
  }

  lemma TakesNext(r: Added, code: Room, sizes: Room, words: seq<seq<bv32>>, i: nat, n: nat, code1: Room, sizes1: Room)
    requires i < |words| && Answers(r, code, sizes, i, n, |words[i]|, code1, sizes1) && !r.NotConsecutive?
    ensures r.CodeFull? || r.OffsetsFull? ==> !StillTakes(code, sizes, words, i, n)
    ensures r.Added? || r.PastPages? ==>
      (StillTakes(code, sizes, words, i, n) <==> StillTakes(code1, sizes1, words, i + 1, n + |words[i]|))
  {
    hide Refuses, RoomBehind;
  }

  lemma AllTaken(code: Room, sizes: Room, words: seq<seq<bv32>>, n: nat)
    ensures StillTakes(code, sizes, words, |words|, n)
  {
  }

  lemma TakesIfFits(code: Room, sizes: Room, words: seq<seq<bv32>>)
    requires (code.begun || code.left == 0) && (sizes.begun || sizes.left == 0)
    ensures StillTakes(code, sizes, words, 0, 0) <==> FitsIn(code, sizes, words)
  {
    hide Takes, Fits;
    TakesFits(code, Lengths(words));
    TakesFits(sizes, Ones(|words|));
  }

  /** After i instructions: the block so far, its length, and whether the rest of it fits. */
  ghost predicate Underway(p: G.Program, s: iset<nat>, good: Meaning, code: Code, sizes: SizeList,
        blocks: seq<BlockEntry>, done: seq<BlockEntry>, insts: seq<Decoded>, i: nat, start: nat, t: Option<Cell>,
        words: seq<seq<bv32>>, total: nat, room: Room, sizeRoom: Room, fits: bool)
    requires i <= |insts|
  {
    && Building(p, s, good, code, sizes, blocks, done, insts, i, start, t)
    && Long(code, sizes, blocks[|done|], i, total) && StillTakes(room, sizeRoom, words, i, total) == fits
  }

  lemma StillUnderway(p: G.Program, s: iset<nat>, good: Meaning, code: Code, sizes: SizeList, blocks: seq<BlockEntry>,
        code1: Code, sizes1: SizeList, c: BlockEntry, done: seq<BlockEntry>, insts: seq<Decoded>, i: nat, start: nat,
        t: Option<Cell>, words: seq<seq<bv32>>, total: nat, room: Room, sizeRoom: Room, room1: Room, sizeRoom1: Room,
        fits: bool)
    requires Chain(p, s, insts, start) && i < |insts| == |words| && p.Valid()
    requires good(insts[i].address, LinkAt(|insts|, i, t), words[i])
    requires Underway(p, s, good, code, sizes, blocks, done, insts, i, start, t, words, total, room, sizeRoom, fits)
    requires Stored(code, sizes, Started(blocks[|done|], insts[i].address))
    requires Extends(code, sizes, Started(blocks[|done|], insts[i].address), code1, sizes1, c, insts[i].size, words[i])
    requires Grown(code, code1) && Grown(sizes, sizes1) && c.x86End == insts[i].address + insts[i].size
    requires Answers(Added.Added, room, sizeRoom, i, total, |words[i]|, room1, sizeRoom1)
    ensures Underway(p, s, good, code1, sizes1, blocks[|done| := c], done, insts, i + 1, start, t, words,
      total + |words[i]|, room1, sizeRoom1, fits)
  {
    hide Chain, Stored, Extends, Grown, Answers, Building, Long, StillTakes;
    BuildingBlock(p, s, good, code, sizes, blocks, done, insts, i, start, t);
    KeepBuilding(p, s, good, code, sizes, blocks, code1, sizes1, c, done, insts, i, start, t, words[i]);
    Longer(code, sizes, blocks[|done|], code1, sizes1, c, i, total, insts[i].address, insts[i].size, words[i]);
    TakesNext(Added.Added, room, sizeRoom, words, i, total, room1, sizeRoom1);
  }

  lemma BuildingBlock(p: G.Program, s: iset<nat>, good: Meaning, code: Code, sizes: SizeList, blocks: seq<BlockEntry>,
        done: seq<BlockEntry>, insts: seq<Decoded>, i: nat, start: nat, t: Option<Cell>)
    requires i <= |insts| && Building(p, s, good, code, sizes, blocks, done, insts, i, start, t)
    ensures |blocks| == |done| + 1
  {
  }

  /** Why the next instruction is not added. */
  lemma Refused(p: G.Program, s: iset<nat>, good: Meaning, code: Code, sizes: SizeList, blocks: seq<BlockEntry>,
        done: seq<BlockEntry>, insts: seq<Decoded>, i: nat, start: nat, t: Option<Cell>, words: seq<seq<bv32>>,
        total: nat, room: Room, sizeRoom: Room, room1: Room, sizeRoom1: Room, fits: bool, r: Added)
    requires i < |insts| == |words| && !r.NotConsecutive?
    requires Underway(p, s, good, code, sizes, blocks, done, insts, i, start, t, words, total, room, sizeRoom, fits)
    requires Answers(r, room, sizeRoom, i, total, |words[i]|, room1, sizeRoom1)
    ensures r.CodeFull? || r.OffsetsFull? ==> !fits
    ensures r.PastPages? && i + 1 == |insts| ==> fits
  {
    hide Building, Long, StillTakes, Answers;
    TakesNext(r, room, sizeRoom, words, i, total, room1, sizeRoom1);
    AllTaken(room1, sizeRoom1, words, total + |words[i]|);
  }

  lemma UnderwayParts(p: G.Program, s: iset<nat>, good: Meaning, code: Code, sizes: SizeList, blocks: seq<BlockEntry>,
        done: seq<BlockEntry>, insts: seq<Decoded>, i: nat, start: nat, t: Option<Cell>, words: seq<seq<bv32>>,
        total: nat, room: Room, sizeRoom: Room, fits: bool, address: nat)
    requires i <= |insts| == |words|
    requires Underway(p, s, good, code, sizes, blocks, done, insts, i, start, t, words, total, room, sizeRoom, fits)
    ensures Building(p, s, good, code, sizes, blocks, done, insts, i, start, t) && |blocks| == |done| + 1
    ensures var b := blocks[|done|];
      && b.count == i
      && (Stored(code, sizes, Started(b, address)) ==> |WordsOf(code, sizes, Started(b, address))| == total)
    ensures i == |insts| ==> fits
  {
    hide Building, StillTakes;
    BuildingBlock(p, s, good, code, sizes, blocks, done, insts, i, start, t);
    AllTaken(room, sizeRoom, words, total);
  }

  /** Adds the next translated instruction to the block. */
  method AddNext(store: CodeStore, p: G.Program, ghost s: iset<nat>, ghost good: Meaning, insts: seq<Decoded>,
        words: seq<seq<bv32>>, ghost t: Option<Cell>, ghost start: nat, ghost limit: Option<nat>, h: nat, i: nat,
        ghost done: seq<BlockEntry>, ghost total: nat, ghost fits: bool)
      returns (fault: Option<Reason>)
    requires store.Valid() && p.Valid() && Boundaries(p, s) && EndInside(p, store.base, |store.pages|)
    requires Chain(p, s, insts, start) && Below(insts, limit) && Clear(done, start, limit)
    requires i < |insts| == |words| && h == |done| == |store.blocks| - 1
    requires |words[i]| <= MaxRiscVInstructions && good(insts[i].address, LinkAt(|insts|, i, t), words[i])
    requires Underway(p, s, good, store.code.used, store.offsets.used, store.blocks, done, insts, i, start, t, words,
      total, store.code.Left(), store.offsets.Left(), fits)
    modifies store, store.code, store.code.chunks, store.offsets, store.offsets.chunks
    ensures fault.Some? ==> fault.value == ListsFull || fault.value == Reason.PastPages
    ensures fault == Some(ListsFull) ==> !fits
    ensures fault == Some(Reason.PastPages) ==>
      fits && EndOf(insts, start) == ImageEnd(store.base, |old(store.pages)|)
    ensures fault.None? ==> store.Valid() && |store.pages| == |old(store.pages)| && |store.blocks| == h + 1
    ensures fault.None? ==>
      Underway(p, s, good, store.code.used, store.offsets.used, store.blocks, done, insts, i + 1, start, t, words,
        total + |words[i]|, store.code.Left(), store.offsets.Left(), fits)
    ensures fault.None? ==>
      Grown(old(store.code.used), store.code.used) && Grown(old(store.offsets.used), store.offsets.used)
    ensures old(store.code.chunks) <= store.code.chunks
    ensures forall k :: |old(store.code.chunks)| <= k < |store.code.chunks| ==> fresh(store.code.chunks[k])
    ensures old(store.offsets.chunks) <= store.offsets.chunks
    ensures forall k :: |old(store.offsets.chunks)| <= k < |store.offsets.chunks| ==> fresh(store.offsets.chunks[k])
  {
    hide Boundaries, EndInside, Chain, Below, Clear, Building, Extends, Grown, Free, Stored, Indexed, AllStored;
    hide NoneAtEnd, Answers, Underway, WordsOf, EndOf;
    ghost var n, code, sizes, blocks := |store.pages|, store.code.used, store.offsets.used, store.blocks;
    ghost var room, sizeRoom := store.code.Left(), store.offsets.Left();
    UnderwayParts(p, s, good, code, sizes, blocks, done, insts, i, start, t, words, total, room, sizeRoom, fits,
      insts[i].address);
    ReadyToAdd(p, s, good, code, sizes, store.base, n, blocks, done, insts, i, start, t, limit);
    var r := store.AddInstruction(h, insts[i].address, insts[i].size, words[i]);
    Refused(p, s, good, code, sizes, blocks, done, insts, i, start, t, words, total, room, sizeRoom, store.code.Left(),
      store.offsets.Left(), fits, r);
    if r.PastPages? {
      LastEnds(p, s, store.base, n, insts, start, i);
      return Some(Reason.PastPages);
    }
    if !r.Added? {
      return Some(ListsFull);
    }
    StillUnderway(p, s, good, code, sizes, blocks, store.code.used, store.offsets.used, store.blocks[h], done, insts,
      i, start, t, words, total, room, sizeRoom, store.code.Left(), store.offsets.Left(), fits);
    fault := None;
  }

  /** Adds the translated instructions to a new block; the lists have no room exactly if the block does not fit. */
  method AddBlock(store: CodeStore, p: G.Program, ghost s: iset<nat>, ghost good: Meaning, insts: seq<Decoded>,
        words: seq<seq<bv32>>, ghost t: Option<Cell>, ghost start: nat, ghost limit: Option<nat>)
      returns (h: nat, fault: Option<Reason>)
    requires store.Valid() && p.Valid() && Boundaries(p, s) && EndInside(p, store.base, |store.pages|)
    requires Sound(p, s, good, store.code.used, store.offsets.used, store.blocks)
    requires Chain(p, s, insts, start) && Below(insts, limit) && insts != [] && Clear(store.blocks, start, limit)
    requires |words| == |insts| && forall i :: 0 <= i < |insts| ==>
      |words[i]| <= MaxRiscVInstructions && good(insts[i].address, LinkAt(|insts|, i, t), words[i])
    modifies store, store.code, store.code.chunks, store.offsets, store.offsets.chunks
    ensures fault.Some? ==> fault.value == ListsFull || fault.value == Reason.PastPages
    ensures fault == Some(ListsFull) <==> !FitsIn(old(store.code.Left()), old(store.offsets.Left()), words)
    ensures fault == Some(Reason.PastPages) ==> EndOf(insts, start) == ImageEnd(store.base, |old(store.pages)|)
    ensures fault.None? ==> EndOf(insts, start) != ImageEnd(store.base, |old(store.pages)|)
    ensures fault.None? ==> store.Valid() && |store.pages| == |old(store.pages)|
    ensures fault.None? ==>
      Grown(old(store.code.used), store.code.used) && Grown(old(store.offsets.used), store.offsets.used)
    ensures fault.None? ==> h == |old(store.blocks)| && Building(p, s, good, store.code.used, store.offsets.used,
      store.blocks, old(store.blocks), insts, |insts|, start, t)
  {
    hide Boundaries, EndInside, Chain, Below, Clear, Sound, Building, Extends, Grown, Free, Stored, Indexed, AllStored;
    hide NoneAtEnd, Underway, FitsIn, EndOf;
    ghost var done, n := store.blocks, |store.pages|;
    ghost var fits, total: nat := FitsIn(store.code.Left(), store.offsets.Left(), words), 0;
    h := store.CreateBlock();
    StartUnderway(p, s, good, store.code.used, store.offsets.used, done, insts, start, t, words, store.code.Left(),
      store.offsets.Left());
    GrownSelf(store.code.used);
    GrownSelf(store.offsets.used);
    var i := 0;
    while i < |insts|
      invariant 0 <= i <= |insts| && h == |done| == |store.blocks| - 1
      invariant store.Valid() && |store.pages| == n
      invariant Underway(p, s, good, store.code.used, store.offsets.used, store.blocks, done, insts, i, start, t, words,
        total, store.code.Left(), store.offsets.Left(), fits)
      invariant Grown(old(store.code.used), store.code.used) && Grown(old(store.offsets.used), store.offsets.used)
      invariant old(store.code.chunks) <= store.code.chunks
      invariant forall k :: |old(store.code.chunks)| <= k < |store.code.chunks| ==> fresh(store.code.chunks[k])
      invariant old(store.offsets.chunks) <= store.offsets.chunks
      invariant forall k :: |old(store.offsets.chunks)| <= k < |store.offsets.chunks| ==> fresh(store.offsets.chunks[k])
    {
      ghost var code, sizes := store.code.used, store.offsets.used;
      fault := AddNext(store, p, s, good, insts, words, t, start, limit, h, i, done, total, fits);
      if fault.Some? {
        return;
      }
      GrownTrans(old(store.code.used), code, store.code.used);
      GrownTrans(old(store.offsets.used), sizes, store.offsets.used);
      total := total + |words[i]|;
      i := i + 1;
    }
    UnderwayParts(p, s, good, store.code.used, store.offsets.used, store.blocks, done, insts, i, start, t, words, total,
      store.code.Left(), store.offsets.Left(), fits, 0);
    BuiltEnd(p, s, good, store.code.used, store.offsets.used, store.blocks, done, insts, start, t);
    BeforeEnd(store.base, n, store.blocks, h);
    fault := None;
  }

  lemma StartUnderway(p: G.Program, s: iset<nat>, good: Meaning, code: Code, sizes: SizeList, done: seq<BlockEntry>,
        insts: seq<Decoded>, start: nat, t: Option<Cell>, words: seq<seq<bv32>>, room: Room, sizeRoom: Room)
    requires Sound(p, s, good, code, sizes, done)
    requires (room.begun || room.left == 0) && (sizeRoom.begun || sizeRoom.left == 0)
    ensures Underway(p, s, good, code, sizes, done + [BlockEntry(0, 0, None, 0, None)], done, insts, 0, start, t, words,
      0, room, sizeRoom, FitsIn(room, sizeRoom, words))
  {
    hide Sound, FitsIn, StillTakes, Building, Long;
    StartBuilding(p, s, good, code, sizes, done, insts, start, t);
    LongNone(code, sizes);
    TakesIfFits(room, sizeRoom, words);
  }

  /** Nothing follows an instruction that ends where the image ends. */
  lemma LastEnds(p: G.Program, s: iset<nat>, base: nat, n: nat, insts: seq<Decoded>, start: nat, i: nat)
    requires Chain(p, s, insts, start) && i < |insts| && p.Valid() && EndInside(p, base, n)
    requires insts[i].address + insts[i].size == ImageEnd(base, n)
    ensures EndOf(insts, start) == ImageEnd(base, n) && i + 1 == |insts|
  {
    if i < |insts| - 1 {
      assert IsInstruction(p, s, insts[i + 1].address, insts[i + 1].size);
      SizePositive(p, s, insts[i + 1].address, insts[i + 1].size);
    }
  }

  lemma BuiltEnd(p: G.Program, s: iset<nat>, good: Meaning, code: Code, sizes: SizeList, blocks: seq<BlockEntry>,
        done: seq<BlockEntry>, insts: seq<Decoded>, start: nat, t: Option<Cell>)
    requires insts != [] && Building(p, s, good, code, sizes, blocks, done, insts, |insts|, start, t)
    ensures blocks[|done|].count > 0 && blocks[|done|].x86End == EndOf(insts, start)
  {
    hide Sound, Faithful, Stored;
    assert insts[..|insts|] == insts;
  }

  lemma BeforeEnd(base: nat, n: nat, blocks: seq<BlockEntry>, h: nat)
    requires NoneAtEnd(base, n, blocks) && h < |blocks| && blocks[h].count > 0
    ensures blocks[h].x86End != ImageEnd(base, n)
  {
    assert blocks[h] in blocks;
  }

  /** The next instruction of the chain can be added. */
  lemma ReadyToAdd(p: G.Program, s: iset<nat>, good: Meaning, code: Code, sizes: SizeList, base: nat, n: nat,
        blocks: seq<BlockEntry>, done: seq<BlockEntry>, insts: seq<Decoded>, i: nat, start: nat, t: Option<Cell>,
        limit: Option<nat>)
    requires Boundaries(p, s) && EndInside(p, base, n) && p.Valid() && Chain(p, s, insts, start) && Below(insts, limit)
    requires i < |insts|
    requires Clear(done, start, limit) && Building(p, s, good, code, sizes, blocks, done, insts, i, start, t)
    ensures 1 <= insts[i].size <= 15 && Free(base, n, blocks, |done|, insts[i].address, insts[i].size)
    ensures blocks[|done|].count > 0 ==> blocks[|done|].x86End == insts[i].address
  {
    hide Boundaries, EndInside, Chain, Clear, Faithful, Stored, Free, Sound;
    ChainInOrder(p, s, insts, start, i);
    SizePositive(p, s, insts[i].address, insts[i].size);
    IsFree(p, s, good, code, sizes, base, n, blocks, |done|, start, limit, insts[i]);
  }

  // ---- the whole translation ----------------------------------------------------------------------------------------

  lemma BlockOnBoundaries(p: G.Program, s: iset<nat>, good: Meaning, code: Code, sizes: SizeList,
        blocks: seq<BlockEntry>, b: BlockEntry)
    requires Stored(code, sizes, b) && FaithfulBlock(p, s, good, code, sizes, blocks, b)
    ensures OnBoundaries(p, s, Translated(b, InstsOf(code, sizes, b)))
  {
    hide Slice, IsInstruction, Aims;
  }

  /** A query at a boundary is found, or lies in no block. */
  lemma BoundaryFound(p: G.Program, s: iset<nat>, good: Meaning, code: Code, sizes: SizeList, blocks: seq<BlockEntry>,
        a: nat)
    requires Boundaries(p, s) && Sound(p, s, good, code, sizes, blocks) && AllStored(code, sizes, blocks) && a in s
    requires AllApart(TranslatedBlocks(code, sizes, blocks))
    ensures var r := Scan(TranslatedBlocks(code, sizes, blocks), a);
      r.Found? || (r.Missing? && forall i :: 0 <= i < |blocks| ==> !blocks[i].Contains(a))
  {
    hide Boundaries, Scan, ScanBlock, FaithfulBlock, Stored, AllApart;
    var v := TranslatedBlocks(code, sizes, blocks);
    if i :| 0 <= i < |blocks| && blocks[i].Contains(a) {
      assert v[i] == Translated(blocks[i], InstsOf(code, sizes, blocks[i]));
      assert FaithfulBlock(p, s, good, code, sizes, blocks, blocks[i]);
      BlockOnBoundaries(p, s, good, code, sizes, blocks, blocks[i]);
      AtStart(v[i], a);
      NoJumpInside(p, s, v[i], a, 0);
      ScanFinds(v, a, i);
    } else {
      ScanMisses(v, a);
    }
  }

  lemma AtStart(t: Translated, a: nat)
    requires t.entry.Contains(a)
    ensures GuestAt(t.entry, t.insts, 0) <= a
  {
    assert t.insts[..0] == [];
  }

  function StartLimit(blocks: seq<BlockEntry>, next: Option<nat>): Option<nat>
    requires next.Some? ==> next.value < |blocks|
  {
    if next.None? then None else Some(blocks[next.value].x86Start)
  }

  lemma NextClear(blocks: seq<BlockEntry>, a: nat, next: Option<nat>)
    requires IsNext(blocks, a, next) && forall i :: 0 <= i < |blocks| ==> !blocks[i].Contains(a)
    requires forall i :: 0 <= i < |blocks| && blocks[i].count > 0 ==> blocks[i].x86Start < blocks[i].x86End
    ensures Clear(blocks, a, StartLimit(blocks, next)) && StartLimit(blocks, next) != Some(a)
    ensures next.Some? ==> a <= blocks[next.value].x86Start && blocks[next.value].count > 0
  {
    forall i | 0 <= i < |blocks| && blocks[i].count > 0
      ensures blocks[i].x86End <= a || (next.Some? && blocks[next.value].x86Start <= blocks[i].x86Start)
    {
      assert blocks[i] in blocks;
    }
  }

  lemma NonEmptyBlocks(base: nat, pages: seq<seq<nat>>, blocks: seq<BlockEntry>)
    requires Indexed(base, pages, blocks)
    ensures forall i :: 0 <= i < |blocks| && blocks[i].count > 0 ==> blocks[i].x86Start < blocks[i].x86End
  {
    forall i | 0 <= i < |blocks| && blocks[i].count > 0 ensures blocks[i].x86Start < blocks[i].x86End {
      assert blocks[i] in blocks;
    }
  }

  lemma {:induction false} ScanPrefix(v: seq<Translated>, t: Translated, a: nat)
    requires AllValid(v + [t]) && AllValid(v)
    ensures Scan(v, a) != Missing ==> Scan(v + [t], a) == Scan(v, a)
  {
    if v != [] {
      assert (v + [t])[1..] == v[1..] + [t];
      ScanPrefix(v[1..], t, a);
    }
  }

  /** Translations that could be found before are still found where they were. */
  lemma FoundStays(code: Code, sizes: SizeList, blocks: seq<BlockEntry>, code1: Code, sizes1: SizeList,
        blocks1: seq<BlockEntry>, a: nat)
    requires AllStored(code, sizes, blocks) && AllStored(code1, sizes1, blocks1) && Grown(code, code1)
    requires Grown(sizes, sizes1)
    requires |blocks1| == |blocks| + 1 && blocks1[..|blocks|] == blocks
    ensures var r := Scan(TranslatedBlocks(code, sizes, blocks), a);
      r != Missing ==> Scan(TranslatedBlocks(code1, sizes1, blocks1), a) == r
  {
    hide Scan, Stored, Grown, Growing;
    var v, w := TranslatedBlocks(code, sizes, blocks), TranslatedBlocks(code1, sizes1, blocks1);
    forall i | 0 <= i < |v| ensures v[i] == w[i] {
      assert blocks1[i] == blocks1[..|blocks|][i];
      StoredGrows(code, sizes, code1, sizes1, blocks[i]);
    }
    assert w == v + [w[|v|]];
    ScanPrefix(v, w[|v|], a);
  }

  lemma NewBlockFound(code: Code, sizes: SizeList, blocks: seq<BlockEntry>, h: nat)
    requires AllStored(code, sizes, blocks) && AllApart(TranslatedBlocks(code, sizes, blocks)) && h < |blocks|
    requires blocks[h].count > 0 && blocks[h].x86Start < blocks[h].x86End
    ensures blocks[h].riscvStart.Some?
    ensures Scan(TranslatedBlocks(code, sizes, blocks), blocks[h].x86Start) == Found(blocks[h].riscvStart.value)
  {
    hide Scan, Growing, AllApart;
    var v, a := TranslatedBlocks(code, sizes, blocks), blocks[h].x86Start;
    ScanFinds(v, a, h);
    var t := v[h];
    assert t.insts[..0] == [];
    assert GuestAt(t.entry, t.insts, 0) == a && HostAt(t.entry, t.insts, 0) == t.entry.riscvStart.value;
  }

  /** What each instruction is translated to; the last one may be linked to the next block. */
  function WordsFor(insts: seq<Decoded>, body: nat -> seq<bv32>, link: seq<bv32>): (w: seq<seq<bv32>>)
    ensures |w| == |insts|
    ensures forall i :: 0 <= i < |w| ==> w[i] == body(insts[i].address) + if i == |insts| - 1 then link else []
  {
    seq(|insts|, i requires 0 <= i < |insts| => body(insts[i].address) + if i == |insts| - 1 then link else [])
  }

  /** What instructions are translated to fits a batch and means the right thing, linked or not. */
  ghost predicate Emits(good: Meaning, body: nat -> seq<bv32>, link: Cell -> seq<bv32>) {
    && (forall a: nat :: |body(a)| <= MaxRiscVInstructions && good(a, None, body(a)))
    && (forall a: nat, c: Cell {:trigger body(a), link(c)} ::
      |body(a) + link(c)| <= MaxRiscVInstructions && good(a, Some(c), body(a) + link(c)))
  }

  lemma EmitsWords(good: Meaning,
        body: nat -> seq<bv32>, link: Cell -> seq<bv32>, insts: seq<Decoded>, c: Option<Cell>, i: nat)
    requires Emits(good, body, link) && i < |insts|
    ensures var w := WordsFor(insts, body, if c.Some? then link(c.value) else [])[i];
      |w| <= MaxRiscVInstructions && good(insts[i].address, LinkAt(|insts|, i, c), w)
  {
    var a := insts[i].address;
    assert body(a) + [] == body(a);
    assert c.Some? ==> |body(a) + link(c.value)| <= MaxRiscVInstructions && good(a, c, body(a) + link(c.value));
  }

  /** The invariant of the store and the guest program it translates. */
  ghost predicate Consistent(store: CodeStore, image: Image, p: G.Program, s: iset<nat>, good: Meaning)
    reads store, store.code, store.code.chunks, store.offsets, store.offsets.chunks
  {
    && store.Valid() && p.Valid() && Boundaries(p, s) && EndInside(p, store.base, |store.pages|)
    && image.base == store.base && |image.executable| == |store.pages|
    && Sound(p, s, good, store.code.used, store.offsets.used, store.blocks)
  }

  /** The start of the next block at or above the address, if there is one. */
  ghost predicate Limited(blocks: seq<BlockEntry>, a: nat, limit: Option<nat>) {
    exists next: Option<nat> ::
      IsNext(blocks, a, next) && (next.Some? ==> next.value < |blocks|) && limit == StartLimit(blocks, next)
  }

  /** The block to be translated at the address, and the code of the block that it falls into. */
  ghost predicate NewBlock(p: G.Program, s: iset<nat>, blocks: seq<BlockEntry>, addr: nat, insts: seq<Decoded>,
        t: Option<Cell>) {
    && (exists limit: Option<nat> :: Limited(blocks, addr, limit) && BlockFrom(p, s, addr, limit, insts))
    && if Ends(p, insts) then t.None?
       else t.Some? && exists j :: 0 <= j < |blocks| && StartsAt(blocks[j], EndOf(insts, addr), t.value)
  }

  function LinkedWords(insts: seq<Decoded>, body: nat -> seq<bv32>, link: Cell -> seq<bv32>, t: Option<Cell>)
    : seq<seq<bv32>>
  {
    WordsFor(insts, body, if t.Some? then link(t.value) else [])
  }

  /** What becomes of the block: the lists have no room for it, or it runs off the page lists, or neither. */
  ghost predicate Treated(image: Image, p: G.Program, s: iset<nat>, blocks: seq<BlockEntry>, room: Room, sizeRoom: Room,
        body: nat -> seq<bv32>, link: Cell -> seq<bv32>, addr: nat, insts: seq<Decoded>, t: Option<Cell>, r: Outcome)
  {
    && NewBlock(p, s, blocks, addr, insts, t)
    && if !FitsIn(room, sizeRoom, LinkedWords(insts, body, link, t)) then r == Fault(ListsFull)
       else if EndOf(insts, addr) == image.End() then r == Fault(Reason.PastPages)
       else r.Host?
  }

  /**
   Why the translation of an address ends as it does, told from the guest program, the blocks
   there were before and the room that was left.
   */
  ghost predicate Reply(image: Image, p: G.Program, s: iset<nat>, known: bool, blocks: seq<BlockEntry>, room: Room,
        sizeRoom: Room, body: nat -> seq<bv32>, link: Cell -> seq<bv32>, addr: nat, r: Outcome)
  {
    if !image.MayExecute(addr) then r == Fault(NotExecutable)
    else if known then r.Host?
    else if exists limit: Option<nat> :: Limited(blocks, addr, limit) && Stuck(p, s, addr, limit)
      then r == Fault(Undecodable)
    else exists insts, t :: Treated(image, p, s, blocks, room, sizeRoom, body, link, addr, insts, t, r)
  }

  lemma ReplyRefused(image: Image, p: G.Program, s: iset<nat>, known: bool, blocks: seq<BlockEntry>, room: Room,
        sizeRoom: Room, body: nat -> seq<bv32>, link: Cell -> seq<bv32>, addr: nat)
    requires !image.MayExecute(addr)
    ensures Reply(image, p, s, known, blocks, room, sizeRoom, body, link, addr, Fault(NotExecutable))
  {
  }

  lemma ReplyKnown(image: Image, p: G.Program, s: iset<nat>, blocks: seq<BlockEntry>, room: Room, sizeRoom: Room,
        body: nat -> seq<bv32>, link: Cell -> seq<bv32>, addr: nat, r: Outcome)
    requires image.MayExecute(addr) && r.Host?
    ensures Reply(image, p, s, true, blocks, room, sizeRoom, body, link, addr, r)
  {
  }

  lemma LimitOnce(blocks: seq<BlockEntry>, a: nat, x: Option<nat>, y: Option<nat>)
    requires Limited(blocks, a, x) && Limited(blocks, a, y)
    ensures x == y
  {
    var m: Option<nat> :| IsNext(blocks, a, m) && (m.Some? ==> m.value < |blocks|) && x == StartLimit(blocks, m);
    var n: Option<nat> :| IsNext(blocks, a, n) && (n.Some? ==> n.value < |blocks|) && y == StartLimit(blocks, n);
    assert m.Some? ==> blocks[m.value] in blocks;
    assert n.Some? ==> blocks[n.value] in blocks;
  }

  lemma StartOnce(blocks: seq<BlockEntry>, v: seq<Translated>, a: nat, i: nat, j: nat, c: Cell, d: Cell)
    requires AllApart(v) && |v| == |blocks| && i < |blocks| && j < |blocks|
    requires forall k :: 0 <= k < |v| ==> v[k].entry == blocks[k]
    requires forall k :: 0 <= k < |blocks| && blocks[k].count > 0 ==> blocks[k].x86Start < blocks[k].x86End
    requires StartsAt(blocks[i], a, c) && StartsAt(blocks[j], a, d)
    ensures c == d
  {
    assert v[i].entry.Contains(a) && v[j].entry.Contains(a);
  }

  lemma NewBlockOnce(p: G.Program, s: iset<nat>, v: seq<Translated>, blocks: seq<BlockEntry>, addr: nat,
        a: seq<Decoded>, t: Option<Cell>, b: seq<Decoded>, u: Option<Cell>)
    requires AllApart(v) && |v| == |blocks| && forall k :: 0 <= k < |v| ==> v[k].entry == blocks[k]
    requires forall k :: 0 <= k < |blocks| && blocks[k].count > 0 ==> blocks[k].x86Start < blocks[k].x86End
    requires NewBlock(p, s, blocks, addr, a, t) && NewBlock(p, s, blocks, addr, b, u)
    ensures a == b && t == u
  {
    hide AllApart, BlockFrom, Ends, EndOf, Limited, StartsAt;
    var x: Option<nat> :| Limited(blocks, addr, x) && BlockFrom(p, s, addr, x, a);
    var y: Option<nat> :| Limited(blocks, addr, y) && BlockFrom(p, s, addr, y, b);
    LimitOnce(blocks, addr, x, y);
    BlockOnce(p, s, addr, x, a, b);
    if !Ends(p, a) {
      var i :| 0 <= i < |blocks| && StartsAt(blocks[i], EndOf(a, addr), t.value);
      var j :| 0 <= j < |blocks| && StartsAt(blocks[j], EndOf(a, addr), u.value);
      StartOnce(blocks, v, EndOf(a, addr), i, j, t.value, u.value);
    }
  }

  /** A reply is determined, but for where the code lies: so each reason is given exactly when it applies. */
  lemma ReplyOnce(image: Image, p: G.Program, s: iset<nat>, known: bool, v: seq<Translated>, blocks: seq<BlockEntry>,
        room: Room, sizeRoom: Room, body: nat -> seq<bv32>, link: Cell -> seq<bv32>, addr: nat, q: Outcome, r: Outcome)
    requires AllApart(v) && |v| == |blocks| && forall k :: 0 <= k < |v| ==> v[k].entry == blocks[k]
    requires forall k :: 0 <= k < |blocks| && blocks[k].count > 0 ==> blocks[k].x86Start < blocks[k].x86End
    requires Reply(image, p, s, known, blocks, room, sizeRoom, body, link, addr, q)
    requires Reply(image, p, s, known, blocks, room, sizeRoom, body, link, addr, r)
    ensures (q.Host? && r.Host?) || q == r
  {
    hide AllApart, NewBlock, FitsIn, LinkedWords, EndOf, Limited, Stuck;
    if image.MayExecute(addr) && !known
      && !exists limit: Option<nat> :: Limited(blocks, addr, limit) && Stuck(p, s, addr, limit)
    {
      var a, t :| Treated(image, p, s, blocks, room, sizeRoom, body, link, addr, a, t, q);
      var b, u :| Treated(image, p, s, blocks, room, sizeRoom, body, link, addr, b, u, r);
      NewBlockOnce(p, s, v, blocks, addr, a, t, b, u);
    }
  }

  lemma ReplyBlock(image: Image, p: G.Program, s: iset<nat>, blocks: seq<BlockEntry>, room: Room, sizeRoom: Room,
        body: nat -> seq<bv32>, link: Cell -> seq<bv32>, addr: nat, limit: Option<nat>, insts: seq<Decoded>,
        t: Option<Cell>, r: Outcome)
    requires image.MayExecute(addr) && Limited(blocks, addr, limit) && BlockFrom(p, s, addr, limit, insts)
    requires Treated(image, p, s, blocks, room, sizeRoom, body, link, addr, insts, t, r)
    ensures Reply(image, p, s, false, blocks, room, sizeRoom, body, link, addr, r)
  {
    hide NewBlock, FitsIn, LinkedWords, EndOf, Limited, Stuck, BlockFrom, Treated;
    forall x: Option<nat> | Limited(blocks, addr, x) ensures !Stuck(p, s, addr, x) {
      LimitOnce(blocks, addr, limit, x);
      BlockNotStuck(p, s, addr, limit, insts);
    }
  }

  lemma ReplyStuck(image: Image, p: G.Program, s: iset<nat>, blocks: seq<BlockEntry>, room: Room, sizeRoom: Room,
        body: nat -> seq<bv32>, link: Cell -> seq<bv32>, addr: nat, limit: Option<nat>)
    requires image.MayExecute(addr) && Limited(blocks, addr, limit) && Stuck(p, s, addr, limit)
    ensures Reply(image, p, s, false, blocks, room, sizeRoom, body, link, addr, Fault(Undecodable))
  {
    hide Limited, Stuck, Treated;
  }

  lemma BlockFromParts(p: G.Program, s: iset<nat>, start: nat, limit: Option<nat>, insts: seq<Decoded>)
    requires BlockFrom(p, s, start, limit, insts)
    ensures insts != [] && Chain(p, s, insts, start) && Below(insts, limit)
    ensures !Ends(p, insts) ==> limit == Some(EndOf(insts, start))
  {
    hide Chain, Below, Ends, EndOf;
  }

  lemma IsTreated(image: Image, p: G.Program, s: iset<nat>, blocks: seq<BlockEntry>, room: Room, sizeRoom: Room,
        body: nat -> seq<bv32>, link: Cell -> seq<bv32>, addr: nat, limit: Option<nat>, insts: seq<Decoded>,
        t: Option<Cell>, failed: Option<Reason>, c: Cell)
    requires image.MayExecute(addr) && Limited(blocks, addr, limit) && BlockFrom(p, s, addr, limit, insts)
    requires if Ends(p, insts) then t.None?
      else t.Some? && exists j :: 0 <= j < |blocks| && StartsAt(blocks[j], EndOf(insts, addr), t.value)
    requires failed.Some? ==> failed.value == ListsFull || failed.value == Reason.PastPages
    requires failed == Some(ListsFull) <==> !FitsIn(room, sizeRoom, LinkedWords(insts, body, link, t))
    requires failed == Some(Reason.PastPages) ==> EndOf(insts, addr) == image.End()
    requires failed.None? ==> EndOf(insts, addr) != image.End()
    ensures Reply(image, p, s, false, blocks, room, sizeRoom, body, link, addr,
      if failed.Some? then Fault(failed.value) else Host(c))
  {
    hide Limited, BlockFrom, Ends, EndOf, StartsAt, FitsIn, LinkedWords, Reply;
    ReplyBlock(image, p, s, blocks, room, sizeRoom, body, link, addr, limit, insts, t,
      if failed.Some? then Fault(failed.value) else Host(c));
  }

  lemma AnyHost(image: Image, p: G.Program, s: iset<nat>, blocks: seq<BlockEntry>, room: Room, sizeRoom: Room,
        body: nat -> seq<bv32>, link: Cell -> seq<bv32>, addr: nat, c: Cell, d: Cell)
    requires Reply(image, p, s, false, blocks, room, sizeRoom, body, link, addr, Host(c))
    ensures Reply(image, p, s, false, blocks, room, sizeRoom, body, link, addr, Host(d))
  {
    hide NewBlock, FitsIn, LinkedWords, EndOf, Limited, Stuck;
    if image.MayExecute(addr) {
      var insts, t :| Treated(image, p, s, blocks, room, sizeRoom, body, link, addr, insts, t, Host(c));
      assert Treated(image, p, s, blocks, room, sizeRoom, body, link, addr, insts, t, Host(d));
    }
  }

  lemma WordsLinked(insts: seq<Decoded>, body: nat -> seq<bv32>, link: Cell -> seq<bv32>, t: Option<Cell>)
    ensures LinkedWords(insts, body, link, t) == WordsFor(insts, body, if t.Some? then link(t.value) else [])
  {
  }

  lemma NextStarts(blocks: seq<BlockEntry>, j: nat, a: nat, c: Cell)
    requires j < |blocks| && blocks[j].count > 0 && blocks[j].x86Start == a && blocks[j].riscvStart == Some(c)
    ensures StartsAt(blocks[j], a, c)
  {
  }

  lemma LimitedBy(blocks: seq<BlockEntry>, a: nat, next: Option<nat>)
    requires IsNext(blocks, a, next) && (next.Some? ==> next.value < |blocks|)
    ensures Limited(blocks, a, StartLimit(blocks, next))
  {
    hide IsNext, StartLimit;
  }

  /** The guest runs straight on from the address up to where the image ends. */
  ghost predicate ReachesEnd(image: Image, p: G.Program, s: iset<nat>, addr: nat) {
    exists insts: seq<Decoded> :: insts != [] && Chain(p, s, insts, addr) && EndOf(insts, addr) == image.End()
  }

  lemma ReachedEnd(image: Image, p: G.Program, s: iset<nat>, insts: seq<Decoded>, addr: nat)
    requires insts != [] && Chain(p, s, insts, addr) && EndOf(insts, addr) == image.End()
    ensures ReachesEnd(image, p, s, addr)
  {
    hide Chain, EndOf;
  }

  /** Where the next block's code is. */
  function NextHost(code: Code, sizes: SizeList, blocks: seq<BlockEntry>, next: Option<nat>): (c: Option<Cell>)
    requires next.Some? && next.value < |blocks| && AllStored(code, sizes, blocks) && blocks[next.value].count > 0
    ensures blocks[next.value].riscvStart.Some? && c == Some(blocks[next.value].riscvStart.value)
  {
    assert Stored(code, sizes, blocks[next.value]);
    Some(blocks[next.value].riscvStart.value)
  }

  /** The finished block aims at the block it falls into, if it does not end by itself. */
  lemma FinishedBuilding(p: G.Program, s: iset<nat>, good: Meaning, code: Code, sizes: SizeList, base: nat,
        pages: seq<seq<nat>>, blocks: seq<BlockEntry>, done: seq<BlockEntry>, insts: seq<Decoded>, start: nat,
        t: Option<Cell>)
    requires insts != [] && Building(p, s, good, code, sizes, blocks, done, insts, |insts|, start, t)
    requires Indexed(base, pages, blocks) && Chain(p, s, insts, start) && Ends(p, insts) == t.None?
    requires t.Some? ==> exists j :: 0 <= j < |done| && StartsAt(done[j], EndOf(insts, start), t.value)
    ensures Sound(p, s, good, code, sizes, blocks) && |blocks| == |done| + 1 && blocks[..|done|] == done
    ensures var b := blocks[|done|]; b.count > 0 && b.x86Start == start && b.x86Start < b.x86End
  {
    hide Sound, Faithful, Indexed, Chain;
    var b := blocks[|done|];
    BuiltEnd(p, s, good, code, sizes, blocks, done, insts, start, t);
    NonEmptyBlocks(base, pages, blocks);
    ChainInOrder(p, s, insts, start, |insts| - 1);
    AimsThere(p, blocks, done, b, InstsOf(code, sizes, b), insts, start, t);
    SoundAll(p, s, good, code, sizes, blocks, done, t);
  }

  lemma AimsThere(p: G.Program, blocks: seq<BlockEntry>, done: seq<BlockEntry>, b: BlockEntry,
        stored: seq<InstructionOffset>, insts: seq<Decoded>, start: nat, t: Option<Cell>)
    requires insts != [] && |stored| == |insts| && insts[|insts| - 1].address in p.code && Ends(p, insts) == t.None?
    requires GuestAt(b, stored, |stored| - 1) == insts[|insts| - 1].address && b.x86End == EndOf(insts, start)
    requires done <= blocks
    requires t.Some? ==> exists j :: 0 <= j < |done| && StartsAt(done[j], EndOf(insts, start), t.value)
    ensures Aims(p, blocks, b, stored, t)
  {
    if t.Some? {
      var j :| 0 <= j < |done| && StartsAt(done[j], EndOf(insts, start), t.value);
      assert StartsAt(blocks[j], b.x86End, t.value);
    }
  }

  lemma SoundAll(p: G.Program, s: iset<nat>, good: Meaning, code: Code, sizes: SizeList, blocks: seq<BlockEntry>,
        done: seq<BlockEntry>, t: Option<Cell>)
    requires Sound(p, s, good, code, sizes, done) && |blocks| == |done| + 1 && blocks[..|done|] == done
    requires var b := blocks[|done|];
      && Stored(code, sizes, b) && Faithful(p, s, good, b, InstsOf(code, sizes, b), WordsOf(code, sizes, b), t)
      && Aims(p, blocks, b, InstsOf(code, sizes, b), t)
    ensures Sound(p, s, good, code, sizes, blocks)
  {
    hide Stored, Faithful, Aims, InstsOf, WordsOf;
    GrownSelf(code);
    GrownSelf(sizes);
    SoundGrows(p, s, good, code, sizes, code, sizes, done, blocks);
    forall i | 0 <= i < |blocks|
      ensures Stored(code, sizes, blocks[i])
      ensures FaithfulBlock(p, s, good, code, sizes, blocks, blocks[i])
    {
      assert i < |done| ==> blocks[i] == done[i];
    }
  }

  lemma SubSection<T>(s: seq<T>, a: nat, n: nat, x: nat, y: nat)
    requires x <= y <= n && a + n <= |s|
    ensures s[a..a + n][x..y] == s[a + x..a + y]
  {
    var u, v := s[a..a + n][x..y], s[a + x..a + y];
    forall i | 0 <= i < y - x ensures u[i] == v[i] {
      assert s[a..a + n][x + i] == s[a + x + i];
    }
  }

  /** The words at instruction i of a stored block. */
  lemma WordsThere(code: Code, sizes: SizeList, b: BlockEntry, i: nat)
    requires Stored(code, sizes, b) && i < b.count
    ensures var insts, w := InstsOf(code, sizes, b), WordsOf(code, sizes, b);
      var c, n := HostAt(b, insts, i), |Slice(insts, w, i)|;
      Section(code, c, n) && Contents(code, c, n) == Slice(insts, w, i)
  {
    hide TotalX86, TotalRiscV, Sizes;
    var insts, w, start := InstsOf(code, sizes, b), WordsOf(code, sizes, b), b.riscvStart.value;
    WordsInOrder(insts, i);
    var x, y := WordAt(insts, i), WordAt(insts, i + 1);
    SubSection(code[start.chunk], start.index, |w|, x, y);
    assert HostAt(b, insts, i) == Cell(start.chunk, start.index + x);
  }

  /**
   The n words at c are the instruction's at `a`.  If it does not end its block, a lookup of
   the next one finds the words behind them, or the target t of the link they end in.
   */
  ghost predicate GoesOn(p: G.Program, v: seq<Translated>, a: nat, c: Cell, n: nat, t: Option<Cell>)
    requires AllValid(v)
  {
    && a in p.code
    && if p.code[a].eob then t.None?
       else Scan(v, a + p.code[a].size) == Found(if t.Some? then t.value else Advance(c, 4 * n))
  }

  /**
   Whatever a lookup finds is code that translates the instruction at that address.  Where
   the guest goes on behind it, so does the host: the words of the next instruction follow,
   or these end in a link to where a lookup finds it.
   */
  lemma FoundTranslates(store: CodeStore, image: Image, p: G.Program, s: iset<nat>, good: Meaning, a: nat)
      returns (n: nat, t: Option<Cell>)
    requires Consistent(store, image, p, s, good) && Scan(store.View(), a).Found?
    ensures var c := Scan(store.View(), a).host;
      && a in s && Section(store.code.used, c, n) && good(a, t, Contents(store.code.used, c, n))
      && GoesOn(p, store.View(), a, c, n, t)
  {
    hide Scan, Slice, Faithful, FaithfulBlock, Indexed, Boundaries, Section, Contents, GuestAt, HostAt, AllApart;
    hide AllStored, NoneAtEnd;
    var code, sizes, blocks := store.code.used, store.offsets.used, store.blocks;
    var h, i := FoundInstruction(store.View(), a);
    assert store.View()[h] == Translated(blocks[h], InstsOf(code, sizes, blocks[h]));
    assert FaithfulBlock(p, s, good, code, sizes, blocks, blocks[h]);
    NonEmptyBlocks(store.base, store.pages, blocks);
    n, t := FoundAt(p, s, good, code, sizes, blocks, h, i);
  }

  /** The same for an instruction of a block. */
  lemma FoundAt(p: G.Program, s: iset<nat>, good: Meaning, code: Code, sizes: SizeList, blocks: seq<BlockEntry>,
        h: nat, i: nat)
      returns (n: nat, t: Option<Cell>)
    requires AllStored(code, sizes, blocks) && AllApart(TranslatedBlocks(code, sizes, blocks))
    requires forall j :: 0 <= j < |blocks| && blocks[j].count > 0 ==> blocks[j].x86Start < blocks[j].x86End
    requires h < |blocks| && i < blocks[h].count && FaithfulBlock(p, s, good, code, sizes, blocks, blocks[h])
    ensures var a, c := GuestAt(blocks[h], InstsOf(code, sizes, blocks[h]), i),
        HostAt(blocks[h], InstsOf(code, sizes, blocks[h]), i);
      && a in s && Section(code, c, n) && good(a, t, Contents(code, c, n))
      && GoesOn(p, TranslatedBlocks(code, sizes, blocks), a, c, n, t)
  {
    hide Scan, Slice, Faithful, Section, Contents, Aims, GuestAt, HostAt, AllApart;
    var b := blocks[h];
    var insts, w := InstsOf(code, sizes, b), WordsOf(code, sizes, b);
    var u :| Faithful(p, s, good, b, insts, w, u) && Aims(p, blocks, b, insts, u);
    n, t := |Slice(insts, w, i)|, LinkAt(|insts|, i, u);
    WordsThere(code, sizes, b, i);
    FaithfulAt(p, s, good, b, insts, w, u, i);
    if i + 1 < |insts| {
      NextFollows(code, sizes, b, i);
      InstructionFound(code, sizes, blocks, h, i + 1);
    } else {
      LastFollows(code, sizes, b);
      NextAimed(p, code, sizes, blocks, b, insts, u);
    }
  }

  lemma InstructionFound(code: Code, sizes: SizeList, blocks: seq<BlockEntry>, h: nat, i: nat)
    requires AllStored(code, sizes, blocks) && AllApart(TranslatedBlocks(code, sizes, blocks))
    requires h < |blocks| && i < blocks[h].count && Stored(code, sizes, blocks[h])
    ensures var insts := InstsOf(code, sizes, blocks[h]);
      Scan(TranslatedBlocks(code, sizes, blocks), GuestAt(blocks[h], insts, i)) == Found(HostAt(blocks[h], insts, i))
  {
    hide Scan, GuestAt, HostAt, AllApart;
    var v := TranslatedBlocks(code, sizes, blocks);
    assert v[h] == Translated(blocks[h], InstsOf(code, sizes, blocks[h]));
    ScanAnswers(v, GuestAt(blocks[h], v[h].insts, i));
  }

  lemma FaithfulAt(p: G.Program, s: iset<nat>, good: Meaning, b: BlockEntry, insts: seq<InstructionOffset>,
        w: seq<bv32>, t: Option<Cell>, i: nat)
    requires Sizes(insts) && |w| == TotalRiscV(insts) / 4 && Faithful(p, s, good, b, insts, w, t) && i < |insts|
    ensures GuestAt(b, insts, i) in s && GuestAt(b, insts, i) in p.code
    ensures p.code[GuestAt(b, insts, i)].size == insts[i].x86
    ensures good(GuestAt(b, insts, i), LinkAt(|insts|, i, t), Slice(insts, w, i))
    ensures i + 1 < |insts| ==> !p.code[GuestAt(b, insts, i)].eob
  {
    hide Slice, GuestAt, TotalRiscV, Sizes;
    assert IsInstruction(p, s, GuestAt(b, insts, i), insts[i].x86);
  }

  /** Instructions of a block follow one another in the guest and on the host. */
  lemma NextFollows(code: Code, sizes: SizeList, b: BlockEntry, i: nat)
    requires Stored(code, sizes, b) && i + 1 < b.count
    ensures var insts, w := InstsOf(code, sizes, b), WordsOf(code, sizes, b);
      && GuestAt(b, insts, i + 1) == GuestAt(b, insts, i) + insts[i].x86
      && HostAt(b, insts, i + 1) == Advance(HostAt(b, insts, i), 4 * |Slice(insts, w, i)|)
  {
    hide TotalX86, TotalRiscV;
    var insts := InstsOf(code, sizes, b);
    WordsInOrder(insts, i);
    Prefix(insts, i);
    WholeWords(insts[..i]);
    WholeWords(insts[..i + 1]);
  }

  lemma LastFollows(code: Code, sizes: SizeList, b: BlockEntry)
    requires Stored(code, sizes, b) && b.count > 0
    ensures var insts := InstsOf(code, sizes, b);
      GuestAt(b, insts, |insts| - 1) + insts[|insts| - 1].x86 == b.x86End
  {
    hide TotalX86, TotalRiscV, Sizes;
    var insts := InstsOf(code, sizes, b);
    Prefix(insts, |insts| - 1);
    assert insts[..|insts|] == insts;
  }

  lemma NextAimed(p: G.Program, code: Code, sizes: SizeList, blocks: seq<BlockEntry>, b: BlockEntry,
        insts: seq<InstructionOffset>, t: Option<Cell>)
    requires AllStored(code, sizes, blocks) && AllApart(TranslatedBlocks(code, sizes, blocks))
    requires insts != [] && Aims(p, blocks, b, insts, t)
    requires forall j :: 0 <= j < |blocks| && blocks[j].count > 0 ==> blocks[j].x86Start < blocks[j].x86End
    ensures GuestAt(b, insts, |insts| - 1) in p.code && p.code[GuestAt(b, insts, |insts| - 1)].eob == t.None?
    ensures t.Some? ==> Scan(TranslatedBlocks(code, sizes, blocks), b.x86End) == Found(t.value)
  {
    hide AllStored, AllApart, Scan, GuestAt;
    if t.Some? {
      var j :| 0 <= j < |blocks| && StartsAt(blocks[j], b.x86End, t.value);
      NewBlockFound(code, sizes, blocks, j);
    }
  }

  // ---- straight on ---------------------------------------------------------------------------------------------

  /** No instruction that a lookup finds ends where the image ends. */
  lemma FoundInside(store: CodeStore, image: Image, p: G.Program, s: iset<nat>, good: Meaning, a: nat)
    requires Consistent(store, image, p, s, good) && Scan(store.View(), a).Found?
    ensures a in p.code && a + p.code[a].size != image.End()
  {
    hide Scan, Slice, Faithful, Indexed, Boundaries, GuestAt, HostAt, AllApart, Aims, TranslatedBlocks;
    var code, sizes, v := store.code.used, store.offsets.used, store.View();
    var h, i := FoundInstruction(v, a);
    var b := store.blocks[h];
    var insts, w := InstsOf(code, sizes, b), WordsOf(code, sizes, b);
    assert v[h] == Translated(b, insts) && b in store.blocks;
    assert FaithfulBlock(p, s, good, code, sizes, store.blocks, b);
    var t :| Faithful(p, s, good, b, insts, w, t) && Aims(p, store.blocks, b, insts, t);
    FaithfulAt(p, s, good, b, insts, w, t, i);
    if i + 1 < |insts| {
      NextFollows(code, sizes, b, i);
      StartsInside(v[h], i + 1);
    } else {
      LastFollows(code, sizes, b);
    }
  }

  /** From an instruction that a lookup finds, it finds all those to which the guest runs straight on. */
  lemma {:induction false} ChainFound(store: CodeStore, image: Image, p: G.Program, s: iset<nat>, good: Meaning,
        insts: seq<Decoded>, addr: nat, k: nat)
    requires Consistent(store, image, p, s, good) && Scan(store.View(), addr).Found?
    requires Chain(p, s, insts, addr) && k < |insts|
    ensures Scan(store.View(), insts[k].address).Found?
    decreases k
  {
    hide Scan, Consistent;
    if k > 0 {
      ChainFound(store, image, p, s, good, insts, addr, k - 1);
      var n, t := FoundTranslates(store, image, p, s, good, insts[k - 1].address);
      assert IsInstruction(p, s, insts[k - 1].address, insts[k - 1].size);
    }
  }

  lemma FoundStopsShort(store: CodeStore, image: Image, p: G.Program, s: iset<nat>, good: Meaning, addr: nat)
    requires Consistent(store, image, p, s, good) && Scan(store.View(), addr).Found?
    ensures !ReachesEnd(image, p, s, addr)
  {
    hide Scan, Consistent;
    forall insts: seq<Decoded> | insts != [] && Chain(p, s, insts, addr)
      ensures EndOf(insts, addr) != image.End()
    {
      var k := |insts| - 1;
      ChainFound(store, image, p, s, good, insts, addr, k);
      FoundInside(store, image, p, s, good, insts[k].address);
      assert IsInstruction(p, s, insts[k].address, insts[k].size);
    }
  }

  /** The store with the finished block. */
  lemma BlockDone(store: CodeStore, image: Image, p: G.Program, s: iset<nat>, good: Meaning, code: Code,
        sizes: SizeList, blocks: seq<BlockEntry>, insts: seq<Decoded>, addr: nat, t: Option<Cell>)
    requires store.Valid() && p.Valid() && Boundaries(p, s) && EndInside(p, store.base, |store.pages|)
    requires image.base == store.base && |image.executable| == |store.pages|
    requires insts != []
    requires Building(p, s, good, store.code.used, store.offsets.used, store.blocks, blocks, insts, |insts|, addr, t)
    requires Chain(p, s, insts, addr) && Ends(p, insts) == t.None?
    requires t.Some? ==> exists j :: 0 <= j < |blocks| && StartsAt(blocks[j], EndOf(insts, addr), t.value)
    requires AllStored(code, sizes, blocks) && Grown(code, store.code.used) && Grown(sizes, store.offsets.used)
    ensures Consistent(store, image, p, s, good) && !ReachesEnd(image, p, s, addr)
    ensures |store.blocks| == |blocks| + 1 && store.blocks[|blocks|].riscvStart.Some?
    ensures Scan(store.View(), addr) == Found(store.blocks[|blocks|].riscvStart.value)
    ensures forall a: nat :: Scan(TranslatedBlocks(code, sizes, blocks), a) != Missing ==>
      Scan(store.View(), a) == Scan(TranslatedBlocks(code, sizes, blocks), a)
  {
    hide Boundaries, EndInside, Sound, Scan, Stored, Indexed, AllStored, AllApart, Grown, Chain, Building, Ends;
    hide NoneAtEnd, ReachesEnd, EndOf, StartsAt;
    FinishedBuilding(p, s, good, store.code.used, store.offsets.used, store.base, store.pages, store.blocks, blocks,
      insts, addr, t);
    assert AllApart(store.View());
    NewBlockFound(store.code.used, store.offsets.used, store.blocks, |blocks|);
    forall a: nat
      ensures Scan(TranslatedBlocks(code, sizes, blocks), a) != Missing ==>
        Scan(store.View(), a) == Scan(TranslatedBlocks(code, sizes, blocks), a)
    {
      FoundStays(code, sizes, blocks, store.code.used, store.offsets.used, store.blocks, a);
    }
    FoundStopsShort(store, image, p, s, good, addr);
  }

  /**
   Looks the address up, and translates the block that begins there if it is not known yet.
   The result is where the store now finds the address; whatever it found before, it still
   finds at the same place.  No jump at an instruction boundary ever ends the program.  If
   nothing else does, the page lists are left exactly if the guest runs straight on up to
   where the image ends.
   */
  method Translate(store: CodeStore, image: Image, p: G.Program, ghost s: iset<nat>, ghost good: Meaning,
          body: nat -> seq<bv32>, link: Cell -> seq<bv32>, addr: nat)
      returns (r: Outcome)
    requires Consistent(store, image, p, s, good) && addr in s && Emits(good, body, link)
    modifies store, store.code, store.code.chunks, store.offsets, store.offsets.chunks
    ensures Reply(image, p, s, old(Scan(store.View(), addr)) != Missing, old(store.blocks), old(store.code.Left()),
      old(store.offsets.Left()), body, link, addr, r)
    ensures r.Fault? && r.reason == Reason.PastPages ==> ReachesEnd(image, p, s, addr)
    ensures r.Host? ==> !ReachesEnd(image, p, s, addr)
    ensures r.Host? ==> Consistent(store, image, p, s, good)
    ensures r.Host? ==> Scan(store.View(), addr) == Found(r.start)
    ensures r.Host? ==> forall a: nat ::
      old(Scan(store.View(), a)) != Missing ==> Scan(store.View(), a) == old(Scan(store.View(), a))
    ensures r.Host? ==>
      Grown(old(store.code.used), store.code.used) && Grown(old(store.offsets.used), store.offsets.used)
  {
    hide Boundaries, EndInside, Sound, Scan, Stored, Indexed, AllStored, AllApart, Grown, IsNext, Clear, Chain, Below;
    hide Building, Emits, WordsFor, Ends, NoneAtEnd, Aims, ReachesEnd, BlockFrom, Stuck, Limited, Treated, FitsIn;
    hide NewBlock, LinkedWords, StartsAt, EndOf, Reply;
    if !image.MayExecute(addr) {
      ReplyRefused(image, p, s, Scan(store.View(), addr) != Missing, store.blocks, store.code.Left(),
        store.offsets.Left(), body, link, addr);
      return Fault(NotExecutable);
    }
    ghost var code, sizes, blocks := store.code.used, store.offsets.used, store.blocks;
    ghost var room, sizeRoom := store.code.Left(), store.offsets.Left();
    GrownSelf(code);
    GrownSelf(sizes);
    assert AllApart(store.View());
    BoundaryFound(p, s, good, code, sizes, blocks, addr);
    var known := store.Find(addr);
    if known.Found? {
      FoundStopsShort(store, image, p, s, good, addr);
      ReplyKnown(image, p, s, blocks, room, sizeRoom, body, link, addr, Host(known.host));
      return Host(known.host);
    }
    var next := store.GetNextBlock(addr);
    NonEmptyBlocks(store.base, store.pages, blocks);
    NextClear(blocks, addr, next);
    var limit := if next.None? then None else Some(store.blocks[next.value].x86Start);
    LimitedBy(blocks, addr, next);
    if next.Some? {
      BlockStarts(p, s, good, code, sizes, blocks, next.value);
    }
    var insts, fault, fallsThrough := DecodeBlock(p, s, addr, limit);
    if fault.Some? {
      ReplyStuck(image, p, s, blocks, room, sizeRoom, body, link, addr, limit);
      return Fault(Undecodable);
    }
    BlockFromParts(p, s, addr, limit, insts);
    ghost var target := if fallsThrough then NextHost(code, sizes, blocks, next) else None;
    var words := WordsFor(insts, body, if fallsThrough then link(store.blocks[next.value].riscvStart.value) else []);
    forall i | 0 <= i < |insts|
      ensures |words[i]| <= MaxRiscVInstructions && good(insts[i].address, LinkAt(|insts|, i, target), words[i])
    {
      EmitsWords(good, body, link, insts, target, i);
    }
    assert words == LinkedWords(insts, body, link, target) by { WordsLinked(insts, body, link, target); }
    if fallsThrough {
      NextStarts(blocks, next.value, EndOf(insts, addr), target.value);
    }
    var h, failed := AddBlock(store, p, s, good, insts, words, target, addr, limit);
    IsTreated(image, p, s, blocks, room, sizeRoom, body, link, addr, limit, insts, target, failed, Cell(0, 0));
    if failed.Some? {
      if failed.value == Reason.PastPages {
        ReachedEnd(image, p, s, insts, addr);
      }
      return Fault(failed.value);
    }
    BlockDone(store, image, p, s, good, code, sizes, blocks, insts, addr, target);
    r := Host(store.blocks[h].riscvStart.value);
    AnyHost(image, p, s, blocks, room, sizeRoom, body, link, addr, Cell(0, 0), r.start);
  }

  /** An empty store is consistent with every guest program that fits the image. */
  method Begin(image: Image, p: G.Program, ghost s: iset<nat>, ghost good: Meaning, codeSize: nat, offsetSize: nat,
        codeChunks: nat, offsetChunks: nat)
      returns (store: CodeStore)
    requires image.base % PageSize == 0 && p.Valid() && Boundaries(p, s) && EndInside(p, image.base, |image.executable|)
    ensures Consistent(store, image, p, s, good) && store.blocks == [] && fresh(store)
  {
    store := new CodeStore(image.base, |image.executable|, codeSize, offsetSize, codeChunks, offsetChunks);
  }
}
