/**
 Block ends (helper.cpp, codegen.cpp).  A block end is a slot of nine words that loads
 the guest address of its successor and leaves through the jump table; once the successor
 is translated, the slot is overwritten with a jump straight to its host address.
 */
module Relink {
  import opened RiscV
  import opened Machine
  import opened Batches
  import opened Immediates
  import Addresses

  // ---- the slot as it is emitted ------------------------------------------------------------------

  const SlotSize: nat := 9

  ghost predicate EobSlot(slot: seq<Instr>, ptr: bv64) {
    |slot| == SlotSize && Sets(slot[..8], T3, ptr) && slot[8] == Jalr(RA, S10, 4)
  }

  method AppendEob(batch: CodeBatch, ptr: bv64) returns (ghost slot: seq<Instr>)
    modifies batch
    ensures batch.code == old(batch.code) + slot && EobSlot(slot, ptr)
  {
    slot := Addresses.LoadAddress(batch, ptr, T3);
    var _ := batch.Add(Jalr(RA, S10, 4));
    assert (slot + [Jalr(RA, S10, 4)])[..8] == slot;
    slot := slot + [Jalr(RA, S10, 4)];
  }

  /** Wherever an unlinked slot stands, it leaves through reroute_static with the successor's address. */
  lemma SlotReroutes(code: seq<Instr>, p: nat, slot: seq<Instr>, ptr: bv64, s: State)
    requires EobSlot(slot, ptr) && p + SlotSize <= |code| && code[p..p + SlotSize] == slot
    ensures Run(code, At(p, s), SlotSize) == Rerouted(4, s.Set(T3, ptr))
  {
    assert code[p..p + 8] == code[p..p + SlotSize][..8] == slot[..8];
    assert code[p + 8] == code[p..p + SlotSize][8] == slot[8];
    RunStraight(code, p, slot[..8], s);
    RunTwice(code, At(p, s), 8, 1);
    RerouteStep(code, p + 8, s.Set(T3, ptr));
  }

  lemma RerouteStep(code: seq<Instr>, p: nat, s: State)
    requires p < |code| && code[p] == Jalr(RA, S10, 4)
    ensures Run(code, At(p, s), 1) == Rerouted(4, s)
  {
  }

  // ---- overwriting it -------------------------------------------------------------------------------

  /** Code that already lies in the code store, patched in place. */
  class CodeMemory {
    const memory: array<Instr>
    const address: nat
    const maxSize: nat
    var count: nat

    constructor (memory: array<Instr>, address: nat, maxSize: nat)
      ensures this.memory == memory && this.address == address && this.maxSize == maxSize && count == 0
    {
      this.memory := memory;
      this.address := address;
      this.maxSize := maxSize;
      count := 0;
    }

    /** A full buffer ends the program. */
    method Add(inst: Instr) returns (fault: bool)
      requires address + maxSize <= memory.Length
      modifies this, memory
      ensures fault == (old(count) >= maxSize)
      ensures count == if fault then old(count) else old(count) + 1
      ensures memory[..] == if fault then old(memory[..]) else old(memory[..])[address + old(count) := inst]
    {
      fault := count >= maxSize;
      if !fault {
        memory[address + count] := inst;
        count := count + 1;
      }
    }
  }

  // ---- distances --------------------------------------------------------------------------------------

  /**
   The distance is within what the source takes AUIPC and JALR to reach.  The absolute value
   of 2^63 is undefined there; here that distance is far.
   */
  predicate Near(diff: bv64) { diff <= 0x7fff_ffff || diff >= 0xffff_ffff_8000_0001 }

  /** Rounding the upper part up leaves the range of AUIPC. */
  predicate TooFar(diff: bv64) { 0x7fff_f800 <= diff <= 0x7fff_ffff }

  function Lower(diff: bv64): bv12 { (diff & 0xfff) as bv12 }

  function Upper(diff: bv64): bv20 {
    if 0 < diff & 0x800 then ((((diff >> 12) + 1) & 0xfffff) as bv20) else ((diff >> 12) & 0xfffff) as bv20
  }

  function Wrapped(x: bv64): bv64 { x - 0x1_0000_0000 }

  /** The distance rounded down and up to pages, and what is left for the lower part. */
  function Down12(x: bv64): bv64 { (x >> 12) << 12 }
  function Up12(x: bv64): bv64 { ((x >> 12) + 1) << 12 }
  function Rest(x: bv64): bv64 { x & 0xfff }
  function Deficit(x: bv64): bv64 { (x & 0xfff) - 0x1000 }

  lemma LowClear(diff: bv64)
    requires !(0 < diff & 0x800)
    ensures Sext12(Lower(diff)) == Rest(diff)
  {
    assert !(0 < Lower(diff) & 0x800);
  }

  lemma LowSet(diff: bv64)
    requires 0 < diff & 0x800
    ensures Sext12(Lower(diff)) == Deficit(diff)
  {
    assert 0 < Lower(diff) & 0x800;
    LowSetForm(diff);
  }

  lemma LowSetForm(diff: bv64)
    requires 0 < diff & 0x800
    ensures 0xffff_ffff_ffff_f000 | (Lower(diff) as bv64) == (diff & 0xfff) - 0x1000
  {
  }

  lemma PositiveClear(diff: bv64)
    requires diff <= 0x7fff_ffff && !(0 < diff & 0x800)
    ensures UpperImm(Upper(diff)) == Down12(diff)
  {
    assert !(0 < Upper(diff) & 0x80000);
  }

  lemma NegativeClear(diff: bv64)
    requires diff >= 0xffff_ffff_8000_0001 && !(0 < diff & 0x800)
    ensures UpperImm(Upper(diff)) == Down12(diff)
  {
    assert 0 < Upper(diff) & 0x80000;
  }

  lemma PositiveSet(diff: bv64)
    requires diff < 0x7fff_f800 && 0 < diff & 0x800
    ensures UpperImm(Upper(diff)) == Up12(diff)
  {
    assert !(0 < Upper(diff) & 0x80000);
  }

  lemma PositiveFar(diff: bv64)
    requires TooFar(diff) && 0 < diff & 0x800
    ensures UpperImm(Upper(diff)) == Wrapped(Up12(diff))
  {
    assert 0 < Upper(diff) & 0x80000;
  }

  lemma NegativeSet(diff: bv64)
    requires 0xffff_ffff_8000_0001 <= diff < 0xffff_ffff_ffff_f800 && 0 < diff & 0x800
    ensures UpperImm(Upper(diff)) == Up12(diff)
  {
    assert 0 < Upper(diff) & 0x80000;
  }

  lemma NegativeTop(diff: bv64)
    requires 0xffff_ffff_ffff_f800 <= diff && 0 < diff & 0x800
    ensures UpperImm(Upper(diff)) == Up12(diff)
  {
    assert !(0 < Upper(diff) & 0x80000);
  }

  lemma FarIsSet(diff: bv64)
    requires TooFar(diff)
    ensures 0 < diff & 0x800
  {
  }

  lemma SplitDown(diff: bv64)
    ensures Plus(Down12(diff), Rest(diff)) == diff
  {
    assert Plus((diff >> 12) << 12, diff & 0xfff) == diff;
  }

  lemma SplitUp(diff: bv64)
    ensures Plus(Up12(diff), Deficit(diff)) == diff
  {
    assert Plus(((diff >> 12) + 1) << 12, (diff & 0xfff) - 0x1000) == diff;
  }

  lemma WrappedSum(x: bv64, y: bv64)
    ensures Plus(Wrapped(x), y) == Wrapped(Plus(x, y))
  {
    assert Plus(x - 0x1_0000_0000, y) == (x + y) - 0x1_0000_0000;
    assert Wrapped(x + y) == (x + y) - 0x1_0000_0000;
  }

  lemma ClearParts(diff: bv64)
    requires Near(diff) && !(0 < diff & 0x800)
    ensures UpperImm(Upper(diff)) == Down12(diff)
  {
    if diff <= 0x7fff_ffff {
      PositiveClear(diff);
    } else {
      NegativeClear(diff);
    }
  }

  lemma SetParts(diff: bv64)
    requires Near(diff) && 0 < diff & 0x800 && !TooFar(diff)
    ensures UpperImm(Upper(diff)) == Up12(diff)
  {
    if diff <= 0x7fff_ffff {
      PositiveSet(diff);
    } else if diff < 0xffff_ffff_ffff_f800 {
      NegativeSet(diff);
    } else {
      NegativeTop(diff);
    }
  }

  /** The two immediates add up to the distance, or miss it by 2^32. */
  lemma Parts(diff: bv64)
    requires Near(diff)
    ensures Plus(UpperImm(Upper(diff)), Sext12(Lower(diff))) == if TooFar(diff) then Wrapped(diff) else diff
  {
    if TooFar(diff) {
      FarIsSet(diff);
      LowSet(diff);
      PositiveFar(diff);
      SplitUp(diff);
      WrappedSum(Up12(diff), Deficit(diff));
    } else if 0 < diff & 0x800 {
      LowSet(diff);
      SetParts(diff);
      SplitUp(diff);
    } else {
      LowClear(diff);
      ClearParts(diff);
      SplitDown(diff);
    }
  }

  /** Where AUIPC and JALR at `start` end up. */
  function JumpTarget(start: bv64, upper: bv64, lower: bv64): bv64 { (start + upper) + lower }

  lemma FromSum(u: bv64, l: bv64)
    ensures Minus(Plus(u, l), l) == u
  {
    assert Minus(u + l, l) == u;
  }

  lemma TargetSum(start: bv64, x: bv64, l: bv64)
    ensures JumpTarget(start, Minus(x, l), l) == Plus(start, x)
  {
    assert JumpTarget(start, x - l, l) == start + x;
  }

  lemma BackToTarget(start: bv64, target: bv64)
    ensures Plus(start, Minus(target, start)) == target
  {
    assert Plus(start, target - start) == target;
  }

  lemma Lands(start: bv64, target: bv64, u: bv64, l: bv64)
    requires Plus(u, l) == Minus(target, start)
    ensures JumpTarget(start, u, l) == target
  {
    FromSum(u, l);
    TargetSum(start, Minus(target, start), l);
    BackToTarget(start, target);
  }

  lemma WrappedDistance(start: bv64, target: bv64)
    ensures Minus(Wrapped(target), start) == Wrapped(Minus(target, start))
  {
    assert Minus(target - 0x1_0000_0000, start) == (target - 0x1_0000_0000) - start;
    assert Wrapped(target - start) == (target - start) - 0x1_0000_0000;
  }

  /** The short form reaches every near target except those whose rounded upper part does not fit. */
  lemma ShortJump(start: bv64, target: bv64, d: bv64)
    requires d == Minus(target, start) && Near(d)
    ensures JumpTarget(start, UpperImm(Upper(d)), Sext12(Lower(d))) == (if TooFar(d) then Wrapped(target) else target)
  {
    Parts(d);
    WrappedDistance(start, target);
    Lands(start, if TooFar(d) then Wrapped(target) else target, UpperImm(Upper(d)), Sext12(Lower(d)));
  }

  // ---- running a linked slot -----------------------------------------------------------------------------

  /** Running the slot from its start jumps to `target`, having changed nothing but the address register. */
  ghost predicate Jumps(slot: seq<Instr>, s: State, target: bv64) {
    exists n: nat, v: bv64 :: n <= SlotSize && Run(slot, At(0, s), n) == Jumped(target, s.Set(T3, v))
  }

  ghost predicate Linked(slot: seq<Instr>, start: bv64, target: bv64) {
    |slot| == SlotSize && forall s: State :: s.base == start ==> Jumps(slot, s, target)
  }

  lemma JalrStep(slot: seq<Instr>, pc: nat, imm: bv12, s: State)
    requires pc < |slot| && slot[pc] == Jalr(Zero, T3, imm)
    ensures Run(slot, At(pc, s), 1) == Jumped(Plus(s.Get(T3), Sext12(imm)), s)
  {
  }

  lemma AuipcStep(slot: seq<Instr>, u: bv20, s: State)
    requires 0 < |slot| && slot[0] == Auipc(T3, u)
    ensures Run(slot, At(0, s), 1) == At(1, s.Set(T3, Plus(s.base, UpperImm(u))))
  {
    assert AddressOf(s.base, 0) == s.base;
  }

  lemma TwoSums(start: bv64, u: bv64, l: bv64)
    ensures Plus(Plus(start, u), l) == JumpTarget(start, u, l)
  {
    assert Plus(start + u, l) == (start + u) + l;
  }

  lemma ShortForm(slot: seq<Instr>, start: bv64, u: bv20, l: bv12)
    requires |slot| == SlotSize && slot[0] == Auipc(T3, u) && slot[1] == Jalr(Zero, T3, l)
    ensures Linked(slot, start, JumpTarget(start, UpperImm(u), Sext12(l)))
  {
    forall s: State | s.base == start ensures Jumps(slot, s, JumpTarget(start, UpperImm(u), Sext12(l))) {
      var v := Plus(start, UpperImm(u));
      AuipcStep(slot, u, s);
      JalrStep(slot, 1, l, s.Set(T3, v));
      GetSet(s, T3, v);
      RunTwice(slot, At(0, s), 1, 1);
      TwoSums(start, UpperImm(u), Sext12(l));
      assert Run(slot, At(0, s), 2) == Jumped(JumpTarget(start, UpperImm(u), Sext12(l)), s.Set(T3, v));
    }
  }

  lemma NothingAdded(x: bv64)
    ensures Plus(x, Sext12(0)) == x
  {
    assert !(0 < 0 as bv12 & 0x800);
    assert Plus(x, 0) == x;
  }

  lemma LongRun(slot: seq<Instr>, words: seq<Instr>, target: bv64, s: State)
    requires |words| < |slot| && Sets(words, T3, target)
    requires slot[..|words|] == words && slot[|words|] == Jalr(Zero, T3, 0)
    ensures Run(slot, At(0, s), |words| + 1) == Jumped(target, s.Set(T3, target))
  {
    hide StepAt, Exec, Plus, Sext12, State.Set, State.Get;
    assert slot[0..0 + |words|] == slot[..|words|];
    RunStraight(slot, 0, words, s);
    JalrStep(slot, |words|, 0, s.Set(T3, target));
    GetSet(s, T3, target);
    NothingAdded(target);
    RunTwice(slot, At(0, s), |words|, 1);
  }

  lemma LongForm(slot: seq<Instr>, words: seq<Instr>, start: bv64, target: bv64)
    requires |slot| == SlotSize && |words| <= 8 && Sets(words, T3, target)
    requires slot[..|words|] == words && slot[|words|] == Jalr(Zero, T3, 0)
    ensures Linked(slot, start, target)
  {
    forall s: State | s.base == start ensures Jumps(slot, s, target) {
      LongRun(slot, words, target, s);
    }
  }

  // ---- linking ---------------------------------------------------------------------------------------------

  /** Where a linked slot really goes. */
  function LinkTarget(start: bv64, target: bv64): bv64 {
    if TooFar(Minus(target, start)) then Wrapped(target) else target
  }

  // ---- exactly which links are right ------------------------------------------------------------------------

  lemma {:induction false} JumpedStays(slot: seq<Instr>, o: Outcome, n: nat)
    requires o.Jumped?
    ensures Run(slot, o, n) == o
  {
  }

  /** A slot leads to one place only. */
  lemma OneTarget(slot: seq<Instr>, s: State, a: bv64, b: bv64)
    requires Jumps(slot, s, a) && Jumps(slot, s, b)
    ensures a == b
  {
    hide StepAt, State.Set;
    var m: nat, v: bv64 :| m <= SlotSize && Run(slot, At(0, s), m) == Jumped(a, s.Set(T3, v));
    var n: nat, w: bv64 :| n <= SlotSize && Run(slot, At(0, s), n) == Jumped(b, s.Set(T3, w));
    var k := if m < n then n else m;
    RunTwice(slot, At(0, s), m, k - m);
    RunTwice(slot, At(0, s), n, k - n);
    JumpedStays(slot, Jumped(a, s.Set(T3, v)), k - m);
    JumpedStays(slot, Jumped(b, s.Set(T3, w)), k - n);
  }

  lemma StateAt(start: bv64) returns (s: State)
    ensures s.base == start
  {
    s := State(map[], Context(0, 0, 0, 0, 0, 0, 0, 0, 0, 0, 0, 0), Memory(map[], map[], map[]), 0, start);
  }

  lemma WrappedMoves(target: bv64)
    ensures Wrapped(target) != target
  {
  }

  /**
   The slot that linking leaves leads to the target exactly when the distance is not one of
   the 2048 just below 2^31; for those it leads 2^32 bytes below.
   */
  lemma LinkExact(slot: seq<Instr>, start: bv64, target: bv64)
    requires Linked(slot, start, LinkTarget(start, target))
    ensures Linked(slot, start, target) <==> !TooFar(Minus(target, start))
    ensures Linked(slot, start, Wrapped(target)) <==> TooFar(Minus(target, start))
  {
    hide Jumps, Wrapped, TooFar, Minus;
    var s := StateAt(start);
    assert Jumps(slot, s, LinkTarget(start, target));
    WrappedMoves(target);
    if Linked(slot, start, target) {
      OneTarget(slot, s, target, LinkTarget(start, target));
    }
    if Linked(slot, start, Wrapped(target)) {
      OneTarget(slot, s, Wrapped(target), LinkTarget(start, target));
    }
  }

  /** Upwards from 0x10000 by 0x7ffff800 bytes, the link goes astray. */
  lemma LinkMisses(slot: seq<Instr>)
    requires Linked(slot, 0x1_0000, LinkTarget(0x1_0000, 0x8000_f800))
    ensures !Linked(slot, 0x1_0000, 0x8000_f800) && Linked(slot, 0x1_0000, 0xffff_ffff_8000_f800)
  {
    hide Linked;
    assert TooFar(Minus(0x8000_f800, 0x1_0000)) && Wrapped(0x8000_f800) == 0xffff_ffff_8000_f800;
    LinkExact(slot, 0x1_0000, 0x8000_f800);
  }

  /** Copies words into the slot, as the emitters do that write straight into the code store. */
  method Store(code: CodeMemory, words: seq<Instr>)
    requires code.address + code.maxSize <= code.memory.Length && code.count == 0 && |words| <= code.maxSize
    modifies code, code.memory
    ensures forall k ::
      0 <= k < code.memory.Length && !(code.address <= k < code.address + |words|) ==>
        code.memory[k] == old(code.memory[k])
    ensures code.memory[code.address..code.address + |words|] == words
  {
    var i := 0;
    while i < |words|
      invariant 0 <= i <= |words| && code.count == i
      invariant code.memory[..] == old(code.memory[..code.address]) + words[..i] + old(code.memory[code.address + i..])
    {
      var _ := code.Add(words[i]);
      i := i + 1;
    }
    assert code.memory[code.address..code.address + |words|] == code.memory[..][code.address..code.address + |words|];
    forall k | 0 <= k < code.memory.Length && !(code.address <= k < code.address + |words|)
      ensures code.memory[k] == old(code.memory[k])
    {
      assert code.memory[k] == code.memory[..][k];
    }
  }

  /**
   Links the block end that closes at word `addr` of the code store, its slot starting at
   host address `start`.  Only the slot changes, and it then leads to the target, except
   that a distance just below 2^31 sends it 2^32 bytes too low.
   */
  method UpdateBasicBlock(memory: array<Instr>, addr: nat, start: bv64, target: bv64)
    requires SlotSize <= addr <= memory.Length
    modifies memory
    ensures forall k :: 0 <= k < memory.Length && !(addr - SlotSize <= k < addr) ==> memory[k] == old(memory[k])
    ensures Linked(memory[addr - SlotSize..addr], start, LinkTarget(start, target))
    ensures Linked(memory[addr - SlotSize..addr], start, target) <==> !TooFar(Minus(target, start))
  {
    hide Minus, Near, Upper, Lower, Linked, LinkTarget, TooFar, Sets;
    var code := new CodeMemory(memory, addr - SlotSize, SlotSize);
    var diff := Minus(target, start);
    if Near(diff) {
      Store(code, [Auipc(T3, Upper(diff)), Jalr(Zero, T3, Lower(diff))]);
      ghost var slot := memory[addr - SlotSize..addr];
      assert slot[..2] == memory[addr - SlotSize..addr - SlotSize + 2];
      ShortLinked(slot, start, target);
    } else {
      var batch := new CodeBatch();
      ghost var words := LoadImmediate(batch, target, T3);
      var _ := batch.Add(Jalr(Zero, T3, 0));
      Store(code, batch.code);
      ghost var slot := memory[addr - SlotSize..addr];
      assert slot[..|words| + 1] == memory[addr - SlotSize..addr - SlotSize + |words| + 1];
      LongLinked(slot, words, start, target);
    }
  }

  lemma ShortLinked(slot: seq<Instr>, start: bv64, target: bv64)
    requires var diff := Minus(target, start);
      && Near(diff) && |slot| == SlotSize
      && slot[..2] == [Auipc(T3, Upper(diff)), Jalr(Zero, T3, Lower(diff))]
    ensures Linked(slot, start, LinkTarget(start, target))
    ensures Linked(slot, start, target) <==> !TooFar(Minus(target, start))
  {
    hide Minus, Near, Upper, Lower, Linked, TooFar, JumpTarget;
    var diff := Minus(target, start);
    assert slot[0] == slot[..2][0] && slot[1] == slot[..2][1];
    ShortForm(slot, start, Upper(diff), Lower(diff));
    ShortJump(start, target, diff);
    LinkExact(slot, start, target);
  }

  lemma LongLinked(slot: seq<Instr>, words: seq<Instr>, start: bv64, target: bv64)
    requires !Near(Minus(target, start)) && |slot| == SlotSize && |words| <= 8 && Sets(words, T3, target)
    requires slot[..|words| + 1] == words + [Jalr(Zero, T3, 0)]
    ensures Linked(slot, start, LinkTarget(start, target))
    ensures Linked(slot, start, target) <==> !TooFar(Minus(target, start))
  {
    hide Minus, Near, Linked, TooFar, Sets;
    assert slot[..|words|] == slot[..|words| + 1][..|words|] == words;
    assert slot[|words|] == slot[..|words| + 1][|words|];
    LongForm(slot, words, start, target);
    NearWhenTooFar(Minus(target, start));
    LinkExact(slot, start, target);
  }

  lemma NearWhenTooFar(d: bv64)
    requires !Near(d)
    ensures !TooFar(d)
  {
  }
}
