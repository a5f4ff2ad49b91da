/** Memory operands (instruction.cpp): effective addresses, loads and stores. */
module MemoryOperands {
  import opened RiscV
  import opened Machine
  import opened Batches
  import opened Bits
  import opened Effects
  import opened Registers
  import opened Immediates

  /** A memory operand; the register zero stands for an absent base or index. */
  datatype MemOperand = MemOperand(base: Reg, index: Reg, scale: nat, disp: bv64, addressSize: nat) {
    predicate Valid() { scale <= 3 }
    predicate HasBase() { base != Zero }
    predicate HasIndex() { index != Zero }
  }

  function IndexPart(m: MemOperand, s: State): bv64 {
    if m.index.Zero? then 0 else Shl(s.Get(m.index), m.scale)
  }

  /** Section 3.7.5 of Intel SDM Volume 1: base + index * 2^scale + displacement. */
  function EffectiveAddress(m: MemOperand, s: State): bv64 {
    var a := Plus(Plus(s.Get(m.base), IndexPart(m, s)), m.disp);
    if m.addressSize == 4 then Low32(a) else a
  }

  predicate Small(disp: bv64) { disp < 0x800 || disp >= 0xffff_ffff_ffff_f800 }

  function Cut(disp: bv64): bv12 { (disp & 0xfff) as bv12 }

  /** The code leaves v in r and changes at most the given registers. */
  ghost predicate Leaves(x: seq<Instr>, s: State, r: Reg, v: bv64, temps: set<Reg>) {
    Exec(x, s).Get(r) == v && Keeps(s, Exec(x, s), temps)
  }

  // ---- sums -------------------------------------------------------------------------------------------

  lemma PlusSwap(x: bv64, y: bv64)
    ensures Plus(x, y) == Plus(y, x)
  {
    assert Plus(x, y) == x + y;
  }

  lemma PlusNone(x: bv64)
    ensures Plus(x, 0) == x && Plus(0, x) == x
  {
    assert Plus(x, 0) == x && Plus(0, x) == x;
  }

  lemma LowBits(disp: bv64)
    requires disp < 0x800
    ensures !(0 < Cut(disp) & 0x800) && Sext12(Cut(disp)) == disp
  {
  }

  lemma HighBits(disp: bv64)
    requires Small(disp) && !(disp < 0x800)
    ensures 0 < Cut(disp) & 0x800 && Sext12(Cut(disp)) == disp
  {
  }

  lemma SmallBits(disp: bv64)
    requires Small(disp)
    ensures Sext12(Cut(disp)) == disp
  {
    if disp < 0x800 {
      LowBits(disp);
    } else {
      HighBits(disp);
    }
  }

  lemma StepAdd(rd: Reg, a: Reg, b: Reg, s: State)
    requires !rd.Zero?
    ensures Leaves([Op(ADD, rd, a, b)], s, rd, Plus(s.Get(a), s.Get(b)), {rd})
  {
    hide Step, Exec, Plus, State.Set, State.Get;
    Exec1Word([Op(ADD, rd, a, b)], s);
    StepOp(ADD, rd, a, b, s);
    SetKeeps(s, rd, Plus(s.Get(a), s.Get(b)));
  }

  lemma StepAddi(rd: Reg, a: Reg, disp: bv64, s: State)
    requires !rd.Zero? && Small(disp)
    ensures Leaves([OpImm(ADDI, rd, a, Cut(disp))], s, rd, Plus(s.Get(a), disp), {rd})
  {
    hide Step, Exec, Plus, Sext12, Small, Cut, State.Set, State.Get;
    var w := OpImm(ADDI, rd, a, Cut(disp));
    Exec1Word([w], s);
    StepImm(ADDI, rd, a, Cut(disp), s);
    SmallBits(disp);
    SetKeeps(s, rd, Plus(s.Get(a), disp));
  }

  lemma StepScale(rd: Reg, a: Reg, n: nat, s: State)
    requires !rd.Zero? && n <= 3
    ensures Leaves([Shift(SLLI, rd, a, n as bv6)], s, rd, Shl(s.Get(a), n), {rd})
  {
    hide Step, Exec, Shl, State.Set, State.Get;
    var w := Shift(SLLI, rd, a, n as bv6);
    AmountValue(n);
    Exec1Word([w], s);
    StepShift(SLLI, rd, a, n as bv6, s);
    SetKeeps(s, rd, Shl(s.Get(a), n));
  }

  lemma LeavesThen(a: seq<Instr>, b: seq<Instr>, s: State, q: Reg, u: bv64, r: Reg, v: bv64, k: set<Reg>, l: set<Reg>)
    requires Leaves(a, s, q, u, k) && Leaves(b, Exec(a, s), r, v, l)
    ensures Leaves(a + b, s, r, v, k + l)
  {
    hide Exec, State.Get;
    ExecAppend(a, b, s);
    KeepsTrans(s, Exec(a, s), Exec(b, Exec(a, s)), k, l);
  }

  lemma LeavesNothing(s: State, r: Reg)
    ensures Leaves([], s, r, s.Get(r), {})
  {
    hide State.Get, Step;
  }

  // ---- base and index ------------------------------------------------------------------------------------

  /** The registers a computation may use: the temporary must not be one of the operand's, the destination may. */
  predicate Apart(m: MemOperand, dst: Reg, temp: Reg) {
    !dst.Zero? && !temp.Zero? && temp != dst && temp != m.base && temp != m.index
  }

  /** Base plus scaled index; the result is in the returned register. */
  function SumWords(m: MemOperand, dst: Reg, temp: Reg): (seq<Instr>, Reg)
    requires m.Valid()
  {
    if !m.HasIndex() then ([], m.base)
    else if m.scale == 0 then if m.HasBase() then ([Op(ADD, dst, m.index, m.base)], dst) else ([], m.index)
    else if m.HasBase() then ([Shift(SLLI, temp, m.index, m.scale as bv6)] + [Op(ADD, dst, temp, m.base)], dst)
    else ([Shift(SLLI, dst, m.index, m.scale as bv6)], dst)
  }

  function Sum(m: MemOperand, s: State): bv64 { Plus(s.Get(m.base), IndexPart(m, s)) }

  lemma Unscaled(x: bv64)
    ensures Shl(x, 0) == x
  {
  }

  lemma GetZero(s: State)
    ensures s.Get(Zero) == 0
  {
  }

  lemma BothScaled(m: MemOperand, dst: Reg, temp: Reg, s: State)
    requires m.Valid() && Apart(m, dst, temp) && m.HasIndex() && m.HasBase() && m.scale > 0
    ensures Leaves([Shift(SLLI, temp, m.index, m.scale as bv6)] + [Op(ADD, dst, temp, m.base)], s, dst, Sum(m, s),
      {temp, dst})
  {
    hide Exec, Plus, Shl, State.Get;
    var a, b := [Shift(SLLI, temp, m.index, m.scale as bv6)], [Op(ADD, dst, temp, m.base)];
    var u := Shl(s.Get(m.index), m.scale);
    StepScale(temp, m.index, m.scale, s);
    StepAdd(dst, temp, m.base, Exec(a, s));
    PlusSwap(u, s.Get(m.base));
    LeavesThen(a, b, s, temp, u, dst, Sum(m, s), {temp}, {dst});
    assert {temp} + {dst} == {temp, dst};
  }

  lemma SumWithoutIndex(m: MemOperand, s: State)
    requires !m.HasIndex()
    ensures Sum(m, s) == s.Get(m.base)
  {
    hide Plus, State.Get;
    PlusNone(s.Get(m.base));
  }

  lemma SumUnscaled(m: MemOperand, s: State)
    requires m.HasIndex() && m.scale == 0
    ensures Sum(m, s) == Plus(s.Get(m.index), s.Get(m.base))
    ensures !m.HasBase() ==> Sum(m, s) == s.Get(m.index)
  {
    hide Plus, State.Get;
    Unscaled(s.Get(m.index));
    PlusSwap(s.Get(m.index), s.Get(m.base));
    GetZero(s);
    PlusNone(s.Get(m.index));
  }

  lemma SumWithoutBase(m: MemOperand, s: State)
    requires m.HasIndex() && !m.HasBase()
    ensures Sum(m, s) == Shl(s.Get(m.index), m.scale)
  {
    hide Plus, Shl, State.Get;
    GetZero(s);
    PlusNone(Shl(s.Get(m.index), m.scale));
  }

  lemma LeavesMore(x: seq<Instr>, s: State, r: Reg, v: bv64, k: set<Reg>, l: set<Reg>)
    requires Leaves(x, s, r, v, k) && k <= l
    ensures Leaves(x, s, r, v, l)
  {
    hide Exec, State.Get;
  }

  lemma IndexLeaves(m: MemOperand, dst: Reg, temp: Reg, s: State)
    requires m.Valid() && Apart(m, dst, temp) && m.HasIndex() && m.scale == 0
    ensures Leaves(SumWords(m, dst, temp).0, s, SumWords(m, dst, temp).1, Sum(m, s), {temp, dst})
  {
    hide Exec, Plus, Shl, Sum, Leaves, State.Get;
    SumUnscaled(m, s);
    if m.HasBase() {
      StepAdd(dst, m.index, m.base, s);
      LeavesMore([Op(ADD, dst, m.index, m.base)], s, dst, Sum(m, s), {dst}, {temp, dst});
    } else {
      LeavesNothing(s, m.index);
      LeavesMore([], s, m.index, Sum(m, s), {}, {temp, dst});
    }
  }

  lemma ScaledLeaves(m: MemOperand, dst: Reg, temp: Reg, s: State)
    requires m.Valid() && Apart(m, dst, temp) && m.HasIndex() && m.scale > 0 && !m.HasBase()
    ensures Leaves(SumWords(m, dst, temp).0, s, SumWords(m, dst, temp).1, Sum(m, s), {temp, dst})
  {
    hide Exec, Plus, Shl, Sum, Leaves, State.Get;
    StepScale(dst, m.index, m.scale, s);
    SumWithoutBase(m, s);
    LeavesMore([Shift(SLLI, dst, m.index, m.scale as bv6)], s, dst, Sum(m, s), {dst}, {temp, dst});
  }

  lemma SumLeaves(m: MemOperand, dst: Reg, temp: Reg, s: State)
    requires m.Valid() && Apart(m, dst, temp)
    ensures Leaves(SumWords(m, dst, temp).0, s, SumWords(m, dst, temp).1, Sum(m, s), {temp, dst})
  {
    hide Exec, Sum, Leaves, State.Get;
    if !m.HasIndex() {
      LeavesNothing(s, m.base);
      SumWithoutIndex(m, s);
      LeavesMore([], s, m.base, Sum(m, s), {}, {temp, dst});
    } else if m.scale == 0 {
      IndexLeaves(m, dst, temp, s);
    } else if m.HasBase() {
      BothScaled(m, dst, temp, s);
    } else {
      ScaledLeaves(m, dst, temp, s);
    }
  }

  method EmitSum(batch: CodeBatch, m: MemOperand, dst: Reg, temp: Reg) returns (r: Reg)
    requires m.Valid()
    modifies batch
    ensures batch.code == old(batch.code) + SumWords(m, dst, temp).0 && r == SumWords(m, dst, temp).1
  {
    r := Zero;
    if m.HasIndex() {
      if m.scale == 0 {
        r := m.index;
      } else {
        r := if m.HasBase() then temp else dst;
        var _ := batch.Add(Shift(SLLI, r, m.index, m.scale as bv6));
      }
    }
    if m.HasBase() {
      if m.HasIndex() {
        var _ := batch.Add(Op(ADD, dst, r, m.base));
        r := dst;
      } else {
        r := m.base;
      }
    }
  }

  lemma SumResult(m: MemOperand, dst: Reg, temp: Reg)
    requires m.Valid()
    ensures SumWords(m, dst, temp).1 in {dst, m.base, m.index} && AllFlow(SumWords(m, dst, temp).0)
  {
    hide AllFlow;
    Flow1(Op(ADD, dst, m.index, m.base));
    Flow1(Op(ADD, dst, temp, m.base));
    if m.scale <= 3 {
      Flow1(Shift(SLLI, temp, m.index, m.scale as bv6));
      Flow1(Shift(SLLI, dst, m.index, m.scale as bv6));
      AllFlowAppend([Shift(SLLI, temp, m.index, m.scale as bv6)], [Op(ADD, dst, temp, m.base)]);
    }
    assert AllFlow([]) by { FlowNone(); }
  }

  lemma FlowNone()
    ensures AllFlow([])
  {
  }

  // ---- the displacement -------------------------------------------------------------------------------------

  lemma SetsLeaves(words: seq<Instr>, r: Reg, v: bv64, s: State)
    requires Sets(words, r, v) && !r.Zero?
    ensures Leaves(words, s, r, v, {r}) && AllFlow(words)
  {
    hide Exec, State.Set, State.Get;
    SetKeeps(s, r, v);
    assert Exec(words, s) == s.Set(r, v);
  }

  /** A register that the code before left untouched is still what it was. */
  lemma AddLoaded(x: seq<Instr>, words: seq<Instr>, q: Reg, u: bv64, dst: Reg, temp: Reg, disp: bv64, s: State)
    requires Leaves(x, s, q, u, {temp, dst}) && Sets(words, temp, disp) && q != temp && !temp.Zero? && !dst.Zero?
    ensures Leaves(x + words + [Op(ADD, dst, q, temp)], s, dst, Plus(u, disp), {temp, dst})
  {
    hide Exec, Sets, Plus, State.Get;
    var t := Exec(x, s);
    SetsLeaves(words, temp, disp, t);
    LeavesThen(x, words, s, q, u, temp, disp, {temp, dst}, {temp});
    var t2 := Exec(x + words, s);
    ExecAppend(x, words, s);
    assert t2.Get(q) == u;
    StepAdd(dst, q, temp, t2);
    LeavesThen(x + words, [Op(ADD, dst, q, temp)], s, temp, disp, dst, Plus(u, disp), {temp, dst} + {temp}, {dst});
    assert {temp, dst} + {temp} + {dst} == {temp, dst};
  }

  lemma AddSmall(x: seq<Instr>, q: Reg, u: bv64, dst: Reg, temp: Reg, disp: bv64, s: State)
    requires Leaves(x, s, q, u, {temp, dst}) && Small(disp) && !dst.Zero?
    ensures Leaves(x + [OpImm(ADDI, dst, q, Cut(disp))], s, dst, Plus(u, disp), {temp, dst})
  {
    hide Exec, Plus, Cut, Small, State.Get;
    StepAddi(dst, q, disp, Exec(x, s));
    LeavesThen(x, [OpImm(ADDI, dst, q, Cut(disp))], s, q, u, dst, Plus(u, disp), {temp, dst}, {dst});
    assert {temp, dst} + {dst} == {temp, dst};
  }

  lemma CutAddress(x: seq<Instr>, q: Reg, u: bv64, dst: Reg, temp: Reg, s: State)
    requires Leaves(x, s, q, u, {temp, dst}) && !dst.Zero?
    ensures Leaves(x + ShiftPair(dst, q, 32, 32), s, dst, Low32(u), {temp, dst})
  {
    hide Exec, ShiftPair, Low32, State.Get;
    Low32Gives(dst, q, Exec(x, s));
    assert {} + {dst} == {dst};
    LeavesThen(x, ShiftPair(dst, q, 32, 32), s, q, u, dst, Low32(u), {temp, dst}, {dst});
    assert {temp, dst} + {dst} == {temp, dst};
  }

  lemma MoveAddress(x: seq<Instr>, q: Reg, u: bv64, dst: Reg, temp: Reg, s: State)
    requires Leaves(x, s, q, u, {temp, dst}) && !dst.Zero?
    ensures Leaves(x + [Mv(dst, q)], s, dst, u, {temp, dst})
  {
    hide Exec, Mv, State.Get;
    MvGives(dst, q, Exec(x, s));
    assert {} + {dst} == {dst};
    LeavesThen(x, [Mv(dst, q)], s, q, u, dst, u, {temp, dst}, {dst});
    assert {temp, dst} + {dst} == {temp, dst};
  }

  // ---- effective addresses ------------------------------------------------------------------------------------

  /** Adds the displacement to what register q holds. */
  method EmitDisplacement(batch: CodeBatch, ghost x0: seq<Instr>, m: MemOperand, q: Reg, dst: Reg, temp: Reg)
      returns (r: Reg, ghost x: seq<Instr>)
    requires m.Valid() && Apart(m, dst, temp) && q in {dst, m.base, m.index} && AllFlow(x0)
    requires forall s :: Leaves(x0, s, q, Sum(m, s), {temp, dst})
    requires q.Zero? ==> !m.HasBase() && !m.HasIndex()
    modifies batch
    ensures batch.code == old(batch.code) + x && AllFlow(x0 + x) && r in {dst, m.base, m.index}
    ensures forall s :: Leaves(x0 + x, s, r, Plus(Sum(m, s), m.disp), {temp, dst})
    ensures m.disp != 0 ==> r == dst
  {
    hide Leaves, Sum, Plus, Exec, Sets, AllFlow, Small;
    r := q;
    x := [];
    if m.disp != 0 {
      r := dst;
      if Small(m.disp) {
        var _ := batch.Add(OpImm(ADDI, dst, q, Cut(m.disp)));
        x := [OpImm(ADDI, dst, q, Cut(m.disp))];
        Flow1(OpImm(ADDI, dst, q, Cut(m.disp)));
        AllFlowAppend(x0, x);
        forall s ensures Leaves(x0 + x, s, dst, Plus(Sum(m, s), m.disp), {temp, dst}) {
          AddSmall(x0, q, Sum(m, s), dst, temp, m.disp, s);
        }
      } else if q.Zero? {
        x := LoadImmediate(batch, m.disp, dst);
        forall s ensures Leaves(x0 + x, s, dst, Plus(Sum(m, s), m.disp), {temp, dst}) {
          LoadedAlone(x0, x, m, dst, temp, s);
        }
        SetsFlow(x, dst, m.disp);
        AllFlowAppend(x0, x);
      } else {
        ghost var words := LoadImmediate(batch, m.disp, temp);
        var _ := batch.Add(Op(ADD, dst, q, temp));
        x := words + [Op(ADD, dst, q, temp)];
        assert x0 + x == x0 + words + [Op(ADD, dst, q, temp)];
        SetsFlow(words, temp, m.disp);
        Flow1(Op(ADD, dst, q, temp));
        AllFlowAppend(x0, words);
        AllFlowAppend(x0 + words, [Op(ADD, dst, q, temp)]);
        forall s ensures Leaves(x0 + x, s, dst, Plus(Sum(m, s), m.disp), {temp, dst}) {
          AddLoaded(x0, words, q, Sum(m, s), dst, temp, m.disp, s);
        }
      }
    } else {
      assert x0 + [] == x0;
      forall s ensures Leaves(x0 + x, s, q, Plus(Sum(m, s), m.disp), {temp, dst}) {
        PlusNone(Sum(m, s));
      }
    }
  }

  lemma SetsFlow(words: seq<Instr>, r: Reg, v: bv64)
    requires Sets(words, r, v)
    ensures AllFlow(words)
  {
    hide Exec, State.Set;
  }

  /** Without base and index the displacement is all there is. */
  lemma LoadedAlone(x0: seq<Instr>, words: seq<Instr>, m: MemOperand, dst: Reg, temp: Reg, s: State)
    requires Sets(words, dst, m.disp) && !dst.Zero? && !m.HasBase() && !m.HasIndex()
    requires Leaves(x0, s, Zero, Sum(m, s), {temp, dst})
    ensures Leaves(x0 + words, s, dst, Plus(Sum(m, s), m.disp), {temp, dst})
  {
    hide Exec, Sets, Plus, State.Get;
    SetsLeaves(words, dst, m.disp, Exec(x0, s));
    LeavesThen(x0, words, s, Zero, Sum(m, s), dst, m.disp, {temp, dst}, {dst});
    assert {temp, dst} + {dst} == {temp, dst};
    GetZero(s);
    SumWithoutIndex(m, s);
    PlusNone(m.disp);
  }

  /**
   The address of a memory operand.  `dst` may be the base or the index; `temp` may not.
   Address sizes below 4 end the program.
   */
  method TranslateMemory(batch: CodeBatch, m: MemOperand, dst: Reg, temp: Reg, forceDst: bool)
      returns (fault: bool, r: Reg, ghost x: seq<Instr>)
    requires m.Valid() && Apart(m, dst, temp)
    modifies batch
    ensures fault == (m.addressSize < 4)
    ensures !fault ==> batch.code == old(batch.code) + x && AllFlow(x) && r in {dst, m.base, m.index}
    ensures !fault ==> forall s :: Leaves(x, s, r, EffectiveAddress(m, s), {temp, dst})
    ensures !fault ==> (forceDst || m.disp != 0 || m.addressSize == 4 ==> r == dst)
  {
    hide Leaves, Sum, Plus, Exec, AllFlow, SumWords, Low32, ShiftPair, Mv;
    fault, r, x := false, Zero, [];
    if m.addressSize < 4 {
      return true, Zero, [];
    }
    var q := EmitSum(batch, m, dst, temp);
    ghost var x0 := SumWords(m, dst, temp).0;
    SumResult(m, dst, temp);
    SumIsZero(m, dst, temp);
    forall s ensures Leaves(x0, s, q, Sum(m, s), {temp, dst}) {
      SumLeaves(m, dst, temp, s);
    }
    r, x := EmitDisplacement(batch, x0, m, q, dst, temp);
    x := x0 + x;
    if m.addressSize == 4 {
      var _ := batch.Add(Shift(SLLI, dst, r, 32));
      var _ := batch.Add(Shift(SRLI, dst, dst, 32));
      forall s ensures Leaves(x + ShiftPair(dst, r, 32, 32), s, dst, EffectiveAddress(m, s), {temp, dst}) {
        CutAddress(x, r, Plus(Sum(m, s), m.disp), dst, temp, s);
        AddressIs(m, s);
      }
      PairFlows(dst, r, 32, 32);
      AllFlowAppend(x, ShiftPair(dst, r, 32, 32));
      PairIs(dst, r);
      x, r := x + ShiftPair(dst, r, 32, 32), dst;
    } else if forceDst && r != dst {
      var _ := batch.Add(Mv(dst, r));
      forall s ensures Leaves(x + [Mv(dst, r)], s, dst, EffectiveAddress(m, s), {temp, dst}) {
        MoveAddress(x, r, Plus(Sum(m, s), m.disp), dst, temp, s);
        AddressIs(m, s);
      }
      MvFlows(dst, r);
      AllFlowAppend(x, [Mv(dst, r)]);
      x, r := x + [Mv(dst, r)], dst;
    } else {
      forall s ensures Leaves(x, s, r, EffectiveAddress(m, s), {temp, dst}) {
        AddressIs(m, s);
      }
    }
  }

  lemma MvFlows(dst: Reg, r: Reg)
    ensures AllFlow([Mv(dst, r)])
  {
    Flow1(Mv(dst, r));
  }

  lemma PairIs(dst: Reg, r: Reg)
    ensures ShiftPair(dst, r, 32, 32) == [Shift(SLLI, dst, r, 32), Shift(SRLI, dst, dst, 32)]
  {
  }

  lemma SumIsZero(m: MemOperand, dst: Reg, temp: Reg)
    requires m.Valid() && !dst.Zero?
    ensures SumWords(m, dst, temp).1.Zero? ==> !m.HasBase() && !m.HasIndex()
  {
  }

  lemma AddressIs(m: MemOperand, s: State)
    ensures EffectiveAddress(m, s) == if m.addressSize == 4 then Low32(Plus(Sum(m, s), m.disp))
      else Plus(Sum(m, s), m.disp)
  {
  }
}
