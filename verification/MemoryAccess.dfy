/** Loads and stores through memory operands (instruction.cpp). */
module MemoryAccess {
  import opened RiscV
  import opened Machine
  import opened Batches
  import opened Effects
  import opened Registers
  import opened MemoryOperands

  /** The host registers that hold guest registers (map_reg, helper.h). */
  const GuestRegisters: set<Reg> := {A7, A6, A2, S2, SP, S0, A1, A0, A4, A5, A3, S3, S4, S5, S6, S7}

  predicate Mapped(r: Reg) { r in GuestRegisters }
  predicate Scratch(r: Reg) { r in {T0, T1, T2, T3, T4, T5, T6} }

  /** Operands of guest code address memory through guest registers. */
  predicate GuestOperand(m: MemOperand) {
    m.Valid() && (m.HasBase() ==> Mapped(m.base)) && (m.HasIndex() ==> Mapped(m.index))
  }

  lemma MappedApart(r: Reg)
    requires Mapped(r)
    ensures !Scratch(r) && r != S11 && !r.Zero? && r != RA
  {
  }

  function LoadOf(size: nat, sign: bool): LoadOp {
    if size == 8 then LD
    else if size == 4 then if sign then LW else LWU
    else if size == 2 then if sign then LH else LHU
    else if sign then LB else LBU
  }

  function StoreOf(size: nat): StoreOp {
    if size == 8 then SD else if size == 4 then SW else if size == 2 then SH else SB
  }

  lemma Sizes(size: nat, sign: bool)
    requires IsSize(size)
    ensures LoadSize(LoadOf(size, sign)) == size && StoreSize(StoreOf(size)) == size
  {
  }

  /** What a load leaves in its register. */
  function Loaded(size: nat, sign: bool, m: Memory, a: bv64): bv64 {
    Extend(LoadOf(size, sign), ReadMem(m, a, size))
  }

  /** Register r is the partial address of the operand: the displacement may still be missing. */
  predicate Points(m: MemOperand, r: Reg, s: State, a: bv64) {
    a == if Small(m.disp) then Plus(s.Get(r), m.disp) else s.Get(r)
  }

  /** Where loads and stores go: a displacement of 12 bits is left to the access itself. */
  function Accessed(m: MemOperand, s: State): bv64 {
    if Small(m.disp) then Plus(Sum(m, s), m.disp) else EffectiveAddress(m, s)
  }

  predicate InLow32(a: bv64) { a <= 0xffff_ffff }

  lemma Low32Fits(a: bv64)
    ensures Low32(a) == a <==> InLow32(a)
  {
  }

  /**
   That is the effective address exactly if the address has 64 bits, or was cut to 32 when
   a wide displacement was added, or needs no cutting.
   */
  lemma AccessExact(m: MemOperand, s: State)
    ensures Accessed(m, s) == EffectiveAddress(m, s) <==>
      m.addressSize != 4 || !Small(m.disp) || InLow32(Plus(Sum(m, s), m.disp))
  {
    hide Plus, Sum, Small, Low32, InLow32;
    AddressIs(m, s);
    Low32Fits(Plus(Sum(m, s), m.disp));
  }

  /** With a 32-bit address in a register whose upper half is not clear, the access goes astray. */
  lemma AccessMisses(s: State)
    requires s.Get(A7) == 0x1_0000_0000
    ensures var m := MemOperand(A7, Zero, 0, 0, 4);
      GuestOperand(m) && Accessed(m, s) == 0x1_0000_0000 && EffectiveAddress(m, s) == 0
  {
  }

  function Offset(m: MemOperand): bv12 { if Small(m.disp) then Cut(m.disp) else 0 }

  lemma OffsetAdds(m: MemOperand, r: Reg, s: State, a: bv64)
    requires Points(m, r, s, a)
    ensures Plus(s.Get(r), Sext12(Offset(m))) == a
  {
    hide Plus, Sext12, Cut, Small, State.Get;
    if Small(m.disp) {
      SmallBits(m.disp);
    } else {
      PlusZero(s.Get(r));
    }
  }

  // ---- the partial address of a simple operand ------------------------------------------------------------

  /** Base and index, with `b` for the scaled index and `a` for the sum. */
  function PartWords(m: MemOperand, a: Reg, b: Reg): (seq<Instr>, Reg)
    requires m.Valid()
  {
    if !m.HasIndex() then ([], m.base)
    else if m.HasBase() then
      if m.scale == 0 then ([Op(ADD, a, m.base, m.index)], a)
      else ([Shift(SLLI, b, m.index, m.scale as bv6)] + [Op(ADD, a, b, m.base)], a)
    else if m.scale == 0 then ([], m.index)
    else ([Shift(SLLI, a, m.index, m.scale as bv6)], a)
  }

  lemma SumScaled(m: MemOperand, s: State)
    requires m.HasIndex()
    ensures Sum(m, s) == Plus(Shl(s.Get(m.index), m.scale), s.Get(m.base))
  {
    hide Plus, Shl, State.Get;
    PlusSwap(Shl(s.Get(m.index), m.scale), s.Get(m.base));
  }

  lemma ScaledPart(m: MemOperand, a: Reg, b: Reg, s: State)
    requires m.Valid() && !a.Zero? && !b.Zero? && b != m.base && m.HasIndex()
    ensures Leaves([Shift(SLLI, b, m.index, m.scale as bv6)] + [Op(ADD, a, b, m.base)], s, a, Sum(m, s), {a, b})
  {
    hide Exec, Plus, Shl, Sum, State.Get;
    var x, y := [Shift(SLLI, b, m.index, m.scale as bv6)], [Op(ADD, a, b, m.base)];
    var u := Shl(s.Get(m.index), m.scale);
    StepScale(b, m.index, m.scale, s);
    assert Exec(x, s).Get(m.base) == s.Get(m.base);
    StepAdd(a, b, m.base, Exec(x, s));
    SumScaled(m, s);
    LeavesThen(x, y, s, b, u, a, Sum(m, s), {b}, {a});
    assert {b} + {a} == {a, b};
  }

  lemma BasedPart(m: MemOperand, a: Reg, b: Reg, s: State)
    requires m.Valid() && !a.Zero? && !b.Zero? && b != m.base && m.HasIndex() && m.HasBase()
    ensures Leaves(PartWords(m, a, b).0, s, PartWords(m, a, b).1, Sum(m, s), {a, b})
  {
    hide Exec, Plus, Shl, Sum, Leaves, State.Get;
    if m.scale == 0 {
      SumUnscaled(m, s);
      PlusSwap(s.Get(m.index), s.Get(m.base));
      StepAdd(a, m.base, m.index, s);
      LeavesMore([Op(ADD, a, m.base, m.index)], s, a, Sum(m, s), {a}, {a, b});
    } else {
      ScaledPart(m, a, b, s);
    }
  }

  lemma IndexPartOnly(m: MemOperand, a: Reg, b: Reg, s: State)
    requires m.Valid() && !a.Zero? && m.HasIndex() && !m.HasBase()
    ensures Leaves(PartWords(m, a, b).0, s, PartWords(m, a, b).1, Sum(m, s), {a, b})
  {
    hide Exec, Plus, Shl, Sum, Leaves, State.Get;
    if m.scale == 0 {
      SumUnscaled(m, s);
      LeavesNothing(s, m.index);
      LeavesMore([], s, m.index, Sum(m, s), {}, {a, b});
    } else {
      SumWithoutBase(m, s);
      StepScale(a, m.index, m.scale, s);
      LeavesMore([Shift(SLLI, a, m.index, m.scale as bv6)], s, a, Sum(m, s), {a}, {a, b});
    }
  }

  lemma PartLeaves(m: MemOperand, a: Reg, b: Reg, s: State)
    requires m.Valid() && !a.Zero? && !b.Zero? && b != m.base
    ensures Leaves(PartWords(m, a, b).0, s, PartWords(m, a, b).1, Sum(m, s), {a, b})
  {
    hide Exec, Sum, Leaves, State.Get;
    if !m.HasIndex() {
      LeavesNothing(s, m.base);
      SumWithoutIndex(m, s);
      LeavesMore([], s, m.base, Sum(m, s), {}, {a, b});
    } else if m.HasBase() {
      BasedPart(m, a, b, s);
    } else {
      IndexPartOnly(m, a, b, s);
    }
  }

  /** Temporaries are none of the operand's registers. */
  lemma OperandApart(m: MemOperand, r: Reg)
    requires GuestOperand(m) && Scratch(r)
    ensures r != m.base && r != m.index && !r.Zero? && r != S11 && m.base != S11 && m.index != S11
  {
    if m.HasBase() {
      MappedApart(m.base);
    }
    if m.HasIndex() {
      MappedApart(m.index);
    }
  }

  lemma PartFlows(m: MemOperand, a: Reg, b: Reg)
    requires m.Valid()
    ensures AllFlow(PartWords(m, a, b).0) && PartWords(m, a, b).1 in {a, m.base, m.index}
  {
    hide AllFlow;
    FlowNone();
    Flow1(Op(ADD, a, m.base, m.index));
    Flow1(Shift(SLLI, a, m.index, m.scale as bv6));
    Flow1(Shift(SLLI, b, m.index, m.scale as bv6));
    Flow1(Op(ADD, a, b, m.base));
    AllFlowAppend([Shift(SLLI, b, m.index, m.scale as bv6)], [Op(ADD, a, b, m.base)]);
  }

  method EmitPart(batch: CodeBatch, m: MemOperand, a: Reg, b: Reg) returns (r: Reg)
    requires m.Valid()
    modifies batch
    ensures batch.code == old(batch.code) + PartWords(m, a, b).0 && r == PartWords(m, a, b).1
  {
    r := m.base;
    if m.HasIndex() {
      if m.HasBase() {
        if m.scale == 0 {
          var _ := batch.Add(Op(ADD, a, m.base, m.index));
        } else {
          var _ := batch.Add(Shift(SLLI, b, m.index, m.scale as bv6));
          var _ := batch.Add(Op(ADD, a, b, m.base));
        }
        r := a;
      } else if m.scale == 0 {
        r := m.index;
      } else {
        var _ := batch.Add(Shift(SLLI, a, m.index, m.scale as bv6));
        r := a;
      }
    }
  }

  /** The code leaves a partial address in r. */
  ghost predicate Addresses(x: seq<Instr>, s: State, m: MemOperand, r: Reg, temps: set<Reg>) {
    Keeps(s, Exec(x, s), temps) && Points(m, r, Exec(x, s), Accessed(m, s))
  }

  /** Computes the partial address for a load or a store; `a` may hold it, `b` is spare. */
  method EmitAddress(batch: CodeBatch, m: MemOperand, a: Reg, b: Reg, b': Reg) returns (r: Reg, ghost x: seq<Instr>)
    requires GuestOperand(m) && m.addressSize >= 4 && Scratch(a) && Scratch(b) && Scratch(b') && a != b
    modifies batch
    ensures batch.code == old(batch.code) + x && AllFlow(x) && r in {a, m.base, m.index}
    ensures forall s :: Addresses(x, s, m, r, {a, b, b'})
  {
    hide Leaves, Sum, Plus, Exec, AllFlow, PartWords, Small, Mapped, Scratch;
    OperandApart(m, a);
    OperandApart(m, b);
    OperandApart(m, b');
    if Small(m.disp) {
      r := EmitPart(batch, m, a, b');
      x := PartWords(m, a, b').0;
      PartFlows(m, a, b');
      forall s ensures Addresses(x, s, m, r, {a, b, b'}) {
        PartLeaves(m, a, b', s);
        PartAddresses(x, s, m, r, {a, b'}, {a, b, b'});
      }
    } else {
      var fault;
      fault, r, x := TranslateMemory(batch, m, a, b, false);
      forall s ensures Addresses(x, s, m, r, {a, b, b'}) {
        FullAddresses(x, s, m, r, {b, a}, {a, b, b'});
      }
    }
  }

  lemma PartAddresses(x: seq<Instr>, s: State, m: MemOperand, r: Reg, k: set<Reg>, l: set<Reg>)
    requires Leaves(x, s, r, Sum(m, s), k) && k <= l && Small(m.disp)
    ensures Addresses(x, s, m, r, l)
  {
    hide Exec, Plus, Sum, Small, State.Get;
  }

  lemma FullAddresses(x: seq<Instr>, s: State, m: MemOperand, r: Reg, k: set<Reg>, l: set<Reg>)
    requires Leaves(x, s, r, EffectiveAddress(m, s), k) && k <= l && !Small(m.disp)
    ensures Addresses(x, s, m, r, l)
  {
    hide Exec, Plus, Sum, Small, EffectiveAddress, State.Get;
  }

  // ---- loads ------------------------------------------------------------------------------------------------

  lemma LoadStep(m: MemOperand, r: Reg, size: nat, sign: bool, dest: Reg, s: State, a: bv64)
    requires IsSize(size) && r != S11 && !dest.Zero? && Points(m, r, s, a)
    ensures Leaves([Load(LoadOf(size, sign), dest, r, Offset(m))], s, dest, Loaded(size, sign, s.memory, a), {dest})
  {
    hide Exec, Step, Extend, ReadMem, Plus, Sext12, Offset, Points, LoadOf, State.Set, State.Get;
    var w := Load(LoadOf(size, sign), dest, r, Offset(m));
    Sizes(size, sign);
    OffsetAdds(m, r, s, a);
    Exec1Word([w], s);
    StepLoad(LoadOf(size, sign), dest, r, Offset(m), s);
    SetKeeps(s, dest, Loaded(size, sign, s.memory, a));
  }

  /** The code loads the operand into `dest` and keeps its partial address in r. */
  ghost predicate Reads(x: seq<Instr>, s: State, m: MemOperand, size: nat, sign: bool, dest: Reg, r: Reg,
        temps: set<Reg>) {
    && Keeps(s, Exec(x, s), temps)
    && Exec(x, s).Get(dest) == Loaded(size, sign, s.memory, Accessed(m, s))
    && Points(m, r, Exec(x, s), Accessed(m, s))
  }

  lemma AddressesParts(x: seq<Instr>, s: State, m: MemOperand, r: Reg, temps: set<Reg>)
    requires Addresses(x, s, m, r, temps)
    ensures Keeps(s, Exec(x, s), temps) && Points(m, r, Exec(x, s), Accessed(m, s))
  {
    hide Keeps, Exec, Points, Accessed;
  }

  lemma PointsKept(m: MemOperand, r: Reg, s: State, t: State, a: bv64)
    requires Points(m, r, s, a) && t.Get(r) == s.Get(r)
    ensures Points(m, r, t, a)
  {
    hide Plus, Small, State.Get;
  }

  lemma LoadedParts(w: seq<Instr>, s: State, dest: Reg, v: bv64, temps: set<Reg>, r: Reg)
    requires Leaves(w, s, dest, v, {dest}) && dest in temps && r != dest
    ensures Exec(w, s).Get(dest) == v && Keeps(s, Exec(w, s), temps) && Exec(w, s).Get(r) == s.Get(r)
  {
    hide Exec, State.Get;
  }

  lemma ReadsAfter(x: seq<Instr>, s: State, m: MemOperand, size: nat, sign: bool, dest: Reg, r: Reg, temps: set<Reg>)
    requires IsSize(size) && r != S11 && !dest.Zero? && dest != r && dest in temps && Addresses(x, s, m, r, temps)
    ensures Reads(x + [Load(LoadOf(size, sign), dest, r, Offset(m))], s, m, size, sign, dest, r, temps)
  {
    hide Exec, Extend, ReadMem, LoadOf, Offset, Leaves, Keeps, Points, Accessed, State.Get;
    var t, a, w := Exec(x, s), Accessed(m, s), [Load(LoadOf(size, sign), dest, r, Offset(m))];
    AddressesParts(x, s, m, r, temps);
    MemoryKept(s, t, temps);
    LoadStep(m, r, size, sign, dest, t, a);
    LoadedParts(w, t, dest, Loaded(size, sign, s.memory, a), temps, r);
    ExecAppend(x, w, s);
    KeepsTrans(s, t, Exec(w, t), temps, temps);
    assert temps + temps == temps;
    PointsKept(m, r, t, Exec(w, t), a);
  }

  lemma MemoryKept(s: State, t: State, temps: set<Reg>)
    requires Keeps(s, t, temps)
    ensures t.memory == s.memory
  {
    hide State.Get;
  }

  /** Loads an operand; addresses below 32 bits end the program. */
  method ReadFromMemory(batch: CodeBatch, m: MemOperand, size: nat, dest: Reg, temp: Reg, sign: bool)
      returns (fault: bool, r: Reg, ghost x: seq<Instr>)
    requires IsSize(size) && GuestOperand(m) && Scratch(dest) && Scratch(temp) && dest != temp
    modifies batch
    ensures fault == (m.addressSize < 4)
    ensures !fault ==> batch.code == old(batch.code) + x && AllFlow(x) && r in {temp, m.base, m.index}
    ensures !fault ==> forall s :: Reads(x, s, m, size, sign, dest, r, {temp, dest})
  {
    hide Addresses, Reads, AllFlow, Scratch, Mapped, LoadOf;
    fault, r, x := m.addressSize < 4, Zero, [];
    if fault {
      return;
    }
    ghost var y;
    r, y := EmitAddress(batch, m, temp, dest, temp);
    OperandApart(m, dest);
    OperandApart(m, temp);
    var w := Load(LoadOf(size, sign), dest, r, Offset(m));
    var _ := batch.Add(w);
    x := y + [w];
    LoadFlows(w);
    AllFlowAppend(y, [w]);
    assert {temp, dest, temp} == {temp, dest};
    forall s ensures Reads(x, s, m, size, sign, dest, r, {temp, dest}) {
      ReadsAfter(y, s, m, size, sign, dest, r, {temp, dest});
    }
  }

  lemma LoadFlows(w: Instr)
    requires w.Load? || w.Store?
    ensures AllFlow([w])
  {
  }

  // ---- stores -----------------------------------------------------------------------------------------------

  /** A store changes memory, and registers as given. */
  ghost predicate Stores(s: State, t: State, a: bv64, size: nat, v: bv64, temps: set<Reg>) {
    && t.memory == WriteMem(s.memory, a, size, v) && t.ctx == s.ctx && t.scratch == s.scratch && t.base == s.base
    && forall r :: r !in temps ==> t.Get(r) == s.Get(r)
  }

  lemma StoreStep(m: MemOperand, r: Reg, size: nat, src: Reg, s: State, a: bv64)
    requires IsSize(size) && r != S11 && Points(m, r, s, a)
    ensures Stores(s, Exec([Store(StoreOf(size), r, src, Offset(m))], s), a, size, s.Get(src), {})
  {
    hide Exec, Step, WriteMem, Plus, Sext12, Offset, Points, StoreOf;
    var w := Store(StoreOf(size), r, src, Offset(m));
    Sizes(size, false);
    OffsetAdds(m, r, s, a);
    Exec1Word([w], s);
    StepStore(StoreOf(size), r, src, Offset(m), s);
  }

  /** Stores behind code that found the partial address. */
  lemma StoresAfter(x: seq<Instr>, s: State, m: MemOperand, size: nat, src: Reg, r: Reg, temps: set<Reg>, a: bv64)
    requires IsSize(size) && r != S11 && src !in temps && Keeps(s, Exec(x, s), temps) && Points(m, r, Exec(x, s), a)
    ensures Stores(s, Exec(x + [Store(StoreOf(size), r, src, Offset(m))], s), a, size, s.Get(src), temps)
  {
    hide Exec, StoreOf, Offset, Points, WriteMem, State.Get;
    var t, w := Exec(x, s), [Store(StoreOf(size), r, src, Offset(m))];
    StoreStep(m, r, size, src, t, a);
    ExecAppend(x, w, s);
  }

  /**
   Stores a register.  `address` is a partial address from a load of the same operand, or
   zero, in which case the address is computed here.  Addresses below 32 bits end the program.
   */
  method WriteToMemory(batch: CodeBatch, m: MemOperand, size: nat, src: Reg, tempA: Reg, tempB: Reg, address: Reg)
      returns (fault: bool, ghost x: seq<Instr>)
    requires IsSize(size) && GuestOperand(m) && Scratch(tempA) && Scratch(tempB) && tempA != tempB
    requires src != tempA && src != tempB && address != S11
    modifies batch
    ensures fault == (m.addressSize < 4)
    ensures !fault ==> batch.code == old(batch.code) + x && AllFlow(x)
    ensures !fault && address != Zero ==> forall s: State, a: bv64 {:trigger Points(m, address, s, a)} ::
      Points(m, address, s, a) ==> Stores(s, Exec(x, s), a, size, s.Get(src), {tempA, tempB})
    ensures !fault && address == Zero ==> forall s: State {:trigger Exec(x, s)} ::
      Stores(s, Exec(x, s), Accessed(m, s), size, s.Get(src), {tempA, tempB})
  {
    hide Addresses, AllFlow, Scratch, Mapped, StoreOf, Stores, Points, Keeps, Exec, Accessed;
    fault, x := m.addressSize < 4, [];
    if fault {
      return;
    }
    ghost var y := [];
    var r := address;
    FlowNone();
    if address == Zero {
      r, y := EmitAddress(batch, m, tempA, tempB, tempB);
      assert {tempA, tempB, tempB} == {tempA, tempB};
    }
    OperandApart(m, tempA);
    var w := Store(StoreOf(size), r, src, Offset(m));
    var _ := batch.Add(w);
    x := y + [w];
    LoadFlows(w);
    AllFlowAppend(y, [w]);
    if address == Zero {
      forall s: State ensures Stores(s, Exec(x, s), Accessed(m, s), size, s.Get(src), {tempA, tempB}) {
        AddressesParts(y, s, m, r, {tempA, tempB});
        StoresAfter(y, s, m, size, src, r, {tempA, tempB}, Accessed(m, s));
      }
    } else {
      forall s: State, a: bv64 | Points(m, address, s, a)
        ensures Stores(s, Exec(x, s), a, size, s.Get(src), {tempA, tempB})
      {
        NothingKeeps(s, {tempA, tempB});
        StoresAfter(y, s, m, size, src, r, {tempA, tempB}, a);
      }
    }
  }

  lemma NothingKeeps(s: State, temps: set<Reg>)
    ensures Exec([], s) == s && Keeps(s, s, temps)
  {
    hide Step, State.Get;
  }

  /**
   A read-modify-write: whatever happens between the load and the store, as long as the
   operand's registers and the partial address survive, both meet the same location.
   */
  lemma SameLocation(x: seq<Instr>, s: State, m: MemOperand, size: nat, sign: bool, dest: Reg, r: Reg, temps: set<Reg>,
        t: State)
    requires Reads(x, s, m, size, sign, dest, r, temps) && t.Get(r) == Exec(x, s).Get(r)
    ensures Points(m, r, t, Accessed(m, s))
  {
    hide Keeps, Exec, Loaded, Plus, Small, Accessed, State.Get;
  }
}
