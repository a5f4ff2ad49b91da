/** Two-operand instructions end to end (binary_operation.cpp). */
module BinaryOperation {
  import opened RiscV
  import opened Machine
  import opened Batches
  import opened Effects
  import opened FlagState
  import opened FlagUpdates
  import opened LazyFlags
  import opened CarryState
  import opened Registers
  import opened MemoryOperands
  import opened MemoryAccess
  import opened ArithmeticOps
  import opened Narrowing
  import opened EagerFlags
  import opened Immediates

  datatype AluOperand =
    | RegisterOperand(reg: Reg, high: bool)
    | MemoryCell(m: MemOperand)
    | Constant(imm: bv64, width: nat)

  /** No segment override; the second byte only of byte operands. */
  predicate ValidOperand(o: AluOperand, size: nat) {
    && IsSize(size)
    && (o.RegisterOperand? ==> Mapped(o.reg) && (o.high ==> size == 1))
    && (o.MemoryCell? ==> GuestOperand(o.m))
    && (o.Constant? ==> IsSize(o.width))
  }

  /** Memory operands with addresses below 32 bits end the program. */
  predicate Reachable(o: AluOperand) { o.MemoryCell? ==> o.m.addressSize >= 4 }

  function Access(o: AluOperand, size: nat): nat { if o.RegisterOperand? && o.high then 0 else size }

  /** The operand at its width. */
  function OperandValue(o: AluOperand, size: nat, s: State): bv64 {
    match o
    case RegisterOperand(r, high) => if high then High8(s.Get(r)) else ZeroExtend(size, s.Get(r))
    case MemoryCell(m) => ZeroExtend(size, ReadMem(s.memory, Accessed(m, s), size))
    case Constant(imm, width) => ConstantValue(imm, width, size)
  }

  /** A constant that does not fit 12 bits is first cut to its own width. */
  function ConstantValue(imm: bv64, width: nat, size: nat): bv64 {
    ZeroExtend(size, if Small(imm) then imm else ZeroExtend(width, imm))
  }

  predicate FitsIn(width: nat, v: bv64) { width == 8 || AtMost(v, LastOf(width)) }

  predicate AtMost(v: bv64, bound: bv64) { v <= bound }

  function LastOf(width: nat): bv64 { if width == 4 then 0xffff_ffff else if width == 2 then 0xffff else 0xff }

  /** The sign-extended constant at the destination's width is used, unless it was cut short of that width. */
  lemma ConstantExact(imm: bv64, width: nat, size: nat)
    requires IsSize(width) && IsSize(size)
    ensures ConstantValue(imm, width, size) == ZeroExtend(size, imm)
      <==> Small(imm) || size <= width || FitsIn(width, ZeroExtend(size, imm))
  {
    hide Small;
    CutTwice(width, size, imm);
  }

  lemma CutTwice(width: nat, size: nat, v: bv64)
    requires IsSize(width) && IsSize(size)
    ensures ZeroExtend(size, ZeroExtend(width, v)) == ZeroExtend(size, v)
      <==> size <= width || FitsIn(width, ZeroExtend(size, v))
  {
    hide ZeroExtend, FitsIn;
    if size <= width {
      CutLater(width, size, v);
    } else if width == 1 {
      CutToByte(size, v);
    } else if width == 2 {
      CutToHalf(size, v);
    } else {
      CutToWord(size, v);
    }
  }

  lemma CutLater(width: nat, size: nat, v: bv64)
    requires IsSize(width) && IsSize(size) && size <= width
    ensures ZeroExtend(size, ZeroExtend(width, v)) == ZeroExtend(size, v)
  {
    hide Low8, Low16, Low32;
    CutNarrower(v);
  }

  lemma CutToByte(size: nat, v: bv64)
    requires size == 2 || size == 4 || size == 8
    ensures ZeroExtend(size, ZeroExtend(1, v)) == ZeroExtend(size, v) <==> FitsIn(1, ZeroExtend(size, v))
  {
    hide Low8, Low16, Low32, AtMost, LastOf;
    CutWider(v);
    if size == 8 {
      CutByte(v);
    } else if size == 4 {
      CutByte(Low32(v));
    } else {
      CutByte(Low16(v));
    }
  }

  lemma CutToHalf(size: nat, v: bv64)
    requires size == 4 || size == 8
    ensures ZeroExtend(size, ZeroExtend(2, v)) == ZeroExtend(size, v) <==> FitsIn(2, ZeroExtend(size, v))
  {
    hide Low8, Low16, Low32, AtMost, LastOf;
    CutWider(v);
    CutHalf(if size == 8 then v else Low32(v));
  }

  lemma CutToWord(size: nat, v: bv64)
    requires size == 8
    ensures ZeroExtend(size, ZeroExtend(4, v)) == ZeroExtend(size, v) <==> FitsIn(4, ZeroExtend(size, v))
  {
    hide Low32, AtMost, LastOf;
    CutWord(v);
  }

  lemma CutByte(v: bv64)
    ensures Low8(v) == v <==> AtMost(v, LastOf(1))
  {
  }

  lemma CutHalf(v: bv64)
    ensures Low16(v) == v <==> AtMost(v, LastOf(2))
  {
  }

  lemma CutWord(v: bv64)
    ensures Low32(v) == v <==> AtMost(v, LastOf(4))
  {
  }

  lemma CutWider(v: bv64)
    ensures Low16(Low8(v)) == Low8(Low16(v)) && Low32(Low8(v)) == Low8(Low32(v)) && Low32(Low16(v)) == Low16(Low32(v))
  {
  }

  lemma CutNarrower(v: bv64)
    ensures Low8(Low8(v)) == Low8(v) && Low8(Low16(v)) == Low8(v) && Low8(Low32(v)) == Low8(v)
    ensures Low16(Low16(v)) == Low16(v) && Low16(Low32(v)) == Low16(v) && Low32(Low32(v)) == Low32(v)
  {
  }

  /** A constant of 32 bits loses its sign beside a destination of 64. */
  lemma ConstantMisses()
    ensures !Small(0xffff_ffff_ffff_f000) && ConstantValue(0xffff_ffff_ffff_f000, 4, 8) == 0xffff_f000
  {
  }

  // ---- fetching operands ------------------------------------------------------------------------------------

  /** Register r holds the value, up to bits beyond its width. */
  ghost predicate Provides(x: seq<Instr>, s: State, r: Reg, size: nat, v: bv64, temps: set<Reg>) {
    Keeps(s, Exec(x, s), temps) && ZeroExtend(size, Exec(x, s).Get(r)) == v
  }

  lemma HighProvides(t: Reg, r: Reg, s: State)
    requires !t.Zero?
    ensures Provides([Shift(SRLI, t, r, 8)], s, t, 1, High8(s.Get(r)), {t})
  {
    hide Exec, Step, Shr, High8, ZeroExtend, State.Set, State.Get;
    Exec1Word([Shift(SRLI, t, r, 8)], s);
    StepShift(SRLI, t, r, 8, s);
    SetKeeps(s, t, Shr(s.Get(r), 8));
    ShrName8(s.Get(r));
    HighIs(s.Get(r));
  }

  lemma HighIs(v: bv64)
    ensures ZeroExtend(1, Down8(v)) == High8(v)
  {
  }

  lemma CopyProvides(t: Reg, r: Reg, size: nat, s: State)
    requires !t.Zero?
    ensures Provides([Mv(t, r)], s, t, size, ZeroExtend(size, s.Get(r)), {t})
  {
    hide Exec, Mv, ZeroExtend, State.Get;
    MvGives(t, r, s);
    assert {} + {t} == {t};
  }

  lemma NothingProvides(r: Reg, size: nat, s: State, temps: set<Reg>)
    ensures Provides([], s, r, size, ZeroExtend(size, s.Get(r)), temps)
  {
    hide Step, ZeroExtend, State.Get;
  }

  lemma ReadProvides(x: seq<Instr>, s: State, m: MemOperand, size: nat, dest: Reg, r: Reg, temps: set<Reg>)
    requires Reads(x, s, m, size, false, dest, r, temps) && IsSize(size)
    ensures Provides(x, s, dest, size, ZeroExtend(size, ReadMem(s.memory, Accessed(m, s), size)), temps)
  {
    hide Exec, Keeps, ReadMem, Accessed, ZeroExtend, State.Get;
    Unsigned(size, ReadMem(s.memory, Accessed(m, s), size));
  }

  lemma Unsigned(size: nat, v: bv64)
    ensures Extend(LoadOf(size, false), v) == v
  {
  }

  lemma ImmediateProvides(x: seq<Instr>, s: State, r: Reg, v: bv64, size: nat)
    requires Sets(x, r, v) && !r.Zero?
    ensures Provides(x, s, r, size, ZeroExtend(size, v), {r})
  {
    hide Exec, ZeroExtend, State.Get;
    SetsLeaves(x, r, v, s);
  }

  lemma ProvidesMore(x: seq<Instr>, s: State, r: Reg, size: nat, v: bv64, k: set<Reg>, l: set<Reg>)
    requires Provides(x, s, r, size, v, k) && k <= l
    ensures Provides(x, s, r, size, v, l)
  {
    hide Exec, ZeroExtend, State.Get;
  }

  const SourceTemps: set<Reg> := {T2, T3}
  const DestTemps: set<Reg> := {T0, T1}

  /** translate_operand for the source: a guest register itself, or T2. */
  method FetchSource(batch: CodeBatch, o: AluOperand, size: nat) returns (r: Reg, ghost x: seq<Instr>)
    requires ValidOperand(o, size) && Reachable(o)
    requires o.Constant? ==> !Small(o.imm)
    modifies batch
    ensures batch.code == old(batch.code) + x && AllFlow(x) && (r == T2 || Mapped(r))
    ensures r == if o.RegisterOperand? && !o.high then o.reg else T2
    ensures forall s: State :: Provides(x, s, r, size, OperandValue(o, size, s), SourceTemps)
  {
    hide Provides, Reads, Sets, AllFlow, Mapped, ZeroExtend, Accessed, ReadMem;
    match o
    case MemoryCell(m) =>
      var fault, a;
      fault, a, x := ReadFromMemory(batch, m, size, T2, T3, false);
      r := T2;
      forall s: State ensures Provides(x, s, r, size, OperandValue(o, size, s), SourceTemps) {
        ReadProvides(x, s, m, size, T2, a, {T3, T2});
        ProvidesMore(x, s, T2, size, OperandValue(o, size, s), {T3, T2}, SourceTemps);
      }
    case RegisterOperand(reg, high) =>
      if high {
        var _ := batch.Add(Shift(SRLI, T2, reg, 8));
        r, x := T2, [Shift(SRLI, T2, reg, 8)];
        Flow1(Shift(SRLI, T2, reg, 8));
        forall s: State ensures Provides(x, s, r, size, OperandValue(o, size, s), SourceTemps) {
          HighProvides(T2, reg, s);
          ProvidesMore(x, s, T2, 1, High8(s.Get(reg)), {T2}, SourceTemps);
        }
      } else {
        r, x := reg, [];
        FlowNone();
        forall s: State ensures Provides(x, s, r, size, OperandValue(o, size, s), SourceTemps) {
          NothingProvides(reg, size, s, SourceTemps);
        }
      }
    case Constant(imm, width) =>
      x := LoadImmediate(batch, ZeroExtend(width, imm), T2);
      r := T2;
      SetsFlow(x, T2, ZeroExtend(width, imm));
      forall s: State ensures Provides(x, s, r, size, OperandValue(o, size, s), SourceTemps) {
        ImmediateProvides(x, s, T2, ZeroExtend(width, imm), size);
        ProvidesMore(x, s, T2, size, ConstantValue(imm, width, size), {T2}, SourceTemps);
      }
  }

  /** The register holding the destination, and for memory its partial address. */
  ghost predicate Fetched(x: seq<Instr>, s: State, o: AluOperand, size: nat, d: Reg, address: Reg) {
    && Provides(x, s, d, size, OperandValue(o, size, s), DestTemps)
    && (o.MemoryCell? ==> Points(o.m, address, Exec(x, s), Accessed(o.m, s)))
  }

  /** translate_operand for the destination: wide registers are used in place, all else goes through T0. */
  method FetchDestination(batch: CodeBatch, o: AluOperand, size: nat)
      returns (d: Reg, address: Reg, ghost x: seq<Instr>)
    requires ValidOperand(o, size) && !o.Constant? && Reachable(o)
    modifies batch
    ensures batch.code == old(batch.code) + x && AllFlow(x)
    ensures if o.RegisterOperand? && size >= 4 then d == o.reg else d == T0
    ensures o.MemoryCell? ==> address in {T1, o.m.base, o.m.index}
    ensures forall s: State :: Fetched(x, s, o, size, d, address)
  {
    hide Provides, Reads, AllFlow, Mapped, ZeroExtend, Accessed, ReadMem, Mv, Points;
    address := Zero;
    if o.MemoryCell? {
      var fault;
      fault, address, x := ReadFromMemory(batch, o.m, size, T0, T1, false);
      d := T0;
      forall s: State ensures Fetched(x, s, o, size, d, address) {
        ReadProvides(x, s, o.m, size, T0, address, {T1, T0});
        ReadPoints(x, s, o.m, size, T0, address, {T1, T0});
        ProvidesMore(x, s, T0, size, OperandValue(o, size, s), {T1, T0}, DestTemps);
      }
    } else if size >= 4 {
      d, x := o.reg, [];
      FlowNone();
      forall s: State ensures Fetched(x, s, o, size, d, address) {
        NothingProvides(o.reg, size, s, DestTemps);
      }
    } else if o.high {
      var _ := batch.Add(Shift(SRLI, T0, o.reg, 8));
      d, x := T0, [Shift(SRLI, T0, o.reg, 8)];
      Flow1(Shift(SRLI, T0, o.reg, 8));
      forall s: State ensures Fetched(x, s, o, size, d, address) {
        HighProvides(T0, o.reg, s);
        ProvidesMore(x, s, T0, 1, High8(s.Get(o.reg)), {T0}, DestTemps);
      }
    } else {
      var _ := batch.Add(Mv(T0, o.reg));
      d, x := T0, [Mv(T0, o.reg)];
      MvFlows(T0, o.reg);
      forall s: State ensures Fetched(x, s, o, size, d, address) {
        CopyProvides(T0, o.reg, size, s);
        ProvidesMore(x, s, T0, size, OperandValue(o, size, s), {T0}, DestTemps);
      }
    }
  }

  lemma ReadPoints(x: seq<Instr>, s: State, m: MemOperand, size: nat, dest: Reg, r: Reg, temps: set<Reg>)
    requires Reads(x, s, m, size, false, dest, r, temps)
    ensures Points(m, r, Exec(x, s), Accessed(m, s))
  {
    hide Exec, Keeps, Points, Accessed;
  }

  // ---- storing the flags ------------------------------------------------------------------------------------

  const ResultFlags: set<G.Flag> := {G.Zero, G.Sign, G.Parity}

  /** The code stores the zero, sign and parity state of register d, as far as asked for. */
  ghost predicate FlagsStored(y: seq<Instr>, s: State, d: Reg, size: nat, update: set<G.Flag>) {
    && Updates(y, s, {T3}, ResultFlags * update)
    && (G.Zero in update ==> ZeroBit(Exec(y, s).ctx) == EagerZero(size, s.Get(d)))
    && (G.Sign in update ==> SignBit(Exec(y, s).ctx) == EagerSign(size, s.Get(d)))
    && (G.Parity in update ==> ParityBit(Exec(y, s).ctx) == EagerParity(s.Get(d)))
  }

  lemma UpdatesParts(x: seq<Instr>, s: State, regs: set<Reg>, flags: set<G.Flag>, r: Reg)
    requires Updates(x, s, regs, flags) && r !in regs
    ensures Touches(s.ctx, Exec(x, s).ctx, flags) && Exec(x, s).Get(r) == s.Get(r)
  {
    hide Exec, Touches, State.Get;
  }

  /** Three contexts, each with one more flag stored for the value v. */
  lemma StoredRead(c: Context, c1: Context, c2: Context, c3: Context, v: bv64, size: nat, update: set<G.Flag>)
    requires IsSize(size) && Touches(c, c1, {G.Zero} * update)
    requires Touches(c1, c2, {G.Sign} * update) && Touches(c2, c3, {G.Parity} * update)
    requires G.Zero in update ==> c1.zeroValue == ZeroExtend(size, v)
    requires G.Sign in update ==> c2.signValue == v && c2.signSize == TopBitByte(size)
    requires G.Parity in update ==> c3.parityValue == (v & 0xff) as bv8
    ensures G.Zero in update ==> ZeroBit(c3) == EagerZero(size, v)
    ensures G.Sign in update ==> SignBit(c3) == EagerSign(size, v)
    ensures G.Parity in update ==> ParityBit(c3) == EagerParity(v)
  {
    hide ZeroExtend, TopBitByte, EagerZero, EagerSign, EagerParity, ZeroBit, SignBit, ParityBit;
    if G.Zero in update {
      ZeroReads(c3, size, v);
    }
    if G.Sign in update {
      SignReads(c3, size, v);
    }
    if G.Parity in update {
      ParityReads(c3, v);
    }
  }

  /** The three stores one after the other do not disturb each other. */
  lemma FlagsChain(a: seq<Instr>, b: seq<Instr>, c: seq<Instr>, s: State, d: Reg, size: nat, update: set<G.Flag>)
    requires IsSize(size) && d != T3
    requires forall s: State :: Updates(a, s, {}, {G.Zero} * update)
    requires forall s: State :: Updates(b, s, {T3}, {G.Sign} * update)
    requires forall s: State :: Updates(c, s, {}, {G.Parity} * update)
    requires G.Zero in update ==> forall s: State :: Exec(a, s).ctx.zeroValue == ZeroExtend(size, s.Get(d))
    requires G.Sign in update ==> forall s: State ::
      Exec(b, s).ctx.signValue == s.Get(d) && Exec(b, s).ctx.signSize == TopBitByte(size)
    requires G.Parity in update ==> forall s: State :: Exec(c, s).ctx.parityValue == (s.Get(d) & 0xff) as bv8
    ensures FlagsStored(a + b + c, s, d, size, update)
  {
    hide Exec, ZeroExtend, TopBitByte, EagerZero, EagerSign, EagerParity, ZeroBit, SignBit, ParityBit, State.Get;
    hide Updates, Touches, IsSize;
    var s1 := Exec(a, s);
    var s2 := Exec(b, s1);
    UpdatesParts(a, s, {}, {G.Zero} * update, d);
    UpdatesParts(b, s1, {T3}, {G.Sign} * update, d);
    UpdatesParts(c, s2, {}, {G.Parity} * update, d);
    StoredRead(s.ctx, s1.ctx, s2.ctx, Exec(c, s2).ctx, s.Get(d), size, update);
    UpdatesThen(a, b, s, {}, {T3}, {G.Zero} * update, {G.Sign} * update);
    UpdatesThen(a + b, c, s, {} + {T3}, {}, {G.Zero} * update + {G.Sign} * update, {G.Parity} * update);
    assert {} + {T3} + {} == {T3};
    assert {G.Zero} * update + {G.Sign} * update + {G.Parity} * update == ResultFlags * update;
  }

  method EmitFlags(batch: CodeBatch, update: set<G.Flag>, d: Reg, size: nat) returns (ghost y: seq<Instr>)
    requires IsSize(size) && d != T3
    modifies batch
    ensures batch.code == old(batch.code) + y && AllFlow(y)
    ensures forall s: State :: FlagsStored(y, s, d, size, update)
  {
    hide Updates, FlagsStored, AllFlow, Exec, ZeroExtend, TopBitByte;
    ghost var a := UpdateZero(batch, update, d, size);
    ghost var b := UpdateSign(batch, update, d, size, T3);
    ghost var c := UpdateParity(batch, update, d);
    y := a + b + c;
    AllFlowAppend(a, b);
    AllFlowAppend(a + b, c);
    forall s: State ensures FlagsStored(y, s, d, size, update) {
      FlagsChain(a, b, c, s, d, size, update);
    }
  }

  // ---- writing back -------------------------------------------------------------------------------------------

  const BackTemps: set<Reg> := {T2, T3}

  /** The code writes register d to the destination. */
  ghost predicate WritesBack(z: seq<Instr>, s: State, o: AluOperand, size: nat, d: Reg, a: bv64) {
    match o
    case RegisterOperand(r, _) =>
      Keeps(s, Exec(z, s), BackTemps + {r}) && Exec(z, s).Get(r) == Merge(Access(o, size), s.Get(r), s.Get(d))
    case MemoryCell(m) => Stores(s, Exec(z, s), a, size, s.Get(d), BackTemps)
    case Constant(_, _) => true
  }

  /** translate_destination. */
  method WriteBack(batch: CodeBatch, o: AluOperand, size: nat, d: Reg, address: Reg) returns (ghost z: seq<Instr>)
    requires ValidOperand(o, size) && !o.Constant? && Reachable(o)
    requires d == T0 || (o.RegisterOperand? && size >= 4 && d == o.reg)
    requires o.MemoryCell? ==> address in {T1, o.m.base, o.m.index}
    modifies batch
    ensures batch.code == old(batch.code) + z && AllFlow(z)
    ensures o.RegisterOperand? ==> forall s: State :: WritesBack(z, s, o, size, d, 0)
    ensures o.MemoryCell? ==> forall s: State, a: bv64 {:trigger WritesBack(z, s, o, size, d, a)} ::
      (if address == Zero then a == Accessed(o.m, s) else Points(o.m, address, s, a)) ==>
        WritesBack(z, s, o, size, d, a)
  {
    hide AllFlow, Mapped, Accessed, Points, Stores, MoveWords, Moves, Exec;
    if o.RegisterOperand? {
      RegisterApart(o, size);
      z := [];
      FlowNone();
      if size != 8 || o.reg != d {
        MoveToRegister(batch, o.reg, d, Access(o, size), T2, false);
        z := MoveWords(o.reg, d, Access(o, size), T2, false);
        MoveFlows(o.reg, d, Access(o, size), T2, false);
        forall s: State ensures WritesBack(z, s, o, size, d, 0) {
          MovesBack(o, size, d, s);
        }
      } else {
        forall s: State ensures WritesBack(z, s, o, size, d, 0) {
          NothingKeeps(s, BackTemps + {o.reg});
        }
      }
    } else {
      OperandApart(o.m, T2);
      var fault;
      fault, z := WriteToMemory(batch, o.m, size, T0, T2, T3, address);
      forall s: State, a: bv64 | if address == Zero then a == Accessed(o.m, s) else Points(o.m, address, s, a)
        ensures WritesBack(z, s, o, size, d, a)
      {
        assert Stores(s, Exec(z, s), a, size, s.Get(T0), {T2, T3});
      }
    }
  }

  lemma RegisterApart(o: AluOperand, size: nat)
    requires ValidOperand(o, size) && o.RegisterOperand?
    ensures o.reg != T0 && o.reg != T2 && !o.reg.Zero? && IsAccess(Access(o, size))
  {
    MappedApart(o.reg);
  }

  lemma MovesBack(o: AluOperand, size: nat, d: Reg, s: State)
    requires ValidOperand(o, size) && o.RegisterOperand? && (d == T0 || (size >= 4 && d == o.reg))
    ensures WritesBack(MoveWords(o.reg, d, Access(o, size), T2, false), s, o, size, d, 0)
  {
    hide MoveWords, Exec, Merge, Mapped, State.Get;
    RegisterApart(o, size);
    var z := MoveWords(o.reg, d, Access(o, size), T2, false);
    MoveGives(o.reg, d, Access(o, size), T2, false, s);
    KeepsMore(s, Exec(z, s), {T2} + {o.reg}, BackTemps + {o.reg});
  }

  // ---- the whole instruction ------------------------------------------------------------------------------------

  const AllTemps: set<Reg> := {T0, T1, T2, T3, T4, T5, T6, RA}

  /** The x86 result at the operand width. */
  function X86Result(op: AluOp, size: nat, dest: AluOperand, src: AluOperand, s: State): bv64 {
    ZeroExtend(size, Compute(op, OperandValue(dest, size, s), OperandValue(src, size, s), CarryBit(s)))
  }

  /** The destination register is the source, and is written in place. */
  predicate Itself(dest: AluOperand, src: AluOperand, size: nat) {
    dest.RegisterOperand? && src.RegisterOperand? && size >= 4 && dest.reg == src.reg
  }

  /** A short constant whose sign is not the one it has at the operand width. */
  predicate Inverted(op: AluOp, size: nat, src: AluOperand) {
    src.Constant? && Small(src.imm) && Missigned(op, size, src.imm)
  }

  function ReadCarry(op: AluOp, size: nat, dest: AluOperand, src: AluOperand, s: State): bv64 {
    CarryTold(op, size, OperandValue(dest, size, s), OperandValue(src, size, s), CarryBit(s), Itself(dest, src, size))
  }

  function ReadOverflow(op: AluOp, size: nat, dest: AluOperand, src: AluOperand, s: State): bv64 {
    OverflowTold(op, size, OperandValue(dest, size, s), OperandValue(src, size, s), CarryBit(s),
      Inverted(op, size, src))
  }

  /**
   The destination receives the result, merged into a register or stored to memory; no
   other guest register and no other memory changes; flag state changes only for the
   flags asked for.  Zero, sign and parity then read as those of the result, carry and
   overflow as FlagsExact says.
   */
  ghost predicate BinaryEffect(code: seq<Instr>, s: State, op: AluOp, size: nat, dest: AluOperand, src: AluOperand,
        update: set<G.Flag>) {
    var u, w := Exec(code, s), X86Result(op, size, dest, src, s);
    && (match dest
        case RegisterOperand(r, _) =>
          Framed(s, u, AllTemps + {r}) && u.Get(r) == Merge(Access(dest, size), s.Get(r), w)
        case MemoryCell(m) =>
          Stores(s.(ctx := u.ctx), u, Accessed(m, s), size, w, AllTemps)
        case Constant(_, _) => true)
    && Touches(s.ctx, u.ctx, update)
    && (G.Zero in update ==> ZeroBit(u.ctx) == EagerZero(size, w))
    && (G.Sign in update ==> SignBit(u.ctx) == EagerSign(size, w))
    && (G.Parity in update ==> ParityBit(u.ctx) == EagerParity(w))
    && Tells(u, ReadCarry(op, size, dest, src, s), ReadOverflow(op, size, dest, src, s), update)
  }

  /** Carry and overflow are those of x86, except for a register added to itself and for constants of the wrong sign. */
  lemma FlagsExact(op: AluOp, size: nat, dest: AluOperand, src: AluOperand, s: State)
    requires ValidOperand(dest, size) && ValidOperand(src, size)
    ensures var d, v, c := OperandValue(dest, size, s), OperandValue(src, size, s), CarryBit(s);
      ReadCarry(op, size, dest, src, s) == Bit(X86Carry(op, size, d, v, c))
      <==>
      (Itself(dest, src, size) && op.AddOp? ==> !SignSet(size, d))
      && (Itself(dest, src, size) && op.AdcOp? ==> SignSet(size, d) == (0 < c))
    ensures var d, v, c := OperandValue(dest, size, s), OperandValue(src, size, s), CarryBit(s);
      (ReadOverflow(op, size, dest, src, s) == Bit(X86Overflow(op, size, d, v, c))) == !Inverted(op, size, src)
  {
    hide *;
    var d, v, c := OperandValue(dest, size, s), OperandValue(src, size, s), CarryBit(s);
    OperandSized(dest, size);
    ReadsTold(op, size, dest, src, s);
    if Itself(dest, src, size) {
      SameValue(dest, src, size, s);
    }
    CarryReads(op, size, d, v, c, Itself(dest, src, size));
    OverflowReads(op, size, d, v, c, Inverted(op, size, src));
  }

  lemma ReadsTold(op: AluOp, size: nat, dest: AluOperand, src: AluOperand, s: State)
    ensures var d, v, c := OperandValue(dest, size, s), OperandValue(src, size, s), CarryBit(s);
      && ReadCarry(op, size, dest, src, s) == CarryTold(op, size, d, v, c, Itself(dest, src, size))
      && ReadOverflow(op, size, dest, src, s) == OverflowTold(op, size, d, v, c, Inverted(op, size, src)) && IsBit(c)
  {
    hide OperandValue, CarryTold, OverflowTold, Itself, Inverted;
  }

  lemma CarryReads(op: AluOp, size: nat, d: bv64, v: bv64, c: bv64, itself: bool)
    requires IsSize(size) && IsBit(c) && (itself ==> v == d)
    ensures CarryTold(op, size, d, v, c, itself) == Bit(X86Carry(op, size, d, v, c))
      <==> (itself && op.AddOp? ==> !SignSet(size, d)) && (itself && op.AdcOp? ==> SignSet(size, d) == (0 < c))
  {
    hide SignSet, AddCarries, SubBorrows, Bit, IsBit;
    ZeroBitIs();
    DoubledCarry(size, d, 0);
    DoubledCarry(size, d, c);
    BitIs(SignSet(size, d), c);
  }

  lemma ZeroBitIs() ensures IsBit(0) {}

  lemma OverflowReads(op: AluOp, size: nat, d: bv64, v: bv64, c: bv64, wrong: bool)
    ensures (OverflowTold(op, size, d, v, c, wrong) == Bit(X86Overflow(op, size, d, v, c))) == !wrong
  {
    hide X86Overflow, Bit;
    TwoBits(X86Overflow(op, size, d, v, c), wrong);
  }

  lemma TwoBits(p: bool, q: bool) ensures Bit(p != q) == Bit(p) <==> !q {}

  lemma BitIs(p: bool, c: bv64)
    requires IsBit(c)
    ensures (c == Bit(p) <==> p == (0 < c)) && (Bit(p) == 0 <==> !p)
  {
  }

  lemma SameValue(dest: AluOperand, src: AluOperand, size: nat, s: State)
    requires ValidOperand(dest, size) && ValidOperand(src, size) && Itself(dest, src, size)
    ensures OperandValue(dest, size, s) == OperandValue(src, size, s)
  {
    hide ZeroExtend, High8, Mapped, State.Get;
  }

  /** A 32-bit register with its top bit set, added to itself, carries; the carry reads as clear. */
  lemma ItselfLosesCarry()
    ensures X86Carry(AddOp, 4, 0x8000_0000, 0x8000_0000, 0)
    ensures CarryTold(AddOp, 4, 0x8000_0000, 0x8000_0000, 0, true) == 0
  {
  }

  /** Constants sign-extended from the operand width, or from less, have the right sign. */
  lemma ExtendedConstant(op: AluOp, size: nat, imm: bv64)
    requires IsSize(size) && Small(imm) && imm == SignExtend(size, imm)
    ensures !Missigned(op, size, imm)
  {
    hide Positive;
    ExtendedSign(size, imm);
  }

  lemma ExtendedSign(size: nat, imm: bv64)
    requires IsSize(size) && Small(imm) && imm == SignExtend(size, imm)
    ensures (imm >= 0x800) == SignSet(size, imm)
  {
  }

  /** Code that tells the carry and the overflow of the operation on the operands as they were. */
  ghost predicate Told(x: seq<Instr>, s: State, op: AluOp, size: nat, dest: AluOperand, src: AluOperand,
        update: set<G.Flag>) {
    Tells(Exec(x, s), ReadCarry(op, size, dest, src, s), ReadOverflow(op, size, dest, src, s), update)
  }

  lemma RegisterToldFrom(x: seq<Instr>, x3: seq<Instr>, s: State, op: AluOp, size: nat, dest: AluOperand,
        src: AluOperand, d: Reg, r: Reg, address: Reg, update: set<G.Flag>)
    requires ValidOperand(dest, size) && Ready(x, s, dest, size, d, address)
    requires ZeroExtend(size, Exec(x, s).Get(r)) == OperandValue(src, size, s)
    requires RegisterTells(x3, Exec(x, s), op, size, d, r, update)
    requires (d == r) == Itself(dest, src, size) && !Inverted(op, size, src)
    ensures Told(x + x3, s, op, size, dest, src, update)
  {
    hide Exec, OperandValue, ZeroExtend, CarryBit, CarryTold, OverflowTold, Tells, Itself, Inverted, Mapped, Points;
    hide Accessed, State.Get;
    var t := Exec(x, s);
    ExecAppend(x, x3, s);
    ReadyParts(x, s, dest, size, d, address);
    Conditions.SameBits(s, t);
    OperandSized(dest, size);
    NarrowTold(op, size, t.Get(d), t.Get(r), CarryBit(s), d == r, false);
  }

  lemma ConstantToldFrom(x: seq<Instr>, x3: seq<Instr>, s: State, op: AluOp, size: nat, dest: AluOperand, imm: bv64,
        width: nat, d: Reg, address: Reg, update: set<G.Flag>)
    requires ValidOperand(dest, size) && Ready(x, s, dest, size, d, address) && Small(imm)
    requires ConstantTells(x3, Exec(x, s), op, size, d, imm, update)
    ensures Told(x + x3, s, op, size, dest, Constant(imm, width), update)
  {
    hide Exec, ZeroExtend, CarryBit, CarryTold, OverflowTold, Tells, Missigned, Mapped, Points, Small;
    hide Accessed, ReadMem, State.Get;
    var t := Exec(x, s);
    ExecAppend(x, x3, s);
    ReadyParts(x, s, dest, size, d, address);
    Conditions.SameBits(s, t);
    OperandSized(dest, size);
    NarrowTold(op, size, t.Get(d), imm, CarryBit(s), false, Missigned(op, size, imm));
  }

  /** What neither the carry nor the overflow is stored by. */
  lemma LazyKept(s: State, t: State, f: set<G.Flag>)
    requires Touches(s.ctx, t.ctx, f) && G.Carry !in f && G.Overflow !in f && t.scratch == s.scratch
    ensures CarryBit(t) == CarryBit(s) && OverflowBit(t) == OverflowBit(s)
  {
    hide EvalCarryAdd, EvalCarryAdc, EvalOverflowAdd, EvalOverflowAdc, EvalOverflowPos, EvalOverflowNeg;
    hide EvalOverflowSub, SizeIn, LowBit;
  }

  lemma AddressKept(m: MemOperand, s: State, t: State)
    requires t.Get(m.base) == s.Get(m.base) && t.Get(m.index) == s.Get(m.index)
    ensures Accessed(m, t) == Accessed(m, s)
  {
    hide Plus, Shl, Low32, State.Get;
  }

  lemma GuestRegisterKept(o: AluOperand, size: nat, r: Reg)
    requires ValidOperand(o, size)
    ensures o.RegisterOperand? ==> o.reg !in AllTemps
    ensures o.MemoryCell? ==> o.m.base !in AllTemps && o.m.index !in AllTemps
  {
  }

  /** Operands do not depend on the temporaries. */
  lemma OperandKept(o: AluOperand, size: nat, s: State, t: State, regs: set<Reg>)
    requires ValidOperand(o, size) && Framed(s, t, regs) && regs <= AllTemps
    ensures OperandValue(o, size, t) == OperandValue(o, size, s)
    ensures o.MemoryCell? ==> Accessed(o.m, t) == Accessed(o.m, s)
  {
    hide ZeroExtend, ReadMem, High8, Accessed, Mapped, State.Get;
    GuestRegisterKept(o, size, Zero);
    if o.MemoryCell? {
      AddressKept(o.m, s, t);
    }
  }

  /** After the operation: register d holds the result, guest state is otherwise as before. */
  ghost predicate Operated(x: seq<Instr>, s: State, dest: AluOperand, size: nat, d: Reg, address: Reg, w: bv64,
        update: set<G.Flag>) {
    && Updates(x, s, AllTemps + {d}, CarryAndOverflow * update)
    && ZeroExtend(size, Exec(x, s).Get(d)) == w
    && (dest.MemoryCell? && address != Zero ==> Points(dest.m, address, Exec(x, s), Accessed(dest.m, s)))
  }

  /** Both operands are in place. */
  ghost predicate Ready(x: seq<Instr>, s: State, dest: AluOperand, size: nat, d: Reg, address: Reg) {
    && Keeps(s, Exec(x, s), SourceTemps + DestTemps)
    && ZeroExtend(size, Exec(x, s).Get(d)) == OperandValue(dest, size, s)
    && (dest.MemoryCell? ==> Points(dest.m, address, Exec(x, s), Accessed(dest.m, s)))
  }

  lemma KeepsFramed(s: State, t: State, regs: set<Reg>)
    requires Keeps(s, t, regs)
    ensures Framed(s, t, regs)
  {
    hide State.Get;
  }

  lemma ProvidesParts(x: seq<Instr>, s: State, r: Reg, size: nat, v: bv64, temps: set<Reg>)
    requires Provides(x, s, r, size, v, temps)
    ensures Keeps(s, Exec(x, s), temps) && ZeroExtend(size, Exec(x, s).Get(r)) == v
  {
    hide Keeps, Exec, ZeroExtend;
  }

  /** Fetching the source and then the destination. */
  lemma BothFetched(x1: seq<Instr>, x2: seq<Instr>, s: State, dest: AluOperand, src: AluOperand, size: nat, r: Reg,
        d: Reg, address: Reg)
    requires ValidOperand(dest, size) && r !in DestTemps
    requires Provides(x1, s, r, size, OperandValue(src, size, s), SourceTemps)
    requires Fetched(x2, Exec(x1, s), dest, size, d, address)
    ensures Ready(x1 + x2, s, dest, size, d, address)
    ensures ZeroExtend(size, Exec(x1 + x2, s).Get(r)) == OperandValue(src, size, s)
  {
    hide Exec, OperandValue, ZeroExtend, Accessed, Points, Mapped, State.Get;
    var t := Exec(x1, s);
    ProvidesParts(x1, s, r, size, OperandValue(src, size, s), SourceTemps);
    KeepsFramed(s, t, SourceTemps);
    OperandKept(dest, size, s, t, SourceTemps);
    ExecAppend(x1, x2, s);
    KeepsTrans(s, t, Exec(x2, t), SourceTemps, DestTemps);
  }

  lemma OnlyDestination(x2: seq<Instr>, s: State, dest: AluOperand, size: nat, d: Reg, address: Reg)
    requires Fetched(x2, s, dest, size, d, address)
    ensures Ready(x2, s, dest, size, d, address)
  {
    hide Exec, OperandValue, ZeroExtend, Accessed, Points, State.Get;
    KeepsMore(s, Exec(x2, s), DestTemps, SourceTemps + DestTemps);
  }

  /** Operating on what has been fetched; v is the source as the operation saw it. */
  lemma OperatedFrom(x: seq<Instr>, x3: seq<Instr>, s: State, op: AluOp, dest: AluOperand, size: nat, d: Reg,
        address: Reg,
        v: bv64, b: bv64, update: set<G.Flag>)
    requires ValidOperand(dest, size) && Ready(x, s, dest, size, d, address) && ZeroExtend(size, v) == b
    requires dest.MemoryCell? ==> d == T0 && address in {T1, dest.m.base, dest.m.index}
    requires var t := Exec(x, s);
      Yields(x3, t, d, Compute(op, t.Get(d), v, CarryBit(t)), ImmTemps, CarryAndOverflow * update)
    ensures Operated(x + x3, s, dest, size, d, address,
      ZeroExtend(size, Compute(op, OperandValue(dest, size, s), b, CarryBit(s))), update)
  {
    hide Exec, OperandValue, ZeroExtend, Accessed, Compute, CarryBit, Points, Mapped, Touches, State.Get;
    var t := Exec(x, s);
    var f := CarryAndOverflow * update;
    ReadyParts(x, s, dest, size, d, address);
    KeptUpdates(x, s, SourceTemps + DestTemps);
    YieldsParts(x3, t, d, Compute(op, t.Get(d), v, CarryBit(t)), ImmTemps, f);
    UpdatesThen(x, x3, s, SourceTemps + DestTemps, ImmTemps + {d}, {}, f);
    assert SourceTemps + DestTemps + (ImmTemps + {d}) == AllTemps + {d} && {} + f == f;
    Conditions.SameBits(s, t);
    NarrowCompute(op, size, t.Get(d), v, CarryBit(s));
    if dest.MemoryCell? && address != Zero {
      AddressSurvives(dest, size, d, address, t, Exec(x3, t));
      PointsKept(dest.m, address, t, Exec(x3, t), Accessed(dest.m, s));
    }
  }

  lemma ReadyParts(x: seq<Instr>, s: State, dest: AluOperand, size: nat, d: Reg, address: Reg)
    requires Ready(x, s, dest, size, d, address)
    ensures Keeps(s, Exec(x, s), SourceTemps + DestTemps) && Exec(x, s).ctx == s.ctx && Exec(x, s).scratch == s.scratch
  {
    hide Exec, OperandValue, ZeroExtend, Accessed, Points, State.Get;
  }

  lemma YieldsParts(x: seq<Instr>, s: State, dst: Reg, v: bv64, regs: set<Reg>, f: set<G.Flag>)
    requires Yields(x, s, dst, v, regs, f)
    ensures Updates(x, s, regs + {dst}, f) && Framed(s, Exec(x, s), regs + {dst}) && Exec(x, s).Get(dst) == v
  {
    hide Exec, Framed, Touches, State.Get;
  }

  /** The operation leaves a partial address alone. */
  lemma AddressSurvives(dest: AluOperand, size: nat, d: Reg, address: Reg, t: State, u: State)
    requires ValidOperand(dest, size) && dest.MemoryCell? && d == T0 && address in {T1, dest.m.base, dest.m.index}
    requires Framed(t, u, ImmTemps + {d})
    ensures u.Get(address) == t.Get(address)
  {
    hide State.Get, Mapped;
    GuestRegisterKept(dest, size, Zero);
  }

  // ---- the end of the instruction -----------------------------------------------------------------------------------

  lemma WordKept(o: bv64, v: bv64)
    ensures WithWord(o, Low16(v)) == WithWord(o, v) && WithByte(o, Low8(v)) == WithByte(o, v)
    ensures WithHighByte(o, Low8(v)) == WithHighByte(o, v)
  {
  }

  lemma MergeNarrow(dest: AluOperand, size: nat, o1: bv64, o2: bv64, v: bv64)
    requires ValidOperand(dest, size) && (size >= 4 || o1 == o2)
    ensures Merge(Access(dest, size), o1, v) == Merge(Access(dest, size), o2, ZeroExtend(size, v))
  {
    hide Low8, Low16, Low32, WithWord, WithByte, WithHighByte, Mapped;
    WordKept(o2, v);
    Twice32(v);
  }

  lemma ByteKept(m: map<Address, bv8>, a: bv64, v: bv64)
    ensures PutByte(m, a, Low8(v)) == PutByte(m, a, v)
  {
    assert (Low8(v) & 0xff) as bv8 == (v & 0xff) as bv8;
  }

  lemma LowByteKept(m: map<Address, bv8>, a: bv64, v: bv64)
    ensures PutByte(m, a, Low16(v)) == PutByte(m, a, v)
  {
    assert (Low16(v) & 0xff) as bv8 == (v & 0xff) as bv8;
  }

  lemma HighByteKept(m: map<Address, bv8>, a: bv64, v: bv64)
    ensures PutByte(m, a, Upper8(Low16(v))) == PutByte(m, a, Upper8(v))
  {
    assert (Upper8(Low16(v)) & 0xff) as bv8 == (Upper8(v) & 0xff) as bv8;
  }

  lemma HalfKept(m: map<Address, bv8>, a: bv64, v: bv64)
    ensures PutHalf(m, a, Low16(v)) == PutHalf(m, a, v)
  {
    hide PutByte, Low16, Upper8, Plus;
    LowByteKept(m, a, v);
    HighByteKept(PutByte(m, a, v), Plus(a, 1), v);
  }

  lemma UpperHalfKept(v: bv64)
    ensures Low16(Upper16(Low32(v))) == Low16(Upper16(v))
  {
    assert Upper16(v & 0xffff_ffff) == (v & 0xffff_ffff) >> 16;
    assert Low16((v & 0xffff_ffff) >> 16) == (v >> 16) & 0xffff;
    assert Low16(v >> 16) == (v >> 16) & 0xffff;
  }

  lemma WordPartsKept(v: bv64)
    ensures Low16(Low32(v)) == Low16(v)
    ensures (Low32(v) & 0xffff_ffff) as bv32 == (v & 0xffff_ffff) as bv32
  {
  }

  lemma DoubleHalfKept(m: map<Address, bv8>, a: bv64, v: bv64)
    ensures PutWord(m, a, Low32(v)) == PutWord(m, a, v)
  {
    hide Low16, Low32, PutHalf, Upper16, Plus;
    WordPartsKept(v);
    HalfKept(m, a, v);
    HalfKept(m, a, Low32(v));
    UpperHalfKept(v);
    HalfKept(PutHalf(m, a, v), Plus(a, 2), Upper16(v));
    HalfKept(PutHalf(m, a, v), Plus(a, 2), Upper16(Low32(v)));
  }

  lemma WriteNarrow(m: Memory, a: bv64, size: nat, v: bv64)
    requires IsSize(size)
    ensures WriteMem(m, a, size, ZeroExtend(size, v)) == WriteMem(m, a, size, v)
  {
    hide Low8, Low16, Low32, PutByte, PutHalf, PutWord, PutDouble;
    ByteKept(m.bytes, a, v);
    HalfKept(m.bytes, a, v);
    DoubleHalfKept(m.bytes, a, v);
    WordPartsKept(v);
  }

  /** State, flags and destination after the flag stores: what the write-back starts from. */
  lemma FlagsKept(x: seq<Instr>, y: seq<Instr>, s: State, dest: AluOperand, size: nat, d: Reg, address: Reg, w: bv64,
        update: set<G.Flag>)
    requires ValidOperand(dest, size) && d != T3 && Operated(x, s, dest, size, d, address, w, update)
    requires dest.MemoryCell? ==> address in {T1, dest.m.base, dest.m.index}
    requires FlagsStored(y, Exec(x, s), d, size, update)
    ensures var t := Exec(x + y, s);
      && Framed(s, t, AllTemps + {d}) && Touches(s.ctx, t.ctx, update) && ZeroExtend(size, t.Get(d)) == w
      && CarryBit(t) == CarryBit(Exec(x, s)) && OverflowBit(t) == OverflowBit(Exec(x, s))
      && (dest.MemoryCell? && address != Zero ==> Points(dest.m, address, t, Accessed(dest.m, s)))
      && (G.Zero in update ==> ZeroBit(t.ctx) == EagerZero(size, w))
      && (G.Sign in update ==> SignBit(t.ctx) == EagerSign(size, w))
      && (G.Parity in update ==> ParityBit(t.ctx) == EagerParity(w))
  {
    hide Exec, ZeroExtend, Accessed, EagerZero, EagerSign, EagerParity, ZeroBit, SignBit, ParityBit, Points;
    hide Framed, Touches, Updates, ValidOperand, IsSize, Mapped, CarryBit, OverflowBit, State.Get;
    var u, f := Exec(x, s), CarryAndOverflow * update;
    var t := Exec(y, u);
    FlagsFrame(y, u, d, size, update);
    UpdatesLazy(y, u, {T3}, ResultFlags * update);
    UpdatesThen(x, y, s, AllTemps + {d}, {T3}, f, ResultFlags * update);
    assert AllTemps + {d} + {T3} == AllTemps + {d};
    assert f + ResultFlags * update <= update;
    UpdatesAre(x + y, s, AllTemps + {d}, f + ResultFlags * update);
    TouchesMore(s.ctx, t.ctx, f + ResultFlags * update, update);
    FramedGet(u, t, {T3}, d);
    OperandSized(dest, size);
    EagerNarrow(size, u.Get(d));
    if dest.MemoryCell? && address != Zero {
      AddressStays(dest, size, address, u, t, Accessed(dest.m, s));
    }
  }

  lemma UpdatesLazy(y: seq<Instr>, s: State, regs: set<Reg>, f: set<G.Flag>)
    requires Updates(y, s, regs, f) && G.Carry !in f && G.Overflow !in f
    ensures CarryBit(Exec(y, s)) == CarryBit(s) && OverflowBit(Exec(y, s)) == OverflowBit(s)
  {
    hide Exec, Touches, CarryBit, OverflowBit, State.Get;
    LazyKept(s, Exec(y, s), f);
  }

  lemma OperandSized(o: AluOperand, size: nat)
    requires ValidOperand(o, size)
    ensures IsSize(size)
  {
  }

  lemma UpdatesAre(x: seq<Instr>, s: State, regs: set<Reg>, flags: set<G.Flag>)
    requires Updates(x, s, regs, flags)
    ensures Framed(s, Exec(x, s), regs) && Touches(s.ctx, Exec(x, s).ctx, flags)
  {
    hide Exec, Framed, Touches;
  }

  lemma AddressStays(dest: AluOperand, size: nat, address: Reg, u: State, t: State, a: bv64)
    requires ValidOperand(dest, size) && dest.MemoryCell? && address in {T1, dest.m.base, dest.m.index}
    requires Points(dest.m, address, u, a) && Framed(u, t, {T3})
    ensures Points(dest.m, address, t, a)
  {
    hide Points, Framed, Mapped, State.Get;
    GuestRegisterKept(dest, size, Zero);
    FramedGet(u, t, {T3}, address);
    PointsKept(dest.m, address, u, t, a);
  }

  lemma FlagsFrame(y: seq<Instr>, s: State, d: Reg, size: nat, update: set<G.Flag>)
    requires FlagsStored(y, s, d, size, update)
    ensures Framed(s, Exec(y, s), {T3}) && Updates(y, s, {T3}, ResultFlags * update)
  {
    hide Exec, Framed, Touches, EagerZero, EagerSign, EagerParity, ZeroBit, SignBit, ParityBit, State.Get;
  }

  lemma TouchesMore(c: Context, d: Context, f: set<G.Flag>, g: set<G.Flag>)
    requires Touches(c, d, f) && f <= g
    ensures Touches(c, d, g)
  {
  }

  lemma FramedGet(s: State, t: State, regs: set<Reg>, r: Reg)
    requires Framed(s, t, regs) && r !in regs
    ensures t.Get(r) == s.Get(r)
  {
    hide State.Get;
  }

  lemma RegisterCompleted(x: seq<Instr>, z: seq<Instr>, s: State, dest: AluOperand, size: nat, d: Reg, w: bv64)
    requires ValidOperand(dest, size) && dest.RegisterOperand? && (d == T0 || (size >= 4 && d == dest.reg))
    requires Framed(s, Exec(x, s), AllTemps + {d}) && ZeroExtend(size, Exec(x, s).Get(d)) == w
    requires WritesBack(z, Exec(x, s), dest, size, d, 0)
    ensures var u := Exec(x + z, s);
      u.ctx == Exec(x, s).ctx && Framed(s, u, AllTemps + {dest.reg})
        && u.Get(dest.reg) == Merge(Access(dest, size), s.Get(dest.reg), w)
  {
    hide Exec, ZeroExtend, Merge, Mapped, Access, State.Get;
    var t := Exec(x, s);
    ExecAppend(x, z, s);
    GuestRegisterKept(dest, size, Zero);
    MergeNarrow(dest, size, t.Get(dest.reg), s.Get(dest.reg), t.Get(d));
  }

  lemma MemoryCompleted(x: seq<Instr>, z: seq<Instr>, s: State, dest: AluOperand, size: nat, w: bv64)
    requires ValidOperand(dest, size) && dest.MemoryCell?
    requires Framed(s, Exec(x, s), AllTemps) && ZeroExtend(size, Exec(x, s).Get(T0)) == w
    requires WritesBack(z, Exec(x, s), dest, size, T0, Accessed(dest.m, s))
    ensures var u := Exec(x + z, s);
      u.ctx == Exec(x, s).ctx && Stores(s.(ctx := u.ctx), u, Accessed(dest.m, s), size, w, AllTemps)
  {
    hide Exec, ZeroExtend, Accessed, WriteMem, Mapped, State.Get;
    var t := Exec(x, s);
    ExecAppend(x, z, s);
    WriteNarrow(s.memory, Accessed(dest.m, s), size, t.Get(T0));
    ContextChange(s, Exec(z, t).ctx);
  }

  lemma ContextChange(s: State, c: Context)
    ensures forall r :: s.(ctx := c).Get(r) == s.Get(r)
  {
  }

  /** Putting the pieces together. */
  lemma Completed(x: seq<Instr>, y: seq<Instr>, z: seq<Instr>, s: State, op: AluOp, size: nat, dest: AluOperand,
        src: AluOperand,
        d: Reg, address: Reg, update: set<G.Flag>)
    requires ValidOperand(dest, size) && !dest.Constant?
    requires d == T0 || (dest.RegisterOperand? && size >= 4 && d == dest.reg)
    requires dest.MemoryCell? ==> address in {T1, dest.m.base, dest.m.index}
    requires Operated(x, s, dest, size, d, address, X86Result(op, size, dest, src, s), update)
    requires Told(x, s, op, size, dest, src, update) && FlagsStored(y, Exec(x, s), d, size, update)
    requires dest.RegisterOperand? ==> WritesBack(z, Exec(x + y, s), dest, size, d, 0)
    requires dest.MemoryCell? ==> forall a: bv64 {:trigger WritesBack(z, Exec(x + y, s), dest, size, d, a)} ::
      (if address == Zero then a == Accessed(dest.m, Exec(x + y, s))
        else Points(dest.m, address, Exec(x + y, s), a)) ==>
        WritesBack(z, Exec(x + y, s), dest, size, d, a)
    ensures BinaryEffect(x + y + z, s, op, size, dest, src, update)
  {
    hide Exec, ZeroExtend, Accessed, X86Result, EagerZero, EagerSign, EagerParity, ZeroBit, SignBit, ParityBit;
    hide Points, Framed, Touches, WritesBack, Operated, FlagsStored, Mapped, Merge, Access, Stores, State.Get;
    hide Tells, ReadCarry, ReadOverflow, CarryBit, OverflowBit;
    var w, t := X86Result(op, size, dest, src, s), Exec(x + y, s);
    TempNotT3(dest, size, d);
    FlagsKept(x, y, s, dest, size, d, address, w, update);
    if dest.RegisterOperand? {
      RegisterCompleted(x + y, z, s, dest, size, d, w);
      FramedScratch(s, Exec(x + y + z, s), AllTemps + {dest.reg});
    } else {
      assert AllTemps + {T0} == AllTemps;
      OperandKept(dest, size, s, t, AllTemps);
      MemoryCompleted(x + y, z, s, dest, size, w);
      StoresScratch(s, Exec(x + y + z, s), Accessed(dest.m, s), size, w);
    }
    FramedScratch(s, t, AllTemps + {d});
    ToldAfter(Exec(x, s), t, Exec(x + y + z, s), ReadCarry(op, size, dest, src, s),
      ReadOverflow(op, size, dest, src, s), update);
  }

  lemma FramedScratch(s: State, t: State, regs: set<Reg>)
    requires Framed(s, t, regs)
    ensures t.scratch == s.scratch
  {
    hide State.Get;
  }

  lemma StoresScratch(s: State, u: State, a: bv64, size: nat, w: bv64)
    requires Stores(s.(ctx := u.ctx), u, a, size, w, AllTemps)
    ensures u.scratch == s.scratch
  {
    hide State.Get, WriteMem;
  }

  lemma ToldAfter(x: State, t: State, u: State, carry: bv64, overflow: bv64, update: set<G.Flag>)
    requires Tells(x, carry, overflow, update) && CarryBit(t) == CarryBit(x) && OverflowBit(t) == OverflowBit(x)
    requires u.ctx == t.ctx && u.scratch == t.scratch
    ensures Tells(u, carry, overflow, update)
  {
    hide EvalFlag;
  }

  lemma TempNotT3(dest: AluOperand, size: nat, d: Reg)
    requires ValidOperand(dest, size) && (d == T0 || (dest.RegisterOperand? && d == dest.reg))
    ensures d != T3 && !d.Zero? && Dest(d)
  {
  }

  lemma RegisterOperands(dest: AluOperand, size: nat, d: Reg, r: Reg)
    requires ValidOperand(dest, size) && (d == T0 || (dest.RegisterOperand? && d == dest.reg)) && (r == T2 || Mapped(r))
    ensures Operands(d, r) && r !in DestTemps
  {
    TempNotT3(dest, size, d);
  }

  lemma PerformsYields(x: seq<Instr>, op: AluOp, size: nat, d: Reg, r: Reg, update: set<G.Flag>, t: State)
    requires Performs(x, op, size, d, r, update)
    ensures Yields(x, t, d, Compute(op, t.Get(d), t.Get(r), CarryBit(t)), ImmTemps, CarryAndOverflow * update)
    ensures RegisterTells(x, t, op, size, d, r, update)
  {
    hide Exec, Yields, Compute, CarryBit, AllFlow, State.Get, RegisterTells;
    YieldsMore(x, t, d, Compute(op, t.Get(d), t.Get(r), CarryBit(t)), OpTemps, ImmTemps, CarryAndOverflow * update);
  }

  lemma PerformsImmYields(x: seq<Instr>, op: AluOp, size: nat, d: Reg, imm: bv64, update: set<G.Flag>, t: State)
    requires PerformsImm(x, op, size, d, imm, update)
    ensures Yields(x, t, d, Compute(op, t.Get(d), imm, CarryBit(t)), ImmTemps, CarryAndOverflow * update)
    ensures ConstantTells(x, t, op, size, d, imm, update)
  {
    hide Exec, Yields, Compute, CarryBit, AllFlow, State.Get, ConstantTells;
  }

  lemma PerformsFlows(x: seq<Instr>, op: AluOp, size: nat, d: Reg, r: Reg, update: set<G.Flag>)
    requires Performs(x, op, size, d, r, update)
    ensures AllFlow(x)
  {
    hide Yields, AllFlow, Compute, CarryBit, RegisterTells, ConstantTells;
  }

  lemma PerformsImmFlows(x: seq<Instr>, op: AluOp, size: nat, d: Reg, imm: bv64, update: set<G.Flag>)
    requires PerformsImm(x, op, size, d, imm, update)
    ensures AllFlow(x)
  {
    hide Yields, AllFlow, Compute, CarryBit, RegisterTells, ConstantTells;
  }

  lemma RegisterOperated(x1: seq<Instr>, x2: seq<Instr>, x3: seq<Instr>, s: State, op: AluOp, size: nat,
        dest: AluOperand, src: AluOperand,
        r: Reg, d: Reg, address: Reg, update: set<G.Flag>)
    requires ValidOperand(dest, size) && r !in DestTemps
    requires Provides(x1, s, r, size, OperandValue(src, size, s), SourceTemps)
    requires Fetched(x2, Exec(x1, s), dest, size, d, address)
    requires dest.MemoryCell? ==> d == T0 && address in {T1, dest.m.base, dest.m.index}
    requires Performs(x3, op, size, d, r, update)
    requires (d == r) == Itself(dest, src, size) && !Inverted(op, size, src)
    ensures Operated(x1 + x2 + x3, s, dest, size, d, address, X86Result(op, size, dest, src, s), update)
    ensures Told(x1 + x2 + x3, s, op, size, dest, src, update)
  {
    hide Exec, Yields, Compute, CarryBit, ZeroExtend, Accessed, Ready, Fetched, Provides, OperandValue, Told;
    hide Performs, Operated, Mapped, Itself, Inverted, RegisterTells, State.Get;
    BothFetched(x1, x2, s, dest, src, size, r, d, address);
    var t := Exec(x1 + x2, s);
    PerformsYields(x3, op, size, d, r, update, t);
    OperatedFrom(x1 + x2, x3, s, op, dest, size, d, address, t.Get(r), OperandValue(src, size, s), update);
    RegisterToldFrom(x1 + x2, x3, s, op, size, dest, src, d, r, address, update);
  }

  lemma ConstantOperated(x2: seq<Instr>, x3: seq<Instr>, s: State, op: AluOp, size: nat, dest: AluOperand, imm: bv64,
        width: nat, d: Reg, address: Reg, update: set<G.Flag>)
    requires ValidOperand(dest, size) && Fetched(x2, s, dest, size, d, address)
    requires dest.MemoryCell? ==> d == T0 && address in {T1, dest.m.base, dest.m.index}
    requires PerformsImm(x3, op, size, d, imm, update) && Small(imm)
    ensures Operated(x2 + x3, s, dest, size, d, address, X86Result(op, size, dest, Constant(imm, width), s), update)
    ensures Told(x2 + x3, s, op, size, dest, Constant(imm, width), update)
  {
    hide Exec, Yields, Compute, CarryBit, ZeroExtend, Accessed, Ready, Fetched, PerformsImm, Operated, Mapped, Told;
    hide Small, ConstantTells, State.Get;
    OnlyDestination(x2, s, dest, size, d, address);
    PerformsImmYields(x3, op, size, d, imm, update, Exec(x2, s));
    OperatedFrom(x2, x3, s, op, dest, size, d, address, imm, ZeroExtend(size, imm), update);
    ConstantToldFrom(x2, x3, s, op, size, dest, imm, width, d, address, update);
  }

  lemma WhenItself(op: AluOp, dest: AluOperand, src: AluOperand, size: nat, d: Reg, r: Reg)
    requires ValidOperand(dest, size) && ValidOperand(src, size) && (src.Constant? ==> !Small(src.imm))
    requires d == (if dest.RegisterOperand? && size >= 4 then dest.reg else T0)
    requires r == (if src.RegisterOperand? && !src.high then src.reg else T2)
    ensures (d == r) == Itself(dest, src, size) && !Inverted(op, size, src)
  {
    hide Small, Missigned;
  }

  /** Fetching and operating. */
  method EmitOperation(batch: CodeBatch, op: AluOp, update: set<G.Flag>, size: nat, dest: AluOperand, src: AluOperand)
      returns (d: Reg, address: Reg, ghost x: seq<Instr>)
    requires ValidOperand(dest, size) && ValidOperand(src, size) && !dest.Constant?
    requires Reachable(dest) && Reachable(src)
    modifies batch
    ensures batch.code == old(batch.code) + x && AllFlow(x)
    ensures if dest.RegisterOperand? && size >= 4 then d == dest.reg else d == T0
    ensures dest.MemoryCell? ==> address in {T1, dest.m.base, dest.m.index}
    ensures forall s: State ::
      Operated(x, s, dest, size, d, address, X86Result(op, size, dest, src, s), update)
        && Told(x, s, op, size, dest, src, update)
  {
    hide Told, Itself, Inverted, Provides, Fetched, Operated, Performs, PerformsImm, AllFlow, Mapped, X86Result, Small;
    hide Exec, OperandValue;
    if src.Constant? && Small(src.imm) {
      ghost var x2, x3;
      d, address, x2 := FetchDestination(batch, dest, size);
      TempNotT3(dest, size, d);
      x3 := ExecuteImmediate(batch, op, update, size, d, src.imm);
      x := x2 + x3;
      PerformsImmFlows(x3, op, size, d, src.imm, update);
      AllFlowAppend(x2, x3);
      forall s: State
        ensures Operated(x, s, dest, size, d, address, X86Result(op, size, dest, src, s), update)
          && Told(x, s, op, size, dest, src, update)
      {
        ConstantOperated(x2, x3, s, op, size, dest, src.imm, src.width, d, address, update);
      }
    } else {
      var r;
      ghost var x1, x2, x3;
      r, x1 := FetchSource(batch, src, size);
      d, address, x2 := FetchDestination(batch, dest, size);
      RegisterOperands(dest, size, d, r);
      x3 := ExecuteRegister(batch, op, update, size, d, r);
      x := x1 + x2 + x3;
      PerformsFlows(x3, op, size, d, r, update);
      AllFlowAppend(x1, x2);
      AllFlowAppend(x1 + x2, x3);
      WhenItself(op, dest, src, size, d, r);
      forall s: State
        ensures Operated(x, s, dest, size, d, address, X86Result(op, size, dest, src, s), update)
          && Told(x, s, op, size, dest, src, update)
      {
        RegisterOperated(x1, x2, x3, s, op, size, dest, src, r, d, address, update);
      }
    }
  }

  /**
   Emits a two-operand instruction that stores the flags in `update`.  An address below 32
   bits ends the program when the operand is fetched.
   */
  method Generate(batch: CodeBatch, op: AluOp, update: set<G.Flag>, size: nat, dest: AluOperand, src: AluOperand)
      returns (fault: bool, ghost code: seq<Instr>)
    requires ValidOperand(dest, size) && ValidOperand(src, size) && !dest.Constant?
    modifies batch
    ensures fault == !(Reachable(dest) && Reachable(src))
    ensures !fault ==> batch.code == old(batch.code) + code && AllFlow(code)
    ensures !fault ==> forall s: State :: BinaryEffect(code, s, op, size, dest, src, update)
  {
    hide Told, Operated, FlagsStored, WritesBack, BinaryEffect, AllFlow, Mapped, X86Result, Points, Accessed, Exec;
    fault, code := !(Reachable(dest) && Reachable(src)), [];
    if fault {
      return;
    }
    var d, address;
    ghost var x;
    d, address, x := EmitOperation(batch, op, update, size, dest, src);
    TempNotT3(dest, size, d);
    ghost var y := EmitFlags(batch, update, d, size);
    ghost var z := WriteBack(batch, dest, size, d, address);
    code := x + y + z;
    AllFlowAppend(x, y);
    AllFlowAppend(x + y, z);
    forall s: State ensures BinaryEffect(code, s, op, size, dest, src, update) {
      Completed(x, y, z, s, op, size, dest, src, d, address, update);
    }
  }
}
