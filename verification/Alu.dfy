/** The operations of two-operand instructions (add.cpp, adc.cpp, sub.cpp, logic.cpp). */
module ArithmeticOps {
  import opened RiscV
  import opened Machine
  import opened Batches
  import opened Effects
  import opened FlagState
  import opened FlagUpdates
  import opened Bits
  import opened LazyFlags
  import opened CarryState
  import Conditions
  import opened MemoryOperands

  datatype AluOp = AddOp | AdcOp | SubOp | AndOp | OrOp | XorOp

  /** What the operation computes from the destination, the source and the carry flag. */
  function Compute(op: AluOp, d: bv64, v: bv64, c: bv64): bv64 {
    match op
    case AddOp => Plus(v, d)
    case AdcOp => Plus(c, Plus(v, d))
    case SubOp => Minus(d, v)
    case AndOp => And(d, v)
    case OrOp => Or(d, v)
    case XorOp => Xor(d, v)
  }

  /** The carry flag the operation has in x86: none of a logical operation. */
  predicate X86Carry(op: AluOp, size: nat, d: bv64, v: bv64, c: bv64) {
    match op
    case AddOp => AddCarries(size, d, v, 0)
    case AdcOp => AddCarries(size, d, v, c)
    case SubOp => SubBorrows(size, d, v)
    case _ => false
  }

  /** The overflow flag the operation has in x86. */
  predicate X86Overflow(op: AluOp, size: nat, d: bv64, v: bv64, c: bv64) {
    match op
    case AddOp => AddOverflows(size, d, v, Compute(op, d, v, c))
    case AdcOp => AddOverflows(size, d, v, Compute(op, d, v, c))
    case SubOp => SubOverflows(size, d, v, Compute(op, d, v, c))
    case _ => false
  }

  /** What the carry reads as.  A register added to itself is stored twice when it already holds the sum. */
  function CarryTold(op: AluOp, size: nat, d: bv64, v: bv64, c: bv64, itself: bool): bv64 {
    if itself && op.AddOp? then 0 else if itself && op.AdcOp? then c else Bit(X86Carry(op, size, d, v, c))
  }

  /** What the overflow reads as. */
  function OverflowTold(op: AluOp, size: nat, d: bv64, v: bv64, c: bv64, wrong: bool): bv64 {
    Bit(X86Overflow(op, size, d, v, c) != wrong)
  }

  /** A constant whose sign, which chooses the evaluator, is not its sign at the operand width. */
  predicate Missigned(op: AluOp, size: nat, imm: bv64) {
    (op.AddOp? || op.SubOp?) && WrongSign(imm >= 0x800, size, imm)
  }

  ghost predicate Tells(u: State, carry: bv64, overflow: bv64, update: set<G.Flag>) {
    (G.Carry in update ==> CarryBit(u) == carry) && (G.Overflow in update ==> OverflowBit(u) == overflow)
  }

  /** The code leaves v in `dst`, changing at most these registers and flags besides. */
  ghost predicate Yields(x: seq<Instr>, s: State, dst: Reg, v: bv64, regs: set<Reg>, flags: set<G.Flag>) {
    Updates(x, s, regs + {dst}, flags) && Exec(x, s).Get(dst) == v
  }

  lemma UpdatesYields(a: seq<Instr>, b: seq<Instr>, s: State, dst: Reg, v: bv64, regs: set<Reg>, f: set<G.Flag>)
    requires Updates(a, s, regs, f) && Yields(b, Exec(a, s), dst, v, regs, f)
    ensures Yields(a + b, s, dst, v, regs, f)
  {
    hide Exec, Updates, State.Get;
    UpdatesThen(a, b, s, regs, regs + {dst}, f, f);
    assert regs + (regs + {dst}) == regs + {dst} && f + f == f;
  }

  lemma YieldsUpdates(a: seq<Instr>, b: seq<Instr>, s: State, dst: Reg, v: bv64, regs: set<Reg>, f: set<G.Flag>)
    requires Yields(a, s, dst, v, regs, f) && Updates(b, Exec(a, s), regs, f) && dst !in regs
    ensures Yields(a + b, s, dst, v, regs, f)
  {
    hide Exec, State.Get;
    UpdatesThen(a, b, s, regs + {dst}, regs, f, f);
    assert regs + {dst} + regs == regs + {dst} && f + f == f;
  }

  lemma YieldsYields(a: seq<Instr>, b: seq<Instr>, s: State, dst: Reg, u: bv64, v: bv64, regs: set<Reg>, f: set<G.Flag>)
    requires Yields(a, s, dst, u, regs, f) && Yields(b, Exec(a, s), dst, v, regs, f)
    ensures Yields(a + b, s, dst, v, regs, f)
  {
    hide Exec, Updates, State.Get;
    UpdatesThen(a, b, s, regs + {dst}, regs + {dst}, f, f);
    assert regs + {dst} + (regs + {dst}) == regs + {dst} && f + f == f;
  }

  lemma OpYields(op: RegOp, dst: Reg, a: Reg, b: Reg, s: State, regs: set<Reg>, f: set<G.Flag>)
    requires !dst.Zero?
    ensures Yields([Op(op, dst, a, b)], s, dst, Alu(op, s.Get(a), s.Get(b)), regs, f)
  {
    hide Exec, Step, Alu, State.Set, State.Get;
    Exec1Word([Op(op, dst, a, b)], s);
    StepOp(op, dst, a, b, s);
    SetKeeps(s, dst, Alu(op, s.Get(a), s.Get(b)));
  }

  lemma ImmYields(op: ImmOp, dst: Reg, a: Reg, imm: bv12, s: State, regs: set<Reg>, f: set<G.Flag>)
    requires !dst.Zero?
    ensures Yields([OpImm(op, dst, a, imm)], s, dst, AluImm(op, s.Get(a), Sext12(imm)), regs, f)
  {
    hide Exec, Step, AluImm, Sext12, State.Set, State.Get;
    Exec1Word([OpImm(op, dst, a, imm)], s);
    StepImm(op, dst, a, imm, s);
    SetKeeps(s, dst, AluImm(op, s.Get(a), Sext12(imm)));
  }

  // ---- operands ------------------------------------------------------------------------------------------------

  /** Operands that the temporaries leave alone. */
  predicate Operands(dst: Reg, src: Reg) {
    !dst.Zero? && dst !in OpTemps && src !in OpTemps && dst != T3
  }

  // ---- addition, subtraction and logic with a register ---------------------------------------------------------

  /** The code performs the operation on two registers, and stores what its carry and overflow are read from. */
  ghost predicate Performs(x: seq<Instr>, op: AluOp, size: nat, dst: Reg, src: Reg, update: set<G.Flag>) {
    && AllFlow(x)
    && forall s: State ::
      Yields(x, s, dst, Compute(op, s.Get(dst), s.Get(src), CarryBit(s)), OpTemps, CarryAndOverflow * update)
        && RegisterTells(x, s, op, size, dst, src, update)
  }

  ghost predicate RegisterTells(x: seq<Instr>, s: State, op: AluOp, size: nat, dst: Reg, src: Reg,
        update: set<G.Flag>) {
    Tells(Exec(x, s), CarryTold(op, size, s.Get(dst), s.Get(src), CarryBit(s), dst == src),
      OverflowTold(op, size, s.Get(dst), s.Get(src), CarryBit(s), false), update)
  }

  function RegisterOp(op: AluOp): RegOp {
    match op case AddOp => ADD case AdcOp => ADD case SubOp => SUB case AndOp => AND case OrOp => OR case XorOp => XOR
  }

  /** One instruction between two groups of flag stores. */
  lemma Sandwich(a: seq<Instr>, w: seq<Instr>, b: seq<Instr>, dst: Reg, v: bv64, update: set<G.Flag>, s: State)
    requires Carries(a, update) && Carries(b, update) && dst !in OpTemps
    requires Yields(w, Exec(a, s), dst, v, OpTemps, CarryAndOverflow * update)
    ensures Yields(a + w + b, s, dst, v, OpTemps, CarryAndOverflow * update)
  {
    hide Exec, Updates, Yields, AllFlow;
    UpdatesYields(a, w, s, dst, v, OpTemps, CarryAndOverflow * update);
    YieldsUpdates(a + w, b, s, dst, v, OpTemps, CarryAndOverflow * update);
  }

  lemma SandwichFlows(a: seq<Instr>, w: seq<Instr>, b: seq<Instr>, update: set<G.Flag>)
    requires Carries(a, update) && Carries(b, update) && AllFlow(w)
    ensures AllFlow(a + w + b)
  {
    hide Exec, Updates, AllFlow;
    AllFlowAppend(a, w);
    AllFlowAppend(a + w, b);
  }

  lemma OpComputes(op: AluOp, d: bv64, v: bv64, c: bv64)
    requires !op.AdcOp?
    ensures Compute(op, d, v, c) == if op.AddOp? then Alu(ADD, v, d) else Alu(RegisterOp(op), d, v)
  {
    hide Plus, Minus, And, Or, Xor;
  }

  function OpWord(op: AluOp, dst: Reg, src: Reg): Instr {
    if op.AddOp? then Op(ADD, dst, src, dst) else Op(RegisterOp(op), dst, dst, src)
  }

  /** What the operation stores in front of its instruction and behind it. */
  function Before(op: AluOp, size: nat, dst: Reg, src: Reg): Stored {
    if op.AddOp? then Stored(Same, None, None, EntryOf(OverflowAdd, size), Some(src), Some(dst))
    else if op.SubOp? then
      Stored(EntryOf(CarryAdd, size), None, Some(dst), EntryOf(OverflowSub, size), Some(src), Some(dst))
    else NothingStored
  }

  function Behind(op: AluOp, size: nat, dst: Reg, src: Reg): Stored {
    if op.AddOp? then Stored(EntryOf(CarryAdd, size), Some(src), Some(dst), Same, None, None)
    else if op.SubOp? then Stored(Same, Some(dst), None, Same, None, None)
    else ClearedBoth
  }

  const ClearedBoth: Stored := Stored(Entry.Entry(48), None, None, Entry.Entry(56), None, None)

  lemma RecordsCarry(x: seq<Instr>, p: Stored, update: set<G.Flag>)
    requires Records(x, p, update)
    ensures Carries(x, update)
  {
    hide Carries, Exec, RecordOf;
  }

  lemma Performed(a: seq<Instr>, b: seq<Instr>, op: AluOp, size: nat, dst: Reg, src: Reg, update: set<G.Flag>)
    requires !op.AdcOp? && Operands(dst, src) && IsSize(size)
    requires Records(a, Before(op, size, dst, src), update) && Records(b, Behind(op, size, dst, src), update)
    ensures Performs(a + [OpWord(op, dst, src)] + b, op, size, dst, src, update)
  {
    hide Operands, Records, Carries, Before, Behind, Exec;
    var w := [OpWord(op, dst, src)];
    RecordsCarry(a, Before(op, size, dst, src), update);
    RecordsCarry(b, Behind(op, size, dst, src), update);
    OpWordFlows(op, dst, src);
    SandwichFlows(a, w, b, update);
    forall s: State
      ensures Yields(a + w + b, s, dst, Compute(op, s.Get(dst), s.Get(src), CarryBit(s)), OpTemps,
        CarryAndOverflow * update)
      ensures RegisterTells(a + w + b, s, op, size, dst, src, update)
    {
      hide Updates, Yields, AllFlow, Compute, Alu, State.Get, CarryBit, RegisterTells;
      OperandsApart(dst, src);
      CarriesKeep(a, update, s, dst);
      CarriesKeep(a, update, s, src);
      WordYields(op, dst, src, Exec(a, s), CarryBit(s), CarryAndOverflow * update);
      Sandwich(a, w, b, dst, Compute(op, s.Get(dst), s.Get(src), CarryBit(s)), update, s);
      WordYields(op, dst, src, Exec(a, s), CarryBit(s), {});
      var t := Between(a, w, b, Before(op, size, dst, src), Behind(op, size, dst, src), update, dst,
        Compute(op, s.Get(dst), s.Get(src), CarryBit(s)), s);
      RegisterTold(Exec(a + w + b, s), s, t, op, size, dst, src, update, a + w + b);
    }
  }

  lemma WordYields(op: AluOp, dst: Reg, src: Reg, t: State, c: bv64, f: set<G.Flag>)
    requires !op.AdcOp? && !dst.Zero?
    ensures Yields([OpWord(op, dst, src)], t, dst, Compute(op, t.Get(dst), t.Get(src), c), OpTemps, f)
  {
    hide Exec, Yields, Compute, Alu, State.Get;
    OpComputes(op, t.Get(dst), t.Get(src), c);
    if op.AddOp? {
      OpYields(ADD, dst, src, dst, t, OpTemps, f);
    } else {
      OpYields(RegisterOp(op), dst, dst, src, t, OpTemps, f);
    }
  }

  /** The record behind an operation, from the states around its instruction. */
  lemma Between(a: seq<Instr>, w: seq<Instr>, b: seq<Instr>, p: Stored, q: Stored, update: set<G.Flag>, dst: Reg,
        v: bv64, s: State) returns (t: State)
    requires Records(a, p, update) && Records(b, q, update) && Yields(w, Exec(a, s), dst, v, OpTemps, {})
    ensures Exec(a + w + b, s).ctx == RecordOf(RecordOf(s.ctx, p, update, s), q, update, t)
    ensures t.Get(dst) == v && forall r :: r !in OpTemps && r != dst ==> t.Get(r) == s.Get(r)
  {
    hide Exec, RecordOf, Records, State.Get, Updates;
    t := Exec(w, Exec(a, s));
    RecordsCarry(a, p, update);
    YieldsOnly(w, Exec(a, s), dst, v, OpTemps);
    RecordedAround(a, w, b, p, q, update, s);
    forall r | r !in OpTemps && r != dst ensures t.Get(r) == s.Get(r) {
      CarriesKeep(a, update, s, r);
    }
  }

  lemma YieldsOnly(w: seq<Instr>, s: State, dst: Reg, v: bv64, regs: set<Reg>)
    requires Yields(w, s, dst, v, regs, {})
    ensures Exec(w, s).ctx == s.ctx && Exec(w, s).Get(dst) == v
    ensures forall r :: r !in regs && r != dst ==> Exec(w, s).Get(r) == s.Get(r)
  {
    hide Exec, State.Get;
  }

  lemma RegisterTold(u: State, s: State, t: State, op: AluOp, size: nat, dst: Reg, src: Reg, update: set<G.Flag>,
        x: seq<Instr>)
    requires !op.AdcOp? && Operands(dst, src) && IsSize(size) && Exec(x, s) == u
    requires u.ctx
      == RecordOf(RecordOf(s.ctx, Before(op, size, dst, src), update, s), Behind(op, size, dst, src), update, t)
    requires t.Get(dst) == Compute(op, s.Get(dst), s.Get(src), CarryBit(s))
    requires forall r :: r !in OpTemps && r != dst ==> t.Get(r) == s.Get(r)
    ensures RegisterTells(x, s, op, size, dst, src, update)
  {
    hide *;
    OperandsApart(dst, src);
    var d, v := s.Get(dst), s.Get(src);
    ToldIs(op, size, d, v, CarryBit(s), dst == src);
    RegisterTellsIf(x, s, op, size, dst, src, update);
    if op.AddOp? {
      assert src != dst ==> t.Get(src) == s.Get(src);
      AddTold(u, s, t, size, dst, src, update);
    } else if op.SubOp? {
      SubTold(u, s, t, size, dst, src, update);
    } else {
      SidesNone(op, size, dst, src);
      ClearedTold(u, s, t, update);
    }
  }

  lemma SidesNone(op: AluOp, size: nat, dst: Reg, src: Reg)
    requires !op.AddOp? && !op.SubOp?
    ensures Before(op, size, dst, src) == NothingStored && Behind(op, size, dst, src) == ClearedBoth
  {
  }

  lemma RegisterTellsIf(x: seq<Instr>, s: State, op: AluOp, size: nat, dst: Reg, src: Reg, update: set<G.Flag>)
    ensures RegisterTells(x, s, op, size, dst, src, update)
      == Tells(Exec(x, s), CarryTold(op, size, s.Get(dst), s.Get(src), CarryBit(s), dst == src),
           OverflowTold(op, size, s.Get(dst), s.Get(src), CarryBit(s), false), update)
  {
    hide Exec, Tells, CarryTold, OverflowTold, CarryBit, State.Get;
  }

  lemma ToldIs(op: AluOp, size: nat, d: bv64, v: bv64, c: bv64, itself: bool)
    requires !op.AdcOp?
    ensures CarryTold(op, size, d, v, c, itself)
      == if op.AddOp? && itself then 0 else if op.AddOp? then Bit(AddCarries(size, d, v, 0))
         else if op.SubOp? then Bit(SubBorrows(size, d, v)) else 0
    ensures OverflowTold(op, size, d, v, c, false)
      == if op.AddOp? then Bit(AddOverflows(size, d, v, Plus(v, d)))
         else if op.SubOp? then Bit(SubOverflows(size, d, v, Minus(d, v))) else 0
    ensures Compute(op, d, v, c)
      == match op
         case AddOp => Plus(v, d)
         case AdcOp => Plus(c, Plus(v, d))
         case SubOp => Minus(d, v)
         case AndOp => And(d, v)
         case OrOp => Or(d, v)
         case XorOp => Xor(d, v)
  {
    hide AddCarries, SubBorrows, AddOverflows, SubOverflows, Plus, Minus, And, Or, Xor;
  }

  /** The carry is read from these two values, and so is the overflow. */
  ghost predicate CarryFrom(u: State, group: bv16, size: nat, x: bv64, y: bv64) {
    Names(u.ctx.carryOp, group, size) && u.ctx.carry0 == x && u.ctx.carry1 == y
  }

  ghost predicate OverflowFrom(u: State, group: bv16, size: nat, x: bv64, y: bv64) {
    Names(u.ctx.overflowOp, group, size) && u.ctx.overflow0 == x && u.ctx.overflow1 == y
  }

  lemma AddRecorded(u: State, s: State, t: State, size: nat, dst: Reg, src: Reg, update: set<G.Flag>)
    requires u.ctx
      == RecordOf(RecordOf(s.ctx, Before(AddOp, size, dst, src), update, s), Behind(AddOp, size, dst, src), update, t)
    ensures G.Carry in update ==> CarryFrom(u, CarryAdd, size, t.Get(src), t.Get(dst))
    ensures G.Overflow in update ==> OverflowFrom(u, OverflowAdd, size, s.Get(src), s.Get(dst))
  {
    hide Names, State.Get, EntryOf, Wide, RecordOf;
    RecordedTwice(s.ctx, Before(AddOp, size, dst, src), Behind(AddOp, size, dst, src), update, s, t);
    EntryNames(CarryAdd, size);
    EntryNames(OverflowAdd, size);
  }

  lemma AddTold(u: State, s: State, t: State, size: nat, dst: Reg, src: Reg, update: set<G.Flag>)
    requires IsSize(size) && t.Get(dst) == Plus(s.Get(src), s.Get(dst)) && (src != dst ==> t.Get(src) == s.Get(src))
    requires u.ctx
      == RecordOf(RecordOf(s.ctx, Before(AddOp, size, dst, src), update, s), Behind(AddOp, size, dst, src), update, t)
    ensures Tells(u, if dst == src then 0 else Bit(AddCarries(size, s.Get(dst), s.Get(src), 0)),
              Bit(AddOverflows(size, s.Get(dst), s.Get(src), Plus(s.Get(src), s.Get(dst)))), update)
  {
    hide *;
    AddRecorded(u, s, t, size, dst, src, update);
    var d, v := s.Get(dst), s.Get(src);
    if G.Carry in update {
      if dst == src {
        SumCarry(u, size, t.Get(dst));
      } else {
        AddCarry(u, size, d, v);
      }
    }
    if G.Overflow in update {
      AddOverflow(u, size, d, v);
    }
    TellsIf(u, if dst == src then 0 else Bit(AddCarries(size, d, v, 0)), Bit(AddOverflows(size, d, v, Plus(v, d))),
      update);
  }

  lemma TellsIf(u: State, carry: bv64, overflow: bv64, update: set<G.Flag>)
    requires (G.Carry in update ==> CarryBit(u) == carry) && (G.Overflow in update ==> OverflowBit(u) == overflow)
    ensures Tells(u, carry, overflow, update)
  {
  }

  lemma SumCarry(u: State, size: nat, r: bv64)
    requires IsSize(size) && CarryFrom(u, CarryAdd, size, r, r)
    ensures CarryBit(u) == 0
  {
    hide CarryBit, EvalCarryAdd, Names;
    AsksCarryAdd(u, size);
    SameAnswers(size, r);
  }

  lemma AddCarry(u: State, size: nat, d: bv64, v: bv64)
    requires IsSize(size) && CarryFrom(u, CarryAdd, size, v, Plus(v, d))
    ensures CarryBit(u) == Bit(AddCarries(size, d, v, 0))
  {
    hide CarryBit, EvalCarryAdd, Names, Plus, AddCarries, Bit;
    AsksCarryAdd(u, size);
    CarryAdded(size, d, v);
  }

  lemma AddOverflow(u: State, size: nat, d: bv64, v: bv64)
    requires IsSize(size) && OverflowFrom(u, OverflowAdd, size, v, d)
    ensures OverflowBit(u) == Bit(AddOverflows(size, d, v, Plus(v, d)))
  {
    hide OverflowBit, EvalOverflowAdd, Names, Plus, AddOverflows, Bit;
    AsksOverflowAdd(u, size);
    OverflowAdded(size, d, v);
  }

  lemma SameAnswers(size: nat, r: bv64)
    ensures EvalCarryAdd(size, r, r) == 0 && EvalCarryAdc(size, r, r) == 1
  {
    hide ZeroExtend;
  }

  lemma SubRecorded(u: State, s: State, t: State, size: nat, dst: Reg, src: Reg, update: set<G.Flag>)
    requires u.ctx
      == RecordOf(RecordOf(s.ctx, Before(SubOp, size, dst, src), update, s), Behind(SubOp, size, dst, src), update, t)
    ensures G.Carry in update ==> CarryFrom(u, CarryAdd, size, t.Get(dst), s.Get(dst))
    ensures G.Overflow in update ==> OverflowFrom(u, OverflowSub, size, s.Get(src), s.Get(dst))
  {
    hide Names, State.Get, EntryOf, Wide, RecordOf;
    RecordedTwice(s.ctx, Before(SubOp, size, dst, src), Behind(SubOp, size, dst, src), update, s, t);
    EntryNames(CarryAdd, size);
    EntryNames(OverflowSub, size);
  }

  lemma SubTold(u: State, s: State, t: State, size: nat, dst: Reg, src: Reg, update: set<G.Flag>)
    requires IsSize(size) && t.Get(dst) == Minus(s.Get(dst), s.Get(src))
    requires u.ctx
      == RecordOf(RecordOf(s.ctx, Before(SubOp, size, dst, src), update, s), Behind(SubOp, size, dst, src), update, t)
    ensures Tells(u, Bit(SubBorrows(size, s.Get(dst), s.Get(src))),
              Bit(SubOverflows(size, s.Get(dst), s.Get(src), Minus(s.Get(dst), s.Get(src)))), update)
  {
    hide CarryBit, OverflowBit, Minus, State.Get, RecordOf, Before, Behind, EvalCarryAdd, EvalOverflowSub, Names;
    hide SubBorrows, SubOverflows;
    var d, v := s.Get(dst), s.Get(src);
    SubRecorded(u, s, t, size, dst, src, update);
    if G.Carry in update {
      AsksCarryAdd(u, size);
      BorrowSubtracted(size, d, v);
    }
    if G.Overflow in update {
      AsksOverflowSub(u, size);
      OverflowSubtracted(size, d, v);
    }
  }

  lemma ClearedTold(u: State, s: State, t: State, update: set<G.Flag>)
    requires u.ctx == RecordOf(RecordOf(s.ctx, NothingStored, update, s), ClearedBoth, update, t)
    ensures Tells(u, 0, 0, update)
  {
    hide CarryBit, OverflowBit, State.Get, Wide;
    AsksCleared(u);
  }

  lemma OpWordFlows(op: AluOp, dst: Reg, src: Reg)
    ensures AllFlow([OpWord(op, dst, src)])
  {
    Flow1(OpWord(op, dst, src));
  }

  lemma OperandsApart(dst: Reg, src: Reg)
    requires Operands(dst, src)
    ensures dst != T4 && src != T4 && !dst.Zero? && dst !in OpTemps && src !in OpTemps
  {
  }

  /** Add::execute_operation. */
  method ExecuteAdd(batch: CodeBatch, update: set<G.Flag>, size: nat, dst: Reg, src: Reg) returns (ghost x: seq<Instr>)
    requires Operands(dst, src) && IsSize(size)
    modifies batch
    ensures batch.code == old(batch.code) + x && Performs(x, AddOp, size, dst, src, update)
  {
    hide Records, Performs, Operands, EntryOf;
    OperandsApart(dst, src);
    ghost var a := EmitOverflow(batch, update, EntryOf(OverflowAdd, size), Some(src), Some(dst));
    var _ := batch.Add(Op(ADD, dst, src, dst));
    ghost var b := EmitCarry(batch, update, EntryOf(CarryAdd, size), Some(src), Some(dst));
    x := a + [OpWord(AddOp, dst, src)] + b;
    Performed(a, b, AddOp, size, dst, src, update);
  }

  /** Sub::execute_operation. */
  method ExecuteSub(batch: CodeBatch, update: set<G.Flag>, size: nat, dst: Reg, src: Reg) returns (ghost x: seq<Instr>)
    requires Operands(dst, src) && IsSize(size)
    modifies batch
    ensures batch.code == old(batch.code) + x && Performs(x, SubOp, size, dst, src, update)
  {
    hide Records, Performs, Operands, EntryOf;
    OperandsApart(dst, src);
    ghost var a := EmitBoth(batch, update, Before(SubOp, size, dst, src));
    var _ := batch.Add(Op(SUB, dst, dst, src));
    ghost var b := EmitCarry(batch, update, Same, Some(dst), None);
    x := a + [OpWord(SubOp, dst, src)] + b;
    Performed(a, b, SubOp, size, dst, src, update);
  }

  /** Clearing carry and overflow. */
  method ClearBoth(batch: CodeBatch, update: set<G.Flag>) returns (ghost x: seq<Instr>)
    modifies batch
    ensures batch.code == old(batch.code) + x && Records(x, ClearedBoth, update)
  {
    hide Records;
    x := EmitBoth(batch, update, ClearedBoth);
  }

  /** And, Or and Xor. */
  method ExecuteLogic(batch: CodeBatch, op: AluOp, update: set<G.Flag>, size: nat, dst: Reg, src: Reg)
      returns (ghost x: seq<Instr>)
    requires (op.AndOp? || op.OrOp? || op.XorOp?) && Operands(dst, src) && IsSize(size)
    modifies batch
    ensures batch.code == old(batch.code) + x && Performs(x, op, size, dst, src, update)
  {
    hide Records, Performs, Operands;
    var _ := batch.Add(Op(RegisterOp(op), dst, dst, src));
    ghost var b := ClearBoth(batch, update);
    NothingRecords(update);
    x := [] + [OpWord(op, dst, src)] + b;
    Performed([], b, op, size, dst, src, update);
  }

  // ---- addition with carry ------------------------------------------------------------------------------------

  /** The carry flag waits in T4 while the flag state is prepared. */
  ghost predicate Waits(x: seq<Instr>, s: State, c: bv64, f: set<G.Flag>) {
    Updates(x, s, OpTemps, f) && Exec(x, s).Get(T4) == c
  }

  lemma CarryWaits(s: State, f: set<G.Flag>)
    ensures Waits(AskWords(0x242), s, CarryBit(s), f)
  {
    hide Exec, AskWords, CarryBit, State.Get;
    CarryEvaluated(s);
    KeptUpdates(AskWords(0x242), s, {T5, T6, RA} + {T4});
    UpdatesMore(AskWords(0x242), s, {T5, T6, RA} + {T4}, OpTemps, {}, f);
  }

  lemma WaitsThen(a: seq<Instr>, b: seq<Instr>, s: State, c: bv64, f: set<G.Flag>)
    requires Waits(a, s, c, f) && Updates(b, Exec(a, s), {T5, T6}, f)
    ensures Waits(a + b, s, c, f)
  {
    hide Exec, State.Get;
    UpdatesThen(a, b, s, OpTemps, {T5, T6}, f, f);
    assert OpTemps + {T5, T6} == OpTemps && f + f == f;
  }

  /** In front of the additions: operands and evaluator of the overflow, and the offset for the carry. */
  ghost predicate Prepared(x: seq<Instr>, s: State, size: nat, dst: Reg, src: Reg, update: set<G.Flag>) {
    var t := Exec(x, s);
    && (G.Carry in update ==> t.Get(T5) == Offset(CarryBit(s)))
    && (G.Overflow in update ==> OverflowChosen(t, CarryBit(s), size, s.Get(src), s.Get(dst)))
  }

  ghost predicate OverflowChosen(t: State, c: bv64, size: nat, x: bv64, y: bv64) {
    t.ctx.overflowOp == Chosen(c, EntryOf(OverflowAdd, size).offset) && t.ctx.overflow0 == x && t.ctx.overflow1 == y
  }

  ghost predicate CarryChosen(t: State, c: bv64, size: nat, x: bv64, y: bv64) {
    t.ctx.carryOp == Chosen(c, EntryOf(CarryAdd, size).offset) && t.ctx.carry0 == x && t.ctx.carry1 == y
  }

  /** The evaluators with a carry stand 16 bytes behind those without. */
  function Offset(c: bv64): bv64 { Shifted(SLLI, c, 4) }

  function Chosen(c: bv64, base: bv12): bv16 { Cut16(Plus(Offset(c), Sext12(base))) }

  lemma ChosenNames(c: bv64, size: nat)
    requires IsBit(c)
    ensures Names(Chosen(c, EntryOf(CarryAdd, size).offset), if 0 < c then CarryAdc else CarryAdd, size)
    ensures Names(Chosen(c, EntryOf(OverflowAdd, size).offset), if 0 < c then OverflowAdc else OverflowAdd, size)
  {
    hide Chosen, Names, EntryOf;
    if 0 < c {
      OneBit(c);
      ChosenOne(size);
    } else {
      ChosenNone(size);
    }
  }

  lemma OneBit(c: bv64)
    requires IsBit(c) && 0 < c
    ensures c == 1
  {
  }

  lemma ChosenOne(size: nat)
    ensures Names(Chosen(1, EntryOf(CarryAdd, size).offset), CarryAdc, size)
    ensures Names(Chosen(1, EntryOf(OverflowAdd, size).offset), OverflowAdc, size)
  {
    hide Shl;
    Shl4(1);
  }

  lemma ChosenNone(size: nat)
    ensures Names(Chosen(0, EntryOf(CarryAdd, size).offset), CarryAdd, size)
    ensures Names(Chosen(0, EntryOf(OverflowAdd, size).offset), OverflowAdd, size)
  {
    hide Shl;
    Shl4(0);
  }

  lemma OffsetSet(s: State)
    ensures var t := Exec([Shift(SLLI, T5, T4, 4)], s);
      t.ctx == s.ctx && t.Get(T5) == Offset(s.Get(T4)) && forall r :: r != T5 ==> t.Get(r) == s.Get(r)
  {
    hide Exec, Step, Shifted, State.Get, State.Set;
    Exec1Word([Shift(SLLI, T5, T4, 4)], s);
    StepShift(SLLI, T5, T4, 4, s);
    SetKeeps(s, T5, Shifted(SLLI, s.Get(T4), 4));
  }

  lemma ShiftUpdates(s: State, f: set<G.Flag>)
    ensures Updates([Shift(SLLI, T5, T4, 4)], s, {T5, T6}, f)
  {
    hide Exec, Step, Shifted, State.Set, State.Get;
    Exec1Word([Shift(SLLI, T5, T4, 4)], s);
    StepShift(SLLI, T5, T4, 4, s);
    SetKeeps(s, T5, Shifted(SLLI, s.Get(T4), 4));
  }

  /** Storing operands and an evaluator that has been computed. */
  function ChosenWords(entry: Reg, base: bv12, p: Place, va: Reg, vb: Reg): seq<Instr> {
    [OpImm(ADDI, entry, T5, base)] + [Store(SD, S11, va, p.first)] + [Store(SD, S11, vb, p.second)]
      + [Store(SH, S11, entry, p.op)]
  }

  lemma ChosenFlows(entry: Reg, base: bv12, p: Place, va: Reg, vb: Reg)
    ensures AllFlow(ChosenWords(entry, base, p, va, vb))
  {
  }

  lemma StoreUpdates(op: StoreOp, rs: Reg, off: bv12, s: State, regs: set<Reg>, f: set<G.Flag>)
    requires Touches(s.ctx, WriteContext(s.ctx, op, off, s.Get(rs)), f)
    ensures Updates([Store(op, S11, rs, off)], s, regs, f)
  {
    hide Exec, WriteContext, Touches, State.Get;
    StoreContext(op, rs, off, s);
  }

  lemma CarryStores(c: Context, v: bv64)
    ensures Touches(c, WriteContext(c, SD, 0x220, v), {G.Carry}) && Touches(c, WriteContext(c, SD, 0x228, v), {G.Carry})
    ensures Touches(c, WriteContext(c, SH, 0x242, v), {G.Carry})
  {
    hide WriteContext;
    CarryFirst(c, v);
    CarrySecond(c, v);
    CarryOpField(c, v);
  }

  lemma OverflowStores(c: Context, v: bv64)
    ensures Touches(c, WriteContext(c, SD, 0x210, v), {G.Overflow})
    ensures Touches(c, WriteContext(c, SD, 0x218, v), {G.Overflow})
    ensures Touches(c, WriteContext(c, SH, 0x240, v), {G.Overflow})
  {
    hide WriteContext;
    OverflowFirst(c, v);
    OverflowSecond(c, v);
    OverflowOpField(c, v);
  }

  lemma PlaceUpdates(op: StoreOp, rs: Reg, off: bv12, carry: bool, s: State, entry: Reg)
    requires var p := if carry then CarryPlace else OverflowPlace;
      (op == SD && (off == p.first || off == p.second)) || (op == SH && off == p.op)
    ensures Updates([Store(op, S11, rs, off)], s, {entry}, if carry then {G.Carry} else {G.Overflow})
  {
    hide WriteContext, Touches, State.Get;
    if carry {
      CarryStores(s.ctx, s.Get(rs));
    } else {
      OverflowStores(s.ctx, s.Get(rs));
    }
    StoreUpdates(op, rs, off, s, {entry}, if carry then {G.Carry} else {G.Overflow});
  }

  lemma ChosenUpdates(entry: Reg, base: bv12, carry: bool, va: Reg, vb: Reg, s: State)
    requires !entry.Zero?
    ensures Updates(ChosenWords(entry, base, if carry then CarryPlace else OverflowPlace, va, vb), s, {entry},
      if carry then {G.Carry} else {G.Overflow})
  {
    hide Exec, Updates, WriteContext, Touches, State.Get, AluImm, Sext12;
    var p := if carry then CarryPlace else OverflowPlace;
    var f := if carry then {G.Carry} else {G.Overflow};
    var a, b := [OpImm(ADDI, entry, T5, base)], [Store(SD, S11, va, p.first)];
    var c, d := [Store(SD, S11, vb, p.second)], [Store(SH, S11, entry, p.op)];
    AddiUpdates(entry, base, s, f);
    PlaceUpdates(SD, va, p.first, carry, Exec(a, s), entry);
    UpdatesThen(a, b, s, {entry}, {entry}, f, f);
    PlaceUpdates(SD, vb, p.second, carry, Exec(a + b, s), entry);
    UpdatesThen(a + b, c, s, {entry} + {entry}, {entry}, f + f, f);
    PlaceUpdates(SH, entry, p.op, carry, Exec(a + b + c, s), entry);
    UpdatesThen(a + b + c, d, s, {entry} + {entry} + {entry}, {entry}, f + f + f, f);
    assert {entry} + {entry} + {entry} + {entry} == {entry} && f + f + f + f == f;
  }

  /** The record after storing operands and a computed evaluator. */
  function ChosenRecord(c: Context, carry: bool, op: bv16, x: bv64, y: bv64): Context {
    if carry then c.(carry0 := x, carry1 := y, carryOp := op) else c.(overflow0 := x, overflow1 := y, overflowOp := op)
  }

  lemma ChosenStored(entry: Reg, base: bv12, carry: bool, va: Reg, vb: Reg, s: State)
    requires !entry.Zero? && va != entry && vb != entry
    ensures Exec(ChosenWords(entry, base, if carry then CarryPlace else OverflowPlace, va, vb), s).ctx
      == ChosenRecord(s.ctx, carry, Cut16(Plus(s.Get(T5), Sext12(base))), s.Get(va), s.Get(vb))
  {
    hide Exec, WriteContext, Framed, State.Get, State.Set, Plus, Sext12, Cut16, ChosenRecord;
    var p := if carry then CarryPlace else OverflowPlace;
    var a, b := [OpImm(ADDI, entry, T5, base)], [Store(SD, S11, va, p.first)];
    var c, d := [Store(SD, S11, vb, p.second)], [Store(SH, S11, entry, p.op)];
    AddiSets(entry, base, s);
    var t := Exec(a, s);
    ExecAppend(a, b, s);
    StoreContext(SD, va, p.first, t);
    ExecAppend(a + b, c, s);
    StoreContext(SD, vb, p.second, Exec(b, t));
    SameGet(t, Exec(b, t), vb);
    ExecAppend(a + b + c, d, s);
    StoreContext(SH, entry, p.op, Exec(c, Exec(b, t)));
    SameGet(t, Exec(c, Exec(b, t)), entry);
    ChosenWritten(s.ctx, carry, t.Get(entry), s.Get(va), s.Get(vb));
  }

  lemma AddiSets(entry: Reg, base: bv12, s: State)
    requires !entry.Zero?
    ensures var t := Exec([OpImm(ADDI, entry, T5, base)], s);
      t.ctx == s.ctx && t.Get(entry) == Plus(s.Get(T5), Sext12(base)) && forall r :: r != entry ==> t.Get(r) == s.Get(r)
  {
    hide Exec, Plus, Sext12, State.Get, Yields;
    ImmYields(ADDI, entry, T5, base, s, {}, {});
    YieldsOnly([OpImm(ADDI, entry, T5, base)], s, entry, Plus(s.Get(T5), Sext12(base)), {});
  }

  lemma ChosenWritten(c: Context, carry: bool, op: bv64, x: bv64, y: bv64)
    ensures var p := if carry then CarryPlace else OverflowPlace;
      WriteContext(WriteContext(WriteContext(c, SD, p.first, x), SD, p.second, y), SH, p.op, op)
        == ChosenRecord(c, carry, Cut16(op), x, y)
  {
    hide WriteContext, Cut16;
    if carry {
      CarryFirst(c, x);
      CarrySecond(c.(carry0 := x), y);
      CarryOpField(c.(carry0 := x, carry1 := y), op);
    } else {
      OverflowFirst(c, x);
      OverflowSecond(c.(overflow0 := x), y);
      OverflowOpField(c.(overflow0 := x, overflow1 := y), op);
    }
  }

  lemma AddiUpdates(entry: Reg, base: bv12, s: State, f: set<G.Flag>)
    requires !entry.Zero?
    ensures Updates([OpImm(ADDI, entry, T5, base)], s, {entry}, f)
  {
    hide Exec, AluImm, Sext12, State.Get;
    ImmYields(ADDI, entry, T5, base, s, {}, f);
    assert {} + {entry} == {entry};
  }

  lemma WaitsAdd(pre: seq<Instr>, dst: Reg, src: Reg, c: bv64, f: set<G.Flag>, s: State)
    requires Operands(dst, src) && Waits(pre, s, c, f)
    ensures Yields(pre + [Op(ADD, dst, src, dst)] + [Op(ADD, dst, T4, dst)], s, dst,
      Plus(c, Plus(s.Get(src), s.Get(dst))), OpTemps, f)
  {
    hide Exec, Plus, State.Get;
    var t := Exec(pre, s);
    var w1, w2 := [Op(ADD, dst, src, dst)], [Op(ADD, dst, T4, dst)];
    var u := Plus(s.Get(src), s.Get(dst));
    OpYields(ADD, dst, src, dst, t, OpTemps, f);
    UpdatesYields(pre, w1, s, dst, u, OpTemps, f);
    AddKeepsCarry(dst, src, t, c);
    ExecAppend(pre, w1, s);
    OpYields(ADD, dst, T4, dst, Exec(pre + w1, s), OpTemps, f);
    YieldsYields(pre + w1, w2, s, dst, u, Plus(c, u), OpTemps, f);
  }

  lemma AddKeepsCarry(dst: Reg, src: Reg, t: State, c: bv64)
    requires Operands(dst, src) && t.Get(T4) == c
    ensures Exec([Op(ADD, dst, src, dst)], t).Get(T4) == c
  {
    hide Exec, Plus, State.Get;
    OperandsApart(dst, src);
    OpYields(ADD, dst, src, dst, t, {}, {});
  }

  /** The two additions leave the record and the waiting offset alone. */
  lemma AddsOnly(pre: seq<Instr>, dst: Reg, src: Reg, s: State)
    requires Operands(dst, src)
    ensures var t, u := Exec(pre, s), Exec(pre + [Op(ADD, dst, src, dst)] + [Op(ADD, dst, T4, dst)], s);
      && u.ctx == t.ctx && u.Get(T5) == t.Get(T5) && (src != dst ==> u.Get(src) == t.Get(src))
  {
    hide Exec, Yields, State.Get, Plus;
    OperandsApart(dst, src);
    var w1, w2 := [Op(ADD, dst, src, dst)], [Op(ADD, dst, T4, dst)];
    var t := Exec(pre, s);
    ExecAppend(pre, w1, s);
    OpYields(ADD, dst, src, dst, t, {}, {});
    YieldsOnly(w1, t, dst, Plus(t.Get(src), t.Get(dst)), {});
    var t1 := Exec(w1, t);
    ExecAppend(pre + w1, w2, s);
    OpYields(ADD, dst, T4, dst, t1, {}, {});
    YieldsOnly(w2, t1, dst, Plus(t1.Get(T4), t1.Get(dst)), {});
  }

  /** The code behind the additions stores the carry, if asked for. */
  ghost predicate StoresCarry(post: seq<Instr>, t: State, size: nat, dst: Reg, src: Reg, update: set<G.Flag>) {
    Exec(post, t).ctx
      == if G.Carry in update
         then ChosenRecord(t.ctx, true, Cut16(Plus(t.Get(T5), Sext12(EntryOf(CarryAdd, size).offset))), t.Get(src),
                t.Get(dst))
         else t.ctx
  }

  lemma AdcRecorded(pre: seq<Instr>, post: seq<Instr>, s: State, size: nat, dst: Reg, src: Reg, update: set<G.Flag>)
    requires Operands(dst, src)
    requires Waits(pre, s, CarryBit(s), CarryAndOverflow * update) && Prepared(pre, s, size, dst, src, update)
    requires var t := Exec(pre + [Op(ADD, dst, src, dst)] + [Op(ADD, dst, T4, dst)], s);
      StoresCarry(post, t, size, dst, src, update)
    ensures var u := Exec(pre + [Op(ADD, dst, src, dst)] + [Op(ADD, dst, T4, dst)] + post, s);
      var r := Plus(CarryBit(s), Plus(s.Get(src), s.Get(dst)));
      && (G.Carry in update ==> CarryChosen(u, CarryBit(s), size, if src == dst then r else s.Get(src), r))
      && (G.Overflow in update ==> OverflowChosen(u, CarryBit(s), size, s.Get(src), s.Get(dst)))
  {
    hide Exec, State.Get, Plus, CarryBit, Offset, Cut16, Sext12, EntryOf, Updates, Operands;
    var x := pre + [Op(ADD, dst, src, dst)] + [Op(ADD, dst, T4, dst)];
    ExecAppend(x, post, s);
    AddsOnly(pre, dst, src, s);
    WaitsAdd(pre, dst, src, CarryBit(s), CarryAndOverflow * update, s);
    WaitsKeep(pre, s, CarryBit(s), CarryAndOverflow * update, dst, src);
  }

  lemma WaitsKeep(pre: seq<Instr>, s: State, c: bv64, f: set<G.Flag>, dst: Reg, src: Reg)
    requires Waits(pre, s, c, f) && Operands(dst, src)
    ensures Exec(pre, s).Get(src) == s.Get(src) && Exec(pre, s).Get(dst) == s.Get(dst)
  {
    hide Exec, State.Get, CarryBit;
  }

  lemma AdcTold(u: State, c: bv64, size: nat, d: bv64, v: bv64, itself: bool, update: set<G.Flag>)
    requires IsSize(size) && IsBit(c)
    requires var r := Plus(c, Plus(v, d));
      && (G.Carry in update ==> CarryChosen(u, c, size, if itself then r else v, r))
      && (G.Overflow in update ==> OverflowChosen(u, c, size, v, d))
    ensures Tells(u, CarryTold(AdcOp, size, d, v, c, itself), OverflowTold(AdcOp, size, d, v, c, false), update)
  {
    hide *;
    var r := Plus(c, Plus(v, d));
    ChosenNames(c, size);
    if 0 < c {
      OneBit(c);
    } else {
      NoBit(c);
      PlusZero(Plus(v, d));
    }
    AdcToldIs(size, d, v, c, itself);
    if G.Carry in update {
      CarryChosenIs(u, c, size, if itself then r else v, r);
      AdcCarry(u, c, size, d, v, r, itself);
    }
    if G.Overflow in update {
      OverflowChosenIs(u, c, size, v, d);
      AdcOverflow(u, c, size, d, v, r);
    }
    TellsIf(u, CarryTold(AdcOp, size, d, v, c, itself), OverflowTold(AdcOp, size, d, v, c, false), update);
  }

  lemma CarryChosenIs(t: State, c: bv64, size: nat, x: bv64, y: bv64)
    requires CarryChosen(t, c, size, x, y)
    ensures t.ctx.carryOp == Chosen(c, EntryOf(CarryAdd, size).offset) && t.ctx.carry0 == x && t.ctx.carry1 == y
  {
    hide Chosen, EntryOf;
  }

  lemma OverflowChosenIs(t: State, c: bv64, size: nat, x: bv64, y: bv64)
    requires OverflowChosen(t, c, size, x, y)
    ensures t.ctx.overflowOp == Chosen(c, EntryOf(OverflowAdd, size).offset)
    ensures t.ctx.overflow0 == x && t.ctx.overflow1 == y
  {
    hide Chosen, EntryOf;
  }

  lemma AdcToldIs(size: nat, d: bv64, v: bv64, c: bv64, itself: bool)
    ensures CarryTold(AdcOp, size, d, v, c, itself) == if itself then c else Bit(AddCarries(size, d, v, c))
    ensures OverflowTold(AdcOp, size, d, v, c, false) == Bit(AddOverflows(size, d, v, Plus(c, Plus(v, d))))
  {
    hide AddCarries, AddOverflows, Plus, Bit;
  }

  lemma NoBit(c: bv64) requires !(0 < c) ensures c == 0 {}
  lemma PlusZero(x: bv64) ensures Plus(0, x) == x {}

  lemma AdcCarry(u: State, c: bv64, size: nat, d: bv64, v: bv64, r: bv64, itself: bool)
    requires IsSize(size) && r == Plus(c, Plus(v, d)) && (c == 1 || (c == 0 && r == Plus(v, d)))
    requires Names(u.ctx.carryOp, if 0 < c then CarryAdc else CarryAdd, size)
    requires u.ctx.carry0 == (if itself then r else v) && u.ctx.carry1 == r
    ensures CarryBit(u) == if itself then c else Bit(AddCarries(size, d, v, c))
  {
    hide CarryBit, Plus, Names, EvalCarryAdd, EvalCarryAdc, AddCarries, Bit;
    SameAnswers(size, r);
    if c == 1 {
      AsksCarryAdc(u, size);
      CarryAdced(size, d, v);
    } else {
      AsksCarryAdd(u, size);
      CarryAdded(size, d, v);
    }
  }

  lemma AdcOverflow(u: State, c: bv64, size: nat, d: bv64, v: bv64, r: bv64)
    requires IsSize(size) && r == Plus(c, Plus(v, d)) && (c == 1 || (c == 0 && r == Plus(v, d)))
    requires Names(u.ctx.overflowOp, if 0 < c then OverflowAdc else OverflowAdd, size)
    requires u.ctx.overflow0 == v && u.ctx.overflow1 == d
    ensures OverflowBit(u) == Bit(AddOverflows(size, d, v, r))
  {
    hide OverflowBit, Plus, Names, EvalOverflowAdd, EvalOverflowAdc, AddOverflows, Bit;
    if c == 1 {
      AsksOverflowAdc(u, size);
      OverflowAdced(size, d, v);
    } else {
      AsksOverflowAdd(u, size);
      OverflowAdded(size, d, v);
    }
  }

  lemma AdcPerformedAt(pre: seq<Instr>, post: seq<Instr>, size: nat, dst: Reg, src: Reg, update: set<G.Flag>, s: State)
    requires Operands(dst, src) && IsSize(size)
    requires Waits(pre, s, CarryBit(s), CarryAndOverflow * update) && Prepared(pre, s, size, dst, src, update)
    requires var t := Exec(pre + [Op(ADD, dst, src, dst)] + [Op(ADD, dst, T4, dst)], s);
      Updates(post, t, OpTemps, CarryAndOverflow * update) && StoresCarry(post, t, size, dst, src, update)
    ensures var x := pre + [Op(ADD, dst, src, dst)] + [Op(ADD, dst, T4, dst)] + post;
      && Yields(x, s, dst, Plus(CarryBit(s), Plus(s.Get(src), s.Get(dst))), OpTemps, CarryAndOverflow * update)
      && RegisterTells(x, s, AdcOp, size, dst, src, update)
  {
    hide Exec, Updates, Yields, Waits, Prepared, StoresCarry, CarryBit, Plus, State.Get, Tells, IsSize;
    hide CarryTold, OverflowTold, CarryChosen, OverflowChosen;
    var x := pre + [Op(ADD, dst, src, dst)] + [Op(ADD, dst, T4, dst)];
    var v := Plus(CarryBit(s), Plus(s.Get(src), s.Get(dst)));
    OperandsApart(dst, src);
    WaitsAdd(pre, dst, src, CarryBit(s), CarryAndOverflow * update, s);
    YieldsUpdates(x, post, s, dst, v, OpTemps, CarryAndOverflow * update);
    AdcRecorded(pre, post, s, size, dst, src, update);
    AdcTold(Exec(x + post, s), CarryBit(s), size, s.Get(dst), s.Get(src), dst == src, update);
  }

  lemma AdcPerformed(pre: seq<Instr>, post: seq<Instr>, size: nat, dst: Reg, src: Reg, update: set<G.Flag>)
    requires Operands(dst, src) && IsSize(size) && AllFlow(pre) && AllFlow(post)
    requires forall s: State ::
      Waits(pre, s, CarryBit(s), CarryAndOverflow * update) && Prepared(pre, s, size, dst, src, update)
    requires forall s: State ::
      Updates(post, s, OpTemps, CarryAndOverflow * update) && StoresCarry(post, s, size, dst, src, update)
    ensures Performs(pre + [Op(ADD, dst, src, dst)] + [Op(ADD, dst, T4, dst)] + post, AdcOp, size, dst, src, update)
  {
    var x := pre + [Op(ADD, dst, src, dst)] + [Op(ADD, dst, T4, dst)];
    Flow1(Op(ADD, dst, src, dst));
    Flow1(Op(ADD, dst, T4, dst));
    AllFlowAppend(pre, [Op(ADD, dst, src, dst)]);
    AllFlowAppend(pre + [Op(ADD, dst, src, dst)], [Op(ADD, dst, T4, dst)]);
    AllFlowAppend(x, post);
    forall s: State
      ensures Yields(x + post, s, dst, Compute(AdcOp, s.Get(dst), s.Get(src), CarryBit(s)), OpTemps,
        CarryAndOverflow * update)
      ensures RegisterTells(x + post, s, AdcOp, size, dst, src, update)
    {
      hide Exec, Updates, Yields, AllFlow, Waits, Prepared, StoresCarry, CarryBit, Plus, State.Get, RegisterTells;
      AdcPerformedAt(pre, post, size, dst, src, update, s);
    }
  }

  lemma OffsetWaits(pre: seq<Instr>, s: State, c: bv64, f: set<G.Flag>)
    requires Waits(pre, s, c, f)
    ensures Waits(pre + [Shift(SLLI, T5, T4, 4)], s, c, f)
    ensures Exec(pre + [Shift(SLLI, T5, T4, 4)], s).Get(T5) == Offset(c)
  {
    hide Exec, Updates, State.Get, Offset;
    var t := Exec(pre, s);
    ShiftUpdates(t, f);
    WaitsThen(pre, [Shift(SLLI, T5, T4, 4)], s, c, f);
    ExecAppend(pre, [Shift(SLLI, T5, T4, 4)], s);
    OffsetSet(t);
  }

  lemma OverflowWaits(pre: seq<Instr>, s: State, c: bv64, f: set<G.Flag>, size: nat, dst: Reg, src: Reg)
    requires Waits(pre, s, c, f) && Exec(pre, s).Get(T5) == Offset(c) && Operands(dst, src) && G.Overflow in f
    ensures var w := ChosenWords(T6, EntryOf(OverflowAdd, size).offset, OverflowPlace, src, dst);
      && Waits(pre + w, s, c, f) && Exec(pre + w, s).Get(T5) == Offset(c)
      && OverflowChosen(Exec(pre + w, s), c, size, s.Get(src), s.Get(dst))
  {
    hide Exec, Updates, State.Get, Offset, EntryOf, ChosenWords, Waits, Cut16, Plus, Sext12, Operands;
    var base := EntryOf(OverflowAdd, size).offset;
    var t, w := Exec(pre, s), ChosenWords(T6, base, OverflowPlace, src, dst);
    OperandsApart(dst, src);
    WaitsKeep(pre, s, c, f, dst, src);
    ChosenUpdates(T6, base, false, src, dst, t);
    ChosenStored(T6, base, false, src, dst, t);
    UpdatesMore(w, t, {T6}, {T5, T6}, {G.Overflow}, f);
    WaitsThen(pre, w, s, c, f);
    ExecAppend(pre, w, s);
    UpdatesGet(w, t, {T6}, {G.Overflow}, T5);
  }

  lemma UpdatesGet(x: seq<Instr>, s: State, regs: set<Reg>, f: set<G.Flag>, r: Reg)
    requires Updates(x, s, regs, f) && r !in regs
    ensures Exec(x, s).Get(r) == s.Get(r)
  {
    hide Exec, State.Get;
  }

  lemma PreparedIf(pre: seq<Instr>, s: State, size: nat, dst: Reg, src: Reg, update: set<G.Flag>)
    requires G.Carry in update ==> Exec(pre, s).Get(T5) == Offset(CarryBit(s))
    requires G.Overflow in update ==> OverflowChosen(Exec(pre, s), CarryBit(s), size, s.Get(src), s.Get(dst))
    ensures Prepared(pre, s, size, dst, src, update)
  {
    hide Exec, Offset, State.Get, OverflowChosen, CarryBit;
  }

  /** The part of Adc::execute_operation in front of the additions. */
  method PrepareAdc(batch: CodeBatch, update: set<G.Flag>, size: nat, dst: Reg, src: Reg)
      returns (ghost pre: seq<Instr>)
    requires Operands(dst, src)
    modifies batch
    ensures batch.code == old(batch.code) + pre && AllFlow(pre)
    ensures forall s: State ::
      Waits(pre, s, CarryBit(s), CarryAndOverflow * update) && Prepared(pre, s, size, dst, src, update)
  {
    hide Waits, Prepared, AskWords, CarryBit, AllFlow, EntryOf, ChosenWords, Exec, Offset, State.Get, Operands;
    EvaluateCarry(batch);
    ghost var ask := AskWords(0x242);
    AskFlows();
    if G.Carry in update || G.Overflow in update {
      var _ := batch.Add(Shift(SLLI, T5, T4, 4));
      ghost var w := [Shift(SLLI, T5, T4, 4)];
      if G.Overflow in update {
        EmitChosen(batch, T6, EntryOf(OverflowAdd, size).offset, OverflowPlace, src, dst);
        w := w + ChosenWords(T6, EntryOf(OverflowAdd, size).offset, OverflowPlace, src, dst);
      }
      assert w == OffsetWords(size, dst, src, G.Overflow in update);
      pre := ask + OffsetWords(size, dst, src, G.Overflow in update);
      OffsetPrepared(ask, size, dst, src, update);
    } else {
      pre := ask;
      forall s: State
        ensures Waits(pre, s, CarryBit(s), CarryAndOverflow * update) && Prepared(pre, s, size, dst, src, update)
      {
        CarryWaits(s, CarryAndOverflow * update);
        PreparedIf(pre, s, size, dst, src, update);
      }
    }
  }

  function OffsetWords(size: nat, dst: Reg, src: Reg, overflow: bool): seq<Instr> {
    [Shift(SLLI, T5, T4, 4)]
      + if overflow then ChosenWords(T6, EntryOf(OverflowAdd, size).offset, OverflowPlace, src, dst) else []
  }

  lemma OffsetPrepared(ask: seq<Instr>, size: nat, dst: Reg, src: Reg, update: set<G.Flag>)
    requires Operands(dst, src) && ask == AskWords(0x242)
    ensures var pre := ask + OffsetWords(size, dst, src, G.Overflow in update);
      AllFlow(pre) && forall s: State ::
          Waits(pre, s, CarryBit(s), CarryAndOverflow * update) && Prepared(pre, s, size, dst, src, update)
  {
    hide Waits, Prepared, AskWords, CarryBit, AllFlow, EntryOf, ChosenWords, Exec, Offset, State.Get, Operands;
    var f := CarryAndOverflow * update;
    var chosen := ChosenWords(T6, EntryOf(OverflowAdd, size).offset, OverflowPlace, src, dst);
    var shifted := ask + [Shift(SLLI, T5, T4, 4)];
    var pre := ask + OffsetWords(size, dst, src, G.Overflow in update);
    assert pre == if G.Overflow in update then shifted + chosen else shifted;
    AskFlows();
    Flow1(Shift(SLLI, T5, T4, 4));
    AllFlowAppend(ask, [Shift(SLLI, T5, T4, 4)]);
    ChosenFlows(T6, EntryOf(OverflowAdd, size).offset, OverflowPlace, src, dst);
    AllFlowAppend(shifted, chosen);
    forall s: State ensures Waits(pre, s, CarryBit(s), f) && Prepared(pre, s, size, dst, src, update) {
      CarryWaits(s, f);
      OffsetWaits(ask, s, CarryBit(s), f);
      if G.Overflow in update {
        OverflowWaits(shifted, s, CarryBit(s), f, size, dst, src);
      }
      PreparedIf(pre, s, size, dst, src, update);
    }
  }

  lemma AskFlows()
    ensures AllFlow(AskWords(0x242))
  {
  }

  method EmitChosen(batch: CodeBatch, entry: Reg, base: bv12, p: Place, va: Reg, vb: Reg)
    modifies batch
    ensures batch.code == old(batch.code) + ChosenWords(entry, base, p, va, vb)
  {
    var _ := batch.Add(OpImm(ADDI, entry, T5, base));
    var _ := batch.Add(Store(SD, S11, va, p.first));
    var _ := batch.Add(Store(SD, S11, vb, p.second));
    var _ := batch.Add(Store(SH, S11, entry, p.op));
  }

  /** Adc::execute_operation. */
  method ExecuteAdc(batch: CodeBatch, update: set<G.Flag>, size: nat, dst: Reg, src: Reg) returns (ghost x: seq<Instr>)
    requires Operands(dst, src) && IsSize(size)
    modifies batch
    ensures batch.code == old(batch.code) + x && Performs(x, AdcOp, size, dst, src, update)
  {
    hide Waits, Prepared, StoresCarry, Performs, Operands, CarryBit, AllFlow, EntryOf, ChosenWords, Updates;
    ghost var pre := PrepareAdc(batch, update, size, dst, src);
    var _ := batch.Add(Op(ADD, dst, src, dst));
    var _ := batch.Add(Op(ADD, dst, T4, dst));
    ghost var post := [];
    if G.Carry in update {
      var base := EntryOf(CarryAdd, size).offset;
      EmitChosen(batch, T4, base, CarryPlace, src, dst);
      post := ChosenWords(T4, base, CarryPlace, src, dst);
      ChosenFlows(T4, base, CarryPlace, src, dst);
      forall s: State
        ensures Updates(post, s, OpTemps, CarryAndOverflow * update) && StoresCarry(post, s, size, dst, src, update)
      {
        CarryStored(s, size, dst, src, update);
      }
    } else {
      FlowNone();
      forall s: State
        ensures Updates(post, s, OpTemps, CarryAndOverflow * update) && StoresCarry(post, s, size, dst, src, update)
      {
        NoCarryStored(s, size, dst, src, update);
      }
    }
    x := pre + [Op(ADD, dst, src, dst)] + [Op(ADD, dst, T4, dst)] + post;
    AdcPerformed(pre, post, size, dst, src, update);
  }

  lemma CarryStored(s: State, size: nat, dst: Reg, src: Reg, update: set<G.Flag>)
    requires Operands(dst, src) && G.Carry in update
    ensures var post := ChosenWords(T4, EntryOf(CarryAdd, size).offset, CarryPlace, src, dst);
      Updates(post, s, OpTemps, CarryAndOverflow * update) && StoresCarry(post, s, size, dst, src, update)
  {
    hide Exec, Updates, State.Get, EntryOf, ChosenWords, Operands, ChosenRecord, Cut16, Plus, Sext12;
    var base := EntryOf(CarryAdd, size).offset;
    OperandsApart(dst, src);
    ChosenUpdates(T4, base, true, src, dst, s);
    UpdatesMore(ChosenWords(T4, base, CarryPlace, src, dst), s, {T4}, OpTemps, {G.Carry}, CarryAndOverflow * update);
    ChosenStored(T4, base, true, src, dst, s);
  }

  lemma NoCarryStored(s: State, size: nat, dst: Reg, src: Reg, update: set<G.Flag>)
    requires G.Carry !in update
    ensures Updates([], s, OpTemps, CarryAndOverflow * update) && StoresCarry([], s, size, dst, src, update)
  {
    hide State.Get, Exec, ChosenRecord;
    UpdatesNothing(s);
    UpdatesMore([], s, {}, OpTemps, {}, CarryAndOverflow * update);
  }

  /** The operation on two registers, as the instruction classes override it. */
  method ExecuteRegister(batch: CodeBatch, op: AluOp, update: set<G.Flag>, size: nat, dst: Reg, src: Reg)
      returns (ghost x: seq<Instr>)
    requires Operands(dst, src) && IsSize(size)
    modifies batch
    ensures batch.code == old(batch.code) + x && Performs(x, op, size, dst, src, update)
  {
    hide Performs;
    if op.AddOp? {
      x := ExecuteAdd(batch, update, size, dst, src);
    } else if op.AdcOp? {
      x := ExecuteAdc(batch, update, size, dst, src);
    } else if op.SubOp? {
      x := ExecuteSub(batch, update, size, dst, src);
    } else {
      x := ExecuteLogic(batch, op, update, size, dst, src);
    }
  }

  // ---- with a short immediate ------------------------------------------------------------------------------------

  const ImmTemps: set<Reg> := {T3, T4, T5, T6, RA}

  /** The code performs the operation with a constant source, and stores what carry and overflow are read from. */
  ghost predicate PerformsImm(x: seq<Instr>, op: AluOp, size: nat, dst: Reg, imm: bv64, update: set<G.Flag>) {
    && AllFlow(x)
    && forall s: State ::
      Yields(x, s, dst, Compute(op, s.Get(dst), imm, CarryBit(s)), ImmTemps, CarryAndOverflow * update)
        && ConstantTells(x, s, op, size, dst, imm, update)
  }

  ghost predicate ConstantTells(x: seq<Instr>, s: State, op: AluOp, size: nat, dst: Reg, imm: bv64,
        update: set<G.Flag>) {
    Tells(Exec(x, s), CarryTold(op, size, s.Get(dst), imm, CarryBit(s), false),
      OverflowTold(op, size, s.Get(dst), imm, CarryBit(s), Missigned(op, size, imm)), update)
  }

  /** What an operation with a constant stores in front of its instruction and behind it. */
  function BeforeImm(op: AluOp, size: nat, dst: Reg, imm: bv64): Stored {
    if op.AddOp? then
      Stored(EntryOf(CarryAdd, size), Some(dst), None,
        EntryOf(if imm < 0x800 then OverflowAddPos else OverflowAddNeg, size), Some(dst), None)
    else if op.SubOp? then
      Stored(EntryOf(CarryAdd, size), None, Some(dst),
        EntryOf(if imm < 0x800 then OverflowAddNeg else OverflowAddPos, size), Some(dst), None)
    else NothingStored
  }

  function BehindImm(op: AluOp, dst: Reg): Stored {
    if op.AddOp? then Stored(Same, None, Some(dst), Same, None, Some(dst))
    else if op.SubOp? then Stored(Same, Some(dst), None, Same, None, Some(dst))
    else ClearedBoth
  }

  predicate Dest(dst: Reg) { !dst.Zero? && dst !in ImmTemps }

  /** The middle of an immediate operation: one or two instructions that compute the value. */
  ghost predicate Immediately(w: seq<Instr>, op: AluOp, dst: Reg, imm: bv64) {
    && AllFlow(w)
    && forall s: State, f: set<G.Flag> :: Yields(w, s, dst, Compute(op, s.Get(dst), imm, CarryBit(s)), OpTemps, f)
  }

  lemma ImmediatePerformed(a: seq<Instr>, w: seq<Instr>, b: seq<Instr>, op: AluOp, size: nat, dst: Reg, imm: bv64,
        update: set<G.Flag>)
    requires !op.AdcOp? && Dest(dst) && IsSize(size) && Immediately(w, op, dst, imm)
    requires Records(a, BeforeImm(op, size, dst, imm), update) && Records(b, BehindImm(op, dst), update)
    ensures PerformsImm(a + w + b, op, size, dst, imm, update)
  {
    hide Records, Carries, BeforeImm, BehindImm, Dest, Exec;
    RecordsCarry(a, BeforeImm(op, size, dst, imm), update);
    RecordsCarry(b, BehindImm(op, dst), update);
    SandwichFlows(a, w, b, update);
    forall s: State
      ensures Yields(a + w + b, s, dst, Compute(op, s.Get(dst), imm, CarryBit(s)), ImmTemps, CarryAndOverflow * update)
      ensures ConstantTells(a + w + b, s, op, size, dst, imm, update)
    {
      hide Updates, Yields, AllFlow, Compute, CarryBit, State.Get, Immediately, ConstantTells;
      ImmediateAt(a, w, b, op, dst, imm, update, s);
      ImmediateTells(a, w, b, op, size, dst, imm, update, s);
    }
  }

  lemma ImmediateTells(a: seq<Instr>, w: seq<Instr>, b: seq<Instr>, op: AluOp, size: nat, dst: Reg, imm: bv64,
        update: set<G.Flag>, s: State)
    requires !op.AdcOp? && Dest(dst) && IsSize(size) && Immediately(w, op, dst, imm)
    requires Records(a, BeforeImm(op, size, dst, imm), update) && Records(b, BehindImm(op, dst), update)
    ensures ConstantTells(a + w + b, s, op, size, dst, imm, update)
  {
    hide Exec, Updates, Yields, AllFlow, Compute, CarryBit, State.Get, ConstantTells, Records, Carries, RecordOf;
    hide BeforeImm, BehindImm, Dest;
    var v := Compute(op, s.Get(dst), imm, CarryBit(s));
    DestApart(dst);
    RecordsCarry(a, BeforeImm(op, size, dst, imm), update);
    CarriesKeep(a, update, s, dst);
    ComputeCarryless(op, s.Get(dst), imm, CarryBit(s), CarryBit(Exec(a, s)));
    assert Yields(w, Exec(a, s), dst, v, OpTemps, {});
    var t := Between(a, w, b, BeforeImm(op, size, dst, imm), BehindImm(op, dst), update, dst, v, s);
    ConstantTold(Exec(a + w + b, s), s, t, op, size, dst, imm, update, a + w + b);
  }

  lemma ConstantTold(u: State, s: State, t: State, op: AluOp, size: nat, dst: Reg, imm: bv64, update: set<G.Flag>,
        x: seq<Instr>)
    requires !op.AdcOp? && IsSize(size) && Exec(x, s) == u
    requires u.ctx
      == RecordOf(RecordOf(s.ctx, BeforeImm(op, size, dst, imm), update, s), BehindImm(op, dst), update, t)
    requires t.Get(dst) == Compute(op, s.Get(dst), imm, CarryBit(s))
    ensures ConstantTells(x, s, op, size, dst, imm, update)
  {
    hide *;
    ToldWrongIs(op, size, s.Get(dst), imm, CarryBit(s));
    ToldIs(op, size, s.Get(dst), imm, CarryBit(s), false);
    ConstantTellsIf(x, s, op, size, dst, imm, update);
    if op.AddOp? {
      AddConstantTold(u, s, t, size, dst, imm, update);
    } else if op.SubOp? {
      SubConstantTold(u, s, t, size, dst, imm, update);
    } else {
      ImmSidesNone(op, size, dst, imm);
      ClearedTold(u, s, t, update);
    }
  }

  lemma ImmSidesNone(op: AluOp, size: nat, dst: Reg, imm: bv64)
    requires !op.AddOp? && !op.SubOp?
    ensures BeforeImm(op, size, dst, imm) == NothingStored && BehindImm(op, dst) == ClearedBoth
  {
  }

  lemma ConstantTellsIf(x: seq<Instr>, s: State, op: AluOp, size: nat, dst: Reg, imm: bv64, update: set<G.Flag>)
    ensures ConstantTells(x, s, op, size, dst, imm, update)
      == Tells(Exec(x, s), CarryTold(op, size, s.Get(dst), imm, CarryBit(s), false),
           OverflowTold(op, size, s.Get(dst), imm, CarryBit(s), Missigned(op, size, imm)), update)
  {
    hide Exec, Tells, CarryTold, OverflowTold, CarryBit, State.Get, Missigned;
  }

  lemma ToldWrongIs(op: AluOp, size: nat, d: bv64, v: bv64, c: bv64)
    requires !op.AdcOp?
    ensures OverflowTold(op, size, d, v, c, Missigned(op, size, v))
      == if op.AddOp? then Bit(AddOverflows(size, d, v, Plus(v, d)) != WrongSign(v >= 0x800, size, v))
         else if op.SubOp? then Bit(SubOverflows(size, d, v, Minus(d, v)) != WrongSign(v >= 0x800, size, v)) else 0
  {
    hide AddOverflows, SubOverflows, Plus, Minus, And, Or, Xor, WrongSign;
  }

  lemma AddConstantRecorded(u: State, s: State, t: State, size: nat, dst: Reg, imm: bv64, update: set<G.Flag>)
    requires u.ctx
      == RecordOf(RecordOf(s.ctx, BeforeImm(AddOp, size, dst, imm), update, s), BehindImm(AddOp, dst), update, t)
    ensures G.Carry in update ==> CarryFrom(u, CarryAdd, size, s.Get(dst), t.Get(dst))
    ensures G.Overflow in update ==>
      OverflowFrom(u, if imm >= 0x800 then OverflowAddNeg else OverflowAddPos, size, s.Get(dst), t.Get(dst))
  {
    hide Names, State.Get, EntryOf, Wide, RecordOf;
    RecordedTwice(s.ctx, BeforeImm(AddOp, size, dst, imm), BehindImm(AddOp, dst), update, s, t);
    EntryNames(CarryAdd, size);
    EntryNames(OverflowAddPos, size);
    EntryNames(OverflowAddNeg, size);
  }

  lemma SubConstantRecorded(u: State, s: State, t: State, size: nat, dst: Reg, imm: bv64, update: set<G.Flag>)
    requires u.ctx
      == RecordOf(RecordOf(s.ctx, BeforeImm(SubOp, size, dst, imm), update, s), BehindImm(SubOp, dst), update, t)
    ensures G.Carry in update ==> CarryFrom(u, CarryAdd, size, t.Get(dst), s.Get(dst))
    ensures G.Overflow in update ==>
      OverflowFrom(u, if imm >= 0x800 then OverflowAddPos else OverflowAddNeg, size, s.Get(dst), t.Get(dst))
  {
    hide Names, State.Get, EntryOf, Wide, RecordOf;
    RecordedTwice(s.ctx, BeforeImm(SubOp, size, dst, imm), BehindImm(SubOp, dst), update, s, t);
    EntryNames(CarryAdd, size);
    EntryNames(OverflowAddPos, size);
    EntryNames(OverflowAddNeg, size);
  }

  lemma AddConstantTold(u: State, s: State, t: State, size: nat, dst: Reg, imm: bv64, update: set<G.Flag>)
    requires IsSize(size) && t.Get(dst) == Plus(imm, s.Get(dst))
    requires u.ctx
      == RecordOf(RecordOf(s.ctx, BeforeImm(AddOp, size, dst, imm), update, s), BehindImm(AddOp, dst), update, t)
    ensures var d := s.Get(dst);
      Tells(u, Bit(AddCarries(size, d, imm, 0)),
        Bit(AddOverflows(size, d, imm, Plus(imm, d)) != WrongSign(imm >= 0x800, size, imm)), update)
  {
    hide *;
    AddConstantRecorded(u, s, t, size, dst, imm, update);
    var d := s.Get(dst);
    if G.Carry in update {
      Swapped(d, imm);
      AddCarry(u, size, imm, d);
      CarrySymmetric(size, imm, d);
    }
    if G.Overflow in update {
      ConstantOverflow(u, size, d, Plus(imm, d), imm >= 0x800);
      OverflowConstant(size, d, imm, imm >= 0x800);
    }
    TellsIf(u, Bit(AddCarries(size, d, imm, 0)),
      Bit(AddOverflows(size, d, imm, Plus(imm, d)) != WrongSign(imm >= 0x800, size, imm)), update);
  }

  lemma ConstantOverflow(u: State, size: nat, x: bv64, y: bv64, negative: bool)
    requires IsSize(size) && OverflowFrom(u, if negative then OverflowAddNeg else OverflowAddPos, size, x, y)
    ensures OverflowBit(u) == if negative then EvalOverflowNeg(size, x, y) else EvalOverflowPos(size, x, y)
  {
    hide OverflowBit, Names, EvalOverflowNeg, EvalOverflowPos;
    if negative {
      AsksOverflowNeg(u, size);
    } else {
      AsksOverflowPos(u, size);
    }
  }

  lemma SubConstantTold(u: State, s: State, t: State, size: nat, dst: Reg, imm: bv64, update: set<G.Flag>)
    requires IsSize(size) && t.Get(dst) == Minus(s.Get(dst), imm)
    requires u.ctx
      == RecordOf(RecordOf(s.ctx, BeforeImm(SubOp, size, dst, imm), update, s), BehindImm(SubOp, dst), update, t)
    ensures var d := s.Get(dst);
      Tells(u, Bit(SubBorrows(size, d, imm)),
        Bit(SubOverflows(size, d, imm, Minus(d, imm)) != WrongSign(imm >= 0x800, size, imm)), update)
  {
    hide *;
    SubConstantRecorded(u, s, t, size, dst, imm, update);
    var d := s.Get(dst);
    if G.Carry in update {
      SubCarry(u, size, d, imm);
    }
    if G.Overflow in update {
      ConstantOverflow(u, size, d, Minus(d, imm), !(imm >= 0x800));
      OverflowTakenConstant(size, d, imm, imm >= 0x800);
    }
    TellsIf(u, Bit(SubBorrows(size, d, imm)),
      Bit(SubOverflows(size, d, imm, Minus(d, imm)) != WrongSign(imm >= 0x800, size, imm)), update);
  }

  lemma SubCarry(u: State, size: nat, d: bv64, v: bv64)
    requires IsSize(size) && CarryFrom(u, CarryAdd, size, Minus(d, v), d)
    ensures CarryBit(u) == Bit(SubBorrows(size, d, v))
  {
    hide CarryBit, EvalCarryAdd, Names, Minus, SubBorrows, Bit;
    AsksCarryAdd(u, size);
    BorrowSubtracted(size, d, v);
  }

  lemma ComputeCarryless(op: AluOp, d: bv64, v: bv64, c: bv64, c': bv64)
    requires !op.AdcOp?
    ensures Compute(op, d, v, c) == Compute(op, d, v, c')
  {
    hide Plus, Minus, And, Or, Xor;
  }

  lemma ImmediateAt(a: seq<Instr>, w: seq<Instr>, b: seq<Instr>, op: AluOp, dst: Reg, imm: bv64, update: set<G.Flag>,
        s: State)
    requires !op.AdcOp? && Dest(dst) && Carries(a, update) && Carries(b, update) && Immediately(w, op, dst, imm)
    ensures Yields(a + w + b, s, dst, Compute(op, s.Get(dst), imm, CarryBit(s)), ImmTemps, CarryAndOverflow * update)
  {
    hide Exec, Updates, Yields, AllFlow, Carries, Compute, CarryBit, Dest, State.Get;
    var f := CarryAndOverflow * update;
    var v := Compute(op, s.Get(dst), imm, CarryBit(s));
    DestApart(dst);
    CarriesKeep(a, update, s, dst);
    ComputeCarryless(op, s.Get(dst), imm, CarryBit(s), CarryBit(Exec(a, s)));
    assert Yields(w, Exec(a, s), dst, v, OpTemps, f);
    Sandwich(a, w, b, dst, v, update, s);
    YieldsMore(a + w + b, s, dst, v, OpTemps, ImmTemps, f);
  }

  lemma DestApart(dst: Reg)
    requires Dest(dst)
    ensures dst !in OpTemps && !dst.Zero? && dst != T4 && dst != T3 && Operands(dst, T3)
  {
  }

  lemma YieldsMore(x: seq<Instr>, s: State, dst: Reg, v: bv64, k: set<Reg>, l: set<Reg>, f: set<G.Flag>)
    requires Yields(x, s, dst, v, k, f) && k <= l
    ensures Yields(x, s, dst, v, l, f)
  {
    hide Exec, Updates, State.Get;
    UpdatesMore(x, s, k + {dst}, l + {dst}, f, f);
  }

  const Nothing: bv64 := 0

  function Negative(v: bv64): bv64 { Minus(Nothing, v) }

  lemma MinusOfSum(d: bv64, z: bv64, v: bv64)
    ensures Plus(d, Minus(z, v)) == Minus(Plus(d, z), v)
  {
    assert Plus(d, z - v) == d + z - v;
    assert Minus(d + z, v) == d + z - v;
  }

  lemma MinusIsPlus(d: bv64, v: bv64)
    ensures Plus(d, Negative(v)) == Minus(d, v)
  {
    hide Plus, Minus;
    MinusOfSum(d, Nothing, v);
    PlusNone(d);
  }

  lemma NegatedSmall(imm: bv64)
    requires Small(imm) && imm != 0xffff_ffff_ffff_f800
    ensures Small(Negative(imm))
  {
  }

  lemma TwoSteps(d: bv64)
    ensures Plus(Plus(d, 1), 0x7ff) == Minus(d, 0xffff_ffff_ffff_f800)
  {
    assert Plus(d + 1, 0x7ff) == d + 0x800;
  }

  function ImmediateOp(op: AluOp): ImmOp {
    match op
    case AndOp => ANDI
    case OrOp => ORI
    case XorOp => XORI
    case _ => ADDI
  }

  lemma ImmediateComputes(op: AluOp, d: bv64, imm: bv64, used: bv64, c: bv64)
    requires Small(used) && !op.AdcOp? && used == (if op.SubOp? then Negative(imm) else imm)
    ensures AluImm(ImmediateOp(op), d, Sext12(Cut(used))) == Compute(op, d, imm, c)
  {
    hide Plus, Minus, Negative, And, Or, Xor, Sext12, Cut, Small;
    SmallBits(used);
    PlusSwap(imm, d);
    MinusIsPlus(d, imm);
  }

  lemma OneImmediate(op: AluOp, dst: Reg, imm: bv64, used: bv64)
    requires !dst.Zero? && Small(used) && !op.AdcOp? && used == (if op.SubOp? then Negative(imm) else imm)
    ensures Immediately([OpImm(ImmediateOp(op), dst, dst, Cut(used))], op, dst, imm)
  {
    var w := [OpImm(ImmediateOp(op), dst, dst, Cut(used))];
    Flow1(OpImm(ImmediateOp(op), dst, dst, Cut(used)));
    forall s: State, f: set<G.Flag> ensures Yields(w, s, dst, Compute(op, s.Get(dst), imm, CarryBit(s)), OpTemps, f) {
      hide Exec, Yields, AllFlow, State.Get, CarryBit, Compute, AluImm, ImmediateOp, Negative, Sext12, Cut, Small;
      ImmYields(ImmediateOp(op), dst, dst, Cut(used), s, OpTemps, f);
      ImmediateComputes(op, s.Get(dst), imm, used, CarryBit(s));
    }
  }

  lemma TwoImmediates(dst: Reg, imm: bv64)
    requires !dst.Zero? && !(0 < Minus(imm, 0xffff_ffff_ffff_f800))
    ensures Immediately([OpImm(ADDI, dst, dst, 1)] + [OpImm(ADDI, dst, dst, 0x7ff)], SubOp, dst, imm)
  {
    var a, b := [OpImm(ADDI, dst, dst, 1)], [OpImm(ADDI, dst, dst, 0x7ff)];
    Flow1(OpImm(ADDI, dst, dst, 1));
    Flow1(OpImm(ADDI, dst, dst, 0x7ff));
    AllFlowAppend(a, b);
    ConstantBits();
    LowestIs(imm);
    forall s: State, f: set<G.Flag>
      ensures Yields(a + b, s, dst, Compute(SubOp, s.Get(dst), imm, CarryBit(s)), OpTemps, f)
    {
      hide Exec, Updates, AllFlow, State.Get, CarryBit, Plus, Minus, Sext12;
      ImmYields(ADDI, dst, dst, 1, s, OpTemps, f);
      ImmYields(ADDI, dst, dst, 0x7ff, Exec(a, s), OpTemps, f);
      TwoSteps(s.Get(dst));
      YieldsYields(a, b, s, dst, Plus(s.Get(dst), 1), Minus(s.Get(dst), imm), OpTemps, f);
    }
  }

  lemma ConstantBits()
    ensures Sext12(1) == 1 && Sext12(0x7ff) == 0x7ff
  {
    assert !(0 < 1 as bv12 & 0x800) && !(0 < 0x7ff as bv12 & 0x800);
  }

  lemma LowestIs(imm: bv64)
    requires !(0 < Minus(imm, 0xffff_ffff_ffff_f800))
    ensures imm == 0xffff_ffff_ffff_f800
  {
  }

  /** Add, with the entries for a positive or a negative constant. */
  method AddImmediate(batch: CodeBatch, update: set<G.Flag>, size: nat, dst: Reg, imm: bv64)
      returns (ghost x: seq<Instr>)
    requires Dest(dst) && Small(imm) && IsSize(size)
    modifies batch
    ensures batch.code == old(batch.code) + x && PerformsImm(x, AddOp, size, dst, imm, update)
  {
    hide Records, PerformsImm, Dest, EntryOf, Immediately, Small;
    DestApart(dst);
    ghost var a := EmitBoth(batch, update, BeforeImm(AddOp, size, dst, imm));
    var _ := batch.Add(OpImm(ADDI, dst, dst, Cut(imm)));
    ghost var b := EmitBoth(batch, update, BehindImm(AddOp, dst));
    OneImmediate(AddOp, dst, imm, imm);
    x := a + [OpImm(ADDI, dst, dst, Cut(imm))] + b;
    ImmediatePerformed(a, [OpImm(ADDI, dst, dst, Cut(imm))], b, AddOp, size, dst, imm, update);
  }

  /** The negated constant, in two steps where it does not fit. */
  method EmitMinus(batch: CodeBatch, dst: Reg, imm: bv64) returns (ghost w: seq<Instr>)
    requires Dest(dst) && Small(imm)
    modifies batch
    ensures batch.code == old(batch.code) + w && Immediately(w, SubOp, dst, imm)
  {
    hide Immediately;
    DestApart(dst);
    if 0 < Minus(imm, 0xffff_ffff_ffff_f800) {
      NotLowest(imm);
      NegatedSmall(imm);
      var _ := batch.Add(OpImm(ADDI, dst, dst, Cut(Negative(imm))));
      w := [OpImm(ADDI, dst, dst, Cut(Negative(imm)))];
      OneImmediate(SubOp, dst, imm, Negative(imm));
    } else {
      var _ := batch.Add(OpImm(ADDI, dst, dst, 1));
      var _ := batch.Add(OpImm(ADDI, dst, dst, 0x7ff));
      w := [OpImm(ADDI, dst, dst, 1)] + [OpImm(ADDI, dst, dst, 0x7ff)];
      TwoImmediates(dst, imm);
    }
  }

  lemma NotLowest(imm: bv64)
    requires 0 < Minus(imm, 0xffff_ffff_ffff_f800)
    ensures imm != 0xffff_ffff_ffff_f800
  {
  }

  method SubImmediate(batch: CodeBatch, update: set<G.Flag>, size: nat, dst: Reg, imm: bv64)
      returns (ghost x: seq<Instr>)
    requires Dest(dst) && Small(imm) && IsSize(size)
    modifies batch
    ensures batch.code == old(batch.code) + x && PerformsImm(x, SubOp, size, dst, imm, update)
  {
    hide Records, PerformsImm, Dest, EntryOf, Immediately, Small;
    DestApart(dst);
    ghost var a := EmitBoth(batch, update, BeforeImm(SubOp, size, dst, imm));
    ghost var w := EmitMinus(batch, dst, imm);
    ghost var b := EmitBoth(batch, update, BehindImm(SubOp, dst));
    x := a + w + b;
    ImmediatePerformed(a, w, b, SubOp, size, dst, imm, update);
  }

  method LogicImmediate(batch: CodeBatch, op: AluOp, update: set<G.Flag>, size: nat, dst: Reg, imm: bv64)
      returns (ghost x: seq<Instr>)
    requires (op.AndOp? || op.OrOp? || op.XorOp?) && Dest(dst) && Small(imm) && IsSize(size)
    modifies batch
    ensures batch.code == old(batch.code) + x && PerformsImm(x, op, size, dst, imm, update)
  {
    hide Records, PerformsImm, Dest, Immediately, Small;
    DestApart(dst);
    var w := OpImm(ImmediateOp(op), dst, dst, Cut(imm));
    var _ := batch.Add(w);
    ghost var b := ClearBoth(batch, update);
    NothingRecords(update);
    OneImmediate(op, dst, imm, imm);
    x := [] + [w] + b;
    ImmediatePerformed([], [w], b, op, size, dst, imm, update);
  }

  lemma AdcAfterLoad(w: Instr, y: seq<Instr>, size: nat, dst: Reg, imm: bv64, update: set<G.Flag>)
    requires Dest(dst) && Small(imm) && w == OpImm(ADDI, T3, Zero, Cut(imm))
    requires Performs(y, AdcOp, size, dst, T3, update)
    ensures PerformsImm([w] + y, AdcOp, size, dst, imm, update)
  {
    Flow1(w);
    AllFlowAppend([w], y);
    forall s: State
      ensures Yields([w] + y, s, dst, Compute(AdcOp, s.Get(dst), imm, CarryBit(s)), ImmTemps, CarryAndOverflow * update)
      ensures ConstantTells([w] + y, s, AdcOp, size, dst, imm, update)
    {
      hide Yields, ConstantTells, RegisterTells;
      AdcLoaded(w, y, size, dst, imm, update, s);
    }
  }

  lemma AdcLoaded(w: Instr, y: seq<Instr>, size: nat, dst: Reg, imm: bv64, update: set<G.Flag>, s: State)
    requires Dest(dst) && Small(imm) && w == OpImm(ADDI, T3, Zero, Cut(imm))
    requires Performs(y, AdcOp, size, dst, T3, update)
    ensures Yields([w] + y, s, dst, Compute(AdcOp, s.Get(dst), imm, CarryBit(s)), ImmTemps, CarryAndOverflow * update)
    ensures ConstantTells([w] + y, s, AdcOp, size, dst, imm, update)
  {
    hide Exec, AllFlow, State.Get, CarryBit, Plus, Cut, Small, Dest, Tells, RegisterTells, ConstantTells;
    var f := CarryAndOverflow * update;
    DestApart(dst);
    StepAddi(T3, Zero, imm, s);
    GetZero(s);
    PlusNone(imm);
    var t := Exec([w], s);
    assert t.Get(T3) == imm && t.Get(dst) == s.Get(dst);
    Conditions.SameBits(s, t);
    KeptUpdates([w], s, {T3});
    var v := Compute(AdcOp, s.Get(dst), imm, CarryBit(s));
    assert Yields(y, t, dst, v, OpTemps, f) && RegisterTells(y, t, AdcOp, size, dst, T3, update);
    YieldsMore(y, t, dst, v, OpTemps, ImmTemps, f);
    UpdatesMore([w], s, {T3}, ImmTemps, {}, f);
    UpdatesYields([w], y, s, dst, v, ImmTemps, f);
    ExecAppend([w], y, s);
    AdcConstantTells([w] + y, y, s, t, size, dst, imm, update);
  }

  lemma AdcConstantTells(x: seq<Instr>, y: seq<Instr>, s: State, t: State, size: nat, dst: Reg, imm: bv64,
        update: set<G.Flag>)
    requires Exec(x, s) == Exec(y, t) && RegisterTells(y, t, AdcOp, size, dst, T3, update) && dst != T3
    requires t.Get(T3) == imm && t.Get(dst) == s.Get(dst) && CarryBit(t) == CarryBit(s)
    ensures ConstantTells(x, s, AdcOp, size, dst, imm, update)
  {
    hide Exec, State.Get, CarryBit, Tells, CarryTold, OverflowTold;
  }

  method ExecuteImmediate(batch: CodeBatch, op: AluOp, update: set<G.Flag>, size: nat, dst: Reg, imm: bv64)
      returns (ghost x: seq<Instr>)
    requires Dest(dst) && Small(imm) && IsSize(size)
    modifies batch
    ensures batch.code == old(batch.code) + x && PerformsImm(x, op, size, dst, imm, update)
  {
    hide Performs, PerformsImm, Small;
    if op.AddOp? {
      x := AddImmediate(batch, update, size, dst, imm);
    } else if op.AdcOp? {
      var w := OpImm(ADDI, T3, Zero, Cut(imm));
      var _ := batch.Add(w);
      DestApart(dst);
      ghost var y := ExecuteAdc(batch, update, size, dst, T3);
      x := [w] + y;
      AdcAfterLoad(w, y, size, dst, imm, update);
    } else if op.SubOp? {
      x := SubImmediate(batch, update, size, dst, imm);
    } else {
      x := LogicImmediate(batch, op, update, size, dst, imm);
    }
  }
}
