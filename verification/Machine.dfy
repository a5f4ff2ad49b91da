/**
 The flag evaluators behind the jump table (flags_carry.inc.s, flags_overflow.inc.s),
 and running emitted code: straight-line execution, and stepping with branches.
 */
module Machine {
  import opened RiscV

  // ---- jump table (jump_table.h) ------------------------------------------------------------

  /** Byte offsets of the flag evaluators; the entries of a group are ordered 8, 16, 32, 64 bit. */
  const CarryClear: bv16 := 48
  const CarrySet: bv16 := 52
  const OverflowClear: bv16 := 56
  const OverflowSet: bv16 := 60
  const CarryAdd: bv16 := 64
  const CarryAdc: bv16 := 80
  const OverflowAdd: bv16 := 112
  const OverflowAdc: bv16 := 128
  const OverflowAddPos: bv16 := 144
  const OverflowAddNeg: bv16 := 160
  const OverflowSub: bv16 := 176

  /** Offset of the entry of a group for an operand size. */
  function Sized(group: bv16, size: nat): bv16 {
    if size == 8 then group + 12 else if size == 4 then group + 8 else if size == 2 then group + 4 else group
  }

  /** Operand sizes in bytes. */
  predicate IsSize(size: nat) { size == 1 || size == 2 || size == 4 || size == 8 }

  function ZeroExtend(size: nat, v: bv64): bv64 {
    if size == 8 then v else if size == 4 then Low32(v) else if size == 2 then Low16(v) else Low8(v)
  }

  function SignExtend(size: nat, v: bv64): bv64 {
    if size == 8 then v else if size == 4 then Sext32(v) else if size == 2 then Sext16(v) else Sext8(v)
  }

  function TopMask(size: nat): bv64 {
    if size == 8 then 0x8000_0000_0000_0000 else if size == 4 then 0x8000_0000 else if size == 2 then 0x8000 else 0x80
  }

  predicate IsBit(v: bv64) { v < 2 }

  function HighBit(a: bv64): (r: bv64)
    ensures IsBit(r)
  {
    a >> 63
  }

  function LowBit(a: bv64): (r: bv64)
    ensures IsBit(r)
  {
    a & 1
  }

  function EvalCarryAdd(size: nat, src: bv64, dst: bv64): (r: bv64)
    ensures IsBit(r)
  {
    Bit(ZeroExtend(size, dst) < ZeroExtend(size, src))
  }

  function EvalCarryAdc(size: nat, src: bv64, dst: bv64): (r: bv64)
    ensures IsBit(r)
  {
    Bit(ZeroExtend(size, src) < ZeroExtend(size, dst)) ^ 1
  }

  function Up16(x: bv64): bv64 { x << 16 }
  function Up24(x: bv64): bv64 { x << 24 }

  /** Operands moved to the top of a 32-bit word, for sizes below 8. */
  function Raised(size: nat, v: bv64): bv64 {
    if size == 4 then Sext32(v) else if size == 2 then Up16(Sext16(v)) else Up24(Sext8(v))
  }

  function RaisedPlus1(size: nat, v: bv64): bv64 {
    if size == 4 then Plus(Sext32(v), 1) else if size == 2 then Up16(Plus(Sext16(v), 1)) else Up24(Plus(Sext8(v), 1))
  }

  /** Below 64 bits the exact result is compared with the same result cut to a word. */
  predicate LeavesWord(z: bv64) { 0 < z - Sext32(z) }

  function EvalOverflowAdd(size: nat, a: bv64, b: bv64): (r: bv64)
    ensures IsBit(r)
  {
    if size == 8 then
      var x := Bit(SignedLess(a, 0)) - Bit(SignedLess(b + a, b));
      Bit(0 < x)
    else
      Bit(LeavesWord(Plus(Raised(size, a), Raised(size, b))))
  }

  function EvalOverflowAdc(size: nat, a: bv64, b: bv64): (r: bv64)
    ensures IsBit(r)
  {
    if size == 8 then
      if HighBit(a) != HighBit(b) then 0 else HighBit(b + a + 1) ^ HighBit(a)
    else
      Bit(LeavesWord(Plus(Raised(size, a), RaisedPlus1(size, b))))
  }

  function EvalOverflowSub(size: nat, a: bv64, b: bv64): (r: bv64)
    ensures IsBit(r)
  {
    if size == 8 then
      var x := Bit(SignedLess(a, 0)) - Bit(SignedLess(b, b - a));
      Bit(0 < x)
    else
      Bit(LeavesWord(Minus(Raised(size, b), Raised(size, a))))
  }

  function EvalOverflowPos(size: nat, src: bv64, dst: bv64): (r: bv64)
    ensures IsBit(r)
  {
    Bit(SignedLess(SignExtend(size, dst), SignExtend(size, src)))
  }

  function EvalOverflowNeg(size: nat, src: bv64, dst: bv64): (r: bv64)
    ensures IsBit(r)
  {
    Bit(SignedLess(SignExtend(size, src), SignExtend(size, dst)))
  }

  function SizeIn(group: bv16, op: bv16): nat {
    if op == group + 12 then 8 else if op == group + 8 then 4 else if op == group + 4 then 2 else 1
  }

  predicate InGroup(group: bv16, op: bv16) {
    op == group || op == group + 4 || op == group + 8 || op == group + 12
  }

  /**
   The evaluator at a table offset.  Entries outside the listed groups call back into
   the host program; of those only the contract is known that the answer is 0 or 1.
   */
  function EvalFlag(c: Context, op: bv16, unknown: bv64): (r: bv64)
    ensures IsBit(r)
  {
    if op == CarryClear || op == OverflowClear then 0
    else if op == CarrySet || op == OverflowSet then 1
    else if InGroup(CarryAdd, op) then EvalCarryAdd(SizeIn(CarryAdd, op), c.carry0, c.carry1)
    else if InGroup(CarryAdc, op) then EvalCarryAdc(SizeIn(CarryAdc, op), c.carry0, c.carry1)
    else if InGroup(OverflowAdd, op) then EvalOverflowAdd(SizeIn(OverflowAdd, op), c.overflow0, c.overflow1)
    else if InGroup(OverflowAdc, op) then EvalOverflowAdc(SizeIn(OverflowAdc, op), c.overflow0, c.overflow1)
    else if InGroup(OverflowAddPos, op) then EvalOverflowPos(SizeIn(OverflowAddPos, op), c.overflow0, c.overflow1)
    else if InGroup(OverflowAddNeg, op) then EvalOverflowNeg(SizeIn(OverflowAddNeg, op), c.overflow0, c.overflow1)
    else if InGroup(OverflowSub, op) then EvalOverflowSub(SizeIn(OverflowSub, op), c.overflow0, c.overflow1)
    else LowBit(unknown)
  }

  function Cut16(x: bv64): bv16 { (x & 0xffff) as bv16 }

  /** Calling the evaluator whose address is in t4: the flag in t4, with t5, t6 and ra left arbitrary. */
  function CallEvaluator(s: State): State {
    var op := Cut16(Minus(s.Get(T4), s.Get(S10)));
    s.(regs := s.regs[T4 := EvalFlag(s.ctx, op, s.scratch)][T5 := s.scratch][T6 := s.scratch][RA := s.scratch])
  }

  // ---- running code ----------------------------------------------------------------------------

  predicate Flows(i: Instr) { Straight(i) || i == Jalr(RA, T4, 0) }

  function Step(i: Instr, s: State): State {
    if i == Jalr(RA, T4, 0) then CallEvaluator(s) else Exec1(i, s)
  }

  function Exec(code: seq<Instr>, s: State): State {
    if code == [] then s else Exec(code[1..], Step(code[0], s))
  }

  /** Running translated code stops when it leaves through the jump table or an indirect jump. */
  datatype Outcome =
    | At(pc: int, s: State)
    | Rerouted(entry: bv12, s: State)
    | Jumped(target: bv64, s: State)

  function Taken(op: BranchOp, a: bv64, b: bv64): bool {
    match op
    case BEQ => a == b
    case BNE => a != b
    case BLT => SignedLess(a, b)
    case BGE => !SignedLess(a, b)
    case BLTU => a < b
    case BGEU => a >= b
  }

  /** The address of word n of the running code. */
  function AddressOf(base: bv64, n: nat): bv64 { if n == 0 then base else Plus(AddressOf(base, n - 1), 4) }

  function StepAt(code: seq<Instr>, pc: nat, s: State): Outcome
    requires pc < |code|
  {
    var i := code[pc];
    if i.Auipc? then At(pc + 1, s.Set(i.rd, Plus(AddressOf(s.base, pc), UpperImm(i.upper))))
    else if i.Branch? then
      At(if Taken(i.bop, s.Get(i.rs1), s.Get(i.rs2)) then pc + i.offset / 4 else pc + 1, s)
    else if i.Jalr? && i.rd == RA && i.rs1 == S10 then Rerouted(i.imm, s)
    else if i.Jalr? && i.rd == Zero then Jumped(Plus(s.Get(i.rs1), Sext12(i.imm)), s)
    else At(pc + 1, Step(i, s))
  }

  function Run(code: seq<Instr>, o: Outcome, n: nat): Outcome
    decreases n
  {
    if n == 0 || !o.At? || !(0 <= o.pc < |code|) then o
    else Run(code, StepAt(code, o.pc, o.s), n - 1)
  }

  lemma FirstStep(code: seq<Instr>, o: Outcome) returns (next: Outcome)
    requires o.At? && 0 <= o.pc < |code|
    ensures next == StepAt(code, o.pc, o.s)
    ensures forall n: nat {:trigger Run(code, next, n)} :: Run(code, o, n + 1) == Run(code, next, n)
  {
    next := StepAt(code, o.pc, o.s);
  }

  lemma {:induction false} RunTwice(code: seq<Instr>, o: Outcome, m: nat, n: nat)
    ensures Run(code, Run(code, o, m), n) == Run(code, o, m + n)
    decreases m
  {
    hide StepAt;
    if m > 0 && o.At? && 0 <= o.pc < |code| {
      var next := FirstStep(code, o);
      RunTwice(code, next, m - 1, n);
      assert Run(code, o, m) == Run(code, next, m - 1);
      assert Run(code, o, m + n) == Run(code, next, m - 1 + n);
    }
  }

  lemma {:induction false} ExecAppend(a: seq<Instr>, b: seq<Instr>, s: State)
    ensures Exec(a + b, s) == Exec(b, Exec(a, s))
    decreases |a|
  {
    if a == [] {
      assert a + b == b;
    } else {
      assert (a + b)[1..] == a[1..] + b;
      ExecAppend(a[1..], b, Step(a[0], s));
    }
  }

  lemma StepFlows(code: seq<Instr>, pc: nat, s: State)
    requires pc < |code| && Flows(code[pc])
    ensures StepAt(code, pc, s) == At(pc + 1, Step(code[pc], s))
  {
  }

  /** A stretch without branches runs like straight-line code. */
  lemma {:induction false} RunStraight(code: seq<Instr>, pc: nat, part: seq<Instr>, s: State)
    requires pc + |part| <= |code| && code[pc..pc + |part|] == part
    requires forall i <- part :: Flows(i)
    ensures Run(code, At(pc, s), |part|) == At(pc + |part|, Exec(part, s))
    decreases |part|
  {
    if part != [] {
      assert code[pc] == code[pc..pc + |part|][0] == part[0];
      assert part[0] in part;
      assert code[pc + 1..pc + 1 + |part[1..]|] == part[1..];
      StepFlows(code, pc, s);
      RunStraight(code, pc + 1, part[1..], Step(part[0], s));
    }
  }
}
