/**
 The host: RV64I instructions and a step machine (RISC-V User-Level ISA v2.2,
 chapters 2 and 4), with the context record behind s11 and memory as separate parts of
 the state.  `base` is the address of the code that
 is running, and `scratch` stands for whatever called evaluators leave in registers.
 */
module RiscV {

  datatype Reg =
    | Zero | RA | SP | GP | TP | T0 | T1 | T2 | S0 | S1
    | A0 | A1 | A2 | A3 | A4 | A5 | A6 | A7
    | S2 | S3 | S4 | S5 | S6 | S7 | S8 | S9 | S10 | S11
    | T3 | T4 | T5 | T6

  datatype BranchOp = BEQ | BNE | BLT | BGE | BLTU | BGEU
  datatype LoadOp = LB | LH | LW | LD | LBU | LHU | LWU
  datatype StoreOp = SB | SH | SW | SD
  datatype ImmOp = ADDI | SLTI | SLTIU | XORI | ORI | ANDI
  datatype ShiftOp = SLLI | SRLI | SRAI
  datatype RegOp = ADD | SUB | SLL | SLT | SLTU | XOR | SRL | SRA | OR | AND
  datatype WordOp = ADDW | SUBW | SLLW | SRLW | SRAW
  datatype MulOp = MUL | MULH | MULHSU | MULHU | DIV | DIVU | REM | REMU

  /** Data immediates have exactly the width of their encoding; branch distances are in bytes. */
  datatype Instr =
    | Lui(rd: Reg, upper: bv20)
    | Auipc(rd: Reg, upper: bv20)
    | Jal(rd: Reg, offset: int)
    | Jalr(rd: Reg, rs1: Reg, imm: bv12)
    | Branch(bop: BranchOp, rs1: Reg, rs2: Reg, offset: int)
    | Load(lop: LoadOp, rd: Reg, rs1: Reg, imm: bv12)
    | Store(sop: StoreOp, rs1: Reg, rs2: Reg, imm: bv12)
    | OpImm(iop: ImmOp, rd: Reg, rs1: Reg, imm: bv12)
    | Shift(hop: ShiftOp, rd: Reg, rs1: Reg, shamt: bv6)
    | ShiftW(hop: ShiftOp, rd: Reg, rs1: Reg, shamtw: bv5)
    | Op(rop: RegOp, rd: Reg, rs1: Reg, rs2: Reg)
    | OpW(wop: WordOp, rd: Reg, rs1: Reg, rs2: Reg)
    | MulDiv(mop: MulOp, rd: Reg, rs1: Reg, rs2: Reg)
    | Ecall

  function Nop(): Instr { OpImm(ADDI, Zero, Zero, 0) }
  function Mv(rd: Reg, rs: Reg): Instr { OpImm(ADDI, rd, rs, 0) }
  function Not(rd: Reg, rs: Reg): Instr { OpImm(XORI, rd, rs, 0xfff) }
  function Seqz(rd: Reg, rs: Reg): Instr { OpImm(SLTIU, rd, rs, 1) }
  function Beqz(rs: Reg, offset: int): Instr { Branch(BEQ, rs, Zero, offset) }
  function Bnqz(rs: Reg, offset: int): Instr { Branch(BNE, rs, Zero, offset) }

  // ---- words ---------------------------------------------------------------------------

  function Sext12(x: bv12): bv64 {
    if 0 < x & 0x800 then 0xffff_ffff_ffff_f000 | x as bv64 else x as bv64
  }

  function Sext32(x: bv64): bv64 {
    if 0 < x & 0x8000_0000 then 0xffff_ffff_0000_0000 | x else x & 0xffff_ffff
  }

  function Sext16(x: bv64): bv64 {
    if 0 < x & 0x8000 then 0xffff_ffff_ffff_0000 | x else x & 0xffff
  }

  function Sext8(x: bv64): bv64 {
    if 0 < x & 0x80 then 0xffff_ffff_ffff_ff00 | x else x & 0xff
  }

  /** LUI and AUIPC add a 32-bit sign-extended upper immediate. */
  function UpperImm(x: bv20): bv64 {
    if 0 < x & 0x80000 then 0xffff_ffff_0000_0000 | ((x as bv64) << 12) else (x as bv64) << 12
  }

  predicate SignedLess(a: bv64, b: bv64) { a ^ 0x8000_0000_0000_0000 < b ^ 0x8000_0000_0000_0000 }

  /** The arithmetic of the machine, by name: proofs then treat it equationally. */
  function Plus(x: bv64, y: bv64): bv64 { x + y }
  function Minus(x: bv64, y: bv64): bv64 { x - y }
  function And(x: bv64, y: bv64): bv64 { x & y }
  function Or(x: bv64, y: bv64): bv64 { x | y }
  function Xor(x: bv64, y: bv64): bv64 { x ^ y }
  function Not64(x: bv64): bv64 { !x }

  function Low32(x: bv64): bv64 { x & 0xffff_ffff }
  function Low16(x: bv64): bv64 { x & 0xffff }
  function Low8(x: bv64): bv64 { x & 0xff }

  function Up(x: bv64): bv64 { x << 1 }
  function Down(x: bv64): bv64 { x >> 1 }

  /** Shifting by n is shifting by one bit n times. */
  function Shl(x: bv64, n: nat): bv64 { if n == 0 then x else Up(Shl(x, n - 1)) }
  function Shr(x: bv64, n: nat): bv64 { if n == 0 then x else Down(Shr(x, n - 1)) }

  function Sra(a: bv64, n: nat): bv64 {
    if 0 < a & 0x8000_0000_0000_0000 then !Shr(!a, n) else Shr(a, n)
  }

  function Bit(b: bool): bv64 { if b then 1 else 0 }

  // ---- state ---------------------------------------------------------------------------

  /**
   The part of the execution context that translated code addresses relative to s11 (flags.h,
   execution_context.h).
   */
  datatype Context = Context(
    zeroValue: bv64, signValue: bv64,
    overflow0: bv64, overflow1: bv64,
    carry0: bv64, carry1: bv64,
    overflowOp: bv16, carryOp: bv16,
    signSize: bv8, parityValue: bv8,
    fsBase: bv64, gsBase: bv64
  )

  datatype Address = Address(a: bv64)

  /** Guest memory, with the return ring and the call table as regions of their own. */
  datatype Memory = Memory(bytes: map<Address, bv8>, ring: map<Address, bv32>, table: map<Address, bv64>)

  datatype State = State(
    regs: map<Reg, bv64>,
    ctx: Context,
    memory: Memory,
    scratch: bv64,
    base: bv64
  ) {
    function Get(r: Reg): bv64 {
      if r.Zero? || r !in regs then 0 else regs[r]
    }

    function Set(r: Reg, v: bv64): State {
      if r.Zero? then this else this.(regs := regs[r := v])
    }
  }

  function Byte(mem: map<Address, bv8>, a: bv64): bv64 {
    if Address(a) in mem then mem[Address(a)] as bv64 else 0
  }

  function Upper8(v: bv64): bv64 { v >> 8 }
  function Upper16(v: bv64): bv64 { v >> 16 }
  function Upper32(v: bv64): bv64 { v >> 32 }

  function Join8(lo: bv64, hi: bv64): bv64 { lo | (hi << 8) }
  function Join16(lo: bv64, hi: bv64): bv64 { lo | (hi << 16) }
  function Join32(lo: bv64, hi: bv64): bv64 { lo | (hi << 32) }

  function Half(mem: map<Address, bv8>, a: bv64): bv64 { Join8(Byte(mem, a), Byte(mem, Plus(a, 1))) }
  function Word(mem: map<Address, bv8>, a: bv64): bv64 { Join16(Half(mem, a), Half(mem, Plus(a, 2))) }
  function Double(mem: map<Address, bv8>, a: bv64): bv64 { Join32(Word(mem, a), Word(mem, Plus(a, 4))) }

  function PutByte(mem: map<Address, bv8>, a: bv64, v: bv64): map<Address, bv8> { mem[Address(a) := (v & 0xff) as bv8] }
  function PutHalf(mem: map<Address, bv8>, a: bv64, v: bv64): map<Address, bv8> {
    PutByte(PutByte(mem, a, v), Plus(a, 1), Upper8(v))
  }
  function PutWord(mem: map<Address, bv8>, a: bv64, v: bv64): map<Address, bv8> {
    PutHalf(PutHalf(mem, a, v), Plus(a, 2), Upper16(v))
  }
  function PutDouble(mem: map<Address, bv8>, a: bv64, v: bv64): map<Address, bv8> {
    PutWord(PutWord(mem, a, v), Plus(a, 4), Upper32(v))
  }

  /** Little-endian, zero-extended memory access of n bytes. */
  function ReadMem(m: Memory, a: bv64, n: nat): bv64 {
    if n == 8 then if Address(a) in m.table then m.table[Address(a)] else Double(m.bytes, a)
    else if n == 4 then if Address(a) in m.ring then m.ring[Address(a)] as bv64 else Word(m.bytes, a)
    else if n == 2 then Half(m.bytes, a)
    else Byte(m.bytes, a)
  }

  function WriteMem(m: Memory, a: bv64, n: nat, v: bv64): Memory {
    if n == 8 then if Address(a) in m.table then m.(table := m.table[Address(a) := v])
      else m.(bytes := PutDouble(m.bytes, a, v))
    else if n == 4 then if Address(a) in m.ring then m.(ring := m.ring[Address(a) := (v & 0xffff_ffff) as bv32])
      else m.(bytes := PutWord(m.bytes, a, v))
    else if n == 2 then m.(bytes := PutHalf(m.bytes, a, v))
    else m.(bytes := PutByte(m.bytes, a, v))
  }

  function ReadContext(c: Context, op: LoadOp, off: bv12): bv64 {
    match op
    case LD =>
      if off == 0x200 then c.zeroValue else if off == 0x208 then c.signValue
      else if off == 0x210 then c.overflow0 else if off == 0x218 then c.overflow1
      else if off == 0x220 then c.carry0 else if off == 0x228 then c.carry1
      else if off == 0x248 then c.fsBase else if off == 0x250 then c.gsBase
      else 0
    case LHU => if off == 0x240 then c.overflowOp as bv64 else if off == 0x242 then c.carryOp as bv64 else 0
    case LBU => if off == 0x244 then c.signSize as bv64 else if off == 0x245 then c.parityValue as bv64 else 0
    case _ => 0
  }

  function WriteContext(c: Context, op: StoreOp, off: bv12, v: bv64): Context {
    match op
    case SD =>
      if off == 0x200 then c.(zeroValue := v) else if off == 0x208 then c.(signValue := v)
      else if off == 0x210 then c.(overflow0 := v) else if off == 0x218 then c.(overflow1 := v)
      else if off == 0x220 then c.(carry0 := v) else if off == 0x228 then c.(carry1 := v)
      else c
    case SW => if off == 0x200 then c.(zeroValue := (c.zeroValue & 0xffff_ffff_0000_0000) | (v & 0xffff_ffff)) else c
    case SH =>
      if off == 0x200 then c.(zeroValue := (c.zeroValue & 0xffff_ffff_ffff_0000) | (v & 0xffff))
      else if off == 0x240 then c.(overflowOp := (v & 0xffff) as bv16)
      else if off == 0x242 then c.(carryOp := (v & 0xffff) as bv16)
      else c
    case SB =>
      if off == 0x200 then c.(zeroValue := (c.zeroValue & 0xffff_ffff_ffff_ff00) | (v & 0xff))
      else if off == 0x244 then c.(signSize := (v & 0xff) as bv8)
      else if off == 0x245 then c.(parityValue := (v & 0xff) as bv8)
      else c
  }

  // ---- one instruction -------------------------------------------------------------------

  function LoadSize(op: LoadOp): nat {
    match op case LB => 1 case LBU => 1 case LH => 2 case LHU => 2 case LW => 4 case LWU => 4 case LD => 8
  }

  function StoreSize(op: StoreOp): nat {
    match op case SB => 1 case SH => 2 case SW => 4 case SD => 8
  }

  function Extend(op: LoadOp, v: bv64): bv64 {
    match op case LB => Sext8(v) case LH => Sext16(v) case LW => Sext32(v) case _ => v
  }

  function AluImm(op: ImmOp, a: bv64, b: bv64): bv64 {
    match op
    case ADDI => Plus(a, b)
    case SLTI => Bit(SignedLess(a, b))
    case SLTIU => Bit(a < b)
    case XORI => Xor(a, b)
    case ORI => Or(a, b)
    case ANDI => And(a, b)
  }

  function Alu(op: RegOp, a: bv64, b: bv64): bv64 {
    match op
    case ADD => Plus(a, b)
    case SUB => Minus(a, b)
    case SLL => Shl(a, (b & 0x3f) as nat)
    case SLT => Bit(SignedLess(a, b))
    case SLTU => Bit(a < b)
    case XOR => Xor(a, b)
    case SRL => Shr(a, (b & 0x3f) as nat)
    case SRA => Sra(a, (b & 0x3f) as nat)
    case OR => Or(a, b)
    case AND => And(a, b)
  }

  function Shifted(op: ShiftOp, a: bv64, n: bv6): bv64 {
    match op case SLLI => Shl(a, n as nat) case SRLI => Shr(a, n as nat) case SRAI => Sra(a, n as nat)
  }

  function AluW(op: WordOp, a: bv64, b: bv64): bv64 {
    match op
    case ADDW => Sext32(Plus(a, b))
    case SUBW => Sext32(Minus(a, b))
    case SLLW => Sext32(Shl(a, (b & 0x1f) as nat))
    case SRLW => Sext32(Shr(a & 0xffff_ffff, (b & 0x1f) as nat))
    case SRAW => Sra(Sext32(a), (b & 0x1f) as nat)
  }

  function ShiftedW(op: ShiftOp, a: bv64, n: bv5): bv64 {
    match op
    case SLLI => Sext32(Shl(a, n as nat))
    case SRLI => Sext32(Shr(a & 0xffff_ffff, n as nat))
    case SRAI => Sra(Sext32(a), n as nat)
  }

  predicate Straight(i: Instr) {
    i.Lui? || i.Load? || i.Store? || i.OpImm? || i.Shift? || i.ShiftW? || i.Op? || i.OpW?
  }

  /** Instructions that only change the state and continue behind themselves. */
  function Exec1(i: Instr, s: State): State {
    match i
    case Lui(rd, u) => s.Set(rd, UpperImm(u))
    case Load(op, rd, rs1, imm) =>
      if rs1 == S11 then s.Set(rd, ReadContext(s.ctx, op, imm))
      else s.Set(rd, Extend(op, ReadMem(s.memory, Plus(s.Get(rs1), Sext12(imm)), LoadSize(op))))
    case Store(op, rs1, rs2, imm) =>
      if rs1 == S11 then s.(ctx := WriteContext(s.ctx, op, imm, s.Get(rs2)))
      else s.(memory := WriteMem(s.memory, Plus(s.Get(rs1), Sext12(imm)), StoreSize(op), s.Get(rs2)))
    case OpImm(op, rd, rs1, imm) => s.Set(rd, AluImm(op, s.Get(rs1), Sext12(imm)))
    case Shift(op, rd, rs1, n) => s.Set(rd, Shifted(op, s.Get(rs1), n))
    case ShiftW(op, rd, rs1, n) => s.Set(rd, ShiftedW(op, s.Get(rs1), n))
    case Op(op, rd, rs1, rs2) => s.Set(rd, Alu(op, s.Get(rs1), s.Get(rs2)))
    case OpW(op, rd, rs1, rs2) => s.Set(rd, AluW(op, s.Get(rs1), s.Get(rs2)))
    case _ => s
  }
}
