/** Encoding RISC-V instructions (encoding.cpp) and taking the words apart again (decoding.cpp). */
module Encoding {
  import opened Arithmetic
  import opened RiscV

  // ---- registers -----------------------------------------------------------------------------------------------

  function RegIndex(r: Reg): (n: nat)
    ensures n < 32
  {
    match r
    case Zero => 0 case RA => 1 case SP => 2 case GP => 3 case TP => 4 case T0 => 5 case T1 => 6 case T2 => 7
    case S0 => 8 case S1 => 9 case A0 => 10 case A1 => 11 case A2 => 12 case A3 => 13 case A4 => 14 case A5 => 15
    case A6 => 16 case A7 => 17 case S2 => 18 case S3 => 19 case S4 => 20 case S5 => 21 case S6 => 22 case S7 => 23
    case S8 => 24 case S9 => 25 case S10 => 26 case S11 => 27 case T3 => 28 case T4 => 29 case T5 => 30 case T6 => 31
  }

  /** The table of register names. */
  function RegNumbered(n: nat): Reg {
    match n
    case 0 => Zero case 1 => RA case 2 => SP case 3 => GP case 4 => TP case 5 => T0 case 6 => T1 case 7 => T2
    case 8 => S0 case 9 => S1 case 10 => A0 case 11 => A1 case 12 => A2 case 13 => A3 case 14 => A4 case 15 => A5
    case 16 => A6 case 17 => A7 case 18 => S2 case 19 => S3 case 20 => S4 case 21 => S5 case 22 => S6 case 23 => S7
    case 24 => S8 case 25 => S9 case 26 => S10 case 27 => S11 case 28 => T3 case 29 => T4 case 30 => T5 case _ => T6
  }

  lemma InTable(r: Reg)
    ensures RegNumbered(RegIndex(r)) == r
  {
  }

  function RegBits(r: Reg): bv5 { As5(RegIndex(r)) }

  function RegAt(b: bv5): Reg { RegNumbered(From5(b)) }

  lemma RegisterBack(r: Reg)
    ensures RegAt(RegBits(r)) == r
  {
    hide As5, From5;
    There5(RegIndex(r));
    InTable(r);
  }

  // ---- the formats (section 2.3 of RISC-V User-Level ISA v2.2) --------------------------------------------------

  function RType(opcode: bv7, rd: bv5, funct3: bv3, rs1: bv5, rs2: bv5, funct7: bv7): bv32 {
    (opcode as bv32) | ((rd as bv32) << 7) | ((funct3 as bv32) << 12) | ((rs1 as bv32) << 15) | ((rs2 as bv32) << 20)
      | ((funct7 as bv32) << 25)
  }

  function IType(opcode: bv7, rd: bv5, funct3: bv3, rs1: bv5, imm: bv12): bv32 {
    (opcode as bv32) | ((rd as bv32) << 7) | ((funct3 as bv32) << 12) | ((rs1 as bv32) << 15) | ((imm as bv32) << 20)
  }

  function SType(opcode: bv7, funct3: bv3, rs1: bv5, rs2: bv5, imm: bv12): bv32 {
    RType(opcode, (imm & 0x1f) as bv5, funct3, rs1, rs2, (imm >> 5) as bv7)
  }

  function UType(opcode: bv7, rd: bv5, imm: bv20): bv32 {
    (opcode as bv32) | ((rd as bv32) << 7) | ((imm as bv32) << 12)
  }

  /** The parts of a branch offset: bits 1 to 4, 5 to 10, 11 and 12. */
  datatype BranchParts = BranchParts(low: bv4, middle: bv6, eleven: bv1, twelve: bv1)

  function BType(opcode: bv7, funct3: bv3, rs1: bv5, rs2: bv5, i: BranchParts): bv32 {
    (opcode as bv32) | ((i.eleven as bv32) << 7) | ((i.low as bv32) << 8) | ((funct3 as bv32) << 12)
    | ((rs1 as bv32) << 15) | ((rs2 as bv32) << 20) | ((i.middle as bv32) << 25) | ((i.twelve as bv32) << 31)
  }

  /** The parts of a jump offset: bits 1 to 5, 6 to 10, 11, 12 to 15, 16 to 19 and 20. */
  datatype JumpParts = JumpParts(low: bv5, second: bv5, eleven: bv1, third: bv4, fourth: bv4, twenty: bv1)

  function JType(opcode: bv7, rd: bv5, i: JumpParts): bv32 {
    (opcode as bv32) | ((rd as bv32) << 7) | ((i.third as bv32) << 12) | ((i.fourth as bv32) << 16)
      | ((i.eleven as bv32) << 20)
    | ((i.low as bv32) << 21) | ((i.second as bv32) << 26) | ((i.twenty as bv32) << 31)
  }

  function As1(n: nat): bv1 requires n < 2 { n as bv1 }
  function As4(n: nat): bv4 requires n < 16 { n as bv4 }
  function As5(n: nat): bv5 requires n < 32 { n as bv5 }
  function As6(n: nat): bv6 requires n < 64 { n as bv6 }

  function BranchPartsOf(offset: int): BranchParts {
    BranchParts(As4(offset / 2 % 16), As6(offset / 32 % 64), As1(offset / 2048 % 2), As1(offset / 4096 % 2))
  }

  function JumpPartsOf(offset: int): JumpParts {
    JumpParts(As5(offset / 2 % 32), As5(offset / 64 % 32), As1(offset / 2048 % 2),
      As4(offset / 4096 % 16), As4(offset / 0x10000 % 16), As1(offset / 0x100000 % 2))
  }

  // ---- fields -----------------------------------------------------------------------------------------------------

  /** split_off at the offsets and sizes the parsers use. */
  function OpcodeOf(w: bv32): bv7 { (w & 0x7f) as bv7 }
  function RdOf(w: bv32): bv5 { ((w >> 7) & 0x1f) as bv5 }
  function Funct3Of(w: bv32): bv3 { ((w >> 12) & 0x7) as bv3 }
  function Rs1Of(w: bv32): bv5 { ((w >> 15) & 0x1f) as bv5 }
  function Rs2Of(w: bv32): bv5 { ((w >> 20) & 0x1f) as bv5 }
  function Funct7Of(w: bv32): bv7 { ((w >> 25) & 0x7f) as bv7 }
  function ShiftOf(w: bv32): bv6 { ((w >> 20) & 0x3f) as bv6 }
  function Imm12Of(w: bv32): bv12 { ((w >> 20) & 0xfff) as bv12 }
  function Imm20Of(w: bv32): bv20 { ((w >> 12) & 0xfffff) as bv20 }

  function StoreOffsetOf(w: bv32): bv12 { (((w >> 7) & 0x1f) | (((w >> 25) & 0x7f) << 5)) as bv12 }

  function BranchPartsAt(w: bv32): BranchParts {
    BranchParts(((w >> 8) & 0xf) as bv4, ((w >> 25) & 0x3f) as bv6, ((w >> 7) & 1) as bv1, ((w >> 31) & 1) as bv1)
  }

  function JumpPartsAt(w: bv32): JumpParts {
    JumpParts(((w >> 21) & 0x1f) as bv5, ((w >> 26) & 0x1f) as bv5, ((w >> 20) & 1) as bv1,
      ((w >> 12) & 0xf) as bv4, ((w >> 16) & 0xf) as bv4, ((w >> 31) & 1) as bv1)
  }

  lemma RFields(opcode: bv7, rd: bv5, f3: bv3, rs1: bv5, rs2: bv5, f7: bv7)
    ensures var w := RType(opcode, rd, f3, rs1, rs2, f7);
      && OpcodeOf(w) == opcode && RdOf(w) == rd && Funct3Of(w) == f3 && Rs1Of(w) == rs1 && Rs2Of(w) == rs2
        && Funct7Of(w) == f7
  {
  }

  lemma IFields(opcode: bv7, rd: bv5, f3: bv3, rs1: bv5, imm: bv12)
    ensures var w := IType(opcode, rd, f3, rs1, imm);
      && OpcodeOf(w) == opcode && RdOf(w) == rd && Funct3Of(w) == f3 && Rs1Of(w) == rs1 && Imm12Of(w) == imm
      && ShiftOf(w) == (imm & 0x3f) as bv6 && Funct7Of(w) == (imm >> 5) as bv7
  {
  }

  lemma SFields(opcode: bv7, f3: bv3, rs1: bv5, rs2: bv5, imm: bv12)
    ensures var w := SType(opcode, f3, rs1, rs2, imm);
      && OpcodeOf(w) == opcode && Funct3Of(w) == f3 && Rs1Of(w) == rs1 && Rs2Of(w) == rs2 && StoreOffsetOf(w) == imm
  {
  }

  lemma UFields(opcode: bv7, rd: bv5, imm: bv20)
    ensures var w := UType(opcode, rd, imm); OpcodeOf(w) == opcode && RdOf(w) == rd && Imm20Of(w) == imm
  {
  }

  lemma BFields(opcode: bv7, f3: bv3, rs1: bv5, rs2: bv5, i: BranchParts)
    ensures var w := BType(opcode, f3, rs1, rs2, i);
      && OpcodeOf(w) == opcode && Funct3Of(w) == f3 && Rs1Of(w) == rs1 && Rs2Of(w) == rs2
      && BranchPartsAt(w) == i
  {
  }

  lemma JFields(opcode: bv7, rd: bv5, i: JumpParts)
    ensures var w := JType(opcode, rd, i); OpcodeOf(w) == opcode && RdOf(w) == rd && JumpPartsAt(w) == i
  {
  }

  // ---- offsets --------------------------------------------------------------------------------------------

  function Signed(v: nat, top: nat): int { if v < top then v else v - 2 * top }

  function From1(b: bv1): nat { b as nat }
  function From4(b: bv4): nat { b as nat }
  function From5(b: bv5): nat { b as nat }
  function From6(b: bv6): nat { b as nat }

  lemma There1(n: nat) requires n < 2 ensures From1(As1(n)) == n {}
  lemma There4(n: nat) requires n < 16 ensures From4(As4(n)) == n {}
  lemma There5(n: nat) requires n < 32 ensures From5(As5(n)) == n {}
  lemma There6(n: nat) requires n < 64 ensures From6(As6(n)) == n {}

  /** The reassembled, sign-extended offsets. */
  function BranchOffset(i: BranchParts): int {
    Signed(2 * From4(i.low) + 32 * From6(i.middle) + 2048 * From1(i.eleven) + 4096 * From1(i.twelve), 4096)
  }

  function JumpOffset(i: JumpParts): int {
    Signed(2 * From5(i.low) + 64 * From5(i.second) + 2048 * From1(i.eleven) + 4096 * From4(i.third)
      + 0x10000 * From4(i.fourth)
      + 0x100000 * From1(i.twenty), 0x100000)
  }

  lemma BranchDigits(offset: int)
    requires -4096 <= offset < 4096 && offset % 2 == 0
    ensures Signed(2 * (offset / 2 % 16) + 32 * (offset / 32 % 64) + 2048 * (offset / 2048 % 2)
      + 4096 * (offset / 4096 % 2), 4096) == offset
  {
    var q, u, v, w := offset / 2, offset / 32, offset / 2048, offset / 4096;
    Digits(offset, 2, 16);
    Digits(offset, 32, 64);
    Digits(offset, 2048, 2);
    Digits(offset, 4096, 2);
    Halved(offset);
    assert offset / 8192 == if offset < 0 then -1 else 0;
    SumFour(offset, q, u, v, w, offset / 8192, q % 16, u % 64, v % 2, w % 2);
  }

  lemma Halved(x: int)
    requires x % 2 == 0
    ensures x == 2 * (x / 2)
  {
  }

  lemma SumFour(x: int, q: int, u: int, v: int, w: int, z: int, a: int, b: int, c: int, d: int)
    requires x == 2 * q && q == u * 16 + a && u == v * 64 + b && v == w * 2 + c && w == z * 2 + d
    ensures 2 * a + 32 * b + 2048 * c + 4096 * d == x - 8192 * z
  {
  }

  lemma SumSix(x: int, q: int, u: int, v: int, w: int, y: int, z: int, t: int, a: int, b: int, c: int, d: int, e: int,
        f: int)
    requires x == 2 * q && q == u * 32 + a && u == v * 32 + b && v == w * 2 + c && w == y * 16 + d && y == z * 16 + e
    requires z == t * 2 + f
    ensures 2 * a + 64 * b + 2048 * c + 4096 * d + 0x10000 * e + 0x100000 * f == x - 0x200000 * t
  {
  }

  lemma JumpDigits(offset: int)
    requires -0x100000 <= offset < 0x100000 && offset % 2 == 0
    ensures Signed(2 * (offset / 2 % 32) + 64 * (offset / 64 % 32) + 2048 * (offset / 2048 % 2)
      + 4096 * (offset / 4096 % 16)
      + 0x10000 * (offset / 0x10000 % 16) + 0x100000 * (offset / 0x100000 % 2), 0x100000) == offset
  {
    var q, u, v, w, y, z := offset / 2, offset / 64, offset / 2048, offset / 4096, offset / 0x10000, offset / 0x100000;
    Digits(offset, 2, 32);
    Digits(offset, 64, 32);
    Digits(offset, 2048, 2);
    Digits(offset, 4096, 16);
    Digits(offset, 0x10000, 16);
    Digits(offset, 0x100000, 2);
    Halved(offset);
    assert offset / 0x200000 == if offset < 0 then -1 else 0;
    SumSix(offset, q, u, v, w, y, z, offset / 0x200000, q % 32, u % 32, v % 2, w % 16, y % 16, z % 2);
  }

  lemma BranchRoundTrip(offset: int)
    requires -4096 <= offset < 4096 && offset % 2 == 0
    ensures BranchOffset(BranchPartsOf(offset)) == offset
  {
    hide As1, As4, As6, From1, From4, From6, Signed;
    There4(offset / 2 % 16);
    There6(offset / 32 % 64);
    There1(offset / 2048 % 2);
    There1(offset / 4096 % 2);
    BranchDigits(offset);
  }

  lemma JumpRoundTrip(offset: int)
    requires -0x100000 <= offset < 0x100000 && offset % 2 == 0
    ensures JumpOffset(JumpPartsOf(offset)) == offset
  {
    hide As1, As4, As5, From1, From4, From5, Signed;
    There5(offset / 2 % 32);
    There5(offset / 64 % 32);
    There1(offset / 2048 % 2);
    There4(offset / 4096 % 16);
    There4(offset / 0x10000 % 16);
    There1(offset / 0x100000 % 2);
    JumpDigits(offset);
  }

  // ---- instructions ---------------------------------------------------------------------------------------

  /** Branch and jump distances are even and fit their formats. */
  predicate Legal(i: Instr) {
    && (i.Branch? ==> -4096 <= i.offset < 4096 && i.offset % 2 == 0)
    && (i.Jal? ==> -0x100000 <= i.offset < 0x100000 && i.offset % 2 == 0)
  }

  function BranchCode(op: BranchOp): bv3 {
    match op case BEQ => 0 case BNE => 1 case BLT => 4 case BGE => 5 case BLTU => 6 case BGEU => 7
  }

  function LoadCode(op: LoadOp): bv3 {
    match op case LB => 0 case LH => 1 case LW => 2 case LD => 3 case LBU => 4 case LHU => 5 case LWU => 6
  }

  function StoreCode(op: StoreOp): bv3 {
    match op case SB => 0 case SH => 1 case SW => 2 case SD => 3
  }

  function ImmCode(op: ImmOp): bv3 {
    match op case ADDI => 0 case SLTI => 2 case SLTIU => 3 case XORI => 4 case ORI => 6 case ANDI => 7
  }

  function RegCode(op: RegOp): bv3 {
    match op
    case ADD => 0 case SUB => 0 case SLL => 1 case SLT => 2 case SLTU => 3
    case XOR => 4 case SRL => 5 case SRA => 5 case OR => 6 case AND => 7
  }

  function RegCode7(op: RegOp): bv7 { if op == SUB || op == SRA then 32 else 0 }

  function WordCode(op: WordOp): bv3 {
    match op case ADDW => 0 case SUBW => 0 case SLLW => 1 case SRLW => 5 case SRAW => 5
  }

  function WordCode7(op: WordOp): bv7 { if op == SUBW || op == SRAW then 32 else 0 }

  function MulCode(op: MulOp): bv3 {
    match op
    case MUL => 0 case MULH => 1 case MULHSU => 2 case MULHU => 3
    case DIV => 4 case DIVU => 5 case REM => 6 case REMU => 7
  }

  function ShiftCode(op: ShiftOp): bv3 { if op == SLLI then 1 else 5 }

  /** The encoders of encoding.cpp. */
  function Encode(i: Instr): bv32 {
    match i
    case Lui(rd, u) => UType(55, RegBits(rd), u)
    case Auipc(rd, u) => UType(23, RegBits(rd), u)
    case Jal(rd, offset) => JType(111, RegBits(rd), JumpPartsOf(offset))
    case Jalr(rd, rs1, imm) => IType(103, RegBits(rd), 0, RegBits(rs1), imm)
    case Branch(op, rs1, rs2, offset) => BType(99, BranchCode(op), RegBits(rs1), RegBits(rs2), BranchPartsOf(offset))
    case Load(op, rd, rs1, imm) => IType(3, RegBits(rd), LoadCode(op), RegBits(rs1), imm)
    case Store(op, rs1, rs2, imm) => SType(35, StoreCode(op), RegBits(rs1), RegBits(rs2), imm)
    case OpImm(op, rd, rs1, imm) => IType(19, RegBits(rd), ImmCode(op), RegBits(rs1), imm)
    case Shift(op, rd, rs1, n) => IType(19, RegBits(rd), ShiftCode(op), RegBits(rs1),
      if op == SRAI then (n as bv12) | 0x400 else n as bv12)
    case ShiftW(op, rd, rs1, n) => RType(27, RegBits(rd), ShiftCode(op), RegBits(rs1), n, if op == SRAI then 32 else 0)
    case Op(op, rd, rs1, rs2) => RType(51, RegBits(rd), RegCode(op), RegBits(rs1), RegBits(rs2), RegCode7(op))
    case OpW(op, rd, rs1, rs2) => RType(59, RegBits(rd), WordCode(op), RegBits(rs1), RegBits(rs2), WordCode7(op))
    case MulDiv(op, rd, rs1, rs2) => RType(51, RegBits(rd), MulCode(op), RegBits(rs1), RegBits(rs2), 1)
    case Ecall => IType(115, RegBits(Zero), 0, RegBits(Zero), 0)
  }

  /** Instructions that the parser names and the encoder does not build. */
  datatype Foreign = ADDIW | FLW | FLD | MULW | DIVW | DIVUW | REMW | REMUW

  datatype Parsed = Known(i: Instr) | Other(name: Foreign, word: bv32) | Unknown

  function ParseShift(op: ShiftOp, w: bv32): Parsed { Known(Shift(op, RegAt(RdOf(w)), RegAt(Rs1Of(w)), ShiftOf(w))) }

  /** Word shifts are shown with six bits; the sixth is clear for the function codes accepted here. */
  function ParseShiftW(op: ShiftOp, w: bv32): Parsed { Known(ShiftW(op, RegAt(RdOf(w)), RegAt(Rs1Of(w)), Rs2Of(w))) }

  function ParseImm(op: ImmOp, w: bv32): Parsed { Known(OpImm(op, RegAt(RdOf(w)), RegAt(Rs1Of(w)), Imm12Of(w))) }

  function ParseReg(op: RegOp, w: bv32): Parsed { Known(Op(op, RegAt(RdOf(w)), RegAt(Rs1Of(w)), RegAt(Rs2Of(w)))) }

  function ParseWord(op: WordOp, w: bv32): Parsed { Known(OpW(op, RegAt(RdOf(w)), RegAt(Rs1Of(w)), RegAt(Rs2Of(w)))) }

  function ParseMul(op: MulOp, w: bv32): Parsed { Known(MulDiv(op, RegAt(RdOf(w)), RegAt(Rs1Of(w)), RegAt(Rs2Of(w)))) }

  function ParseLoad(op: LoadOp, w: bv32): Parsed { Known(Load(op, RegAt(RdOf(w)), RegAt(Rs1Of(w)), Imm12Of(w))) }

  function ParseStore(op: StoreOp, w: bv32): Parsed {
    Known(Store(op, RegAt(Rs1Of(w)), RegAt(Rs2Of(w)), StoreOffsetOf(w)))
  }

  function ParseBranch(op: BranchOp, w: bv32): Parsed {
    Known(Branch(op, RegAt(Rs1Of(w)), RegAt(Rs2Of(w)), BranchOffset(BranchPartsAt(w))))
  }

  function BranchNamed(f: bv3, w: bv32): Parsed {
    if f == 0 then ParseBranch(BEQ, w) else if f == 1 then ParseBranch(BNE, w) else if f == 4 then ParseBranch(BLT, w)
    else if f == 5 then ParseBranch(BGE, w) else if f == 6 then ParseBranch(BLTU, w)
      else if f == 7 then ParseBranch(BGEU, w) else Unknown
  }

  function StoreNamed(f: bv3, w: bv32): Parsed {
    if f == 0 then ParseStore(SB, w) else if f == 1 then ParseStore(SH, w) else if f == 2 then ParseStore(SW, w)
    else if f == 3 then ParseStore(SD, w) else Unknown
  }

  function LoadNamed(f: bv3, w: bv32): Parsed {
    if f == 0 then ParseLoad(LB, w) else if f == 1 then ParseLoad(LH, w) else if f == 2 then ParseLoad(LW, w)
    else if f == 3 then ParseLoad(LD, w) else if f == 4 then ParseLoad(LBU, w) else if f == 5 then ParseLoad(LHU, w)
    else if f == 6 then ParseLoad(LWU, w) else Unknown
  }

  function ImmNamed(f: bv3, f7: bv7, w: bv32): Parsed {
    if f == 0 then ParseImm(ADDI, w)
    else if f == 1 then if f7 == 0 || f7 == 1 then ParseShift(SLLI, w) else Unknown
    else if f == 2 then ParseImm(SLTI, w) else if f == 3 then ParseImm(SLTIU, w) else if f == 4 then ParseImm(XORI, w)
    else if f == 5 then
      if f7 == 0 || f7 == 1 then ParseShift(SRLI, w) else if f7 == 0x20 || f7 == 0x21 then ParseShift(SRAI, w)
        else Unknown
    else if f == 6 then ParseImm(ORI, w) else ParseImm(ANDI, w)
  }

  function ShiftWNamed(f: bv3, f7: bv7, w: bv32): Parsed {
    if f == 0 then Other(ADDIW, w)
    else if f == 1 then if f7 == 0 then ParseShiftW(SLLI, w) else Unknown
    else if f == 5 then if f7 == 0 then ParseShiftW(SRLI, w) else if f7 == 0x20 then ParseShiftW(SRAI, w) else Unknown
    else Unknown
  }

  function MulNamed(f: bv3, w: bv32): Parsed {
    if f == 0 then ParseMul(MUL, w) else if f == 1 then ParseMul(MULH, w) else if f == 2 then ParseMul(MULHSU, w)
    else if f == 3 then ParseMul(MULHU, w) else if f == 4 then ParseMul(DIV, w) else if f == 5 then ParseMul(DIVU, w)
    else if f == 6 then ParseMul(REM, w) else ParseMul(REMU, w)
  }

  function RegNamed(f: bv3, f7: bv7, w: bv32): Parsed {
    if f7 == 1 then MulNamed(f, w)
    else if f7 == 0 then
      if f == 0 then ParseReg(ADD, w) else if f == 1 then ParseReg(SLL, w) else if f == 2 then ParseReg(SLT, w)
      else if f == 3 then ParseReg(SLTU, w) else if f == 4 then ParseReg(XOR, w) else if f == 5 then ParseReg(SRL, w)
      else if f == 6 then ParseReg(OR, w) else ParseReg(AND, w)
    else if f7 == 0x20 then if f == 0 then ParseReg(SUB, w) else if f == 5 then ParseReg(SRA, w) else Unknown
    else Unknown
  }

  function WordNamed(f: bv3, f7: bv7, w: bv32): Parsed {
    if f7 == 1 then
      if f == 0 then Other(MULW, w) else if f == 4 then Other(DIVW, w) else if f == 5 then Other(DIVUW, w)
      else if f == 6 then Other(REMW, w) else if f == 7 then Other(REMUW, w) else Unknown
    else if f7 == 0 then if f == 0 then ParseWord(ADDW, w) else if f == 1 then ParseWord(SLLW, w)
      else if f == 5 then ParseWord(SRLW, w) else Unknown
    else if f7 == 0x20 then if f == 0 then ParseWord(SUBW, w) else if f == 5 then ParseWord(SRAW, w) else Unknown
    else Unknown
  }

  /** The dispatch of parse_riscv. */
  function Parse(w: bv32): Parsed {
    var o, f, f7 := OpcodeOf(w), Funct3Of(w), Funct7Of(w);
    if o == 0x67 then if f == 0 then Known(Jalr(RegAt(RdOf(w)), RegAt(Rs1Of(w)), Imm12Of(w))) else Unknown
    else if o == 0x6f then Known(Jal(RegAt(RdOf(w)), JumpOffset(JumpPartsAt(w))))
    else if o == 0x63 then BranchNamed(f, w)
    else if o == 0x37 then Known(Lui(RegAt(RdOf(w)), Imm20Of(w)))
    else if o == 0x17 then Known(Auipc(RegAt(RdOf(w)), Imm20Of(w)))
    else if o == 0x23 then StoreNamed(f, w)
    else if o == 0x03 then LoadNamed(f, w)
    else if o == 0x07 then if f == 2 then Other(FLW, w) else if f == 3 then Other(FLD, w) else Unknown
    else if o == 0x13 then ImmNamed(f, f7, w)
    else if o == 0x1b then ShiftWNamed(f, f7, w)
    else if o == 0x73 then if w >> 7 == 0 then Known(Ecall) else Unknown
    else if o == 0x33 then RegNamed(f, f7, w)
    else if o == 0x3b then WordNamed(f, f7, w)
    else Unknown
  }

  // ---- round trips ----------------------------------------------------------------------------------------

  lemma BranchName(op: BranchOp, w: bv32)
    ensures BranchNamed(BranchCode(op), w) == ParseBranch(op, w)
  {
    hide ParseBranch;
  }
  lemma LoadName(op: LoadOp, w: bv32) ensures LoadNamed(LoadCode(op), w) == ParseLoad(op, w) { hide ParseLoad; }
  lemma StoreName(op: StoreOp, w: bv32) ensures StoreNamed(StoreCode(op), w) == ParseStore(op, w) { hide ParseStore; }
  lemma MulName(op: MulOp, w: bv32) ensures MulNamed(MulCode(op), w) == ParseMul(op, w) { hide ParseMul; }

  lemma ImmName(op: ImmOp, f7: bv7, w: bv32)
    ensures ImmNamed(ImmCode(op), f7, w) == ParseImm(op, w)
  {
    hide ParseImm;
  }

  lemma RegName(op: RegOp, w: bv32)
    ensures RegNamed(RegCode(op), RegCode7(op), w) == ParseReg(op, w)
  {
    hide ParseReg, MulNamed;
  }

  lemma WordName(op: WordOp, w: bv32)
    ensures WordNamed(WordCode(op), WordCode7(op), w) == ParseWord(op, w)
  {
    hide ParseWord;
  }

  lemma ShiftName(op: ShiftOp, f7: bv7, w: bv32)
    requires if op == SRAI then f7 == 0x20 || f7 == 0x21 else f7 == 0 || f7 == 1
    ensures ImmNamed(ShiftCode(op), f7, w) == ParseShift(op, w)
  {
    hide ParseShift, ParseImm;
  }

  lemma ShiftWName(op: ShiftOp, w: bv32)
    ensures ShiftWNamed(ShiftCode(op), if op == SRAI then 0x20 else 0, w) == ParseShiftW(op, w)
  {
    hide ParseShiftW;
  }

  lemma BranchTrip(op: BranchOp, rs1: Reg, rs2: Reg, offset: int)
    requires -4096 <= offset < 4096 && offset % 2 == 0
    ensures Parse(Encode(Branch(op, rs1, rs2, offset))) == Known(Branch(op, rs1, rs2, offset))
  {
    hide BType, BranchNamed, BranchCode, BranchPartsOf, BranchPartsAt, BranchOffset, RegAt, RegBits, OpcodeOf, Funct3Of;
    hide Funct7Of, Rs1Of, Rs2Of;
    BFields(99, BranchCode(op), RegBits(rs1), RegBits(rs2), BranchPartsOf(offset));
    BranchName(op, Encode(Branch(op, rs1, rs2, offset)));
    BranchRoundTrip(offset);
    RegisterBack(rs1);
    RegisterBack(rs2);
  }

  lemma JumpTrip(rd: Reg, offset: int)
    requires -0x100000 <= offset < 0x100000 && offset % 2 == 0
    ensures Parse(Encode(Jal(rd, offset))) == Known(Jal(rd, offset))
  {
    hide JType, JumpPartsOf, JumpPartsAt, JumpOffset, RegAt, RegBits, OpcodeOf, Funct3Of, Funct7Of, RdOf;
    JFields(111, RegBits(rd), JumpPartsOf(offset));
    JumpRoundTrip(offset);
    RegisterBack(rd);
  }

  lemma UpperTrip(rd: Reg, u: bv20)
    ensures Parse(Encode(Lui(rd, u))) == Known(Lui(rd, u)) && Parse(Encode(Auipc(rd, u))) == Known(Auipc(rd, u))
  {
    hide UType, RegAt, RegBits, OpcodeOf, Funct3Of, Funct7Of, RdOf, Imm20Of, BranchNamed;
    UFields(55, RegBits(rd), u);
    UFields(23, RegBits(rd), u);
    RegisterBack(rd);
  }

  lemma LoadTrip(op: LoadOp, rd: Reg, rs1: Reg, imm: bv12)
    ensures Parse(Encode(Load(op, rd, rs1, imm))) == Known(Load(op, rd, rs1, imm))
  {
    hide IType, LoadNamed, LoadCode, RegAt, RegBits, OpcodeOf, Funct3Of, Funct7Of, RdOf, Rs1Of, Imm12Of, ShiftOf;
    IFields(3, RegBits(rd), LoadCode(op), RegBits(rs1), imm);
    LoadName(op, Encode(Load(op, rd, rs1, imm)));
    RegisterBack(rd);
    RegisterBack(rs1);
  }

  lemma LinkTrip(rd: Reg, rs1: Reg, imm: bv12)
    ensures Parse(Encode(Jalr(rd, rs1, imm))) == Known(Jalr(rd, rs1, imm))
  {
    hide IType, RegAt, RegBits, OpcodeOf, Funct3Of, Funct7Of, RdOf, Rs1Of, Imm12Of, ShiftOf;
    IFields(103, RegBits(rd), 0, RegBits(rs1), imm);
    RegisterBack(rd);
    RegisterBack(rs1);
  }

  lemma StoreTrip(op: StoreOp, rs1: Reg, rs2: Reg, imm: bv12)
    ensures Parse(Encode(Store(op, rs1, rs2, imm))) == Known(Store(op, rs1, rs2, imm))
  {
    hide SType, StoreNamed, StoreCode, RegAt, RegBits, OpcodeOf, Funct3Of, Funct7Of, Rs1Of, Rs2Of, StoreOffsetOf;
    SFields(35, StoreCode(op), RegBits(rs1), RegBits(rs2), imm);
    StoreName(op, Encode(Store(op, rs1, rs2, imm)));
    RegisterBack(rs1);
    RegisterBack(rs2);
  }

  lemma ImmTrip(op: ImmOp, rd: Reg, rs1: Reg, imm: bv12)
    ensures Parse(Encode(OpImm(op, rd, rs1, imm))) == Known(OpImm(op, rd, rs1, imm))
  {
    hide IType, ImmNamed, ImmCode, RegAt, RegBits, OpcodeOf, Funct3Of, Funct7Of, RdOf, Rs1Of, Imm12Of, ShiftOf;
    var w := Encode(OpImm(op, rd, rs1, imm));
    IFields(19, RegBits(rd), ImmCode(op), RegBits(rs1), imm);
    ImmName(op, Funct7Of(w), w);
    RegisterBack(rd);
    RegisterBack(rs1);
  }

  function ShiftImm(op: ShiftOp, n: bv6): bv12 { if op == SRAI then (n as bv12) | 0x400 else n as bv12 }

  lemma ShiftImmParts(op: ShiftOp, n: bv6)
    ensures (ShiftImm(op, n) & 0x3f) as bv6 == n
    ensures var f7 := (ShiftImm(op, n) >> 5) as bv7; if op == SRAI then f7 == 0x20 || f7 == 0x21 else f7 == 0 || f7 == 1
  {
  }

  lemma ShiftTrip(op: ShiftOp, rd: Reg, rs1: Reg, n: bv6)
    ensures Parse(Encode(Shift(op, rd, rs1, n))) == Known(Shift(op, rd, rs1, n))
  {
    hide IType, ImmNamed, ShiftCode, RegAt, RegBits, OpcodeOf, Funct3Of, Funct7Of, RdOf, Rs1Of, Imm12Of, ShiftOf;
    hide ShiftImm;
    var w := Encode(Shift(op, rd, rs1, n));
    assert w == IType(19, RegBits(rd), ShiftCode(op), RegBits(rs1), ShiftImm(op, n)) by { ShiftImmIs(op, n); }
    IFields(19, RegBits(rd), ShiftCode(op), RegBits(rs1), ShiftImm(op, n));
    ShiftImmParts(op, n);
    ShiftName(op, Funct7Of(w), w);
    RegisterBack(rd);
    RegisterBack(rs1);
  }

  lemma ShiftImmIs(op: ShiftOp, n: bv6)
    ensures ShiftImm(op, n) == if op == SRAI then (n as bv12) | 0x400 else n as bv12
  {
  }

  lemma ShiftWTrip(op: ShiftOp, rd: Reg, rs1: Reg, n: bv5)
    ensures Parse(Encode(ShiftW(op, rd, rs1, n))) == Known(ShiftW(op, rd, rs1, n))
  {
    hide RType, ShiftWNamed, ShiftCode, RegAt, RegBits, OpcodeOf, Funct3Of, Funct7Of, RdOf, Rs1Of, Rs2Of;
    RFields(27, RegBits(rd), ShiftCode(op), RegBits(rs1), n, if op == SRAI then 32 else 0);
    ShiftWName(op, Encode(ShiftW(op, rd, rs1, n)));
    RegisterBack(rd);
    RegisterBack(rs1);
  }

  lemma RegTrip(op: RegOp, rd: Reg, rs1: Reg, rs2: Reg)
    ensures Parse(Encode(Op(op, rd, rs1, rs2))) == Known(Op(op, rd, rs1, rs2))
  {
    hide RType, RegNamed, RegCode, RegCode7, RegAt, RegBits, OpcodeOf, Funct3Of, Funct7Of, RdOf, Rs1Of, Rs2Of;
    RFields(51, RegBits(rd), RegCode(op), RegBits(rs1), RegBits(rs2), RegCode7(op));
    RegName(op, Encode(Op(op, rd, rs1, rs2)));
    RegisterBack(rd);
    RegisterBack(rs1);
    RegisterBack(rs2);
  }

  lemma WordTrip(op: WordOp, rd: Reg, rs1: Reg, rs2: Reg)
    ensures Parse(Encode(OpW(op, rd, rs1, rs2))) == Known(OpW(op, rd, rs1, rs2))
  {
    hide RType, WordNamed, WordCode, WordCode7, RegAt, RegBits, OpcodeOf, Funct3Of, Funct7Of, RdOf, Rs1Of, Rs2Of;
    RFields(59, RegBits(rd), WordCode(op), RegBits(rs1), RegBits(rs2), WordCode7(op));
    WordName(op, Encode(OpW(op, rd, rs1, rs2)));
    RegisterBack(rd);
    RegisterBack(rs1);
    RegisterBack(rs2);
  }

  lemma MulTrip(op: MulOp, rd: Reg, rs1: Reg, rs2: Reg)
    ensures Parse(Encode(MulDiv(op, rd, rs1, rs2))) == Known(MulDiv(op, rd, rs1, rs2))
  {
    hide RType, MulNamed, MulCode, RegAt, RegBits, OpcodeOf, Funct3Of, Funct7Of, RdOf, Rs1Of, Rs2Of;
    RFields(51, RegBits(rd), MulCode(op), RegBits(rs1), RegBits(rs2), 1);
    MulName(op, Encode(MulDiv(op, rd, rs1, rs2)));
    RegisterBack(rd);
    RegisterBack(rs1);
    RegisterBack(rs2);
  }

  lemma CallTrip()
    ensures Parse(Encode(Ecall)) == Known(Ecall)
  {
    assert RegBits(Zero) == 0;
  }

  /** What the encoder builds, the parser names: opcode, registers, shift amounts and sign-extended offsets. */
  lemma RoundTrip(i: Instr)
    requires Legal(i)
    ensures Parse(Encode(i)) == Known(i)
  {
    hide Parse, Encode;
    match i
    case Lui(rd, u) => UpperTrip(rd, u);
    case Auipc(rd, u) => UpperTrip(rd, u);
    case Jal(rd, offset) => JumpTrip(rd, offset);
    case Jalr(rd, rs1, imm) => LinkTrip(rd, rs1, imm);
    case Branch(op, rs1, rs2, offset) => BranchTrip(op, rs1, rs2, offset);
    case Load(op, rd, rs1, imm) => LoadTrip(op, rd, rs1, imm);
    case Store(op, rs1, rs2, imm) => StoreTrip(op, rs1, rs2, imm);
    case OpImm(op, rd, rs1, imm) => ImmTrip(op, rd, rs1, imm);
    case Shift(op, rd, rs1, n) => ShiftTrip(op, rd, rs1, n);
    case ShiftW(op, rd, rs1, n) => ShiftWTrip(op, rd, rs1, n);
    case Op(op, rd, rs1, rs2) => RegTrip(op, rd, rs1, rs2);
    case OpW(op, rd, rs1, rs2) => WordTrip(op, rd, rs1, rs2);
    case MulDiv(op, rd, rs1, rs2) => MulTrip(op, rd, rs1, rs2);
    case Ecall => CallTrip();
  }

  lemma PartsSmall(a: bv1, b: bv4, c: bv5, d: bv6)
    ensures From1(a) < 2 && From4(b) < 16 && From5(c) < 32 && From6(d) < 64
  {
  }

  lemma BranchLegal(i: BranchParts)
    ensures -4096 <= BranchOffset(i) < 4096 && BranchOffset(i) % 2 == 0
  {
    hide From1, From4, From6;
    PartsSmall(i.eleven, i.low, 0, i.middle);
    PartsSmall(i.twelve, i.low, 0, i.middle);
  }

  lemma JumpLegal(i: JumpParts)
    ensures -0x100000 <= JumpOffset(i) < 0x100000 && JumpOffset(i) % 2 == 0
  {
    hide From1, From4, From5;
    PartsSmall(i.eleven, i.third, i.low, 0);
    PartsSmall(i.twenty, i.fourth, i.second, 0);
  }

  /** Whatever the parser names is an instruction with a legal distance. */
  lemma NamedLegal(w: bv32)
    requires Parse(w).Known?
    ensures Legal(Parse(w).i)
  {
    hide RegAt, OpcodeOf, Funct3Of, Funct7Of, RdOf, Rs1Of, Rs2Of, Imm12Of, Imm20Of, ShiftOf, StoreOffsetOf;
    hide BranchOffset, JumpOffset;
    BranchLegal(BranchPartsAt(w));
    JumpLegal(JumpPartsAt(w));
  }

  /** Exactly the distances that are even and fit survive. */
  lemma RoundTripExact(i: Instr)
    ensures Parse(Encode(i)) == Known(i) <==> Legal(i)
  {
    hide Parse, Encode, Legal;
    if Legal(i) {
      RoundTrip(i);
    } else if Parse(Encode(i)).Known? {
      NamedLegal(Encode(i));
    }
  }

  /** Different instructions have different words. */
  lemma EncodingInjective(i: Instr, j: Instr)
    requires Legal(i) && Legal(j) && Encode(i) == Encode(j)
    ensures i == j
  {
    hide Parse, Encode, Legal;
    RoundTrip(i);
    RoundTrip(j);
  }

  // ---- the signs of shown immediates ----------------------------------------------------------------------

  /** The parser extends a negative immediate to 16 bits before showing it. */
  function Extended(imm: bv12): bv16 { if 0 < imm & 0x800 then (imm as bv16) | 0xf000 else imm as bv16 }

  /** That is the number the machine adds. */
  lemma ExtendedIs(imm: bv12)
    ensures Sext16(Extended(imm) as bv64) == Sext12(imm)
  {
    if 0 < imm & 0x800 {
      assert 0 < Extended(imm) as bv64 & 0x8000;
    } else {
      assert !(0 < Extended(imm) as bv64 & 0x8000);
    }
  }
}
