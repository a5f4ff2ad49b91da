/**
 The words of instructions as the standard lists them: the formats of sections 2.2 and 2.3,
 the listings of chapter 19 and the register numbers of chapter 20 of the RISC-V User-Level
 ISA v2.2.  The encoders are held against them here, and the parser with them.
 */
module Listings {
  import opened Arithmetic
  import opened RiscV
  import opened Encoding

  // ---- fields of a word --------------------------------------------------------------------------------------

  function Bits6To0(w: bv32): bv7 { (w & 0x7f) as bv7 }
  function Bits11To7(w: bv32): bv5 { ((w >> 7) & 0x1f) as bv5 }
  function Bits14To12(w: bv32): bv3 { ((w >> 12) & 7) as bv3 }
  function Bits19To15(w: bv32): bv5 { ((w >> 15) & 0x1f) as bv5 }
  function Bits24To20(w: bv32): bv5 { ((w >> 20) & 0x1f) as bv5 }
  function Bits31To25(w: bv32): bv7 { (w >> 25) as bv7 }
  function Bits31To20(w: bv32): bv12 { (w >> 20) as bv12 }
  function Bits31To12(w: bv32): bv20 { (w >> 12) as bv20 }

  /** The number of a register: ra, sp, gp and tp, and the ranges of t, s and a registers. */
  function Number(r: Reg): nat {
    match r
    case Zero => 0
    case RA => 1 case SP => 2 case GP => 3 case TP => 4
    case T0 => 5 case T1 => 6 case T2 => 7
    case S0 => 8 case S1 => 9
    case A0 => 10 case A1 => 11 case A2 => 12 case A3 => 13 case A4 => 14 case A5 => 15 case A6 => 16 case A7 => 17
    case S2 => 18 case S3 => 19 case S4 => 20 case S5 => 21 case S6 => 22 case S7 => 23 case S8 => 24 case S9 => 25
    case S10 => 26 case S11 => 27
    case T3 => 28 case T4 => 29 case T5 => 30 case T6 => 31
  }

  predicate Names(field: bv5, r: Reg) { field as nat == Number(r) }

  // ---- the formats ------------------------------------------------------------------------------------------

  predicate IsR(w: bv32, opcode: bv7, funct3: bv3, funct7: bv7, rd: Reg, rs1: Reg) {
    && Bits6To0(w) == opcode && Bits14To12(w) == funct3 && Bits31To25(w) == funct7
    && Names(Bits11To7(w), rd) && Names(Bits19To15(w), rs1)
  }

  predicate IsI(w: bv32, opcode: bv7, funct3: bv3, rd: Reg, rs1: Reg, imm: bv12) {
    && Bits6To0(w) == opcode && Bits14To12(w) == funct3
    && Names(Bits11To7(w), rd) && Names(Bits19To15(w), rs1) && Bits31To20(w) == imm
  }

  predicate IsS(w: bv32, opcode: bv7, funct3: bv3, rs1: Reg, rs2: Reg, imm: bv12) {
    && Bits6To0(w) == opcode && Bits14To12(w) == funct3
    && Names(Bits19To15(w), rs1) && Names(Bits24To20(w), rs2)
    && Bits31To25(w) == (imm >> 5) as bv7 && Bits11To7(w) == (imm & 0x1f) as bv5
  }

  predicate IsU(w: bv32, opcode: bv7, rd: Reg, imm: bv20) {
    Bits6To0(w) == opcode && Names(Bits11To7(w), rd) && Bits31To12(w) == imm
  }

  /** imm[12|10:5] stands in bits 31 to 25, imm[4:1|11] in bits 11 to 7. */
  predicate IsB(w: bv32, opcode: bv7, funct3: bv3, rs1: Reg, rs2: Reg, imm: int) {
    && Bits6To0(w) == opcode && Bits14To12(w) == funct3
    && Names(Bits19To15(w), rs1) && Names(Bits24To20(w), rs2)
    && ((w >> 31) as bv1) as nat == imm / 4096 % 2
    && (((w >> 25) & 0x3f) as bv6) as nat == imm / 32 % 64
    && (((w >> 8) & 0xf) as bv4) as nat == imm / 2 % 16
    && (((w >> 7) & 1) as bv1) as nat == imm / 2048 % 2
  }

  /** imm[20|10:1|11|19:12] stands in bits 31 to 12; imm[10:1] and imm[19:12] are given in two halves. */
  predicate IsJ(w: bv32, opcode: bv7, rd: Reg, imm: int) {
    && Bits6To0(w) == opcode && Names(Bits11To7(w), rd)
    && ((w >> 31) as bv1) as nat == imm / 0x10_0000 % 2
    && (((w >> 26) & 0x1f) as bv5) as nat == imm / 64 % 32
    && (((w >> 21) & 0x1f) as bv5) as nat == imm / 2 % 32
    && (((w >> 20) & 1) as bv1) as nat == imm / 2048 % 2
    && (((w >> 16) & 0xf) as bv4) as nat == imm / 0x1_0000 % 16
    && (((w >> 12) & 0xf) as bv4) as nat == imm / 4096 % 16
  }

  // ---- the listings -----------------------------------------------------------------------------------------

  predicate ListedBranch(op: BranchOp, rs1: Reg, rs2: Reg, imm: int, w: bv32) {
    match op
    case BEQ => IsB(w, 0x63, 0, rs1, rs2, imm)
    case BNE => IsB(w, 0x63, 1, rs1, rs2, imm)
    case BLT => IsB(w, 0x63, 4, rs1, rs2, imm)
    case BGE => IsB(w, 0x63, 5, rs1, rs2, imm)
    case BLTU => IsB(w, 0x63, 6, rs1, rs2, imm)
    case BGEU => IsB(w, 0x63, 7, rs1, rs2, imm)
  }

  predicate ListedLoad(op: LoadOp, rd: Reg, rs1: Reg, imm: bv12, w: bv32) {
    match op
    case LB => IsI(w, 0x03, 0, rd, rs1, imm)
    case LH => IsI(w, 0x03, 1, rd, rs1, imm)
    case LW => IsI(w, 0x03, 2, rd, rs1, imm)
    case LD => IsI(w, 0x03, 3, rd, rs1, imm)
    case LBU => IsI(w, 0x03, 4, rd, rs1, imm)
    case LHU => IsI(w, 0x03, 5, rd, rs1, imm)
    case LWU => IsI(w, 0x03, 6, rd, rs1, imm)
  }

  predicate ListedStore(op: StoreOp, rs1: Reg, rs2: Reg, imm: bv12, w: bv32) {
    match op
    case SB => IsS(w, 0x23, 0, rs1, rs2, imm)
    case SH => IsS(w, 0x23, 1, rs1, rs2, imm)
    case SW => IsS(w, 0x23, 2, rs1, rs2, imm)
    case SD => IsS(w, 0x23, 3, rs1, rs2, imm)
  }

  predicate ListedImm(op: ImmOp, rd: Reg, rs1: Reg, imm: bv12, w: bv32) {
    match op
    case ADDI => IsI(w, 0x13, 0, rd, rs1, imm)
    case SLTI => IsI(w, 0x13, 2, rd, rs1, imm)
    case SLTIU => IsI(w, 0x13, 3, rd, rs1, imm)
    case XORI => IsI(w, 0x13, 4, rd, rs1, imm)
    case ORI => IsI(w, 0x13, 6, rd, rs1, imm)
    case ANDI => IsI(w, 0x13, 7, rd, rs1, imm)
  }

  /** Shifts of 64 bits have six bits of amount, below six bits of function code. */
  predicate ListedShift(op: ShiftOp, rd: Reg, rs1: Reg, n: bv6, w: bv32) {
    match op
    case SLLI => IsI(w, 0x13, 1, rd, rs1, n as bv12)
    case SRLI => IsI(w, 0x13, 5, rd, rs1, n as bv12)
    case SRAI => IsI(w, 0x13, 5, rd, rs1, 0x400 | n as bv12)
  }

  predicate ListedShiftW(op: ShiftOp, rd: Reg, rs1: Reg, n: bv5, w: bv32) {
    match op
    case SLLI => IsR(w, 0x1b, 1, 0, rd, rs1) && Bits24To20(w) == n
    case SRLI => IsR(w, 0x1b, 5, 0, rd, rs1) && Bits24To20(w) == n
    case SRAI => IsR(w, 0x1b, 5, 0x20, rd, rs1) && Bits24To20(w) == n
  }

  predicate ListedReg(op: RegOp, rd: Reg, rs1: Reg, rs2: Reg, w: bv32) {
    && Names(Bits24To20(w), rs2)
    && match op
       case ADD => IsR(w, 0x33, 0, 0, rd, rs1)
       case SUB => IsR(w, 0x33, 0, 0x20, rd, rs1)
       case SLL => IsR(w, 0x33, 1, 0, rd, rs1)
       case SLT => IsR(w, 0x33, 2, 0, rd, rs1)
       case SLTU => IsR(w, 0x33, 3, 0, rd, rs1)
       case XOR => IsR(w, 0x33, 4, 0, rd, rs1)
       case SRL => IsR(w, 0x33, 5, 0, rd, rs1)
       case SRA => IsR(w, 0x33, 5, 0x20, rd, rs1)
       case OR => IsR(w, 0x33, 6, 0, rd, rs1)
       case AND => IsR(w, 0x33, 7, 0, rd, rs1)
  }

  predicate ListedWord(op: WordOp, rd: Reg, rs1: Reg, rs2: Reg, w: bv32) {
    && Names(Bits24To20(w), rs2)
    && match op
       case ADDW => IsR(w, 0x3b, 0, 0, rd, rs1)
       case SUBW => IsR(w, 0x3b, 0, 0x20, rd, rs1)
       case SLLW => IsR(w, 0x3b, 1, 0, rd, rs1)
       case SRLW => IsR(w, 0x3b, 5, 0, rd, rs1)
       case SRAW => IsR(w, 0x3b, 5, 0x20, rd, rs1)
  }

  predicate ListedMul(op: MulOp, rd: Reg, rs1: Reg, rs2: Reg, w: bv32) {
    && Names(Bits24To20(w), rs2)
    && match op
       case MUL => IsR(w, 0x33, 0, 1, rd, rs1)
       case MULH => IsR(w, 0x33, 1, 1, rd, rs1)
       case MULHSU => IsR(w, 0x33, 2, 1, rd, rs1)
       case MULHU => IsR(w, 0x33, 3, 1, rd, rs1)
       case DIV => IsR(w, 0x33, 4, 1, rd, rs1)
       case DIVU => IsR(w, 0x33, 5, 1, rd, rs1)
       case REM => IsR(w, 0x33, 6, 1, rd, rs1)
       case REMU => IsR(w, 0x33, 7, 1, rd, rs1)
  }

  /** The word is the one listed for the instruction. */
  predicate Listed(i: Instr, w: bv32) {
    match i
    case Lui(rd, u) => IsU(w, 0x37, rd, u)
    case Auipc(rd, u) => IsU(w, 0x17, rd, u)
    case Jal(rd, offset) => IsJ(w, 0x6f, rd, offset)
    case Jalr(rd, rs1, imm) => IsI(w, 0x67, 0, rd, rs1, imm)
    case Branch(op, rs1, rs2, offset) => ListedBranch(op, rs1, rs2, offset, w)
    case Load(op, rd, rs1, imm) => ListedLoad(op, rd, rs1, imm, w)
    case Store(op, rs1, rs2, imm) => ListedStore(op, rs1, rs2, imm, w)
    case OpImm(op, rd, rs1, imm) => ListedImm(op, rd, rs1, imm, w)
    case Shift(op, rd, rs1, n) => ListedShift(op, rd, rs1, n, w)
    case ShiftW(op, rd, rs1, n) => ListedShiftW(op, rd, rs1, n, w)
    case Op(op, rd, rs1, rs2) => ListedReg(op, rd, rs1, rs2, w)
    case OpW(op, rd, rs1, rs2) => ListedWord(op, rd, rs1, rs2, w)
    case MulDiv(op, rd, rs1, rs2) => ListedMul(op, rd, rs1, rs2, w)
    case Ecall => w == 0x73
  }

  /** Words of instructions that the parser names and no encoder builds. */
  predicate ListedForeign(name: Foreign, w: bv32) {
    match name
    case ADDIW => Bits6To0(w) == 0x1b && Bits14To12(w) == 0
    case FLW => Bits6To0(w) == 0x07 && Bits14To12(w) == 2
    case FLD => Bits6To0(w) == 0x07 && Bits14To12(w) == 3
    case MULW => Bits6To0(w) == 0x3b && Bits14To12(w) == 0 && Bits31To25(w) == 1
    case DIVW => Bits6To0(w) == 0x3b && Bits14To12(w) == 4 && Bits31To25(w) == 1
    case DIVUW => Bits6To0(w) == 0x3b && Bits14To12(w) == 5 && Bits31To25(w) == 1
    case REMW => Bits6To0(w) == 0x3b && Bits14To12(w) == 6 && Bits31To25(w) == 1
    case REMUW => Bits6To0(w) == 0x3b && Bits14To12(w) == 7 && Bits31To25(w) == 1
  }

  // ---- the encoders ------------------------------------------------------------------------------------------

  lemma Numbered(r: Reg)
    ensures Names(RegBits(r), r)
  {
    hide As5, From5;
    There5(RegIndex(r));
    IndexNumber(r);
    FromIs(RegBits(r));
  }

  lemma IndexNumber(r: Reg)
    ensures RegIndex(r) == Number(r)
  {
  }

  lemma FromIs(b: bv5)
    ensures From5(b) == b as nat
  {
  }

  lemma RListed(opcode: bv7, rd: bv5, f3: bv3, rs1: bv5, rs2: bv5, f7: bv7)
    ensures var w := RType(opcode, rd, f3, rs1, rs2, f7);
      && Bits6To0(w) == opcode && Bits11To7(w) == rd && Bits14To12(w) == f3 && Bits19To15(w) == rs1
      && Bits24To20(w) == rs2 && Bits31To25(w) == f7
  {
  }

  lemma IListed(opcode: bv7, rd: bv5, f3: bv3, rs1: bv5, imm: bv12)
    ensures var w := IType(opcode, rd, f3, rs1, imm);
      && Bits6To0(w) == opcode && Bits11To7(w) == rd && Bits14To12(w) == f3 && Bits19To15(w) == rs1
      && Bits31To20(w) == imm
  {
  }

  lemma UListed(opcode: bv7, rd: bv5, imm: bv20)
    ensures var w := UType(opcode, rd, imm);
      Bits6To0(w) == opcode && Bits11To7(w) == rd && Bits31To12(w) == imm
  {
  }

  lemma BListed(opcode: bv7, f3: bv3, rs1: bv5, rs2: bv5, i: BranchParts)
    ensures var w := BType(opcode, f3, rs1, rs2, i);
      && Bits6To0(w) == opcode && Bits14To12(w) == f3 && Bits19To15(w) == rs1 && Bits24To20(w) == rs2
      && (w >> 31) as bv1 == i.twelve && ((w >> 25) & 0x3f) as bv6 == i.middle
      && ((w >> 8) & 0xf) as bv4 == i.low && ((w >> 7) & 1) as bv1 == i.eleven
  {
  }

  lemma JListed(opcode: bv7, rd: bv5, i: JumpParts)
    ensures var w := JType(opcode, rd, i);
      && Bits6To0(w) == opcode && Bits11To7(w) == rd
      && (w >> 31) as bv1 == i.twenty && ((w >> 26) & 0x1f) as bv5 == i.second
      && ((w >> 21) & 0x1f) as bv5 == i.low && ((w >> 20) & 1) as bv1 == i.eleven
      && ((w >> 16) & 0xf) as bv4 == i.fourth && ((w >> 12) & 0xf) as bv4 == i.third
  {
  }

  lemma BranchIs(opcode: bv7, f3: bv3, rs1: Reg, rs2: Reg, offset: int)
    ensures IsB(BType(opcode, f3, RegBits(rs1), RegBits(rs2), BranchPartsOf(offset)), opcode, f3, rs1, rs2, offset)
  {
    hide BType, RegBits, Number, Names, Bits6To0, Bits14To12, Bits19To15, Bits24To20;
    BListed(opcode, f3, RegBits(rs1), RegBits(rs2), BranchPartsOf(offset));
    Numbered(rs1);
    Numbered(rs2);
    There1(offset / 4096 % 2);
    There6(offset / 32 % 64);
    There4(offset / 2 % 16);
    There1(offset / 2048 % 2);
  }

  lemma JumpIs(opcode: bv7, rd: Reg, offset: int)
    ensures IsJ(JType(opcode, RegBits(rd), JumpPartsOf(offset)), opcode, rd, offset)
  {
    hide JType, RegBits, Number, Names, Bits6To0, Bits11To7;
    JListed(opcode, RegBits(rd), JumpPartsOf(offset));
    Numbered(rd);
    There1(offset / 0x10_0000 % 2);
    There5(offset / 64 % 32);
    There5(offset / 2 % 32);
    There1(offset / 2048 % 2);
    There4(offset / 0x1_0000 % 16);
    There4(offset / 4096 % 16);
  }

  lemma RegisterIs(opcode: bv7, f3: bv3, f7: bv7, rd: Reg, rs1: Reg, rs2: bv5)
    ensures var w := RType(opcode, RegBits(rd), f3, RegBits(rs1), rs2, f7);
      IsR(w, opcode, f3, f7, rd, rs1) && Bits24To20(w) == rs2
  {
    hide RType, RegBits, Names, Bits6To0, Bits11To7, Bits14To12, Bits19To15, Bits24To20, Bits31To25;
    RListed(opcode, RegBits(rd), f3, RegBits(rs1), rs2, f7);
    Numbered(rd);
    Numbered(rs1);
  }

  lemma ImmediateIs(opcode: bv7, f3: bv3, rd: Reg, rs1: Reg, imm: bv12)
    ensures IsI(IType(opcode, RegBits(rd), f3, RegBits(rs1), imm), opcode, f3, rd, rs1, imm)
  {
    hide IType, RegBits, Names, Bits6To0, Bits11To7, Bits14To12, Bits19To15, Bits31To20;
    IListed(opcode, RegBits(rd), f3, RegBits(rs1), imm);
    Numbered(rd);
    Numbered(rs1);
  }

  lemma StoreIs(opcode: bv7, f3: bv3, rs1: Reg, rs2: Reg, imm: bv12)
    ensures IsS(SType(opcode, f3, RegBits(rs1), RegBits(rs2), imm), opcode, f3, rs1, rs2, imm)
  {
    hide RType, RegBits, Names, Bits6To0, Bits11To7, Bits14To12, Bits19To15, Bits24To20, Bits31To25;
    RListed(opcode, (imm & 0x1f) as bv5, f3, RegBits(rs1), RegBits(rs2), (imm >> 5) as bv7);
    Numbered(rs1);
    Numbered(rs2);
  }

  lemma UpperIs(opcode: bv7, rd: Reg, imm: bv20)
    ensures IsU(UType(opcode, RegBits(rd), imm), opcode, rd, imm)
  {
    hide UType, RegBits, Names, Bits6To0, Bits11To7, Bits31To12;
    UListed(opcode, RegBits(rd), imm);
    Numbered(rd);
  }

  lemma CallIs()
    ensures Encode(Ecall) == 0x73
  {
    assert RegBits(Zero) == 0;
  }

  /** Every encoder builds the listed word. */
  lemma EncodedListed(i: Instr)
    ensures Listed(i, Encode(i))
  {
    hide RType, IType, SType, UType, BType, JType, RegBits, IsR, IsI, IsS, IsB, IsJ, IsU, Names, Bits24To20;
    match i
    case Lui(rd, u) => UpperIs(0x37, rd, u);
    case Auipc(rd, u) => UpperIs(0x17, rd, u);
    case Jal(rd, offset) => JumpIs(0x6f, rd, offset);
    case Jalr(rd, rs1, imm) => ImmediateIs(0x67, 0, rd, rs1, imm);
    case Branch(op, rs1, rs2, offset) => BranchIs(0x63, BranchCode(op), rs1, rs2, offset);
    case Load(op, rd, rs1, imm) => ImmediateIs(0x03, LoadCode(op), rd, rs1, imm);
    case Store(op, rs1, rs2, imm) => StoreIs(0x23, StoreCode(op), rs1, rs2, imm);
    case OpImm(op, rd, rs1, imm) => ImmediateIs(0x13, ImmCode(op), rd, rs1, imm);
    case Shift(op, rd, rs1, n) => ShiftListed(op, rd, rs1, n);
    case ShiftW(op, rd, rs1, n) => RegisterIs(0x1b, ShiftCode(op), if op == SRAI then 32 else 0, rd, rs1, n);
    case Op(op, rd, rs1, rs2) =>
      RegisterIs(0x33, RegCode(op), RegCode7(op), rd, rs1, RegBits(rs2));
      Numbered(rs2);
    case OpW(op, rd, rs1, rs2) =>
      RegisterIs(0x3b, WordCode(op), WordCode7(op), rd, rs1, RegBits(rs2));
      Numbered(rs2);
    case MulDiv(op, rd, rs1, rs2) =>
      RegisterIs(0x33, MulCode(op), 1, rd, rs1, RegBits(rs2));
      Numbered(rs2);
    case Ecall => CallIs();
  }

  lemma ShiftListed(op: ShiftOp, rd: Reg, rs1: Reg, n: bv6)
    ensures ListedShift(op, rd, rs1, n, Encode(Shift(op, rd, rs1, n)))
  {
    hide IType, RegBits, IsI;
    ImmediateIs(0x13, ShiftCode(op), rd, rs1, if op == SRAI then (n as bv12) | 0x400 else n as bv12);
    Swapped(n as bv12, 0x400);
  }

  lemma Swapped(a: bv12, b: bv12)
    ensures a | b == b | a
  {
  }

  // ---- the parser -----------------------------------------------------------------------------------------

  lemma RegisterAt(b: bv5)
    ensures Names(b, RegAt(b))
  {
    hide From5;
    FromIs(b);
    FieldSmall(b);
    IndexedNumber(From5(b));
  }

  lemma FieldSmall(b: bv5)
    ensures From5(b) < 32
  {
  }

  lemma IndexedNumber(n: nat)
    requires n < 32
    ensures Number(RegNumbered(n)) == n
  {
  }

  // Fields determine a word.

  lemma SameField(a: bv5, b: bv5, r: Reg)
    requires Names(a, r) && Names(b, r)
    ensures a == b
  {
    hide Number, From5;
    FromIs(a);
    FromIs(b);
    FieldBack(a);
    FieldBack(b);
  }

  lemma FieldBack(b: bv5)
    ensures From5(b) < 32 && As5(From5(b)) == b
  {
  }

  lemma RFieldsOnce(v: bv32, w: bv32)
    requires Bits6To0(v) == Bits6To0(w) && Bits11To7(v) == Bits11To7(w) && Bits14To12(v) == Bits14To12(w)
    requires Bits19To15(v) == Bits19To15(w) && Bits24To20(v) == Bits24To20(w) && Bits31To25(v) == Bits31To25(w)
    ensures v == w
  {
  }

  lemma IFieldsOnce(v: bv32, w: bv32)
    requires Bits6To0(v) == Bits6To0(w) && Bits11To7(v) == Bits11To7(w) && Bits14To12(v) == Bits14To12(w)
    requires Bits19To15(v) == Bits19To15(w) && Bits31To20(v) == Bits31To20(w)
    ensures v == w
  {
  }

  lemma UFieldsOnce(v: bv32, w: bv32)
    requires Bits6To0(v) == Bits6To0(w) && Bits11To7(v) == Bits11To7(w) && Bits31To12(v) == Bits31To12(w)
    ensures v == w
  {
  }

  lemma ROnce(opcode: bv7, f3: bv3, f7: bv7, rd: Reg, rs1: Reg, v: bv32, w: bv32)
    requires IsR(v, opcode, f3, f7, rd, rs1) && IsR(w, opcode, f3, f7, rd, rs1) && Bits24To20(v) == Bits24To20(w)
    ensures v == w
  {
    hide Names, Bits6To0, Bits11To7, Bits14To12, Bits19To15, Bits24To20, Bits31To25;
    SameField(Bits11To7(v), Bits11To7(w), rd);
    SameField(Bits19To15(v), Bits19To15(w), rs1);
    RFieldsOnce(v, w);
  }

  lemma IOnce(opcode: bv7, f3: bv3, rd: Reg, rs1: Reg, imm: bv12, v: bv32, w: bv32)
    requires IsI(v, opcode, f3, rd, rs1, imm) && IsI(w, opcode, f3, rd, rs1, imm)
    ensures v == w
  {
    hide Names, Bits6To0, Bits11To7, Bits14To12, Bits19To15, Bits31To20;
    SameField(Bits11To7(v), Bits11To7(w), rd);
    SameField(Bits19To15(v), Bits19To15(w), rs1);
    IFieldsOnce(v, w);
  }

  lemma SOnce(opcode: bv7, f3: bv3, rs1: Reg, rs2: Reg, imm: bv12, v: bv32, w: bv32)
    requires IsS(v, opcode, f3, rs1, rs2, imm) && IsS(w, opcode, f3, rs1, rs2, imm)
    ensures v == w
  {
    hide Names, Bits6To0, Bits11To7, Bits14To12, Bits19To15, Bits24To20, Bits31To25;
    SameField(Bits19To15(v), Bits19To15(w), rs1);
    SameField(Bits24To20(v), Bits24To20(w), rs2);
    RFieldsOnce(v, w);
  }

  lemma UOnce(opcode: bv7, rd: Reg, imm: bv20, v: bv32, w: bv32)
    requires IsU(v, opcode, rd, imm) && IsU(w, opcode, rd, imm)
    ensures v == w
  {
    hide Names, Bits6To0, Bits11To7, Bits31To12;
    SameField(Bits11To7(v), Bits11To7(w), rd);
    UFieldsOnce(v, w);
  }

  lemma Same1(a: bv1, b: bv1)
    requires a as nat == b as nat
    ensures a == b
  {
  }

  lemma Same4(a: bv4, b: bv4)
    requires a as nat == b as nat
    ensures a == b
  {
  }

  lemma Same5(a: bv5, b: bv5)
    requires a as nat == b as nat
    ensures a == b
  {
  }

  lemma Same6(a: bv6, b: bv6)
    requires a as nat == b as nat
    ensures a == b
  {
  }

  lemma BFieldsOnce(v: bv32, w: bv32)
    requires Bits6To0(v) == Bits6To0(w) && Bits14To12(v) == Bits14To12(w)
    requires Bits19To15(v) == Bits19To15(w) && Bits24To20(v) == Bits24To20(w)
    requires (v >> 31) as bv1 == (w >> 31) as bv1 && ((v >> 25) & 0x3f) as bv6 == ((w >> 25) & 0x3f) as bv6
    requires ((v >> 8) & 0xf) as bv4 == ((w >> 8) & 0xf) as bv4 && ((v >> 7) & 1) as bv1 == ((w >> 7) & 1) as bv1
    ensures v == w
  {
  }

  lemma JFieldsOnce(v: bv32, w: bv32)
    requires Bits6To0(v) == Bits6To0(w) && Bits11To7(v) == Bits11To7(w) && (v >> 31) as bv1 == (w >> 31) as bv1
    requires ((v >> 26) & 0x1f) as bv5 == ((w >> 26) & 0x1f) as bv5
    requires ((v >> 21) & 0x1f) as bv5 == ((w >> 21) & 0x1f) as bv5
    requires ((v >> 20) & 1) as bv1 == ((w >> 20) & 1) as bv1
    requires ((v >> 16) & 0xf) as bv4 == ((w >> 16) & 0xf) as bv4
    requires ((v >> 12) & 0xf) as bv4 == ((w >> 12) & 0xf) as bv4
    ensures v == w
  {
  }

  lemma BOnce(opcode: bv7, f3: bv3, rs1: Reg, rs2: Reg, imm: int, v: bv32, w: bv32)
    requires IsB(v, opcode, f3, rs1, rs2, imm) && IsB(w, opcode, f3, rs1, rs2, imm)
    ensures v == w
  {
    hide Names, Bits6To0, Bits14To12, Bits19To15, Bits24To20;
    SameField(Bits19To15(v), Bits19To15(w), rs1);
    SameField(Bits24To20(v), Bits24To20(w), rs2);
    Same1((v >> 31) as bv1, (w >> 31) as bv1);
    Same6(((v >> 25) & 0x3f) as bv6, ((w >> 25) & 0x3f) as bv6);
    Same4(((v >> 8) & 0xf) as bv4, ((w >> 8) & 0xf) as bv4);
    Same1(((v >> 7) & 1) as bv1, ((w >> 7) & 1) as bv1);
    BFieldsOnce(v, w);
  }

  lemma JOnce(opcode: bv7, rd: Reg, imm: int, v: bv32, w: bv32)
    requires IsJ(v, opcode, rd, imm) && IsJ(w, opcode, rd, imm)
    ensures v == w
  {
    hide Names, Bits6To0, Bits11To7;
    SameField(Bits11To7(v), Bits11To7(w), rd);
    Same1((v >> 31) as bv1, (w >> 31) as bv1);
    Same5(((v >> 26) & 0x1f) as bv5, ((w >> 26) & 0x1f) as bv5);
    Same5(((v >> 21) & 0x1f) as bv5, ((w >> 21) & 0x1f) as bv5);
    Same1(((v >> 20) & 1) as bv1, ((w >> 20) & 1) as bv1);
    Same4(((v >> 16) & 0xf) as bv4, ((w >> 16) & 0xf) as bv4);
    Same4(((v >> 12) & 0xf) as bv4, ((w >> 12) & 0xf) as bv4);
    JFieldsOnce(v, w);
  }

  /** A listed word is determined by its instruction. */
  lemma ListedOnce(i: Instr, v: bv32, w: bv32)
    requires Listed(i, v) && Listed(i, w)
    ensures v == w
  {
    hide IsR, IsI, IsS, IsB, IsJ, IsU, Names, Bits24To20;
    match i
    case Lui(rd, u) => UOnce(0x37, rd, u, v, w);
    case Auipc(rd, u) => UOnce(0x17, rd, u, v, w);
    case Jal(rd, offset) => JOnce(0x6f, rd, offset, v, w);
    case Branch(op, rs1, rs2, offset) => BOnce(0x63, BranchCode(op), rs1, rs2, offset, v, w);
    case Jalr(rd, rs1, imm) => IOnce(0x67, 0, rd, rs1, imm, v, w);
    case Load(op, rd, rs1, imm) => IOnce(0x03, LoadCode(op), rd, rs1, imm, v, w);
    case Store(op, rs1, rs2, imm) => SOnce(0x23, StoreCode(op), rs1, rs2, imm, v, w);
    case OpImm(op, rd, rs1, imm) => IOnce(0x13, ImmCode(op), rd, rs1, imm, v, w);
    case Shift(op, rd, rs1, n) =>
      IOnce(0x13, ShiftCode(op), rd, rs1, if op == SRAI then 0x400 | n as bv12 else n as bv12, v, w);
    case ShiftW(op, rd, rs1, n) => ROnce(0x1b, ShiftCode(op), if op == SRAI then 32 else 0, rd, rs1, v, w);
    case Op(op, rd, rs1, rs2) =>
      SameField(Bits24To20(v), Bits24To20(w), rs2);
      ROnce(0x33, RegCode(op), RegCode7(op), rd, rs1, v, w);
    case OpW(op, rd, rs1, rs2) =>
      SameField(Bits24To20(v), Bits24To20(w), rs2);
      ROnce(0x3b, WordCode(op), WordCode7(op), rd, rs1, v, w);
    case MulDiv(op, rd, rs1, rs2) =>
      SameField(Bits24To20(v), Bits24To20(w), rs2);
      ROnce(0x33, MulCode(op), 1, rd, rs1, v, w);
    case Ecall =>
  }

  /** The parser names an instruction exactly if the word is listed for it and its distance is even and fits. */
  lemma ParsedListed(w: bv32, i: Instr)
    ensures Parse(w) == Known(i) <==> Listed(i, w) && Legal(i)
  {
    hide Parse, Encode, Legal, Listed;
    if Listed(i, w) && Legal(i) {
      EncodedListed(i);
      ListedOnce(i, w, Encode(i));
      RoundTrip(i);
    }
    if Parse(w) == Known(i) {
      NamedLegal(w);
      NamedListed(w);
    }
  }

  // The fields the parser takes are the listed ones.

  /** The digits of an even offset, lowest first. */
  lemma BranchBack(a: nat, b: nat, c: nat, d: nat)
    requires a < 16 && b < 64 && c < 2 && d < 2
    ensures var x := Signed(2 * a + 32 * b + 2048 * c + 4096 * d, 4096);
      x / 4096 % 2 == d && x / 32 % 64 == b && x / 2 % 16 == a && x / 2048 % 2 == c
  {
    var w := d - 2 * d;
    var v := c + 2 * w;
    var u := b + 64 * v;
    var y := a + 16 * u;
    assert Signed(2 * a + 32 * b + 2048 * c + 4096 * d, 4096) == 2 * y;
    Unique(a + 16 * u, 16, u, a);
    Unique(b + 64 * v, 64, v, b);
    Unique(c + 2 * w, 2, w, c);
    assert 2 * y / 32 == u && 2 * y / 2048 == v && 2 * y / 4096 == w;
  }

  lemma JumpBack(a: nat, b: nat, c: nat, d: nat, e: nat, f: nat)
    requires a < 32 && b < 32 && c < 2 && d < 16 && e < 16 && f < 2
    ensures var x := Signed(2 * a + 64 * b + 2048 * c + 4096 * d + 0x1_0000 * e + 0x10_0000 * f, 0x10_0000);
      && x / 0x10_0000 % 2 == f && x / 64 % 32 == b && x / 2 % 32 == a && x / 2048 % 2 == c
      && x / 0x1_0000 % 16 == e && x / 4096 % 16 == d
  {
    hide Signed;
    var z := f - 2 * f;
    var w := e + 16 * z;
    var v := d + 16 * w;
    var u := c + 2 * v;
    var t := b + 32 * u;
    JumpSigned(a, b, c, d, e, f);
    JumpDigits(a, b, c, d, e, z);
    Unique(a + 32 * t, 32, t, a);
    Unique(b + 32 * u, 32, u, b);
    Unique(c + 2 * v, 2, v, c);
    Unique(d + 16 * w, 16, w, d);
    Unique(e + 16 * z, 16, z, e);
  }

  lemma JumpSigned(a: nat, b: nat, c: nat, d: nat, e: nat, f: nat)
    requires a < 32 && b < 32 && c < 2 && d < 16 && e < 16 && f < 2
    ensures Signed(2 * a + 64 * b + 2048 * c + 4096 * d + 0x1_0000 * e + 0x10_0000 * f, 0x10_0000)
      == 2 * (a + 32 * (b + 32 * (c + 2 * (d + 16 * (e + 16 * (f - 2 * f))))))
  {
  }

  lemma JumpDigits(a: nat, b: nat, c: nat, d: nat, e: nat, z: int)
    requires a < 32 && b < 32 && c < 2 && d < 16 && e < 16
    ensures var w := e + 16 * z;
      var v := d + 16 * w;
      var u := c + 2 * v;
      var t := b + 32 * u;
      var x := 2 * (a + 32 * t);
      && x / 2 == a + 32 * t && x / 64 == t && x / 2048 == u && x / 4096 == v && x / 0x1_0000 == w
      && x / 0x10_0000 == z
  {
    var w := e + 16 * z;
    var v := d + 16 * w;
    var u := c + 2 * v;
    var t := b + 32 * u;
    var x := 2 * (a + 32 * t);
    Unique(x, 64, t, 2 * a);
    Unique(x, 2048, u, 2 * a + 64 * b);
    Unique(x, 4096, v, 2 * a + 64 * b + 2048 * c);
    Unique(x, 0x1_0000, w, 2 * a + 64 * b + 2048 * c + 4096 * d);
    Unique(x, 0x10_0000, z, 2 * a + 64 * b + 2048 * c + 4096 * d + 0x1_0000 * e);
  }

  lemma BranchTaken(w: bv32)
    ensures var x := BranchOffset(BranchPartsAt(w));
      && ((w >> 31) as bv1) as nat == x / 4096 % 2 && (((w >> 25) & 0x3f) as bv6) as nat == x / 32 % 64
      && (((w >> 8) & 0xf) as bv4) as nat == x / 2 % 16 && (((w >> 7) & 1) as bv1) as nat == x / 2048 % 2
  {
    hide Signed, From1, From4, From6;
    var i := BranchPartsAt(w);
    TopBit(w);
    PartsSmall(i.eleven, i.low, 0, i.middle);
    PartsSmall(i.twelve, i.low, 0, i.middle);
    BranchBack(From4(i.low), From6(i.middle), From1(i.eleven), From1(i.twelve));
    PartsAre(i.eleven, i.low, 0, i.middle);
    PartsAre(i.twelve, i.low, 0, i.middle);
  }

  lemma TopBit(w: bv32)
    ensures ((w >> 31) & 1) as bv1 == (w >> 31) as bv1
  {
  }

  lemma PartsAre(a: bv1, b: bv4, c: bv5, d: bv6)
    ensures From1(a) == a as nat && From4(b) == b as nat && From5(c) == c as nat && From6(d) == d as nat
  {
  }

  lemma JumpTaken(w: bv32)
    ensures var x := JumpOffset(JumpPartsAt(w));
      && ((w >> 31) as bv1) as nat == x / 0x10_0000 % 2 && (((w >> 26) & 0x1f) as bv5) as nat == x / 64 % 32
      && (((w >> 21) & 0x1f) as bv5) as nat == x / 2 % 32 && (((w >> 20) & 1) as bv1) as nat == x / 2048 % 2
      && (((w >> 16) & 0xf) as bv4) as nat == x / 0x1_0000 % 16 && (((w >> 12) & 0xf) as bv4) as nat == x / 4096 % 16
  {
    hide Signed, From1, From4, From5;
    var i := JumpPartsAt(w);
    TopBit(w);
    PartsSmall(i.eleven, i.third, i.low, 0);
    PartsSmall(i.twenty, i.fourth, i.second, 0);
    JumpBack(From5(i.low), From5(i.second), From1(i.eleven), From4(i.third), From4(i.fourth), From1(i.twenty));
    PartsAre(i.eleven, i.third, i.low, 0);
    PartsAre(i.twenty, i.fourth, i.second, 0);
  }

  lemma FieldsAre(w: bv32)
    ensures OpcodeOf(w) == Bits6To0(w) && RdOf(w) == Bits11To7(w) && Funct3Of(w) == Bits14To12(w)
    ensures Rs1Of(w) == Bits19To15(w) && Rs2Of(w) == Bits24To20(w) && Funct7Of(w) == Bits31To25(w)
    ensures Imm12Of(w) == Bits31To20(w) && Imm20Of(w) == Bits31To12(w)
    ensures Bits31To25(w) == (StoreOffsetOf(w) >> 5) as bv7 && Bits11To7(w) == (StoreOffsetOf(w) & 0x1f) as bv5
  {
  }

  lemma ShiftField(w: bv32)
    ensures Bits31To25(w) == 0 || Bits31To25(w) == 1 ==> Bits31To20(w) == ShiftOf(w) as bv12
    ensures Bits31To25(w) == 0x20 || Bits31To25(w) == 0x21 ==> Bits31To20(w) == 0x400 | ShiftOf(w) as bv12
  {
  }

  lemma CallWord(w: bv32)
    ensures Bits6To0(w) == 0x73 && w >> 7 == 0 <==> w == 0x73
  {
  }

  lemma BranchesListed(w: bv32)
    requires Bits6To0(w) == 0x63 && BranchNamed(Bits14To12(w), w).Known?
    ensures Listed(BranchNamed(Bits14To12(w), w).i, w)
  {
    hide RegAt, Names, BranchOffset, Bits6To0, Bits14To12, Bits19To15, Bits24To20, Rs1Of, Rs2Of, BranchPartsAt;
    FieldsAre(w);
    BranchTaken(w);
    RegisterAt(Bits19To15(w));
    RegisterAt(Bits24To20(w));
  }

  lemma StoresListed(w: bv32)
    requires Bits6To0(w) == 0x23 && StoreNamed(Bits14To12(w), w).Known?
    ensures Listed(StoreNamed(Bits14To12(w), w).i, w)
  {
    hide RegAt, Names, Bits6To0, Bits11To7, Bits14To12, Bits19To15, Bits24To20, Bits31To25, Rs1Of, Rs2Of, StoreOffsetOf;
    FieldsAre(w);
    RegisterAt(Bits19To15(w));
    RegisterAt(Bits24To20(w));
  }

  lemma LoadsListed(w: bv32)
    requires Bits6To0(w) == 0x03 && LoadNamed(Bits14To12(w), w).Known?
    ensures Listed(LoadNamed(Bits14To12(w), w).i, w)
  {
    hide RegAt, Names, Bits6To0, Bits11To7, Bits14To12, Bits19To15, Bits31To20, RdOf, Rs1Of, Imm12Of;
    FieldsAre(w);
    RegisterAt(Bits11To7(w));
    RegisterAt(Bits19To15(w));
  }

  lemma ImmediatesListed(w: bv32)
    requires Bits6To0(w) == 0x13 && ImmNamed(Bits14To12(w), Bits31To25(w), w).Known?
    ensures Listed(ImmNamed(Bits14To12(w), Bits31To25(w), w).i, w)
  {
    hide RegAt, Names, Bits6To0, Bits11To7, Bits14To12, Bits19To15, Bits31To20, Bits31To25, RdOf, Rs1Of, Imm12Of;
    hide ShiftOf;
    FieldsAre(w);
    ShiftField(w);
    RegisterAt(Bits11To7(w));
    RegisterAt(Bits19To15(w));
  }

  lemma WordShiftsListed(w: bv32)
    requires Bits6To0(w) == 0x1b && ShiftWNamed(Bits14To12(w), Bits31To25(w), w).Known?
    ensures Listed(ShiftWNamed(Bits14To12(w), Bits31To25(w), w).i, w)
  {
    hide RegAt, Names, Bits6To0, Bits11To7, Bits14To12, Bits19To15, Bits24To20, Bits31To25, RdOf, Rs1Of, Rs2Of;
    FieldsAre(w);
    RegisterAt(Bits11To7(w));
    RegisterAt(Bits19To15(w));
  }

  lemma RegistersListed(w: bv32)
    requires Bits6To0(w) == 0x33 && RegNamed(Bits14To12(w), Bits31To25(w), w).Known?
    ensures Listed(RegNamed(Bits14To12(w), Bits31To25(w), w).i, w)
  {
    hide RegAt, Names, Bits6To0, Bits11To7, Bits14To12, Bits19To15, Bits24To20, Bits31To25, RdOf, Rs1Of, Rs2Of;
    FieldsAre(w);
    RegisterAt(Bits11To7(w));
    RegisterAt(Bits19To15(w));
    RegisterAt(Bits24To20(w));
  }

  lemma WordsListed(w: bv32)
    requires Bits6To0(w) == 0x3b && WordNamed(Bits14To12(w), Bits31To25(w), w).Known?
    ensures Listed(WordNamed(Bits14To12(w), Bits31To25(w), w).i, w)
  {
    hide RegAt, Names, Bits6To0, Bits11To7, Bits14To12, Bits19To15, Bits24To20, Bits31To25, RdOf, Rs1Of, Rs2Of;
    FieldsAre(w);
    RegisterAt(Bits11To7(w));
    RegisterAt(Bits19To15(w));
    RegisterAt(Bits24To20(w));
  }

  lemma NamedListed(w: bv32)
    requires Parse(w).Known?
    ensures Listed(Parse(w).i, w)
  {
    hide RegAt, Names, Bits6To0, Bits11To7, Bits14To12, Bits19To15, Bits24To20, Bits31To25, Bits31To20, Bits31To12;
    hide OpcodeOf, RdOf, Funct3Of, Rs1Of, Rs2Of, Funct7Of, Imm12Of, Imm20Of, StoreOffsetOf, ShiftOf, JumpOffset;
    hide BranchNamed, StoreNamed, LoadNamed, ImmNamed, ShiftWNamed, RegNamed, WordNamed, JumpPartsAt;
    hide ListedBranch, ListedLoad, ListedStore, ListedImm, ListedShift, ListedShiftW, ListedReg, ListedWord, ListedMul;
    FieldsAre(w);
    var o := Bits6To0(w);
    if o == 0x63 {
      BranchesListed(w);
    } else if o == 0x23 {
      StoresListed(w);
    } else if o == 0x03 {
      LoadsListed(w);
    } else if o == 0x13 {
      ImmediatesListed(w);
    } else if o == 0x1b {
      WordShiftsListed(w);
    } else if o == 0x33 {
      RegistersListed(w);
    } else if o == 0x3b {
      WordsListed(w);
    } else {
      JumpTaken(w);
      CallWord(w);
      RegisterAt(Bits11To7(w));
      RegisterAt(Bits19To15(w));
    }
  }

  /** And it names one of the others exactly if the word is listed for that. */
  lemma OtherListed(w: bv32, name: Foreign)
    ensures Parse(w) == Other(name, w) <==> ListedForeign(name, w)
  {
  }
}
