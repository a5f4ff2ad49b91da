/** Operations on 8, 16 and 32 bits see only the low bits of their operands. */
module Narrowing {
  import opened RiscV
  import opened Machine
  import opened ArithmeticOps
  import opened LazyFlags

  function Sum8(x: bv64, y: bv64): bv64 { (x + y) & 0xff }

  lemma Sum8Is(x: bv64, y: bv64)
    ensures Low8(Plus(x, y)) == Sum8(x, y)
  {
    assert Low8(x + y) == (x + y) & 0xff;
  }

  lemma Sum8Low(x: bv64, y: bv64)
    ensures Sum8(Low8(x), Low8(y)) == Sum8(x, y)
  {
    assert Sum8(x & 0xff, y & 0xff) == (x + y) & 0xff;
  }

  lemma Plus8(x: bv64, y: bv64)
    ensures Low8(Plus(x, y)) == Low8(Plus(Low8(x), Low8(y)))
  {
    hide Low8, Plus, Sum8;
    Sum8Is(x, y);
    Sum8Is(Low8(x), Low8(y));
    Sum8Low(x, y);
  }

  function Diff8(x: bv64, y: bv64): bv64 { (x - y) & 0xff }

  lemma Diff8Is(x: bv64, y: bv64)
    ensures Low8(Minus(x, y)) == Diff8(x, y)
  {
    assert Low8(x - y) == (x - y) & 0xff;
  }

  lemma Diff8Low(x: bv64, y: bv64)
    ensures Diff8(Low8(x), Low8(y)) == Diff8(x, y)
  {
    assert Diff8(x & 0xff, y & 0xff) == (x - y) & 0xff;
  }

  lemma Minus8(x: bv64, y: bv64)
    ensures Low8(Minus(x, y)) == Low8(Minus(Low8(x), Low8(y)))
  {
    hide Low8, Minus, Diff8;
    Diff8Is(x, y);
    Diff8Is(Low8(x), Low8(y));
    Diff8Low(x, y);
  }

  lemma And8(x: bv64, y: bv64)
    ensures Low8(And(x, y)) == Low8(And(Low8(x), Low8(y)))
  {
  }

  lemma Or8(x: bv64, y: bv64)
    ensures Low8(Or(x, y)) == Low8(Or(Low8(x), Low8(y)))
  {
  }

  lemma Xor8(x: bv64, y: bv64)
    ensures Low8(Xor(x, y)) == Low8(Xor(Low8(x), Low8(y)))
  {
  }

  lemma Twice8(x: bv64)
    ensures Low8(Low8(x)) == Low8(x)
  {
  }

  function Sum16(x: bv64, y: bv64): bv64 { (x + y) & 0xffff }

  lemma Sum16Is(x: bv64, y: bv64)
    ensures Low16(Plus(x, y)) == Sum16(x, y)
  {
    assert Low16(x + y) == (x + y) & 0xffff;
  }

  lemma Sum16Low(x: bv64, y: bv64)
    ensures Sum16(Low16(x), Low16(y)) == Sum16(x, y)
  {
    assert Sum16(x & 0xffff, y & 0xffff) == (x + y) & 0xffff;
  }

  lemma Plus16(x: bv64, y: bv64)
    ensures Low16(Plus(x, y)) == Low16(Plus(Low16(x), Low16(y)))
  {
    hide Low16, Plus, Sum16;
    Sum16Is(x, y);
    Sum16Is(Low16(x), Low16(y));
    Sum16Low(x, y);
  }

  function Diff16(x: bv64, y: bv64): bv64 { (x - y) & 0xffff }

  lemma Diff16Is(x: bv64, y: bv64)
    ensures Low16(Minus(x, y)) == Diff16(x, y)
  {
    assert Low16(x - y) == (x - y) & 0xffff;
  }

  lemma Diff16Low(x: bv64, y: bv64)
    ensures Diff16(Low16(x), Low16(y)) == Diff16(x, y)
  {
    assert Diff16(x & 0xffff, y & 0xffff) == (x - y) & 0xffff;
  }

  lemma Minus16(x: bv64, y: bv64)
    ensures Low16(Minus(x, y)) == Low16(Minus(Low16(x), Low16(y)))
  {
    hide Low16, Minus, Diff16;
    Diff16Is(x, y);
    Diff16Is(Low16(x), Low16(y));
    Diff16Low(x, y);
  }

  lemma And16(x: bv64, y: bv64)
    ensures Low16(And(x, y)) == Low16(And(Low16(x), Low16(y)))
  {
  }

  lemma Or16(x: bv64, y: bv64)
    ensures Low16(Or(x, y)) == Low16(Or(Low16(x), Low16(y)))
  {
  }

  lemma Xor16(x: bv64, y: bv64)
    ensures Low16(Xor(x, y)) == Low16(Xor(Low16(x), Low16(y)))
  {
  }

  lemma Twice16(x: bv64)
    ensures Low16(Low16(x)) == Low16(x)
  {
  }

  function Sum32(x: bv64, y: bv64): bv64 { (x + y) & 0xffff_ffff }

  lemma Sum32Is(x: bv64, y: bv64)
    ensures Low32(Plus(x, y)) == Sum32(x, y)
  {
    assert Low32(x + y) == (x + y) & 0xffff_ffff;
  }

  lemma Sum32Low(x: bv64, y: bv64)
    ensures Sum32(Low32(x), Low32(y)) == Sum32(x, y)
  {
    assert Sum32(x & 0xffff_ffff, y & 0xffff_ffff) == (x + y) & 0xffff_ffff;
  }

  lemma Plus32(x: bv64, y: bv64)
    ensures Low32(Plus(x, y)) == Low32(Plus(Low32(x), Low32(y)))
  {
    hide Low32, Plus, Sum32;
    Sum32Is(x, y);
    Sum32Is(Low32(x), Low32(y));
    Sum32Low(x, y);
  }

  function Diff32(x: bv64, y: bv64): bv64 { (x - y) & 0xffff_ffff }

  lemma Diff32Is(x: bv64, y: bv64)
    ensures Low32(Minus(x, y)) == Diff32(x, y)
  {
    assert Low32(x - y) == (x - y) & 0xffff_ffff;
  }

  lemma Diff32Low(x: bv64, y: bv64)
    ensures Diff32(Low32(x), Low32(y)) == Diff32(x, y)
  {
    assert Diff32(x & 0xffff_ffff, y & 0xffff_ffff) == (x - y) & 0xffff_ffff;
  }

  lemma Minus32(x: bv64, y: bv64)
    ensures Low32(Minus(x, y)) == Low32(Minus(Low32(x), Low32(y)))
  {
    hide Low32, Minus, Diff32;
    Diff32Is(x, y);
    Diff32Is(Low32(x), Low32(y));
    Diff32Low(x, y);
  }

  lemma And32(x: bv64, y: bv64)
    ensures Low32(And(x, y)) == Low32(And(Low32(x), Low32(y)))
  {
  }

  lemma Or32(x: bv64, y: bv64)
    ensures Low32(Or(x, y)) == Low32(Or(Low32(x), Low32(y)))
  {
  }

  lemma Xor32(x: bv64, y: bv64)
    ensures Low32(Xor(x, y)) == Low32(Xor(Low32(x), Low32(y)))
  {
  }

  lemma Twice32(x: bv64)
    ensures Low32(Low32(x)) == Low32(x)
  {
  }

  lemma NarrowTwice(size: nat, x: bv64)
    ensures ZeroExtend(size, ZeroExtend(size, x)) == ZeroExtend(size, x)
  {
    hide Low8, Low16, Low32;
    Twice8(x);
    Twice16(x);
    Twice32(x);
  }

  lemma NarrowPlus(size: nat, x: bv64, y: bv64)
    ensures ZeroExtend(size, Plus(x, y)) == ZeroExtend(size, Plus(ZeroExtend(size, x), ZeroExtend(size, y)))
  {
    hide Low8, Low16, Low32, Plus;
    Plus8(x, y);
    Plus16(x, y);
    Plus32(x, y);
  }

  lemma NarrowMinus(size: nat, x: bv64, y: bv64)
    ensures ZeroExtend(size, Minus(x, y)) == ZeroExtend(size, Minus(ZeroExtend(size, x), ZeroExtend(size, y)))
  {
    hide Low8, Low16, Low32, Minus;
    Minus8(x, y);
    Minus16(x, y);
    Minus32(x, y);
  }

  lemma NarrowAnd(size: nat, x: bv64, y: bv64)
    ensures ZeroExtend(size, And(x, y)) == ZeroExtend(size, And(ZeroExtend(size, x), ZeroExtend(size, y)))
  {
    hide Low8, Low16, Low32, And;
    And8(x, y);
    And16(x, y);
    And32(x, y);
  }

  lemma NarrowOr(size: nat, x: bv64, y: bv64)
    ensures ZeroExtend(size, Or(x, y)) == ZeroExtend(size, Or(ZeroExtend(size, x), ZeroExtend(size, y)))
  {
    hide Low8, Low16, Low32, Or;
    Or8(x, y);
    Or16(x, y);
    Or32(x, y);
  }

  lemma NarrowXor(size: nat, x: bv64, y: bv64)
    ensures ZeroExtend(size, Xor(x, y)) == ZeroExtend(size, Xor(ZeroExtend(size, x), ZeroExtend(size, y)))
  {
    hide Low8, Low16, Low32, Xor;
    Xor8(x, y);
    Xor16(x, y);
    Xor32(x, y);
  }

  /** The result of an operation at a width depends on the operands at that width. */
  lemma NarrowCompute(op: AluOp, size: nat, x: bv64, y: bv64, c: bv64)
    ensures ZeroExtend(size, Compute(op, x, y, c))
      == ZeroExtend(size, Compute(op, ZeroExtend(size, x), ZeroExtend(size, y), c))
  {
    hide ZeroExtend, Plus, Minus, And, Or, Xor;
    match op
    case AddOp => NarrowPlus(size, y, x);
    case AdcOp =>
      NarrowPlus(size, y, x);
      NarrowPlus(size, c, Plus(y, x));
      NarrowPlus(size, c, Plus(ZeroExtend(size, y), ZeroExtend(size, x)));
    case SubOp => NarrowMinus(size, x, y);
    case AndOp => NarrowAnd(size, x, y);
    case OrOp => NarrowOr(size, x, y);
    case XorOp => NarrowXor(size, x, y);
  }

  // ---- only the low bits matter ------------------------------------------------------------------------------------

  lemma NotNarrow(size: nat, v: bv64)
    ensures ZeroExtend(size, Not64(ZeroExtend(size, v))) == ZeroExtend(size, Not64(v))
  {
    hide Low8, Low16, Low32, Not64;
    NotLow8(v);
    NotLow16(v);
    NotLow32(v);
  }

  lemma NotRaw(v: bv64) ensures Not64(v) == !v {}

  lemma NotLow8(v: bv64)
    ensures Low8(Not64(Low8(v))) == Low8(Not64(v))
  {
    hide Low8, Not64;
    Cut8(v);
    NotRaw(v & 0xff);
    NotRaw(v);
    NotCut8(v);
  }

  lemma Cut8(v: bv64) ensures Low8(v) == v & 0xff {}
  lemma NotCut8(v: bv64) ensures Low8(!(v & 0xff)) == Low8(!v) {}

  lemma NotLow16(v: bv64)
    ensures Low16(Not64(Low16(v))) == Low16(Not64(v))
  {
    hide Low16, Not64;
    Cut16(v);
    NotRaw(v & 0xffff);
    NotRaw(v);
    NotCut16(v);
  }

  lemma Cut16(v: bv64) ensures Low16(v) == v & 0xffff {}
  lemma NotCut16(v: bv64) ensures Low16(!(v & 0xffff)) == Low16(!v) {}

  lemma NotLow32(v: bv64)
    ensures Low32(Not64(Low32(v))) == Low32(Not64(v))
  {
    hide Low32, Not64;
    Cut32(v);
    NotRaw(v & 0xffff_ffff);
    NotRaw(v);
    NotCut32(v);
  }

  lemma Cut32(v: bv64) ensures Low32(v) == v & 0xffff_ffff {}
  lemma NotCut32(v: bv64) ensures Low32(!(v & 0xffff_ffff)) == Low32(!v) {}

  lemma CarryNarrow(size: nat, d: bv64, v: bv64, c: bv64)
    ensures AddCarries(size, d, v, c) == AddCarries(size, ZeroExtend(size, d), ZeroExtend(size, v), c)
    ensures SubBorrows(size, d, v) == SubBorrows(size, ZeroExtend(size, d), ZeroExtend(size, v))
  {
    hide Not64, ZeroExtend, Below;
    NotNarrow(size, v);
    NarrowTwice(size, d);
    NarrowTwice(size, v);
  }

  lemma SetNarrow(size: nat, v: bv64)
    requires IsSize(size)
    ensures SignSet(size, ZeroExtend(size, v)) == SignSet(size, v)
  {
    hide Low8, Low16, Low32, SignSet;
    SetSigns(size, v);
    SetSigns(size, ZeroExtend(size, v));
    LowSigns(v);
  }

  lemma LowSigns(v: bv64)
    ensures (0 < Low32(v) & 0x8000_0000) == (0 < v & 0x8000_0000) && (0 < Low16(v) & 0x8000) == (0 < v & 0x8000)
    ensures (0 < Low8(v) & 0x80) == (0 < v & 0x80)
  {
  }

  /** Overflow depends on the low bits of the operands and of the result. */
  lemma OverflowNarrow(size: nat, d: bv64, v: bv64, r: bv64, q: bv64)
    requires IsSize(size) && ZeroExtend(size, r) == ZeroExtend(size, q)
    ensures AddOverflows(size, d, v, r) == AddOverflows(size, ZeroExtend(size, d), ZeroExtend(size, v), q)
    ensures SubOverflows(size, d, v, r) == SubOverflows(size, ZeroExtend(size, d), ZeroExtend(size, v), q)
  {
    hide SignSet, ZeroExtend;
    SetNarrow(size, d);
    SetNarrow(size, v);
    SetNarrow(size, r);
    SetNarrow(size, q);
  }

  lemma NarrowCarry(op: AluOp, size: nat, d: bv64, v: bv64, c: bv64)
    ensures X86Carry(op, size, d, v, c) == X86Carry(op, size, ZeroExtend(size, d), ZeroExtend(size, v), c)
  {
    hide AddCarries, SubBorrows, ZeroExtend;
    CarryNarrow(size, d, v, 0);
    CarryNarrow(size, d, v, c);
  }

  lemma NarrowOverflow(op: AluOp, size: nat, d: bv64, v: bv64, c: bv64)
    requires IsSize(size)
    ensures X86Overflow(op, size, d, v, c) == X86Overflow(op, size, ZeroExtend(size, d), ZeroExtend(size, v), c)
  {
    hide AddOverflows, SubOverflows, ZeroExtend, Compute, IsSize;
    NarrowCompute(op, size, d, v, c);
    OverflowNarrow(size, d, v, Compute(op, d, v, c), Compute(op, ZeroExtend(size, d), ZeroExtend(size, v), c));
  }

  lemma ToldOf(op: AluOp, size: nat, d: bv64, v: bv64, c: bv64, itself: bool, wrong: bool)
    ensures CarryTold(op, size, d, v, c, itself)
      == if itself && op.AddOp? then 0 else if itself && op.AdcOp? then c else Bit(X86Carry(op, size, d, v, c))
    ensures OverflowTold(op, size, d, v, c, wrong) == Bit(X86Overflow(op, size, d, v, c) != wrong)
  {
    hide X86Carry, X86Overflow, Bit;
  }

  /** Carry and overflow of an operation depend on the low bits of its operands. */
  lemma NarrowTold(op: AluOp, size: nat, d: bv64, v: bv64, c: bv64, itself: bool, wrong: bool)
    requires IsSize(size)
    ensures CarryTold(op, size, d, v, c, itself)
      == CarryTold(op, size, ZeroExtend(size, d), ZeroExtend(size, v), c, itself)
    ensures OverflowTold(op, size, d, v, c, wrong)
      == OverflowTold(op, size, ZeroExtend(size, d), ZeroExtend(size, v), c, wrong)
  {
    hide *;
    ToldOf(op, size, d, v, c, itself, wrong);
    ToldOf(op, size, ZeroExtend(size, d), ZeroExtend(size, v), c, itself, wrong);
    NarrowCarry(op, size, d, v, c);
    NarrowOverflow(op, size, d, v, c);
  }
}
