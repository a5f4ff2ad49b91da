/**
 What the evaluators of the lazily kept carry and overflow answer (flags_carry.inc.s,
 flags_overflow.inc.s), against the flags of section 3.4.3.1 of Intel SDM Volume 1.
 */
module LazyFlags {
  import opened RiscV
  import opened Machine
  import opened Bits

  // ---- the flags --------------------------------------------------------------------------------------------

  predicate SignSet(size: nat, v: bv64) { 0 < v & TopMask(size) }

  /** What a value leaves of the largest one of its width. */
  function Room(size: nat, v: bv64): bv64 { ZeroExtend(size, Not64(v)) }

  /** Unsigned: the destination exceeds what the source and the carry leave room for. */
  predicate AddCarries(size: nat, d: bv64, v: bv64, c: bv64) {
    Below(Room(size, v), ZeroExtend(size, d)) || (0 < c && !Below(ZeroExtend(size, d), Room(size, v)))
  }

  /** Unsigned: more is subtracted than there is. */
  predicate SubBorrows(size: nat, d: bv64, v: bv64) { Below(ZeroExtend(size, d), ZeroExtend(size, v)) }

  /** Signed: two operands of one sign have a result of the other. */
  predicate AddOverflows(size: nat, d: bv64, v: bv64, r: bv64) {
    SignSet(size, d) == SignSet(size, v) && SignSet(size, r) != SignSet(size, d)
  }

  /** Signed: what is subtracted has the other sign, and so has the result. */
  predicate SubOverflows(size: nat, d: bv64, v: bv64, r: bv64) {
    SignSet(size, d) != SignSet(size, v) && SignSet(size, r) != SignSet(size, d)
  }

  // ---- carries out of 64 bits ---------------------------------------------------------------------------------

  predicate TopSet(x: bv64) { 0 < x & 0x8000_0000_0000_0000 }

  predicate Below(x: bv64, y: bv64) { x < y }

  /** The carry out of x + y, with or without a carry in, from the top bits of the operands and the sum. */
  predicate CarryOut(x: bv64, y: bv64, sum: bv64) { TopSet((x & y) | ((x | y) & !sum)) }

  lemma TopCompared(x: bv64, y: bv64)
    ensures Below(x, y) == if TopSet(x) != TopSet(y) then TopSet(y) else Below(Up(x), Up(y))
  {
    RawCompared(x, y);
    assert Below(x << 1, y << 1) == (x << 1 < y << 1);
  }

  lemma RawCompared(x: bv64, y: bv64)
    ensures (x < y) == if (0 < x & 0x8000_0000_0000_0000) != (0 < y & 0x8000_0000_0000_0000)
                       then 0 < y & 0x8000_0000_0000_0000 else x << 1 < y << 1
  {
  }

  predicate Carried(x: bv64, y: bv64) { TopSet((x & y) | ((x | y) & !Plus(x, y))) }

  lemma CarriedIs(x: bv64, y: bv64) ensures Carried(x, y) == CarryOut(x, y, Plus(x, y)) {}

  lemma CarriedInto(x: bv64, y: bv64)
    ensures Carried(Up(x), Up(y)) == ((TopSet(x) != TopSet(y)) != TopSet(Plus(x, y)))
  {
  }

  /** The carry into the top bit. */
  lemma CarryInto(x: bv64, y: bv64)
    ensures CarryOut(Up(x), Up(y), Up(Plus(x, y))) == ((TopSet(x) != TopSet(y)) != TopSet(Plus(x, y)))
  {
    hide Plus, Up, CarryOut, Carried, TopSet;
    UpPlus(x, y);
    CarriedIs(Up(x), Up(y));
    CarriedInto(x, y);
  }

  /** The majority of the two top bits and the missing top bit of the sum. */
  lemma CarryTop(x: bv64, y: bv64, sum: bv64)
    ensures CarryOut(x, y, sum) == if TopSet(x) == TopSet(y) then TopSet(x) else !TopSet(sum)
  {
    if TopSet(x) {
      if TopSet(y) {
        BothTops(x, y, sum);
      } else {
        FirstTop(x, y, sum);
      }
    } else if TopSet(y) {
      SecondTop(x, y, sum);
    } else {
      NoTop(x, y, sum);
    }
  }

  lemma BothTops(x: bv64, y: bv64, sum: bv64) requires TopSet(x) && TopSet(y) ensures CarryOut(x, y, sum) {}
  lemma NoTop(x: bv64, y: bv64, sum: bv64) requires !TopSet(x) && !TopSet(y) ensures !CarryOut(x, y, sum) {}

  lemma FirstTop(x: bv64, y: bv64, sum: bv64)
    requires TopSet(x) && !TopSet(y)
    ensures CarryOut(x, y, sum) == !TopSet(sum)
  {
  }

  lemma SecondTop(x: bv64, y: bv64, sum: bv64)
    requires !TopSet(x) && TopSet(y)
    ensures CarryOut(x, y, sum) == !TopSet(sum)
  {
  }

  lemma UpPlus(x: bv64, y: bv64)
    ensures Up(Plus(x, y)) == Plus(Up(x), Up(y))
  {
    assert Up(x + y) == (x + y) << 1;
    assert Plus(x << 1, y << 1) == (x << 1) + (y << 1);
    RawUp(x, y);
  }

  lemma RawUp(x: bv64, y: bv64) ensures (x + y) << 1 == (x << 1) + (y << 1) {}

  lemma {:induction false} WrapsFrom(x: bv64, y: bv64, n: nat)
    requires Shl(x, n) == 0 && Shl(y, n) == 0
    ensures Below(Plus(x, y), y) == CarryOut(x, y, Plus(x, y))
    decreases n
  {
    hide Plus, Up, Below, CarryOut, TopSet;
    if n == 0 {
      ZeroWraps();
    } else {
      ShlFirst(x, n);
      ShlFirst(y, n);
      WrapsFrom(Up(x), Up(y), n - 1);
      TopCompared(Plus(x, y), y);
      UpPlus(x, y);
      CarryInto(x, y);
      CarryTop(x, y, Plus(x, y));
    }
  }

  lemma ZeroWraps() ensures Below(Plus(0, 0), 0) == CarryOut(0, 0, Plus(0, 0)) {}

  lemma ShiftedOut(x: bv64)
    ensures Shl(x, 64) == 0
  {
    hide Shl;
    Shl32(x);
    Shl32(x << 32);
    ShlAdd(x, 32, 32);
    assert (x << 32) << 32 == 0;
  }

  /** A sum is below its operands if and only if a bit is carried out. */
  lemma Wraps(x: bv64, y: bv64)
    ensures Below(Plus(x, y), y) == CarryOut(x, y, Plus(x, y))
  {
    hide *;
    ShiftedOut(x);
    ShiftedOut(y);
    WrapsFrom(x, y, 64);
  }

  lemma {:induction false} OrderedFrom(x: bv64, y: bv64, n: nat)
    requires Shl(x, n) == 0 && Shl(y, n) == 0
    ensures Below(x, y) == (!Below(y, x) && x != y)
    decreases n
  {
    hide Up, Below, TopSet;
    if n == 0 {
      ZeroOrdered();
    } else {
      ShlFirst(x, n);
      ShlFirst(y, n);
      OrderedFrom(Up(x), Up(y), n - 1);
      TopCompared(x, y);
      TopCompared(y, x);
      if x != y && TopSet(x) == TopSet(y) {
        TopDiffers(x, y);
      }
    }
  }

  lemma ZeroOrdered() ensures !Below(0, 0) {}

  lemma TopDiffers(x: bv64, y: bv64)
    requires x != y && TopSet(x) == TopSet(y)
    ensures Up(x) != Up(y)
  {
  }

  lemma Ordered(x: bv64, y: bv64)
    ensures Below(x, y) == (!Below(y, x) && x != y)
  {
    hide *;
    ShiftedOut(x);
    ShiftedOut(y);
    OrderedFrom(x, y, 64);
  }

  // ---- narrower operands, moved to the top ----------------------------------------------------------------------

  function Up32(x: bv64): bv64 { x << 32 }
  function Up48(x: bv64): bv64 { x << 48 }
  function Up56(x: bv64): bv64 { x << 56 }

  function Lifted(size: nat, x: bv64): bv64 {
    if size == 8 then x else if size == 4 then Up32(x) else if size == 2 then Up48(x) else Up56(x)
  }

  lemma LiftedPlus(size: nat, x: bv64, y: bv64)
    ensures Lifted(size, Plus(x, y)) == Plus(Lifted(size, x), Lifted(size, y))
  {
    hide Plus, Up32, Up48, Up56;
    if size == 4 {
      Up32Plus(x, y);
    } else if size == 2 {
      Up48Plus(x, y);
    } else if size != 8 {
      Up56Plus(x, y);
    }
  }

  lemma Up32Plus(x: bv64, y: bv64)
    ensures Up32(Plus(x, y)) == Plus(Up32(x), Up32(y))
  {
    assert Up32(x + y) == (x + y) << 32;
    assert Plus(x << 32, y << 32) == (x << 32) + (y << 32);
    RawUps(x, y);
  }

  lemma Up48Plus(x: bv64, y: bv64)
    ensures Up48(Plus(x, y)) == Plus(Up48(x), Up48(y))
  {
    assert Up48(x + y) == (x + y) << 48;
    assert Plus(x << 48, y << 48) == (x << 48) + (y << 48);
    RawUps(x, y);
  }

  lemma Up56Plus(x: bv64, y: bv64)
    ensures Up56(Plus(x, y)) == Plus(Up56(x), Up56(y))
  {
    assert Up56(x + y) == (x + y) << 56;
    assert Plus(x << 56, y << 56) == (x << 56) + (y << 56);
    RawUps(x, y);
  }

  lemma RawUps(x: bv64, y: bv64)
    ensures (x + y) << 32 == (x << 32) + (y << 32) && (x + y) << 48 == (x << 48) + (y << 48)
    ensures (x + y) << 56 == (x << 56) + (y << 56)
  {
  }

  lemma LiftedBelow(size: nat, x: bv64, y: bv64)
    ensures Below(ZeroExtend(size, x), ZeroExtend(size, y)) == Below(Lifted(size, x), Lifted(size, y))
  {
    hide Below, Low8, Low16, Low32, Up32, Up48, Up56;
    if size == 4 {
      WordBelow(x, y);
    } else if size == 2 {
      HalfBelow(x, y);
    } else if size != 8 {
      ByteBelow(x, y);
    }
  }

  lemma WordBelow(x: bv64, y: bv64)
    ensures Below(Low32(x), Low32(y)) == Below(Up32(x), Up32(y))
  {
    RawBelow(x, y);
    assert Below(x & 0xffff_ffff, y & 0xffff_ffff) == (x & 0xffff_ffff < y & 0xffff_ffff);
    assert Below(x << 32, y << 32) == (x << 32 < y << 32);
  }

  lemma HalfBelow(x: bv64, y: bv64)
    ensures Below(Low16(x), Low16(y)) == Below(Up48(x), Up48(y))
  {
    RawBelow(x, y);
    assert Below(x & 0xffff, y & 0xffff) == (x & 0xffff < y & 0xffff);
    assert Below(x << 48, y << 48) == (x << 48 < y << 48);
  }

  lemma ByteBelow(x: bv64, y: bv64)
    ensures Below(Low8(x), Low8(y)) == Below(Up56(x), Up56(y))
  {
    RawBelow(x, y);
    assert Below(x & 0xff, y & 0xff) == (x & 0xff < y & 0xff);
    assert Below(x << 56, y << 56) == (x << 56 < y << 56);
  }

  lemma RawBelow(x: bv64, y: bv64)
    ensures (x & 0xffff_ffff < y & 0xffff_ffff) == (x << 32 < y << 32)
    ensures (x & 0xffff < y & 0xffff) == (x << 48 < y << 48) && (x & 0xff < y & 0xff) == (x << 56 < y << 56)
  {
  }

  lemma LiftedSign(size: nat, x: bv64)
    requires IsSize(size)
    ensures SignSet(size, x) == TopSet(Lifted(size, x))
  {
    hide TopSet, Up32, Up48, Up56;
    SetSigns(size, x);
    UpSigns(x);
  }

  lemma SetSigns(size: nat, x: bv64)
    requires IsSize(size)
    ensures SignSet(size, x)
      == if size == 8 then 0 < x & 0x8000_0000_0000_0000 else if size == 4 then 0 < x & 0x8000_0000
         else if size == 2 then 0 < x & 0x8000 else 0 < x & 0x80
  {
  }

  lemma UpSigns(x: bv64)
    ensures (0 < x & 0x8000_0000) == TopSet(Up32(x)) && (0 < x & 0x8000) == TopSet(Up48(x))
    ensures (0 < x & 0x80) == TopSet(Up56(x)) && (0 < x & 0x8000_0000_0000_0000) == TopSet(x)
  {
  }

  lemma LiftedNot(size: nat, x: bv64)
    ensures TopSet(Lifted(size, Not64(x))) == !TopSet(Lifted(size, x))
  {
    RawNot(x);
    assert Not64(x) == !x;
  }

  lemma RawNot(x: bv64)
    ensures (0 < (!x << 32) & 0x8000_0000_0000_0000) == !(0 < (x << 32) & 0x8000_0000_0000_0000)
    ensures (0 < (!x << 48) & 0x8000_0000_0000_0000) == !(0 < (x << 48) & 0x8000_0000_0000_0000)
    ensures (0 < (!x << 56) & 0x8000_0000_0000_0000) == !(0 < (x << 56) & 0x8000_0000_0000_0000)
    ensures (0 < !x & 0x8000_0000_0000_0000) == !(0 < x & 0x8000_0000_0000_0000)
  {
  }

  /** At every width a sum is below its operands exactly if a bit is carried out. */
  lemma WrapsAt(size: nat, x: bv64, y: bv64, sum: bv64)
    requires Plus(x, y) == sum
    ensures Below(ZeroExtend(size, sum), ZeroExtend(size, y))
      == CarryOut(Lifted(size, x), Lifted(size, y), Lifted(size, sum))
  {
    hide *;
    LiftedPlus(size, x, y);
    LiftedBelow(size, sum, y);
    Wraps(Lifted(size, x), Lifted(size, y));
  }

  lemma NotIs(x: bv64) ensures Not64(x) == Minus(AllOnes(), x) {}

  lemma Cancel(z: bv64, d: bv64, v: bv64)
    ensures Plus(Minus(z, Plus(v, d)), d) == Minus(z, v)
  {
    assert Minus(z, v + d) == z - (v + d);
    assert Plus(z - (v + d), d) == z - v;
  }

  lemma CancelFirst(z: bv64, d: bv64, v: bv64)
    ensures Plus(Minus(z, d), Plus(v, d)) == Plus(z, v)
  {
    assert Plus(z - d, v + d) == z + v;
  }

  lemma CancelSecond(z: bv64, d: bv64, v: bv64)
    ensures Plus(Plus(v, d), Minus(z, v)) == Plus(z, d)
  {
    assert Plus(v + d, z - v) == z + d;
  }

  lemma Swapped(d: bv64, v: bv64) ensures Plus(d, v) == Plus(v, d) {}

  lemma OneMore(d: bv64, v: bv64)
    ensures Plus(1, Plus(v, d)) == Plus(Plus(1, v), d) && Plus(1, Plus(v, d)) == Plus(v, Plus(1, d))
  {
    assert Plus(1, v + d) == 1 + v + d && Plus(1 + v, d) == 1 + v + d && Plus(v, 1 + d) == 1 + v + d;
  }

  lemma Around(v: bv64)
    ensures Plus(AllOnes(), Plus(1, v)) == v
  {
    assert Plus(0xffff_ffff_ffff_ffff, 1 + v) == v;
  }

  lemma SumOf(d: bv64, v: bv64)
    ensures Plus(Not64(Plus(v, d)), d) == Not64(v) && Plus(d, v) == Plus(v, d)
  {
    hide Not64, Plus, Minus, AllOnes;
    NotIs(Plus(v, d));
    NotIs(v);
    Cancel(AllOnes(), d, v);
    Swapped(d, v);
  }

  lemma SumOfThree(d: bv64, v: bv64)
    ensures Plus(Not64(d), Plus(1, Plus(v, d))) == v && Plus(Plus(1, Plus(v, d)), Not64(v)) == d
  {
    hide Not64, Plus, Minus, AllOnes;
    NotIs(d);
    NotIs(v);
    OneMore(d, v);
    CancelFirst(AllOnes(), d, Plus(1, v));
    CancelSecond(AllOnes(), Plus(1, d), v);
    Around(v);
    Around(d);
  }

  lemma DifferenceOf(d: bv64, v: bv64)
    ensures Plus(v, Minus(d, v)) == d && Plus(Minus(d, v), v) == d
  {
    assert Plus(v, d - v) == v + (d - v);
    assert Plus(d - v, v) == d - v + v;
  }

  lemma AddAnswers(size: nat, src: bv64, dst: bv64)
    ensures EvalCarryAdd(size, src, dst) == Bit(Below(ZeroExtend(size, dst), ZeroExtend(size, src)))
  {
    hide ZeroExtend;
  }

  lemma AdcAnswers(size: nat, src: bv64, dst: bv64)
    ensures EvalCarryAdc(size, src, dst) == Bit(!Below(ZeroExtend(size, src), ZeroExtend(size, dst)))
  {
    hide ZeroExtend;
  }

  lemma CarryAdded(size: nat, d: bv64, v: bv64)
    ensures EvalCarryAdd(size, v, Plus(v, d)) == Bit(AddCarries(size, d, v, 0))
  {
    hide Plus, Not64, ZeroExtend, Lifted, TopSet, CarryOut, Below, EvalCarryAdd, Bit;
    SumOf(d, v);
    AddAnswers(size, v, Plus(v, d));
    WrapsAt(size, d, v, Plus(v, d));
    WrapsAt(size, Not64(Plus(v, d)), d, Not64(v));
    LiftedNot(size, v);
    LiftedNot(size, Plus(v, d));
    CarryTop(Lifted(size, d), Lifted(size, v), Lifted(size, Plus(v, d)));
    CarryTop(Lifted(size, Not64(Plus(v, d))), Lifted(size, d), Lifted(size, Not64(v)));
  }

  lemma CarryAdced(size: nat, d: bv64, v: bv64)
    ensures EvalCarryAdc(size, v, Plus(1, Plus(v, d))) == Bit(AddCarries(size, d, v, 1))
  {
    hide Plus, Not64, ZeroExtend, Lifted, TopSet, CarryOut, Below, EvalCarryAdc, Bit;
    var r := Plus(1, Plus(v, d));
    SumOfThree(d, v);
    AdcAnswers(size, v, r);
    WrapsAt(size, Not64(d), r, v);
    WrapsAt(size, r, Not64(v), d);
    LiftedNot(size, v);
    LiftedNot(size, d);
    CarryTop(Lifted(size, Not64(d)), Lifted(size, r), Lifted(size, v));
    CarryTop(Lifted(size, r), Lifted(size, Not64(v)), Lifted(size, d));
    Ordered(Room(size, v), ZeroExtend(size, d));
  }

  lemma BorrowSubtracted(size: nat, d: bv64, v: bv64)
    ensures EvalCarryAdd(size, Minus(d, v), d) == Bit(SubBorrows(size, d, v))
  {
    hide Plus, Not64, Minus, ZeroExtend, Lifted, TopSet, CarryOut, Below, EvalCarryAdd, Bit;
    var r := Minus(d, v);
    DifferenceOf(d, v);
    AddAnswers(size, r, d);
    WrapsAt(size, v, r, d);
    WrapsAt(size, r, v, d);
    CarryTop(Lifted(size, v), Lifted(size, r), Lifted(size, d));
    CarryTop(Lifted(size, r), Lifted(size, v), Lifted(size, d));
  }

  // ---- signed comparison ---------------------------------------------------------------------------------------

  function Flipped(x: bv64): bv64 { x ^ 0x8000_0000_0000_0000 }

  lemma FlippedIs(x: bv64)
    ensures TopSet(Flipped(x)) == !TopSet(x) && Up(Flipped(x)) == Up(x)
  {
  }

  lemma SignedFlipped(x: bv64, y: bv64)
    ensures SignedLess(x, y) == Below(Flipped(x), Flipped(y))
  {
    hide SignedLess, Below;
    SignedRaw(x, y);
  }

  lemma SignedRaw(x: bv64, y: bv64)
    ensures SignedLess(x, y) == Below(x ^ 0x8000_0000_0000_0000, y ^ 0x8000_0000_0000_0000)
  {
  }

  lemma SignedTop(x: bv64, y: bv64)
    ensures SignedLess(x, y) == if TopSet(x) != TopSet(y) then TopSet(x) else Below(Up(x), Up(y))
  {
    hide SignedLess, Below, Flipped, TopSet, Up;
    SignedFlipped(x, y);
    FlippedIs(x);
    FlippedIs(y);
    TopCompared(Flipped(x), Flipped(y));
  }

  /** Signed overflow of a sum, by top bits. */
  predicate TopOverflows(b: bv64, v: bv64, sum: bv64) { TopSet(b) == TopSet(v) && TopSet(sum) != TopSet(b) }

  /** A sum is less than its operand if the other one is negative, except where it overflows. */
  lemma SumLess(b: bv64, v: bv64)
    ensures SignedLess(Plus(v, b), b) == (TopOverflows(b, v, Plus(v, b)) != TopSet(v))
  {
    hide Plus, Up, Below, CarryOut, TopSet, SignedLess;
    SignedTop(Plus(v, b), b);
    UpPlus(v, b);
    Wraps(Up(v), Up(b));
    CarryInto(v, b);
  }

  lemma SignedOrdered(x: bv64, y: bv64)
    ensures SignedLess(x, y) == (!SignedLess(y, x) && x != y)
  {
    hide Up, Below, TopSet, SignedLess;
    SignedTop(x, y);
    SignedTop(y, x);
    Ordered(Up(x), Up(y));
    if x != y && TopSet(x) == TopSet(y) {
      TopDiffers(x, y);
    }
  }

  lemma LessSum(b: bv64, v: bv64)
    ensures SignedLess(b, Plus(v, b)) == (TopOverflows(b, v, Plus(v, b)) == TopSet(v) && 0 < v)
  {
    hide Plus, TopSet, SignedLess, TopOverflows;
    SumLess(b, v);
    SignedOrdered(b, Plus(v, b));
    SameSum(b, v);
  }

  lemma SameSum(b: bv64, v: bv64)
    ensures Plus(v, b) != b <==> 0 < v
  {
    assert Plus(v, b) == v + b;
  }

  lemma LiftedSigned(size: nat, x: bv64, y: bv64)
    ensures SignedLess(SignExtend(size, x), SignExtend(size, y)) == SignedLess(Lifted(size, x), Lifted(size, y))
  {
    hide SignedLess, Sext8, Sext16, Sext32, Up32, Up48, Up56;
    if size == 4 {
      WordSigned(x, y);
    } else if size == 2 {
      HalfSigned(x, y);
    } else if size != 8 {
      ByteSigned(x, y);
    }
  }

  lemma WordSigned(x: bv64, y: bv64)
    ensures SignedLess(Sext32(x), Sext32(y)) == SignedLess(Up32(x), Up32(y))
  {
    hide SignedLess, Below, TopSet, Up, Sext32, Up32;
    SignedTop(Sext32(x), Sext32(y));
    SignedTop(Up32(x), Up32(y));
    WordTops(x);
    WordTops(y);
    if TopSet(Up32(x)) == TopSet(Up32(y)) {
      WordRest(x, y);
    }
  }

  lemma WordTops(x: bv64)
    ensures TopSet(Sext32(x)) == TopSet(Up32(x))
  {
    hide Up, TopSet, Sext32, Up32;
    WordForm(x);
  }

  lemma WordRest(x: bv64, y: bv64)
    requires TopSet(Up32(x)) == TopSet(Up32(y))
    ensures Below(Up(Sext32(x)), Up(Sext32(y))) == Below(Up(Up32(x)), Up(Up32(y)))
  {
    hide Below, Up, TopSet, Sext32, Up32;
    WordForm(x);
    WordForm(y);
    WordRaw(x, y);
  }

  /** The sign and the bits behind it. */
  lemma WordForm(x: bv64)
    ensures TopSet(Sext32(x)) == TopSet(Up32(x)) && Up(Up32(x)) == x << 33
    ensures Up(Sext32(x)) == if TopSet(Up32(x)) then (0xffff_ffff_8000_0000 | x) << 1 else (x & 0x7fff_ffff) << 1
  {
    hide Up, Sext32;
    WordUp(x);
    if 0 < x & 0x8000_0000 {
      WordNegative(x);
    } else {
      WordPositive(x);
    }
  }

  lemma WordUp(x: bv64) ensures TopSet(Up32(x)) == (0 < x & 0x8000_0000) && Up(Up32(x)) == x << 33 {}

  lemma WordNegative(x: bv64)
    requires 0 < x & 0x8000_0000
    ensures Up(Sext32(x)) == (0xffff_ffff_8000_0000 | x) << 1 && TopSet(Sext32(x))
  {
  }

  lemma WordPositive(x: bv64)
    requires !(0 < x & 0x8000_0000)
    ensures Up(Sext32(x)) == (x & 0x7fff_ffff) << 1 && !TopSet(Sext32(x))
  {
  }

  lemma WordRaw(x: bv64, y: bv64)
    ensures Below((0xffff_ffff_8000_0000 | x) << 1, (0xffff_ffff_8000_0000 | y) << 1) == Below(x << 33, y << 33)
    ensures Below((x & 0x7fff_ffff) << 1, (y & 0x7fff_ffff) << 1) == Below(x << 33, y << 33)
  {
  }

  lemma HalfSigned(x: bv64, y: bv64)
    ensures SignedLess(Sext16(x), Sext16(y)) == SignedLess(Up48(x), Up48(y))
  {
    hide SignedLess, Below, TopSet, Up, Sext16, Up48;
    SignedTop(Sext16(x), Sext16(y));
    SignedTop(Up48(x), Up48(y));
    HalfTops(x);
    HalfTops(y);
    if TopSet(Up48(x)) == TopSet(Up48(y)) {
      HalfRest(x, y);
    }
  }

  lemma HalfTops(x: bv64)
    ensures TopSet(Sext16(x)) == TopSet(Up48(x))
  {
    hide Up, TopSet, Sext16, Up48;
    HalfForm(x);
  }

  lemma HalfRest(x: bv64, y: bv64)
    requires TopSet(Up48(x)) == TopSet(Up48(y))
    ensures Below(Up(Sext16(x)), Up(Sext16(y))) == Below(Up(Up48(x)), Up(Up48(y)))
  {
    hide Below, Up, TopSet, Sext16, Up48;
    HalfForm(x);
    HalfForm(y);
    HalfRaw(x, y);
  }

  /** The sign and the bits behind it. */
  lemma HalfForm(x: bv64)
    ensures TopSet(Sext16(x)) == TopSet(Up48(x)) && Up(Up48(x)) == x << 49
    ensures Up(Sext16(x)) == if TopSet(Up48(x)) then (0xffff_ffff_ffff_8000 | x) << 1 else (x & 0x7fff) << 1
  {
    hide Up, Sext16;
    HalfUp(x);
    if 0 < x & 0x8000 {
      HalfNegative(x);
    } else {
      HalfPositive(x);
    }
  }

  lemma HalfUp(x: bv64) ensures TopSet(Up48(x)) == (0 < x & 0x8000) && Up(Up48(x)) == x << 49 {}

  lemma HalfNegative(x: bv64)
    requires 0 < x & 0x8000
    ensures Up(Sext16(x)) == (0xffff_ffff_ffff_8000 | x) << 1 && TopSet(Sext16(x))
  {
  }

  lemma HalfPositive(x: bv64)
    requires !(0 < x & 0x8000)
    ensures Up(Sext16(x)) == (x & 0x7fff) << 1 && !TopSet(Sext16(x))
  {
  }

  lemma HalfRaw(x: bv64, y: bv64)
    ensures Below((0xffff_ffff_ffff_8000 | x) << 1, (0xffff_ffff_ffff_8000 | y) << 1) == Below(x << 49, y << 49)
    ensures Below((x & 0x7fff) << 1, (y & 0x7fff) << 1) == Below(x << 49, y << 49)
  {
  }

  lemma ByteSigned(x: bv64, y: bv64)
    ensures SignedLess(Sext8(x), Sext8(y)) == SignedLess(Up56(x), Up56(y))
  {
    hide SignedLess, Below, TopSet, Up, Sext8, Up56;
    SignedTop(Sext8(x), Sext8(y));
    SignedTop(Up56(x), Up56(y));
    ByteTops(x);
    ByteTops(y);
    if TopSet(Up56(x)) == TopSet(Up56(y)) {
      ByteRest(x, y);
    }
  }

  lemma ByteTops(x: bv64)
    ensures TopSet(Sext8(x)) == TopSet(Up56(x))
  {
    hide Up, TopSet, Sext8, Up56;
    ByteForm(x);
  }

  lemma ByteRest(x: bv64, y: bv64)
    requires TopSet(Up56(x)) == TopSet(Up56(y))
    ensures Below(Up(Sext8(x)), Up(Sext8(y))) == Below(Up(Up56(x)), Up(Up56(y)))
  {
    hide Below, Up, TopSet, Sext8, Up56;
    ByteForm(x);
    ByteForm(y);
    ByteRaw(x, y);
  }

  /** The sign and the bits behind it. */
  lemma ByteForm(x: bv64)
    ensures TopSet(Sext8(x)) == TopSet(Up56(x)) && Up(Up56(x)) == x << 57
    ensures Up(Sext8(x)) == if TopSet(Up56(x)) then (0xffff_ffff_ffff_ff80 | x) << 1 else (x & 0x7f) << 1
  {
    hide Up, Sext8;
    ByteUp(x);
    if 0 < x & 0x80 {
      ByteNegative(x);
    } else {
      BytePositive(x);
    }
  }

  lemma ByteUp(x: bv64) ensures TopSet(Up56(x)) == (0 < x & 0x80) && Up(Up56(x)) == x << 57 {}

  lemma ByteNegative(x: bv64)
    requires 0 < x & 0x80
    ensures Up(Sext8(x)) == (0xffff_ffff_ffff_ff80 | x) << 1 && TopSet(Sext8(x))
  {
  }

  lemma BytePositive(x: bv64)
    requires !(0 < x & 0x80)
    ensures Up(Sext8(x)) == (x & 0x7f) << 1 && !TopSet(Sext8(x))
  {
  }

  lemma ByteRaw(x: bv64, y: bv64)
    ensures Below((0xffff_ffff_ffff_ff80 | x) << 1, (0xffff_ffff_ffff_ff80 | y) << 1) == Below(x << 57, y << 57)
    ensures Below((x & 0x7f) << 1, (y & 0x7f) << 1) == Below(x << 57, y << 57)
  {
  }

  // ---- overflow of sums with constants ----------------------------------------------------------------------------

  lemma OverflowsLifted(size: nat, d: bv64, v: bv64, r: bv64)
    requires IsSize(size)
    ensures AddOverflows(size, d, v, r) == TopOverflows(Lifted(size, d), Lifted(size, v), Lifted(size, r))
  {
    hide SignSet, TopSet, Lifted;
    LiftedSign(size, d);
    LiftedSign(size, v);
    LiftedSign(size, r);
  }

  predicate Positive(v: bv64) { 0 < v }

  lemma LiftedPositive(size: nat, v: bv64)
    ensures (0 < Lifted(size, v)) == Positive(ZeroExtend(size, v))
  {
    if size == 4 {
      PositiveWord(v);
    } else if size == 2 {
      PositiveHalf(v);
    } else if size != 8 {
      PositiveByte(v);
    }
  }

  lemma PositiveWord(v: bv64) ensures (0 < v << 32) == (0 < v & 0xffff_ffff) {}
  lemma PositiveHalf(v: bv64) ensures (0 < v << 48) == (0 < v & 0xffff) {}
  lemma PositiveByte(v: bv64) ensures (0 < v << 56) == (0 < v & 0xff) {}

  /** The evaluator for positive constants is wrong exactly for negative ones. */
  lemma OverflowRising(size: nat, b: bv64, v: bv64)
    requires IsSize(size)
    ensures EvalOverflowPos(size, b, Plus(v, b)) == Bit(AddOverflows(size, b, v, Plus(v, b)) != SignSet(size, v))
  {
    hide Plus, SignedLess, SignExtend, Lifted, SignSet, TopSet, AddOverflows, TopOverflows, Bit;
    LiftedSigned(size, Plus(v, b), b);
    LiftedPlus(size, v, b);
    SumLess(Lifted(size, b), Lifted(size, v));
    OverflowsLifted(size, b, v, Plus(v, b));
    LiftedSign(size, v);
  }

  /** The evaluator for negative constants is wrong exactly for those above zero. */
  lemma OverflowFalling(size: nat, b: bv64, v: bv64)
    requires IsSize(size)
    ensures EvalOverflowNeg(size, b, Plus(v, b))
      == Bit(AddOverflows(size, b, v, Plus(v, b)) == SignSet(size, v) && Positive(ZeroExtend(size, v)))
  {
    hide Plus, SignedLess, SignExtend, Lifted, SignSet, TopSet, AddOverflows, TopOverflows, Bit, Positive, ZeroExtend;
    LiftedSigned(size, b, Plus(v, b));
    LiftedPlus(size, v, b);
    LessSum(Lifted(size, b), Lifted(size, v));
    OverflowsLifted(size, b, v, Plus(v, b));
    LiftedSign(size, v);
    LiftedPositive(size, v);
  }

  // ---- overflow of 64-bit operations ------------------------------------------------------------------------------

  lemma BitsDiffer(p: bool, q: bool)
    ensures Bit(0 < Bit(p) - Bit(q)) == Bit(p != q)
  {
  }

  lemma NegativeIs(a: bv64)
    ensures SignedLess(a, 0) == TopSet(a)
  {
  }

  lemma DoubleAdded(d: bv64, v: bv64)
    ensures EvalOverflowAdd(8, v, d) == Bit(AddOverflows(8, d, v, Plus(v, d)))
  {
    hide Plus, SignedLess, SignSet, TopSet, AddOverflows, TopOverflows, Bit, EvalOverflowAdd, Lifted;
    DoubleAddAnswers(v, d);
    NegativeIs(v);
    SumLess(d, v);
    WholeLifted(d, v, Plus(v, d));
  }

  lemma DoubleAddAnswers(a: bv64, b: bv64)
    ensures EvalOverflowAdd(8, a, b) == Bit(SignedLess(a, 0) != SignedLess(Plus(a, b), b))
  {
    hide SignedLess, Bit;
    BitsDiffer(SignedLess(a, 0), SignedLess(b + a, b));
    assert Plus(a, b) == b + a;
  }

  lemma WholeSign(x: bv64) ensures SignSet(8, x) == TopSet(x) {}

  lemma WholeLifted(d: bv64, v: bv64, r: bv64)
    ensures AddOverflows(8, d, v, r) == TopOverflows(d, v, r)
  {
    hide SignSet, TopSet;
    WholeSign(d);
    WholeSign(v);
    WholeSign(r);
  }

  lemma DoubleSubtracted(d: bv64, v: bv64)
    ensures EvalOverflowSub(8, v, d) == Bit(SubOverflows(8, d, v, Minus(d, v)))
  {
    hide Plus, Minus, SignedLess, TopSet, Bit, EvalOverflowSub;
    var r := Minus(d, v);
    DoubleSubAnswers(v, d);
    NegativeIs(v);
    DifferenceOf(d, v);
    SumLess(r, v);
    WholeSub(d, v, r);
  }

  lemma DoubleSubAnswers(a: bv64, b: bv64)
    ensures EvalOverflowSub(8, a, b) == Bit(SignedLess(a, 0) != SignedLess(b, Minus(b, a)))
  {
    hide SignedLess, Bit;
    BitsDiffer(SignedLess(a, 0), SignedLess(b, b - a));
    assert Minus(b, a) == b - a;
  }

  lemma WholeSub(d: bv64, v: bv64, r: bv64)
    ensures SubOverflows(8, d, v, r) == TopOverflows(r, v, d)
  {
    hide SignSet, TopSet;
    WholeSign(d);
    WholeSign(v);
    WholeSign(r);
  }

  lemma DoubleAdced(d: bv64, v: bv64)
    ensures EvalOverflowAdc(8, v, d) == Bit(AddOverflows(8, d, v, Plus(1, Plus(v, d))))
  {
    hide Plus, TopSet, Bit, EvalOverflowAdc, HighBit;
    DoubleAdcAnswers(v, d);
    WholeLifted(d, v, Plus(1, Plus(v, d)));
    HighIs(v);
    HighIs(d);
    HighIs(Plus(1, Plus(v, d)));
    HighBits(TopSet(Plus(1, Plus(v, d))), TopSet(v));
  }

  lemma DoubleAdcAnswers(a: bv64, b: bv64)
    ensures EvalOverflowAdc(8, a, b)
      == if HighBit(a) != HighBit(b) then 0 else HighBit(Plus(1, Plus(a, b))) ^ HighBit(a)
  {
    hide HighBit;
    assert Plus(1, a + b) == b + a + 1;
  }

  lemma HighIs(a: bv64) ensures HighBit(a) == Bit(TopSet(a)) {}

  lemma HighBits(p: bool, q: bool)
    ensures Bit(p) ^ Bit(q) == Bit(p != q) && (Bit(p) == Bit(q) <==> p == q) && Bit(false) == 0
  {
  }

  // ---- overflow of narrower operations -----------------------------------------------------------------------------

  predicate WordSign(x: bv64) { 0 < x & 0x8000_0000 }

  predicate NoneAbove(z: bv64) { z & 0xffff_ffff_0000_0000 == 0 }
  predicate AllAbove(z: bv64) { z | 0xffff_ffff == 0xffff_ffff_ffff_ffff }
  predicate SignAbove(z: bv64) {
    if 0 < z & 0x8000_0000 then 0xffff_ffff_0000_0000 | z == z else z & 0xffff_ffff == z
  }

  lemma LeavesAbove(z: bv64) requires NoneAbove(z) ensures LeavesWord(z) == WordSign(z) {}
  lemma LeavesBelow(z: bv64) requires AllAbove(z) ensures LeavesWord(z) == !WordSign(z) {}
  lemma Remains(z: bv64) requires SignAbove(z) ensures !LeavesWord(z) {}

  function Positive31(x: bv64): bv64 { x & 0x7fff_ffff }
  function Negative31(x: bv64): bv64 { 0xffff_ffff_8000_0000 | x }

  lemma SextIs(x: bv64)
    ensures Sext32(x) == if WordSign(x) then Negative31(x) else Positive31(x)
  {
    if WordSign(x) {
      SextNegative(x);
    } else {
      SextPositive(x);
    }
  }

  lemma SextNegative(x: bv64) requires WordSign(x) ensures Sext32(x) == Negative31(x) {}
  lemma SextPositive(x: bv64) requires !WordSign(x) ensures Sext32(x) == Positive31(x) {}

  lemma PlusIs(x: bv64, y: bv64) ensures Plus(x, y) == x + y {}

  lemma SumPositive(u: bv64, w: bv64)
    ensures NoneAbove(Plus(Positive31(u), Positive31(w)))
  {
    hide Plus, NoneAbove;
    PlusIs(u & 0x7fff_ffff, w & 0x7fff_ffff);
    SumPositiveRaw(u, w);
  }

  lemma SumPositiveRaw(u: bv64, w: bv64) ensures NoneAbove((u & 0x7fff_ffff) + (w & 0x7fff_ffff)) {}

  lemma SumNegative(u: bv64, w: bv64)
    ensures AllAbove(Plus(Negative31(u), Negative31(w)))
  {
    hide Plus, AllAbove;
    PlusIs(0xffff_ffff_8000_0000 | u, 0xffff_ffff_8000_0000 | w);
    SumNegativeRaw(u, w);
  }

  lemma SumNegativeRaw(u: bv64, w: bv64) ensures AllAbove((0xffff_ffff_8000_0000 | u) + (0xffff_ffff_8000_0000 | w)) {}

  lemma SumMixed(u: bv64, w: bv64)
    ensures SignAbove(Plus(Positive31(u), Negative31(w)))
  {
    hide Plus, SignAbove;
    PlusIs(u & 0x7fff_ffff, 0xffff_ffff_8000_0000 | w);
    SumMixedRaw(u, w);
  }

  lemma SumMixedRaw(u: bv64, w: bv64) ensures SignAbove((u & 0x7fff_ffff) + (0xffff_ffff_8000_0000 | w)) {}

  /** The low bits of a sum depend on the low bits of its operands. */
  lemma Low32Adds(a: bv64, b: bv64, u: bv64, w: bv64)
    requires Low32(a) == Low32(u) && Low32(b) == Low32(w)
    ensures Low32(Plus(a, b)) == Low32(Plus(u, w))
  {
    hide Low32, Plus;
    Low32Sum(a, b);
    Low32Sum(u, w);
  }

  lemma Low32Sext(u: bv64)
    ensures Low32(Sext32(u)) == Low32(u)
  {
    hide Sext32, Low32;
    SextIs(u);
    Low32Parts(u);
  }

  lemma Low32Parts(u: bv64)
    ensures WordSign(u) ==> Low32(Negative31(u)) == Low32(u)
    ensures !WordSign(u) ==> Low32(Positive31(u)) == Low32(u)
  {
    if WordSign(u) {
      Low32Negative(u);
    } else {
      Low32Positive(u);
    }
  }

  lemma Low32Negative(u: bv64) requires WordSign(u) ensures Low32(Negative31(u)) == Low32(u) {}

  lemma Low32Positive(u: bv64)
    requires !WordSign(u)
    ensures Low32(Positive31(u)) == Low32(u)
  {
    hide Low32;
    Low32Cut(u);
  }

  lemma Low32Cut(u: bv64)
    requires !WordSign(u)
    ensures Low32(u & 0x7fff_ffff) == Low32(u)
  {
  }

  lemma WordSignLow(x: bv64) ensures WordSign(x) == WordSign(Low32(x)) {}

  lemma LowIs(u: bv64) ensures Low32(u) == u & 0xffff_ffff {}

  lemma Low32Sum(u: bv64, w: bv64)
    ensures Low32(Plus(u, w)) == Low32(Plus(Low32(u), Low32(w)))
  {
    hide Plus, Low32;
    LowIs(u);
    LowIs(w);
    PlusIs(u, w);
    PlusIs(u & 0xffff_ffff, w & 0xffff_ffff);
    Low32Raw(u, w);
  }

  lemma Low32Raw(u: bv64, w: bv64)
    ensures Low32(u + w) == Low32((u & 0xffff_ffff) + (w & 0xffff_ffff))
  {
  }

  predicate WordOverflows(b: bv64, v: bv64, sum: bv64) { WordSign(b) == WordSign(v) && WordSign(sum) != WordSign(b) }

  /** Where the bits above the sign show the exact sum or difference. */
  ghost predicate Shows(z: bv64, up: bool, down: bool) {
    if up then NoneAbove(z) else if down then AllAbove(z) else SignAbove(z)
  }

  lemma ShownLeaves(z: bv64, up: bool, down: bool)
    requires Shows(z, up, down)
    ensures LeavesWord(z) == if up then WordSign(z) else down && !WordSign(z)
  {
    hide LeavesWord, WordSign, NoneAbove, AllAbove, SignAbove;
    if up {
      LeavesAbove(z);
    } else if down {
      LeavesBelow(z);
    } else {
      Remains(z);
    }
  }

  lemma WordAdded(u: bv64, w: bv64)
    ensures LeavesWord(Plus(Sext32(u), Sext32(w))) == WordOverflows(w, u, Plus(u, w))
  {
    hide LeavesWord, WordSign, Plus, Positive31, Negative31, Sext32, NoneAbove, AllAbove, SignAbove, Low32;
    SextIs(u);
    SextIs(w);
    var z := Plus(Sext32(u), Sext32(w));
    SumPositive(u, w);
    SumNegative(u, w);
    SumMixed(u, w);
    SumMixed(w, u);
    Swapped(Negative31(u), Positive31(w));
    ShownLeaves(z, !WordSign(u) && !WordSign(w), WordSign(u) && WordSign(w));
    Low32Sext(u);
    Low32Sext(w);
    Low32Adds(Sext32(u), Sext32(w), u, w);
    WordSignLow(z);
    WordSignLow(Plus(u, w));
  }

  lemma WordAdced(u: bv64, w: bv64)
    ensures LeavesWord(Plus(Sext32(u), Plus(Sext32(w), 1))) == WordOverflows(w, u, Plus(1, Plus(u, w)))
  {
    hide LeavesWord, WordSign, Plus, Positive31, Negative31, Sext32, NoneAbove, AllAbove, SignAbove, Low32;
    SextIs(u);
    SextIs(w);
    var z := Plus(Sext32(u), Plus(Sext32(w), 1));
    MorePositive(u, w);
    MoreNegative(u, w);
    MoreFirst(u, w);
    MoreSecond(u, w);
    ShownLeaves(z, !WordSign(u) && !WordSign(w), WordSign(u) && WordSign(w));
    Low32Sext(u);
    Low32Sext(w);
    Low32Adds(Sext32(w), 1, w, 1);
    Low32Adds(Sext32(u), Plus(Sext32(w), 1), u, Plus(w, 1));
    OneMore(w, u);
    Swapped(w, 1);
    WordSignLow(z);
    WordSignLow(Plus(1, Plus(u, w)));
  }

  lemma WordSubtracted(w: bv64, u: bv64)
    ensures LeavesWord(Minus(Sext32(w), Sext32(u)))
      == (WordSign(w) != WordSign(u) && WordSign(Minus(w, u)) != WordSign(w))
  {
    hide LeavesWord, WordSign, Plus, Minus, Positive31, Negative31, Sext32, NoneAbove, AllAbove, SignAbove, Low32;
    SextIs(u);
    SextIs(w);
    var z := Minus(Sext32(w), Sext32(u));
    LessPositive(w, u);
    LessNegative(w, u);
    LessFirst(w, u);
    LessSecond(w, u);
    ShownLeaves(z, !WordSign(w) && WordSign(u), WordSign(w) && !WordSign(u));
    Low32Sext(u);
    Low32Sext(w);
    Low32Subtracts(Sext32(w), Sext32(u), w, u);
    WordSignLow(z);
    WordSignLow(Minus(w, u));
  }

  lemma Low32Subtracts(a: bv64, b: bv64, u: bv64, w: bv64)
    requires Low32(a) == Low32(u) && Low32(b) == Low32(w)
    ensures Low32(Minus(a, b)) == Low32(Minus(u, w))
  {
    hide Low32, Minus;
    Low32Difference(a, b);
    Low32Difference(u, w);
  }

  lemma Low32Difference(u: bv64, w: bv64)
    ensures Low32(Minus(u, w)) == Low32(Minus(Low32(u), Low32(w)))
  {
    hide Minus, Low32;
    LowIs(u);
    LowIs(w);
    MinusIs(u, w);
    MinusIs(u & 0xffff_ffff, w & 0xffff_ffff);
    Low32DifferenceRaw(u, w);
  }

  lemma Low32DifferenceRaw(u: bv64, w: bv64)
    ensures Low32(u - w) == Low32((u & 0xffff_ffff) - (w & 0xffff_ffff))
  {
  }

  lemma MinusIs(x: bv64, y: bv64) ensures Minus(x, y) == x - y {}

  lemma MorePositive(u: bv64, w: bv64)
    ensures NoneAbove(Plus(Positive31(u), Plus(Positive31(w), 1)))
  {
    hide Plus, NoneAbove;
    PlusIs(w & 0x7fff_ffff, 1);
    MorePositiveSum(u, w);
  }

  lemma MorePositiveSum(u: bv64, w: bv64)
    ensures NoneAbove(Plus(u & 0x7fff_ffff, (w & 0x7fff_ffff) + 1))
  {
  }

  lemma MoreNegative(u: bv64, w: bv64)
    ensures AllAbove(Plus(Negative31(u), Plus(Negative31(w), 1)))
  {
    hide Plus, AllAbove;
    PlusIs(0xffff_ffff_8000_0000 | w, 1);
    MoreNegativeSum(u, w);
  }

  lemma MoreNegativeSum(u: bv64, w: bv64)
    ensures AllAbove(Plus(0xffff_ffff_8000_0000 | u, (0xffff_ffff_8000_0000 | w) + 1))
  {
  }

  lemma MoreFirst(u: bv64, w: bv64)
    ensures SignAbove(Plus(Positive31(u), Plus(Negative31(w), 1)))
  {
    hide Plus, SignAbove;
    PlusIs(0xffff_ffff_8000_0000 | w, 1);
    MoreFirstSum(u, w);
  }

  lemma MoreFirstSum(u: bv64, w: bv64)
    ensures SignAbove(Plus(u & 0x7fff_ffff, (0xffff_ffff_8000_0000 | w) + 1))
  {
  }

  lemma MoreSecond(u: bv64, w: bv64)
    ensures SignAbove(Plus(Negative31(u), Plus(Positive31(w), 1)))
  {
    hide Plus, SignAbove;
    PlusIs(w & 0x7fff_ffff, 1);
    MoreSecondSum(u, w);
  }

  lemma MoreSecondSum(u: bv64, w: bv64)
    ensures SignAbove(Plus(0xffff_ffff_8000_0000 | u, (w & 0x7fff_ffff) + 1))
  {
  }

  lemma LessPositive(u: bv64, w: bv64)
    ensures SignAbove(Minus(Positive31(u), Positive31(w)))
  {
    hide Minus, SignAbove;
    MinusIs(u & 0x7fff_ffff, w & 0x7fff_ffff);
    LessPositiveRaw(u, w);
  }

  lemma LessPositiveRaw(u: bv64, w: bv64) ensures SignAbove((u & 0x7fff_ffff) - (w & 0x7fff_ffff)) {}

  lemma LessNegative(u: bv64, w: bv64)
    ensures SignAbove(Minus(Negative31(u), Negative31(w)))
  {
    hide Minus, SignAbove;
    MinusIs(0xffff_ffff_8000_0000 | u, 0xffff_ffff_8000_0000 | w);
    LessNegativeRaw(u, w);
  }

  lemma LessNegativeRaw(u: bv64, w: bv64)
    ensures SignAbove((0xffff_ffff_8000_0000 | u) - (0xffff_ffff_8000_0000 | w))
  {
  }

  lemma LessFirst(u: bv64, w: bv64)
    ensures NoneAbove(Minus(Positive31(u), Negative31(w)))
  {
    hide Minus, NoneAbove;
    MinusIs(u & 0x7fff_ffff, 0xffff_ffff_8000_0000 | w);
    LessFirstRaw(u, w);
  }

  lemma LessFirstRaw(u: bv64, w: bv64) ensures NoneAbove((u & 0x7fff_ffff) - (0xffff_ffff_8000_0000 | w)) {}

  lemma LessSecond(u: bv64, w: bv64)
    ensures AllAbove(Minus(Negative31(u), Positive31(w)))
  {
    hide Minus, AllAbove;
    MinusIs(0xffff_ffff_8000_0000 | u, w & 0x7fff_ffff);
    LessSecondRaw(u, w);
  }

  lemma LessSecondRaw(u: bv64, w: bv64) ensures AllAbove((0xffff_ffff_8000_0000 | u) - (w & 0x7fff_ffff)) {}

  /** An operand moved to the top of a 32-bit word. */
  function Moved(size: nat, x: bv64): bv64 { if size == 4 then x else if size == 2 then Up16(x) else Up24(x) }

  lemma RaisedIs(size: nat, x: bv64)
    ensures Raised(size, x) == if size == 4 then Sext32(x) else Sext32(Moved(size, x))
  {
    hide Sext32, Sext16, Sext8;
    Sext16Moved(x);
    Sext8Moved(x);
  }

  function OnesFrom16(x: bv64): bv64 { 0xffff_ffff_ffff_0000 | x }
  function OnesFrom32(x: bv64): bv64 { 0xffff_ffff_0000_0000 | x }

  lemma Sext16Moved(x: bv64)
    ensures Up16(Sext16(x)) == Sext32(Up16(x))
  {
    hide Up16, OnesFrom16, OnesFrom32, Low16, Low32, Sext16, Sext32, WordSign;
    SextForms(x);
    SextForms(Up16(x));
    MovedForms(x);
  }

  lemma SextForms(x: bv64)
    ensures Sext16(x) == if 0 < x & 0x8000 then OnesFrom16(x) else Low16(x)
    ensures Sext32(x) == if WordSign(x) then OnesFrom32(x) else Low32(x)
  {
  }

  lemma MovedForms(x: bv64)
    ensures Up16(OnesFrom16(x)) == OnesFrom32(Up16(x)) && Up16(Low16(x)) == Low32(Up16(x))
    ensures WordSign(Up16(x)) == (0 < x & 0x8000)
  {
  }

  lemma Sext8Moved(x: bv64) ensures Up24(Sext8(x)) == Sext32(Up24(x)) {}

  lemma MovedPlus(size: nat, x: bv64, y: bv64)
    ensures Moved(size, Plus(x, y)) == Plus(Moved(size, x), Moved(size, y))
  {
    hide Plus, Up16, Up24;
    Up16Plus(x, y);
    Up24Plus(x, y);
  }

  lemma Up16Plus(x: bv64, y: bv64)
    ensures Up16(Plus(x, y)) == Plus(Up16(x), Up16(y))
  {
    assert Up16(x + y) == (x + y) << 16;
    assert Plus(x << 16, y << 16) == (x << 16) + (y << 16);
    RawMoves(x, y);
  }

  lemma Up24Plus(x: bv64, y: bv64)
    ensures Up24(Plus(x, y)) == Plus(Up24(x), Up24(y))
  {
    assert Up24(x + y) == (x + y) << 24;
    assert Plus(x << 24, y << 24) == (x << 24) + (y << 24);
    RawMoves(x, y);
  }

  lemma RawMoves(x: bv64, y: bv64)
    ensures (x + y) << 16 == (x << 16) + (y << 16) && (x + y) << 24 == (x << 24) + (y << 24)
  {
  }

  lemma MovedSign(size: nat, x: bv64)
    requires IsSize(size) && size != 8
    ensures WordSign(Moved(size, x)) == SignSet(size, x)
  {
    hide WordSign, Up16, Up24, SignSet;
    SetSigns(size, x);
    WordSigns(x);
  }

  lemma WordSigns(x: bv64)
    ensures WordSign(Up16(x)) == (0 < x & 0x8000) && WordSign(Up24(x)) == (0 < x & 0x80)
    ensures WordSign(x) == (0 < x & 0x8000_0000)
  {
  }

  lemma NarrowAdded(size: nat, d: bv64, v: bv64)
    requires IsSize(size) && size != 8
    ensures EvalOverflowAdd(size, v, d) == Bit(AddOverflows(size, d, v, Plus(v, d)))
  {
    hide Plus, LeavesWord, Raised, Sext32, Moved, WordSign, SignSet, Bit, EvalOverflowAdd;
    NarrowAddAnswers(size, v, d);
    RaisedIs(size, v);
    RaisedIs(size, d);
    WordMoved(v);
    WordMoved(d);
    WordAdded(Moved(size, v), Moved(size, d));
    MovedPlus(size, v, d);
    MovedSign(size, v);
    MovedSign(size, d);
    MovedSign(size, Plus(v, d));
  }

  lemma WordMoved(x: bv64) ensures Moved(4, x) == x {}

  lemma NarrowAddAnswers(size: nat, a: bv64, b: bv64)
    requires size != 8
    ensures EvalOverflowAdd(size, a, b) == Bit(LeavesWord(Plus(Raised(size, a), Raised(size, b))))
  {
  }

  lemma NarrowSubtracted(size: nat, d: bv64, v: bv64)
    requires IsSize(size) && size != 8
    ensures EvalOverflowSub(size, v, d) == Bit(SubOverflows(size, d, v, Minus(d, v)))
  {
    hide Plus, Minus, LeavesWord, Raised, Sext32, Moved, WordSign, SignSet, Bit, EvalOverflowSub;
    NarrowSubAnswers(size, v, d);
    RaisedIs(size, v);
    RaisedIs(size, d);
    WordMoved(v);
    WordMoved(d);
    WordSubtracted(Moved(size, d), Moved(size, v));
    MovedMinus(size, d, v);
    MovedSign(size, v);
    MovedSign(size, d);
    MovedSign(size, Minus(d, v));
  }

  lemma MovedMinus(size: nat, x: bv64, y: bv64)
    ensures Moved(size, Minus(x, y)) == Minus(Moved(size, x), Moved(size, y))
  {
    hide Plus, Minus, Moved;
    DifferenceOf(x, y);
    MovedPlus(size, Minus(x, y), y);
    TakenBack(Moved(size, Minus(x, y)), Moved(size, y));
  }

  lemma TakenBack(x: bv64, y: bv64)
    ensures Minus(Plus(x, y), y) == x
  {
    assert Minus(x + y, y) == x;
  }

  lemma NarrowSubAnswers(size: nat, a: bv64, b: bv64)
    requires size != 8
    ensures EvalOverflowSub(size, a, b) == Bit(LeavesWord(Minus(Raised(size, b), Raised(size, a))))
  {
  }

  // ---- with a carry, below 64 bits -------------------------------------------------------------------------------

  lemma NarrowAdcAnswers(size: nat, a: bv64, b: bv64)
    requires size != 8
    ensures EvalOverflowAdc(size, a, b) == Bit(LeavesWord(Plus(Raised(size, a), RaisedPlus1(size, b))))
  {
  }

  /** Half the weight of its lowest bit added to a moved operand leaves its sign alone. */
  lemma HalvesSigns(x: bv64)
    ensures WordSign(Plus(Up16(x), 0x8000)) == WordSign(Up16(x))
    ensures WordSign(Plus(Up24(x), 0x80_0000)) == WordSign(Up24(x))
  {
  }

  lemma HalfSext(x: bv64)
    ensures Sext32(Plus(Up16(x), 0x8000)) == Plus(Sext32(Up16(x)), 0x8000)
  {
    hide Sext32, Plus, WordSign;
    HalvesSigns(x);
    SextIs(Plus(Up16(x), 0x8000));
    SextIs(Up16(x));
    HalfForms(x);
  }

  lemma HalfForms(x: bv64)
    ensures Negative31(Plus(Up16(x), 0x8000)) == Plus(Negative31(Up16(x)), 0x8000)
    ensures Positive31(Plus(Up16(x), 0x8000)) == Plus(Positive31(Up16(x)), 0x8000)
  {
  }

  lemma QuarterSext(x: bv64)
    ensures Sext32(Plus(Up24(x), 0x80_0000)) == Plus(Sext32(Up24(x)), 0x80_0000)
  {
  }

  lemma MoreRaised(x: bv64)
    ensures RaisedPlus1(4, x) == Plus(Sext32(x), 1) && RaisedPlus1(2, x) == Plus(Sext32(Up16(x)), 0x1_0000)
    ensures RaisedPlus1(1, x) == Plus(Sext32(Up24(x)), 0x100_0000)
  {
    hide Plus, Sext32, Sext16, Sext8, Up16, Up24;
    Sext16Moved(x);
    Sext8Moved(x);
    Up16Plus(Sext16(x), 1);
    Up24Plus(Sext8(x), 1);
    OneMoved();
  }

  lemma OneMoved() ensures Up16(1) == 0x1_0000 && Up24(1) == 0x100_0000 {}

  /** Adding the half to both operands adds the carry. */
  lemma Halves(u: bv64, w: bv64, h: bv64)
    ensures Plus(u, Plus(w, Plus(h, h))) == Plus(Plus(u, h), Plus(w, h))
  {
    hide Plus;
    Grouped(u, h, Plus(w, h));
    Grouped(h, w, h);
    Grouped(w, h, h);
    Swapped(h, w);
  }

  lemma Grouped(x: bv64, y: bv64, z: bv64)
    ensures Plus(Plus(x, y), z) == Plus(x, Plus(y, z))
  {
    assert Plus(x + y, z) == x + y + z;
    assert Plus(x, y + z) == x + y + z;
  }

  lemma HalfAdced(d: bv64, v: bv64)
    ensures EvalOverflowAdc(2, v, d) == Bit(AddOverflows(2, d, v, Plus(1, Plus(v, d))))
  {
    hide Plus, LeavesWord, Raised, RaisedPlus1, Sext32, Up16, WordSign, SignSet, Bit, EvalOverflowAdc;
    var u, w := Up16(v), Up16(d);
    NarrowAdcAnswers(2, v, d);
    RaisedIs(2, v);
    MoreRaised(d);
    HalfSext(v);
    HalfSext(d);
    TwoHalves();
    Halves(Sext32(u), Sext32(w), 0x8000);
    WordAdded(Plus(u, 0x8000), Plus(w, 0x8000));
    Halves(u, w, 0x8000);
    HalvesSigns(v);
    HalvesSigns(d);
    OneMoved();
    AdcMoved(2, d, v);
    MovedSign(2, v);
    MovedSign(2, d);
    MovedSign(2, Plus(1, Plus(v, d)));
  }

  lemma TwoHalves() ensures Plus(0x8000, 0x8000) == 0x1_0000 && Plus(0x80_0000, 0x80_0000) == 0x100_0000 {}

  lemma AdcMoved(size: nat, d: bv64, v: bv64)
    ensures Moved(size, Plus(1, Plus(v, d))) == Plus(Moved(size, v), Plus(Moved(size, d), Moved(size, 1)))
  {
    hide Plus, Moved;
    OneMore(d, v);
    Swapped(1, d);
    MovedPlus(size, v, Plus(d, 1));
    MovedPlus(size, d, 1);
  }

  lemma ByteAdced(d: bv64, v: bv64)
    ensures EvalOverflowAdc(1, v, d) == Bit(AddOverflows(1, d, v, Plus(1, Plus(v, d))))
  {
    hide Plus, LeavesWord, Raised, RaisedPlus1, Sext32, Up24, WordSign, SignSet, Bit, EvalOverflowAdc;
    var u, w := Up24(v), Up24(d);
    NarrowAdcAnswers(1, v, d);
    RaisedIs(1, v);
    MoreRaised(d);
    QuarterSext(v);
    QuarterSext(d);
    TwoHalves();
    Halves(Sext32(u), Sext32(w), 0x80_0000);
    WordAdded(Plus(u, 0x80_0000), Plus(w, 0x80_0000));
    Halves(u, w, 0x80_0000);
    HalvesSigns(v);
    HalvesSigns(d);
    OneMoved();
    AdcMoved(1, d, v);
    MovedSign(1, v);
    MovedSign(1, d);
    MovedSign(1, Plus(1, Plus(v, d)));
  }

  lemma FullAdced(d: bv64, v: bv64)
    ensures EvalOverflowAdc(4, v, d) == Bit(AddOverflows(4, d, v, Plus(1, Plus(v, d))))
  {
    hide Plus, LeavesWord, Raised, RaisedPlus1, Sext32, WordSign, SignSet, Bit, EvalOverflowAdc;
    NarrowAdcAnswers(4, v, d);
    RaisedIs(4, v);
    MoreRaised(d);
    WordAdced(v, d);
    MovedSign(4, v);
    MovedSign(4, d);
    MovedSign(4, Plus(1, Plus(v, d)));
  }

  // ---- the evaluators ---------------------------------------------------------------------------------------------

  lemma OverflowAdded(size: nat, d: bv64, v: bv64)
    requires IsSize(size)
    ensures EvalOverflowAdd(size, v, d) == Bit(AddOverflows(size, d, v, Plus(v, d)))
  {
    hide Plus, AddOverflows, EvalOverflowAdd;
    if size == 8 {
      DoubleAdded(d, v);
    } else {
      NarrowAdded(size, d, v);
    }
  }

  lemma OverflowAdced(size: nat, d: bv64, v: bv64)
    requires IsSize(size)
    ensures EvalOverflowAdc(size, v, d) == Bit(AddOverflows(size, d, v, Plus(1, Plus(v, d))))
  {
    hide Plus, AddOverflows, EvalOverflowAdc;
    if size == 8 {
      DoubleAdced(d, v);
    } else if size == 4 {
      FullAdced(d, v);
    } else if size == 2 {
      HalfAdced(d, v);
    } else {
      ByteAdced(d, v);
    }
  }

  lemma OverflowSubtracted(size: nat, d: bv64, v: bv64)
    requires IsSize(size)
    ensures EvalOverflowSub(size, v, d) == Bit(SubOverflows(size, d, v, Minus(d, v)))
  {
    hide Minus, SubOverflows, EvalOverflowSub;
    if size == 8 {
      DoubleSubtracted(d, v);
    } else {
      NarrowSubtracted(size, d, v);
    }
  }

  lemma CarrySymmetric(size: nat, d: bv64, v: bv64)
    ensures AddCarries(size, v, d, 0) == AddCarries(size, d, v, 0)
  {
    hide Plus, Lifted, TopSet, CarryOut, Below, EvalCarryAdd, AddCarries, ZeroExtend;
    SumOf(d, v);
    CarryAdded(size, d, v);
    CarryAdded(size, v, d);
    AddAnswers(size, v, Plus(v, d));
    AddAnswers(size, d, Plus(d, v));
    WrapsAt(size, d, v, Plus(v, d));
    WrapsAt(size, v, d, Plus(v, d));
    CarryTop(Lifted(size, d), Lifted(size, v), Lifted(size, Plus(v, d)));
    CarryTop(Lifted(size, v), Lifted(size, d), Lifted(size, Plus(v, d)));
    SameBit(AddCarries(size, v, d, 0), AddCarries(size, d, v, 0));
  }

  lemma SameBit(p: bool, q: bool) ensures Bit(p) == Bit(q) <==> p == q {}

  lemma NothingOverflows(size: nat, b: bv64, v: bv64)
    requires IsSize(size) && !Positive(ZeroExtend(size, v))
    ensures !AddOverflows(size, b, v, Plus(v, b)) && !SignSet(size, v)
  {
    hide Plus, Lifted, TopSet, SignSet, AddOverflows, ZeroExtend, Positive;
    OverflowsLifted(size, b, v, Plus(v, b));
    LiftedPlus(size, v, b);
    LiftedSign(size, v);
    LiftedPositive(size, v);
    ZeroTop(Lifted(size, v));
    SameSum(Lifted(size, b), Lifted(size, v));
  }

  lemma ZeroTop(x: bv64) requires !(0 < x) ensures !TopSet(x) {}

  /** Whether the sign that chooses the evaluator is wrong. */
  predicate WrongSign(negative: bool, size: nat, v: bv64) {
    negative != SignSet(size, v) && Positive(ZeroExtend(size, v))
  }

  /** The evaluators for constants answer the overflow exactly for constants of the sign they are for, and for 0. */
  lemma OverflowConstant(size: nat, b: bv64, v: bv64, negative: bool)
    requires IsSize(size)
    ensures var r := Plus(v, b);
      (if negative then EvalOverflowNeg(size, b, r) else EvalOverflowPos(size, b, r))
        == Bit(AddOverflows(size, b, v, r) != WrongSign(negative, size, v))
  {
    hide Plus, SignSet, AddOverflows, ZeroExtend, Positive, EvalOverflowNeg, EvalOverflowPos, Bit;
    OverflowRising(size, b, v);
    OverflowFalling(size, b, v);
    if !Positive(ZeroExtend(size, v)) {
      NothingOverflows(size, b, v);
    }
  }

  lemma SubIsAdd(size: nat, d: bv64, v: bv64, r: bv64)
    ensures SubOverflows(size, d, v, r) == AddOverflows(size, r, v, d)
  {
    hide SignSet;
  }

  /** Subtracting a constant asks the evaluators the other way round. */
  lemma OverflowTakenConstant(size: nat, d: bv64, v: bv64, negative: bool)
    requires IsSize(size)
    ensures var r := Minus(d, v);
      (if negative then EvalOverflowPos(size, d, r) else EvalOverflowNeg(size, d, r))
        == Bit(SubOverflows(size, d, v, r) != WrongSign(negative, size, v))
  {
    hide Plus, Minus, AddOverflows, SubOverflows, WrongSign, EvalOverflowNeg, EvalOverflowPos, Bit;
    var r := Minus(d, v);
    DifferenceOf(d, v);
    OverflowConstant(size, r, v, negative);
    SubIsAdd(size, d, v, r);
    Mirrored(size, d, r);
    Mirrored(size, r, d);
  }

  lemma Mirrored(size: nat, x: bv64, y: bv64)
    ensures EvalOverflowPos(size, x, y) == EvalOverflowNeg(size, y, x)
  {
    hide SignExtend, SignedLess, Bit;
  }

  /** A value added to itself carries its sign bit out, with or without a carry in. */
  lemma DoubledCarry(size: nat, d: bv64, c: bv64)
    requires IsSize(size) && IsBit(c)
    ensures AddCarries(size, d, d, c) == SignSet(size, d)
  {
    hide Plus, Not64, Lifted, TopSet, CarryOut, Below, AddCarries, SignSet, Bit, EvalCarryAdd, EvalCarryAdc;
    LiftedSign(size, d);
    if 0 < c {
      OneIs(c);
      var r := Plus(1, Plus(d, d));
      SumOfThree(d, d);
      CarryAdced(size, d, d);
      AdcAnswers(size, d, r);
      WrapsAt(size, Not64(d), r, d);
      LiftedNot(size, d);
      CarryTop(Lifted(size, Not64(d)), Lifted(size, r), Lifted(size, d));
      SameBit(AddCarries(size, d, d, 1), !Below(ZeroExtend(size, d), ZeroExtend(size, r)));
    } else {
      NoneIs(c);
      CarryAdded(size, d, d);
      AddAnswers(size, d, Plus(d, d));
      WrapsAt(size, d, d, Plus(d, d));
      CarryTop(Lifted(size, d), Lifted(size, d), Lifted(size, Plus(d, d)));
      SameBit(AddCarries(size, d, d, 0), Below(ZeroExtend(size, Plus(d, d)), ZeroExtend(size, d)));
    }
  }

  lemma OneIs(c: bv64) requires IsBit(c) && 0 < c ensures c == 1 {}
  lemma NoneIs(c: bv64) requires !(0 < c) ensures c == 0 {}

  // ---- the difference taken the other way round -------------------------------------------------------------------

  const Lowest: bv64 := 0x8000_0000_0000_0000

  lemma Negated(p: bv64)
    ensures TopSet(0 - p) == (TopSet(p) == !(0 < p << 1))
  {
    if 0 < p << 1 {
      NegatedSome(p);
    } else {
      NegatedNone(p);
    }
  }

  lemma NegatedSome(p: bv64) requires 0 < p << 1 ensures TopSet(0 - p) == !TopSet(p) {}
  lemma NegatedNone(p: bv64) requires !(0 < p << 1) ensures TopSet(0 - p) == TopSet(p) {}

  lemma LowestIs(p: bv64)
    ensures p == Lowest <==> TopSet(p) && !(0 < p << 1)
    ensures p == 0 <==> !TopSet(p) && !(0 < p << 1)
  {
  }

  lemma LowestAdded(x: bv64) ensures TopSet(Plus(Lowest, x)) == !TopSet(x) && Plus(0, x) == x {}

  lemma OppositeSum(p: bv64, q: bv64)
    requires Plus(q, p) == 0
    ensures q == 0 - p
  {
    TakenBack(q, p);
  }

  lemma Opposite(l: bv64, r: bv64)
    ensures Plus(Minus(r, l), Minus(l, r)) == 0
  {
    assert Plus(r - l, l - r) == 0;
  }

  lemma LiftedLowest(size: nat, p: bv64)
    requires IsSize(size)
    ensures Lifted(size, p) == Lowest <==> ZeroExtend(size, p) == TopMask(size)
    ensures Lifted(size, 0) == 0
  {
    if size == 4 {
      Lowest4(p);
    } else if size == 2 {
      Lowest2(p);
    } else if size == 1 {
      Lowest1(p);
    }
  }

  lemma Lowest4(p: bv64) ensures p << 32 == Lowest <==> p & 0xffff_ffff == 0x8000_0000 {}
  lemma Lowest2(p: bv64) ensures p << 48 == Lowest <==> p & 0xffff == 0x8000 {}
  lemma Lowest1(p: bv64) ensures p << 56 == Lowest <==> p & 0xff == 0x80 {}

  /** Tops of l, r, of their difference, and of the opposite difference. */
  lemma OppositeTops(l: bv64, r: bv64, p: bv64, q: bv64)
    requires Plus(p, r) == l && Plus(q, p) == 0
    ensures p == Lowest ==> TopSet(p) && TopSet(q) && TopSet(l) != TopSet(r)
    ensures p != Lowest && TopSet(l) != TopSet(r) ==> TopSet(q) == !TopSet(p)
  {
    hide TopSet, Plus;
    OppositeSum(p, q);
    Negated(p);
    LowestIs(p);
    LowestAdded(r);
  }

  /** A difference and its opposite overflow alike, unless it is the most negative value. */
  lemma OppositeOverflow(size: nat, l: bv64, r: bv64)
    requires IsSize(size)
    ensures SubOverflows(size, r, l, Minus(r, l)) == SubOverflows(size, l, r, Minus(l, r))
      <==> ZeroExtend(size, Minus(l, r)) != TopMask(size)
  {
    hide TopSet, SignSet, Plus, Minus, Lifted, ZeroExtend, TopMask;
    var p, q := Minus(l, r), Minus(r, l);
    DifferenceOf(l, r);
    Opposite(l, r);
    LiftedPlus(size, p, r);
    LiftedPlus(size, q, p);
    LiftedLowest(size, p);
    OppositeTops(Lifted(size, l), Lifted(size, r), Lifted(size, p), Lifted(size, q));
    LiftedSign(size, l);
    LiftedSign(size, r);
    LiftedSign(size, p);
    LiftedSign(size, q);
  }
}
