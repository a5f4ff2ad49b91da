/** The lazily stored zero, sign and parity state reads back as the flags of the result. */
module EagerFlags {
  import opened RiscV
  import opened Machine
  import opened Bits
  import opened FlagState
  import opened FlagUpdates
  import opened Narrowing

  /** The flags of a result at its width (section 3.4.3.1 of Intel SDM Volume 1). */
  function EagerZero(size: nat, v: bv64): bv64 { Bit(IsZero(ZeroExtend(size, v))) }

  function EagerSign(size: nat, v: bv64): bv64 { Bit(0 < v & TopMask(size)) }

  function EagerParity(v: bv64): bv64 { Bit(EvenOnes((v & 0xff) as bv8)) }

  lemma ZeroReads(c: Context, size: nat, v: bv64)
    requires c.zeroValue == ZeroExtend(size, v)
    ensures ZeroBit(c) == EagerZero(size, v)
  {
  }

  lemma ParityReads(c: Context, v: bv64)
    requires c.parityValue == (v & 0xff) as bv8
    ensures ParityBit(c) == EagerParity(v)
  {
    hide EvenOnes;
  }

  function Downed(size: nat, v: bv64): bv64 {
    if size == 8 then v >> 63 else if size == 4 then v >> 31 else if size == 2 then v >> 15 else v >> 7
  }

  lemma SignShift(size: nat, v: bv64)
    requires IsSize(size)
    ensures Shifted6(v, TopBitByte(size) as bv64) == Downed(size, v)
  {
    hide Shr;
    Shr63(v);
    Shr31(v);
    Shr15(v);
    Shr7(v);
    Amounts();
  }

  lemma Amounts()
    ensures (63 as bv64 & 0x3f) as nat == 63 && (31 as bv64 & 0x3f) as nat == 31
    ensures (15 as bv64 & 0x3f) as nat == 15 && (7 as bv64 & 0x3f) as nat == 7
  {
  }

  lemma Top63(v: bv64)
    ensures And(v >> 63, 1) == Bit(0 < v & 0x8000_0000_0000_0000)
  {
    assert And(v >> 63, 1) == (v >> 63) & 1;
  }
  lemma Top31(v: bv64) ensures And(v >> 31, 1) == Bit(0 < v & 0x8000_0000) { assert And(v >> 31, 1) == (v >> 31) & 1; }
  lemma Top15(v: bv64) ensures And(v >> 15, 1) == Bit(0 < v & 0x8000) { assert And(v >> 15, 1) == (v >> 15) & 1; }
  lemma Top7(v: bv64) ensures And(v >> 7, 1) == Bit(0 < v & 0x80) { assert And(v >> 7, 1) == (v >> 7) & 1; }

  lemma TopBitOf(size: nat, v: bv64)
    requires IsSize(size)
    ensures And(Downed(size, v), 1) == EagerSign(size, v)
  {
    hide And, Bit;
    if size == 8 {
      Top63(v);
    } else if size == 4 {
      Top31(v);
    } else if size == 2 {
      Top15(v);
    } else {
      Top7(v);
    }
  }

  lemma SignReads(c: Context, size: nat, v: bv64)
    requires IsSize(size) && c.signValue == v && c.signSize == TopBitByte(size)
    ensures SignBit(c) == EagerSign(size, v)
  {
    hide Shifted6, And, TopBitByte, Downed, EagerSign;
    SignShift(size, v);
    TopBitOf(size, v);
  }

  lemma TopKept(v: bv64)
    ensures Low32(v) & 0x8000_0000 == v & 0x8000_0000 && Low16(v) & 0x8000 == v & 0x8000 && Low8(v) & 0x80 == v & 0x80
  {
  }

  lemma ParityKept(v: bv64)
    ensures Low32(v) & 0xff == v & 0xff && Low16(v) & 0xff == v & 0xff && Low8(v) & 0xff == v & 0xff
  {
  }

  lemma SignNarrow(size: nat, v: bv64)
    requires IsSize(size)
    ensures EagerSign(size, v) == EagerSign(size, ZeroExtend(size, v))
  {
    hide Bit, Low8, Low16, Low32;
    TopKept(v);
  }

  lemma ParityNarrow(size: nat, v: bv64)
    requires IsSize(size)
    ensures EagerParity(v) == EagerParity(ZeroExtend(size, v))
  {
    hide EvenOnes, Bit, Low8, Low16, Low32;
    ParityKept(v);
  }

  /** The flags of a result depend on its low bits only. */
  lemma EagerNarrow(size: nat, v: bv64)
    requires IsSize(size)
    ensures EagerZero(size, v) == EagerZero(size, ZeroExtend(size, v))
    ensures EagerSign(size, v) == EagerSign(size, ZeroExtend(size, v))
    ensures EagerParity(v) == EagerParity(ZeroExtend(size, v))
  {
    hide EagerSign, EagerParity, ZeroExtend, Bit, IsZero;
    NarrowTwice(size, v);
    SignNarrow(size, v);
    ParityNarrow(size, v);
  }
}
