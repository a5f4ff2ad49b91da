/**
 Facts about the machine's shifts: by induction on the amount for variable shifts, and
 for the constant amounts the emitters use, their reading as ordinary shifts.  Bit
 operations appear as named functions, so that the inductive proofs are equational.
 */
module Bits {
  import opened RiscV

  function AllOnes(): bv64 { 0xffff_ffff_ffff_ffff }

  predicate Odd(x: bv64) { 0 < x & 1 }
  predicate IsZero(x: bv64) { x < 1 }

  lemma {:induction false} ShlAdd(x: bv64, a: nat, b: nat)
    ensures Shl(Shl(x, a), b) == Shl(x, a + b)
  {
    if b > 0 {
      ShlAdd(x, a, b - 1);
    }
  }

  lemma {:induction false} ShrAdd(x: bv64, a: nat, b: nat)
    ensures Shr(Shr(x, a), b) == Shr(x, a + b)
  {
    if b > 0 {
      ShrAdd(x, a, b - 1);
    }
  }

  lemma ShlFirst(x: bv64, n: nat)
    requires n > 0
    ensures Shl(x, n) == Shl(Up(x), n - 1)
  {
    assert Shl(x, 1) == Up(Shl(x, 0));
    ShlAdd(x, 1, n - 1);
  }

  lemma ShrFirst(x: bv64, n: nat)
    requires n > 0
    ensures Shr(x, n) == Shr(Down(x), n - 1)
  {
    assert Shr(x, 1) == Down(Shr(x, 0));
    ShrAdd(x, 1, n - 1);
  }

  lemma UpXor(x: bv64, y: bv64)
    ensures Up(Xor(x, y)) == Xor(Up(x), Up(y))
  {
  }

  lemma DownXor(x: bv64, y: bv64)
    ensures Down(Xor(x, y)) == Xor(Down(x), Down(y))
  {
  }

  lemma {:induction false} ShlXor(x: bv64, y: bv64, n: nat)
    ensures Shl(Xor(x, y), n) == Xor(Shl(x, n), Shl(y, n))
  {
    if n > 0 {
      ShlXor(x, y, n - 1);
      UpXor(Shl(x, n - 1), Shl(y, n - 1));
    }
  }

  lemma {:induction false} ShrXor(x: bv64, y: bv64, n: nat)
    ensures Shr(Xor(x, y), n) == Xor(Shr(x, n), Shr(y, n))
  {
    if n > 0 {
      ShrXor(x, y, n - 1);
      DownXor(Shr(x, n - 1), Shr(y, n - 1));
    }
  }

  lemma NotIsXor(x: bv64)
    ensures Not64(x) == Xor(x, AllOnes())
  {
  }

  /** Words that agree after shifting also agree after shifting their complements. */
  lemma ShlNot(x: bv64, y: bv64, n: nat)
    requires Shl(x, n) == Shl(y, n)
    ensures Shl(Not64(x), n) == Shl(Not64(y), n)
  {
    NotIsXor(x);
    NotIsXor(y);
    ShlXor(x, AllOnes(), n);
    ShlXor(y, AllOnes(), n);
  }

  // ---- constant amounts, by doubling ----------------------------------------------------

  lemma Shl1(x: bv64) ensures Shl(x, 1) == x << 1 { ShlFirst(x, 1); }
  lemma Shl2(x: bv64) ensures Shl(x, 2) == x << 2 { Shl1(x); Shl1(x << 1); ShlAdd(x, 1, 1); }
  lemma Shl4(x: bv64) ensures Shl(x, 4) == x << 4 { Shl2(x); Shl2(x << 2); ShlAdd(x, 2, 2); }
  lemma Shl8(x: bv64) ensures Shl(x, 8) == x << 8 { Shl4(x); Shl4(x << 4); ShlAdd(x, 4, 4); }
  lemma Shl12(x: bv64) ensures Shl(x, 12) == x << 12 { Shl8(x); Shl4(x << 8); ShlAdd(x, 8, 4); }
  lemma Shl16(x: bv64) ensures Shl(x, 16) == x << 16 { Shl8(x); Shl8(x << 8); ShlAdd(x, 8, 8); }
  lemma Shl32(x: bv64) ensures Shl(x, 32) == x << 32 { Shl16(x); Shl16(x << 16); ShlAdd(x, 16, 16); }

  lemma Shl48(x: bv64) ensures Shl(x, 48) == x << 48 { Shl32(x); Shl16(x << 32); ShlAdd(x, 32, 16); }
  lemma Shl56(x: bv64) ensures Shl(x, 56) == x << 56 { Shl48(x); Shl8(x << 48); ShlAdd(x, 48, 8); }

  lemma Shr1(x: bv64) ensures Shr(x, 1) == x >> 1 { ShrFirst(x, 1); }
  lemma Shr2(x: bv64) ensures Shr(x, 2) == x >> 2 { Shr1(x); Shr1(x >> 1); ShrAdd(x, 1, 1); }
  lemma Shr4(x: bv64) ensures Shr(x, 4) == x >> 4 { Shr2(x); Shr2(x >> 2); ShrAdd(x, 2, 2); }
  lemma Shr8(x: bv64) ensures Shr(x, 8) == x >> 8 { Shr4(x); Shr4(x >> 4); ShrAdd(x, 4, 4); }
  lemma Shr11(x: bv64)
    ensures Shr(x, 11) == x >> 11
  {
    Shr8(x);
    Shr2(x >> 8);
    ShrAdd(x, 8, 2);
    Shr1(x >> 10);
    ShrAdd(x, 10, 1);
  }
  lemma Shr12(x: bv64) ensures Shr(x, 12) == x >> 12 { Shr8(x); Shr4(x >> 8); ShrAdd(x, 8, 4); }
  lemma Shr16(x: bv64) ensures Shr(x, 16) == x >> 16 { Shr8(x); Shr8(x >> 8); ShrAdd(x, 8, 8); }
  lemma Shr19(x: bv64) ensures Shr(x, 19) == x >> 19 { Shr8(x); Shr11(x >> 8); ShrAdd(x, 8, 11); }
  lemma Shr32(x: bv64) ensures Shr(x, 32) == x >> 32 { Shr16(x); Shr16(x >> 16); ShrAdd(x, 16, 16); }
  lemma Shr44(x: bv64) ensures Shr(x, 44) == x >> 44 { Shr32(x); Shr12(x >> 32); ShrAdd(x, 32, 12); }
  lemma Shr48(x: bv64) ensures Shr(x, 48) == x >> 48 { Shr32(x); Shr16(x >> 32); ShrAdd(x, 32, 16); }
  lemma Shr52(x: bv64) ensures Shr(x, 52) == x >> 52 { Shr44(x); Shr8(x >> 44); ShrAdd(x, 44, 8); }
  lemma Shr7(x: bv64)
    ensures Shr(x, 7) == x >> 7
  {
    Shr4(x);
    Shr2(x >> 4);
    ShrAdd(x, 4, 2);
    Shr1(x >> 6);
    ShrAdd(x, 6, 1);
  }
  lemma Shr15(x: bv64) ensures Shr(x, 15) == x >> 15 { Shr8(x); Shr7(x >> 8); ShrAdd(x, 8, 7); }
  lemma Shr31(x: bv64) ensures Shr(x, 31) == x >> 31 { Shr16(x); Shr15(x >> 16); ShrAdd(x, 16, 15); }
  lemma Shr63(x: bv64) ensures Shr(x, 63) == x >> 63 { Shr32(x); Shr31(x >> 32); ShrAdd(x, 32, 31); }
  lemma Shr64(x: bv64)
    ensures IsZero(Shr(x, 64))
  {
    Shr32(x);
    Shr32(x >> 32);
    ShrAdd(x, 32, 32);
  }

  lemma AmountValue(n: nat)
    requires n < 64
    ensures (n as bv6) as nat == n
  {
  }

  // ---- runs of equal bits ------------------------------------------------------------------

  /** Bits lo .. hi-1 of x all equal u. */
  ghost predicate RunOf(x: bv64, lo: nat, hi: nat, u: bool) {
    forall j :: lo <= j < hi ==> Odd(Shr(x, j)) == u
  }

  lemma ZeroStep(z: bv64)
    requires IsZero(Down(z)) && !Odd(z)
    ensures IsZero(z)
  {
  }

  lemma {:induction false} TopRun(x: bv64, lo: nat)
    requires lo <= 64 && RunOf(x, lo, 64, false)
    ensures IsZero(Shr(x, lo))
    decreases 64 - lo
  {
    if lo == 64 {
      Shr64(x);
    } else {
      TopRun(x, lo + 1);
      ZeroStep(Shr(x, lo));
    }
  }

  /** Words of the form 2^k - 1. */
  predicate Filled(z: bv64) { IsZero(z & (z + 1)) }

  lemma HalfOfFilled(z: bv64)
    requires Filled(z)
    ensures Filled(Down(z))
  {
  }

  lemma AllOnesFilled()
    ensures Filled(AllOnes())
  {
  }

  lemma {:induction false} OnesForm(j: nat)
    ensures Filled(Shr(AllOnes(), j))
  {
    if j > 0 {
      OnesForm(j - 1);
      HalfOfFilled(Shr(AllOnes(), j - 1));
    } else {
      AllOnesFilled();
    }
  }

  lemma ZeroDown(x: bv64)
    requires IsZero(x)
    ensures IsZero(Down(x))
  {
  }

  lemma {:induction false} ShrZero(x: bv64, n: nat)
    requires IsZero(x)
    ensures IsZero(Shr(x, n))
  {
    if n > 0 {
      ShrZero(x, n - 1);
      ZeroDown(Shr(x, n - 1));
    }
  }

  lemma OddForm(z: bv64)
    requires Filled(z) && !IsZero(z)
    ensures Odd(z)
  {
  }

  lemma OnesTop()
    ensures !IsZero(Shr(AllOnes(), 63))
  {
    Shr52(AllOnes());
    Shr11(AllOnes() >> 52);
    ShrAdd(AllOnes(), 52, 11);
  }

  lemma OnesBit(j: nat)
    requires j < 64
    ensures Odd(Shr(AllOnes(), j))
  {
    OnesForm(j);
    if IsZero(Shr(AllOnes(), j)) {
      ShrAdd(AllOnes(), j, 63 - j);
      ShrZero(Shr(AllOnes(), j), 63 - j);
      OnesTop();
    }
    OddForm(Shr(AllOnes(), j));
  }

  lemma OddXor(x: bv64, y: bv64)
    requires Odd(y)
    ensures Odd(Xor(x, y)) == !Odd(x)
  {
  }

  lemma ComplementBit(x: bv64, j: nat)
    requires j < 64
    ensures Odd(Shr(Not64(x), j)) == !Odd(Shr(x, j))
  {
    NotIsXor(x);
    ShrXor(x, AllOnes(), j);
    OnesBit(j);
    OddXor(Shr(x, j), Shr(AllOnes(), j));
  }
}
