/**
 Loading 64-bit constants (helper.cpp).  `LoadImmediate` cuts the constant into an upper
 package of 20 bits and further packages of at most 12, skipping runs of equal bits, and
 inverts a package whose successor sign-extends over it.
 */
module Immediates {
  import opened RiscV
  import opened Bits
  import opened Batches
  import opened Machine

  // ---- what a list of packages loads -------------------------------------------------------

  function Cut12(p: bv32): bv12 { (p & 0xfff) as bv12 }
  function Cut20(p: bv32): bv20 { (p & 0xfffff) as bv20 }

  /** What the instruction loading package k contributes to the register. */
  function Contribution(p: bv32, upper: bool): bv64 {
    if upper then UpperImm(Cut20(p)) else Sext12(Cut12(p))
  }

  /** The register after package k, before the shift that follows it. */
  function Loaded(packages: seq<bv32>, shifts: seq<nat>, lui: bool, k: nat): bv64
    requires k < |packages| && k <= |shifts|
  {
    if k == 0 then Contribution(packages[0], lui)
    else Xor(Shl(Loaded(packages, shifts, lui, k - 1), shifts[k - 1]), Contribution(packages[k], false))
  }

  lemma {:induction false} LoadedDepends(a: seq<bv32>, b: seq<bv32>, sa: seq<nat>, sb: seq<nat>, lui: bool, k: nat)
    requires k < |a| && k < |b| && k <= |sa| && k <= |sb|
    requires forall j :: 0 <= j <= k ==> a[j] == b[j]
    requires forall j :: 0 <= j < k ==> sa[j] == sb[j]
    ensures Loaded(a, sa, lui, k) == Loaded(b, sb, lui, k)
  {
    if k > 0 {
      LoadedDepends(a, b, sa, sb, lui, k - 1);
    }
  }

  lemma XorNot(a: bv64, b: bv64)
    ensures Xor(a, Not64(b)) == Not64(Xor(a, b))
  {
  }

  lemma SextNot(x: bv12)
    ensures Sext12(!x) == Not64(Sext12(x))
  {
    if 0 < x & 0x800 {
      assert !(0 < !x & 0x800);
    } else {
      assert 0 < !x & 0x800;
    }
  }

  function Not20(x: bv20): bv20 { !x }

  lemma UpperNot(x: bv20)
    ensures UpperImm(Not20(x)) == Xor(UpperImm(x), AllOnes() << 12)
  {
    if 0 < x & 0x80000 {
      assert !(0 < !x & 0x80000);
    } else {
      assert 0 < !x & 0x80000;
    }
  }

  lemma CutNot(p: bv32)
    ensures Cut12(!p) == !Cut12(p) && Cut20(!p) == Not20(Cut20(p))
  {
  }

  // ---- one package ---------------------------------------------------------------------------

  /** Inverts everything above the lowest 12 bits. */
  function Flip12(y: bv64): bv64 { Xor(y, AllOnes() << 12) }

  function Clear12(y: bv64): bv64 { y & 0xffff_ffff_ffff_f000 }

  lemma EvenHalf(z: bv64)
    requires !Odd(z)
    ensures Up(Down(z)) == z
  {
  }

  lemma OddHalf(z: bv64)
    requires Odd(z)
    ensures Up(Not64(Down(z))) == Not64(z)
    ensures Up(Down(z)) == Xor(z, 1)
  {
  }

  lemma ClearZero(y: bv64)
    ensures Shl(Shr(y, 12), 12) == Clear12(y)
  {
    Shr12(y);
    Shl12(y >> 12);
  }

  lemma ClearOne(y: bv64)
    ensures Shl(Not64(Shr(y, 12)), 12) == Flip12(Clear12(y))
  {
    NotIsXor(Shr(y, 12));
    ShlXor(Shr(y, 12), AllOnes(), 12);
    ClearZero(y);
    Shl12(AllOnes());
  }

  lemma {:induction false} RunOfZeros(y: bv64, s: nat)
    requires 12 <= s && RunOf(y, 12, s, false)
    ensures Shl(Shr(y, s), s) == Clear12(y)
    decreases s
  {
    if s == 12 {
      ClearZero(y);
    } else {
      RunOfZeros(y, s - 1);
      EvenHalf(Shr(y, s - 1));
      ShlFirst(Shr(y, s), s);
    }
  }

  lemma {:induction false} RunOfOnes(y: bv64, s: nat)
    requires 12 <= s && RunOf(y, 12, s, true)
    ensures Shl(Not64(Shr(y, s)), s) == Flip12(Clear12(y))
    decreases s
  {
    if s == 12 {
      ClearOne(y);
    } else {
      RunOfOnes(y, s - 1);
      OddHalf(Shr(y, s - 1));
      ShlFirst(Not64(Shr(y, s)), s);
    }
  }

  /** The low bits, as the slicing loop masks them. */
  function Mask(digits: nat): bv64
    requires digits <= 64
  {
    Shr(AllOnes(), 64 - digits)
  }

  lemma AndZero(y: bv64, m: bv64)
    requires IsZero(m)
    ensures Xor(y, And(y, m)) == y
  {
  }

  lemma Peel(y: bv64, m: bv64, f: bv64)
    requires Odd(m) && Xor(f, And(Down(y), Down(m))) == Down(y)
    ensures Xor(Up(f), And(y, m)) == y
  {
  }

  lemma {:induction false} SplitLow(y: bv64, s: nat)
    requires s <= 64
    ensures Xor(Shl(Shr(y, s), s), And(y, Mask(s))) == y
    decreases s
  {
    if s == 0 {
      Shr64(AllOnes());
      AndZero(y, Mask(0));
    } else {
      SplitLow(Down(y), s - 1);
      ShrFirst(y, s);
      OnesBit(64 - s);
      assert Mask(s - 1) == Down(Mask(s));
      Peel(y, Mask(s), Shl(Shr(y, s), s - 1));
    }
  }

  lemma Mask12() ensures Mask(12) == AllOnes() >> 52 { Shr52(AllOnes()); }
  lemma Mask20() ensures Mask(20) == AllOnes() >> 44 { Shr44(AllOnes()); }

  lemma Masked(y: bv64)
    ensures And(y, AllOnes() >> 52) == y & 0xfff
    ensures And(y, AllOnes() >> 44) == y & 0xfffff
  {
  }

  lemma SmallDown(m: bv64)
    requires m < 0x1000
    ensures Down(m) < 0x800
  {
  }

  lemma {:induction false} MaskSmall(d: nat)
    requires d < 12
    ensures Mask(d) < 0x800
    decreases 12 - d
  {
    assert Mask(d) == Down(Mask(d + 1));
    if d == 11 {
      Mask12();
    } else {
      MaskSmall(d + 1);
    }
    SmallDown(Mask(d + 1));
  }

  /** The 12 bits a package holds, sign-extended. */
  function Low12(y: bv64): bv64 { Sext12((y & 0xfff) as bv12) }

  lemma ZeroChunkBits(y: bv64)
    requires !Odd(y >> 11)
    ensures Xor(Clear12(y), Low12(y)) == y
  {
    assert !(0 < ((y & 0xfff) as bv12) & 0x800);
    assert Low12(y) == ((y & 0xfff) as bv12) as bv64;
  }

  lemma OneChunkBits(y: bv64)
    requires Odd(y >> 11)
    ensures Xor(Flip12(Clear12(y)), Low12(y)) == y
  {
    assert 0 < ((y & 0xfff) as bv12) & 0x800;
    assert Low12(y) == 0xffff_ffff_ffff_f000 | ((y & 0xfff) as bv12) as bv64;
  }

  lemma RunTop(y: bv64, s: nat, u: bool)
    requires 12 <= s && RunOf(y, 11, s, u)
    ensures Odd(y >> 11) == u
  {
    Shr11(y);
  }

  lemma ZeroChunk(y: bv64, s: nat)
    requires 12 <= s && RunOf(y, 11, s, false)
    ensures Xor(Shl(Shr(y, s), s), Low12(y)) == y
  {
    RunOfZeros(y, s);
    RunTop(y, s, false);
    ZeroChunkBits(y);
  }

  lemma OneChunk(y: bv64, s: nat)
    requires 12 <= s && RunOf(y, 11, s, true)
    ensures Xor(Shl(Not64(Shr(y, s)), s), Low12(y)) == y
  {
    RunOfOnes(y, s);
    RunTop(y, s, true);
    OneChunkBits(y);
  }

  lemma AndSmall(y: bv64, m: bv64)
    requires m < 0x800
    ensures And(y, m) < 0x800
  {
  }

  lemma SextSmall(v: bv64)
    requires v < 0x800
    ensures Sext12(Cut12((v & 0xffff_ffff) as bv32)) == v
  {
    assert !(0 < Cut12((v & 0xffff_ffff) as bv32) & 0x800);
  }

  /** The package cut from the low digits of y, as stored in 32 bits. */
  function Package(y: bv64, digits: nat): bv32
    requires digits <= 64
  {
    (And(y, Mask(digits)) & 0xffff_ffff) as bv32
  }

  lemma ShortChunk(y: bv64, s: nat)
    requires s < 12
    ensures Xor(Shl(Shr(y, s), s), Contribution(Package(y, s), false)) == y
  {
    MaskSmall(s);
    AndSmall(y, Mask(s));
    SplitLow(y, s);
    SextSmall(And(y, Mask(s)));
  }

  // ---- the upper package -----------------------------------------------------------------------

  lemma Below19(y: bv64)
    requires IsZero(y >> 19)
    ensures y < 0x80000
  {
  }

  lemma TopSmall(imm: bv64, p: nat)
    requires p + 19 <= 64 && RunOf(imm, p + 19, 64, false)
    ensures Shr(imm, p) < 0x80000
  {
    TopRun(imm, p + 19);
    ShrAdd(imm, p, 19);
    Shr19(Shr(imm, p));
    Below19(Shr(imm, p));
  }

  function Low20(y: bv64): bv20 { (y & 0xfffff) as bv20 }

  lemma UpperBits(y: bv64)
    requires y < 0x80000
    ensures UpperImm(Low20(y)) == y << 12
  {
    assert !(0 < Low20(y) & 0x80000);
  }

  /** The upper 20 bits, when everything above them repeats their top bit 0. */
  lemma UpperZero(imm: bv64, p: nat)
    requires 12 <= p <= 44 && RunOf(imm, p + 19, 64, false)
    ensures Shl(UpperImm(Low20(Shr(imm, p))), p - 12) == Shl(Shr(imm, p), p)
  {
    var y := Shr(imm, p);
    TopSmall(imm, p);
    UpperBits(y);
    Shl12(y);
    ShlAdd(y, 12, p - 12);
  }

  function Xor20(x: bv20, y: bv20): bv20 { x ^ y }

  lemma Low20Xor(y: bv64, z: bv64)
    ensures Low20(Xor(y, z)) == Xor20(Low20(y), Low20(z))
  {
  }

  lemma XorFull(x: bv20, y: bv20)
    requires !y < 1
    ensures Xor20(x, y) == Not20(x)
  {
  }

  lemma FilledLow(z: bv64)
    requires Filled(z) && Odd(z >> 19)
    ensures !Low20(z) < 1
  {
  }

  lemma OnesLow20(p: nat)
    requires p <= 44
    ensures !Low20(Shr(AllOnes(), p)) < 1
  {
    OnesForm(p);
    OnesBit(p + 19);
    ShrAdd(AllOnes(), p, 19);
    Shr19(Shr(AllOnes(), p));
    FilledLow(Shr(AllOnes(), p));
  }

  lemma AllOnesUp()
    ensures Up(AllOnes()) == Xor(AllOnes(), 1)
  {
  }

  lemma {:induction false} OnesDownUp(n: nat)
    requires n <= 64
    ensures Shl(Shr(AllOnes(), n), n) == Shl(AllOnes(), n)
  {
    if n > 0 {
      OnesDownUp(n - 1);
      OnesBit(n - 1);
      OddHalf(Shr(AllOnes(), n - 1));
      ShlFirst(Shr(AllOnes(), n), n);
      ShlXor(Shr(AllOnes(), n - 1), 1, n - 1);
      AllOnesUp();
      ShlFirst(AllOnes(), n);
      ShlXor(AllOnes(), 1, n - 1);
    }
  }

  lemma NotNot(x: bv64)
    ensures Not64(Not64(x)) == x
  {
  }

  lemma UpperOnes(imm: bv64, p: nat)
    requires 12 <= p <= 44 && RunOf(imm, p + 19, 64, true)
    ensures Shl(UpperImm(Low20(Shr(imm, p))), p - 12) == Shl(Shr(imm, p), p)
  {
    var w := Not64(imm);
    forall j | p + 19 <= j < 64 ensures !Odd(Shr(w, j)) {
      ComplementBit(imm, j);
    }
    TopSmall(w, p);
    NotNot(imm);
    NotIsXor(w);
    ShrXor(w, AllOnes(), p);
    UpperOnesFinish(Shr(w, p), Shr(AllOnes(), p), p);
  }

  lemma UpperOnesValue(yw: bv64, z: bv64)
    requires yw < 0x80000 && !Low20(z) < 1
    ensures UpperImm(Low20(Xor(yw, z))) == Xor(yw << 12, AllOnes() << 12)
  {
    Low20Xor(yw, z);
    XorFull(Low20(yw), Low20(z));
    UpperNot(Low20(yw));
    UpperBits(yw);
  }

  lemma UpperOnesFinish(yw: bv64, z: bv64, p: nat)
    requires 12 <= p <= 44 && z == Shr(AllOnes(), p) && yw < 0x80000
    ensures Shl(UpperImm(Low20(Xor(yw, z))), p - 12) == Shl(Xor(yw, z), p)
  {
    OnesLow20(p);
    UpperOnesValue(yw, z);
    ShlXor(yw << 12, AllOnes() << 12, p - 12);
    Shl12(yw);
    Shl12(AllOnes());
    ShlAdd(yw, 12, p - 12);
    ShlAdd(AllOnes(), 12, p - 12);
    OnesDownUp(p);
    ShlXor(yw, z, p);
  }

  // ---- a constant of one package --------------------------------------------------------------

  lemma Single(imm: bv64, u: bool)
    requires RunOf(imm, 11, 64, u)
    ensures Low12(imm) == imm
  {
    if u {
      forall j | 11 <= j < 64 ensures !Odd(Shr(Not64(imm), j)) {
        ComplementBit(imm, j);
      }
      TopRun(Not64(imm), 11);
      Shr11(Not64(imm));
      SingleOnes(imm);
    } else {
      TopRun(imm, 11);
      Shr11(imm);
      SingleZeros(imm);
    }
  }

  lemma SingleZeros(imm: bv64)
    requires IsZero(imm >> 11)
    ensures Low12(imm) == imm
  {
    assert !(0 < ((imm & 0xfff) as bv12) & 0x800);
  }

  lemma SingleOnes(imm: bv64)
    requires IsZero(Not64(imm) >> 11)
    ensures Low12(imm) == imm
  {
    assert 0 < ((imm & 0xfff) as bv12) & 0x800;
  }

  // ---- one step of the slicing loop -------------------------------------------------------------

  /**
   The bits from p upwards have been loaded, up to the shift q that is still to come
   (q is p, or p - 12 while the upper package stands alone).
   */
  ghost predicate UpTo(imm: bv64, loaded: bv64, q: nat, p: nat) {
    Shl(loaded, q) == Shl(Shr(imm, p), p)
  }

  /** The same for the complement: what a package leaves once its successor has inverted it. */
  ghost predicate InvertedUpTo(imm: bv64, loaded: bv64, q: nat, p: nat) {
    Shl(loaded, q) == Shl(Not64(Shr(imm, p)), p)
  }

  lemma InvertPackage(imm: bv64, loaded: bv64, p: nat)
    requires UpTo(imm, loaded, p, p)
    ensures InvertedUpTo(imm, Not64(loaded), p, p)
  {
    ShlNot(loaded, Shr(imm, p), p);
  }

  lemma InvertUpper(imm: bv64, x: bv20, p: nat)
    requires 12 <= p && UpTo(imm, UpperImm(x), p - 12, p)
    ensures InvertedUpTo(imm, UpperImm(Not20(x)), p - 12, p)
  {
    UpperNot(x);
    ShlXor(UpperImm(x), AllOnes() << 12, p - 12);
    Shl12(AllOnes());
    ShlAdd(AllOnes(), 12, p - 12);
    NotIsXor(Shr(imm, p));
    ShlXor(Shr(imm, p), AllOnes(), p);
  }

  /** Adding a package: `e` is what was loaded before, as it appears above the new bits. */
  lemma AddPackage(imm: bv64, loaded: bv64, e: bv64, q: nat, p: nat, p': nat, shift: nat, v: bv64)
    requires p' <= p && shift + p' == q
    requires Shl(loaded, q) == Shl(e, p)
    requires Xor(Shl(e, p - p'), v) == Shr(imm, p')
    ensures UpTo(imm, Xor(Shl(loaded, shift), v), p', p')
  {
    ShlXor(Shl(loaded, shift), v, p');
    ShlAdd(loaded, shift, p');
    ShlAdd(e, p - p', p');
    ShlXor(Shl(e, p - p'), v, p');
  }

  lemma RunBelow(imm: bv64, p: nat, p': nat, lo: nat, u: bool)
    requires p' <= p && RunOf(imm, p' + lo, p, u)
    ensures RunOf(Shr(imm, p'), lo, p - p', u)
  {
    forall j | lo <= j < p - p' ensures Odd(Shr(Shr(imm, p'), j)) == u {
      ShrAdd(imm, p', j);
    }
  }

  lemma ZeroPackage(imm: bv64, loaded: bv64, q: nat, p: nat, p': nat, shift: nat)
    requires p' + 12 <= p && shift + p' == q && RunOf(imm, p' + 11, p, false) && UpTo(imm, loaded, q, p)
    ensures UpTo(imm, Xor(Shl(loaded, shift), Low12(Shr(imm, p'))), p', p')
  {
    RunBelow(imm, p, p', 11, false);
    ShrAdd(imm, p', p - p');
    ZeroChunk(Shr(imm, p'), p - p');
    AddPackage(imm, loaded, Shr(imm, p), q, p, p', shift, Low12(Shr(imm, p')));
  }

  lemma OnePackage(imm: bv64, loaded: bv64, q: nat, p: nat, p': nat, shift: nat)
    requires p' + 12 <= p && shift + p' == q && RunOf(imm, p' + 11, p, true) && InvertedUpTo(imm, loaded, q, p)
    ensures UpTo(imm, Xor(Shl(loaded, shift), Low12(Shr(imm, p'))), p', p')
  {
    RunBelow(imm, p, p', 11, true);
    ShrAdd(imm, p', p - p');
    OneChunk(Shr(imm, p'), p - p');
    AddPackage(imm, loaded, Not64(Shr(imm, p)), q, p, p', shift, Low12(Shr(imm, p')));
  }

  /** The last package, shorter than 12 bits. */
  lemma LastPackage(imm: bv64, loaded: bv64, q: nat, p: nat)
    requires p < 12 && UpTo(imm, loaded, q, p)
    ensures UpTo(imm, Xor(Shl(loaded, q), Contribution(Package(imm, p), false)), 0, 0)
  {
    ShortChunk(imm, p);
    AddPackage(imm, loaded, Shr(imm, p), q, p, 0, q, Contribution(Package(imm, p), false));
  }

  lemma UpperPackage(imm: bv64, p: nat, u: bool)
    requires 12 <= p <= 44 && RunOf(imm, p + 19, 64, u)
    ensures UpTo(imm, UpperImm(Low20(Shr(imm, p))), p - 12, p)
  {
    if u {
      UpperOnes(imm, p);
    } else {
      UpperZero(imm, p);
    }
  }

  lemma Finished(imm: bv64, loaded: bv64)
    requires UpTo(imm, loaded, 0, 0)
    ensures loaded == imm
  {
  }

  lemma CutMasked(y: bv64)
    ensures Cut12(((y & 0xfff) & 0xffff_ffff) as bv32) == (y & 0xfff) as bv12
    ensures Cut20(((y & 0xfffff) & 0xffff_ffff) as bv32) == Low20(y)
  {
  }

  lemma CutPackage12(y: bv64)
    ensures Cut12(Package(y, 12)) == (y & 0xfff) as bv12
  {
    Mask12();
    Masked(y);
    CutMasked(y);
  }

  lemma CutPackage20(y: bv64)
    ensures Cut20(Package(y, 20)) == Low20(y)
  {
    Mask20();
    Masked(y);
    CutMasked(y);
  }

  // ---- the slicing loop ----------------------------------------------------------------------------

  /** Counts the equal bits from `top` downwards; `upper` is their common value. */
  method CountEqual(imm: bv64, top: int) returns (currentBit: int, equalDigits: nat, upper: bool)
    requires 0 <= top < 64
    ensures equalDigits >= 1 && currentBit == top - equalDigits && currentBit >= -1
    ensures RunOf(imm, currentBit + 1, top + 1, upper)
  {
    upper := Odd(Shr(imm, top));
    equalDigits := 1;
    currentBit := top - 1;
    while currentBit >= 0
      invariant equalDigits >= 1 && currentBit == top - equalDigits && currentBit >= -1
      invariant RunOf(imm, currentBit + 1, top + 1, upper)
    {
      if Odd(Shr(imm, currentBit)) != upper {
        break;
      }
      currentBit := currentBit - 1;
      equalDigits := equalDigits + 1;
    }
  }

  /**
   The number of digits of the next package, the equal digits skipped above it, and the
   bit below it, out of the `p` bits still to be loaded.
   */
  method ChooseDigits(p: nat, equal: nat, index: nat, luiUsed: bool)
      returns (currentBit: int, digits: nat, equalDigits: nat)
    requires 1 <= equal <= p <= 64
    requires index == 0 ==> p == 64
    requires index == 1 ==> luiUsed && 12 <= p
    requires index > 0 ==> p <= 44
    ensures currentBit >= -1 && currentBit + 1 + digits + equalDigits == p && equalDigits < equal
    ensures index == 0 ==> (digits == 20 && 12 <= currentBit + 1 <= 44) || (digits == 12 && currentBit == -1)
    ensures index > 0 ==> digits == 12 || (digits < 12 && currentBit == -1 && equalDigits == 0)
    ensures index == 1 ==> digits == 12 && (equalDigits == 0 || currentBit == -1 || currentBit + 1 + 24 <= p)
  {
    currentBit := p - 1 - equal;
    equalDigits := equal;
    if index == 1 && luiUsed {
      if equalDigits <= 12 {
        currentBit := currentBit + equalDigits - 1;
        equalDigits := 1;
      }
    }
    digits := currentBit + 2;
    equalDigits := equalDigits - 1;
    if digits < 12 {
      digits := digits + equalDigits;
      if digits > 12 {
        equalDigits := digits - 12;
        digits := 12;
      } else {
        equalDigits := 0;
      }
      currentBit := -1;
    } else if digits > 12 {
      if digits >= 32 && index == 0 {
        currentBit := digits - 21;
        digits := 20;
      } else if digits + equalDigits >= 32 && index == 0 {
        digits := digits + equalDigits;
        // all 64 bits are left here, so the branch for sums up to 32 is never taken
        assert digits > 32;
        equalDigits := digits - 32;
        digits := 32;
        digits := digits - 12;
        currentBit := 11;
      } else {
        currentBit := digits - 13;
        digits := 12;
      }
    } else {
      currentBit := currentBit - (digits - 1);
    }
  }

  /** How far the first packages may have got, so that five of them and eight instructions always suffice. */
  predicate Budget(index: nat, p: nat, firstShift: nat) {
    match index
    case 0 => p == 64
    case 1 => 12 <= p <= 44
    case 2 => p <= 32 && (firstShift > 0 ==> p <= 20)
    case 3 => p <= 20 && (firstShift > 0 ==> p <= 8)
    case 4 => p <= 8 && firstShift == 0
    case _ => false
  }

  lemma InvertLast(base: bv64, package: bv32)
    ensures Xor(base, Contribution(!package, false)) == Not64(Xor(base, Contribution(package, false)))
  {
    CutNot(package);
    SextNot(Cut12(package));
    XorNot(base, Sext12(Cut12(package)));
  }

  /** Inverting the package before the next one. */
  lemma InvertPrevious(imm: bv64, packages: seq<bv32>, shifts: seq<nat>, lui: bool, k: nat, p: nat)
    requires k < |packages| && k <= |shifts| && (k == 0 ==> 12 <= p && lui)
    requires UpTo(imm, Loaded(packages, shifts, lui, k), if k == 0 then p - 12 else p, p)
    ensures InvertedUpTo(imm, Loaded(packages[k := !packages[k]], shifts, lui, k), if k == 0 then p - 12 else p, p)
  {
    if k == 0 {
      CutNot(packages[0]);
      InvertUpper(imm, Cut20(packages[0]), p);
    } else {
      LoadedDepends(packages, packages[k := !packages[k]], shifts, shifts, lui, k - 1);
      InvertLast(Shl(Loaded(packages, shifts, lui, k - 1), shifts[k - 1]), packages[k]);
      InvertPackage(imm, Loaded(packages, shifts, lui, k), p);
    }
  }

  lemma Full(y: bv64)
    ensures Contribution(Package(y, 12), false) == Low12(y)
  {
    CutPackage12(y);
  }

  /** What one round of the loop adds to the slices before it. */
  lemma NextSlice(imm: bv64, loaded: bv64, q: nat, p: nat, p': nat, shift: nat, digits: nat, upper: bool)
    requires p' < p && shift + p' == q && digits <= 12
    requires if digits == 12 then p' + 12 <= p && RunOf(imm, p' + 11, p, upper) else p' == 0 && digits == p
    requires if upper && digits == 12 then InvertedUpTo(imm, loaded, q, p) else UpTo(imm, loaded, q, p)
    ensures UpTo(imm, Xor(Shl(loaded, shift), Contribution(Package(Shr(imm, p'), digits), false)), p', p')
  {
    if digits == 12 {
      Full(Shr(imm, p'));
      if upper {
        OnePackage(imm, loaded, q, p, p', shift);
      } else {
        ZeroPackage(imm, loaded, q, p, p', shift);
      }
    } else {
      LastPackage(imm, loaded, q, p);
    }
  }

  lemma FirstUpper(imm: bv64, p: nat, u: bool, package: bv32)
    requires 12 <= p <= 44 && RunOf(imm, p + 19, 64, u)
    requires Cut20(package) == Low20(Shr(imm, p))
    ensures UpTo(imm, Contribution(package, true), p - 12, p)
  {
    UpperPackage(imm, p, u);
  }

  lemma FirstLow(imm: bv64, u: bool, package: bv32)
    requires RunOf(imm, 11, 64, u)
    requires Cut12(package) == (imm & 0xfff) as bv12
    ensures UpTo(imm, Contribution(package, false), 0, 0)
  {
    Single(imm, u);
  }

  /** The local variables of the slicing loop. */
  datatype Slices = Slices(packages: seq<bv32>, shifts: seq<nat>, index: nat, luiUsed: bool, currentBit: int) {

    /** The shift still to come after the last package so far. */
    function Pending(): int {
      if index == 1 && luiUsed then currentBit + 1 - 12 else currentBit + 1
    }

    predicate Shape() {
      && |packages| == 5 && |shifts| == 4 && 0 < index <= 5 && -1 <= currentBit < 64
      && (index > 1 || currentBit >= 0 ==> luiUsed)
      && (currentBit >= 0 ==> Budget(index, currentBit + 1, shifts[0]))
      && (index == 5 ==> shifts[0] == 0)
      && (index == 1 && luiUsed ==> 12 <= currentBit + 1)
      && forall k :: 0 <= k < index - 1 ==> shifts[k] < 64
    }

    /** The register after all packages so far. */
    function Value(): bv64
      requires Shape()
    {
      Loaded(packages, shifts, luiUsed, index - 1)
    }

    ghost predicate Valid(imm: bv64) {
      Shape() && UpTo(imm, Value(), Pending(), currentBit + 1)
    }
  }

  method FirstRound(imm: bv64) returns (sl: Slices)
    ensures sl.Valid(imm)
  {
    var currentBit, equal, upper := CountEqual(imm, 63);
    var digits;
    currentBit, digits, equal := ChooseDigits(64, equal, 0, false);
    var package := Package(Shr(imm, currentBit + 1), digits);
    if digits == 20 {
      CutPackage20(Shr(imm, currentBit + 1));
      FirstUpper(imm, currentBit + 1, upper, package);
    } else {
      CutPackage12(imm);
      FirstLow(imm, upper, package);
    }
    sl := Slices([package, 0, 0, 0, 0], [0, 0, 0, 0], 1, digits == 20, currentBit);
  }

  /** The budget after a round. */
  lemma BudgetStep(index: nat, p: nat, p': nat, digits: nat, equal: nat, first: nat)
    requires 1 <= index && Budget(index, p, first) && p' + digits + equal == p && 0 < p
    requires digits == 12 || (digits < 12 && p' == 0 && equal == 0)
    requires index == 1 ==> digits == 12 && (equal == 0 || p' == 0 || p' + 24 <= p)
    ensures index < 5
    ensures p' > 0 ==> Budget(index + 1, p', if index == 1 then digits + equal - 12 else first)
    ensures index == 4 ==> first == 0
  {
  }

  lemma LoadedStep(packages: seq<bv32>, shifts: seq<nat>, lui: bool, k: nat)
    requires 0 < k < |packages| && k <= |shifts|
    ensures Loaded(packages, shifts, lui, k) ==
      Xor(Shl(Loaded(packages, shifts, lui, k - 1), shifts[k - 1]), Contribution(packages[k], false))
  {
  }

  /** Attaching a package to what was loaded before. */
  lemma Attach(imm: bv64, before: seq<bv32>, shifts: seq<nat>, next: seq<bv32>, shifts': seq<nat>, lui: bool, k: nat,
        p': nat)
    requires k + 1 < |before| == |next| && k < |shifts| == |shifts'|
    requires forall j :: 0 <= j <= k ==> next[j] == before[j]
    requires forall j :: 0 <= j < k ==> shifts'[j] == shifts[j]
    requires UpTo(imm, Xor(Shl(Loaded(before, shifts, lui, k), shifts'[k]), Contribution(next[k + 1], false)), p', p')
    ensures UpTo(imm, Loaded(next, shifts', lui, k + 1), p', p')
  {
    LoadedDepends(before, next, shifts, shifts', lui, k);
    LoadedStep(next, shifts', lui, k + 1);
  }

  lemma NextUpTo(imm: bv64, before: seq<bv32>, shifts: seq<nat>, next: seq<bv32>, shifts': seq<nat>, lui: bool, k: nat,
        q: nat, p: nat, p': nat, digits: nat, upper: bool)
    requires k + 1 < |before| == |next| && k < |shifts| == |shifts'|
    requires forall j :: 0 <= j <= k ==> next[j] == before[j]
    requires forall j :: 0 <= j < k ==> shifts'[j] == shifts[j]
    requires p' < p && shifts'[k] + p' == q && digits <= 12
    requires if digits == 12 then p' + 12 <= p && RunOf(imm, p' + 11, p, upper) else p' == 0 && digits == p
    requires next[k + 1] == Package(Shr(imm, p'), digits)
    requires if upper && digits == 12 then InvertedUpTo(imm, Loaded(before, shifts, lui, k), q, p)
             else UpTo(imm, Loaded(before, shifts, lui, k), q, p)
    ensures UpTo(imm, Loaded(next, shifts', lui, k + 1), p', p')
  {
    NextSlice(imm, Loaded(before, shifts, lui, k), q, p, p', shifts'[k], digits, upper);
    Attach(imm, before, shifts, next, shifts', lui, k, p');
  }

  lemma NextShape(sl: Slices, packages: seq<bv32>, shift: nat, p': nat, digits: nat, equal: nat)
    requires sl.Shape() && sl.currentBit >= 0 && sl.index < 5 && p' + digits + equal == sl.currentBit + 1
    requires digits == 12 || (digits < 12 && p' == 0 && equal == 0)
    requires sl.index == 1 ==> digits == 12 && (equal == 0 || p' == 0 || p' + 24 <= sl.currentBit + 1)
    requires |packages| == 5 && shift + p' == sl.Pending()
    ensures Slices(packages, sl.shifts[sl.index - 1 := shift], sl.index + 1, sl.luiUsed, p' - 1).Shape()
  {
    BudgetStep(sl.index, sl.currentBit + 1, p', digits, equal, sl.shifts[0]);
  }

  ghost predicate Ready(imm: bv64, sl: Slices, parents: seq<bv32>, flip: bool)
    requires sl.Shape() && |parents| == 5
  {
    var loaded := Loaded(parents, sl.shifts, sl.luiUsed, sl.index - 1);
    if flip then InvertedUpTo(imm, loaded, sl.Pending(), sl.currentBit + 1)
      else UpTo(imm, loaded, sl.Pending(), sl.currentBit + 1)
  }

  /** Inverts the last package when its successor will invert it back. */
  method InvertParent(imm: bv64, sl: Slices, flip: bool) returns (parents: seq<bv32>)
    requires sl.Valid(imm) && sl.currentBit >= 0
    ensures |parents| == 5 && Ready(imm, sl, parents, flip)
  {
    parents := sl.packages;
    if flip {
      parents := parents[sl.index - 1 := !parents[sl.index - 1]];
      InvertPrevious(imm, sl.packages, sl.shifts, sl.luiUsed, sl.index - 1, sl.currentBit + 1);
    }
  }

  lemma NextValue(imm: bv64, sl: Slices, parents: seq<bv32>, package: bv32, shift: nat, p': nat, digits: nat,
        upper: bool)
    requires sl.Shape() && sl.currentBit >= 0 && sl.index < 5 && |parents| == 5
    requires Ready(imm, sl, parents, upper && digits == 12)
    requires p' <= sl.currentBit && shift + p' == sl.Pending() && digits <= 12
    requires if digits == 12 then p' + 12 <= sl.currentBit + 1 && RunOf(imm, p' + 11, sl.currentBit + 1, upper)
             else p' == 0 && digits == sl.currentBit + 1
    requires package == Package(Shr(imm, p'), digits)
    ensures UpTo(imm, Loaded(parents[sl.index := package], sl.shifts[sl.index - 1 := shift], sl.luiUsed, sl.index), p',
      p')
  {
    NextUpTo(imm, parents, sl.shifts, parents[sl.index := package], sl.shifts[sl.index - 1 := shift], sl.luiUsed,
      sl.index - 1, sl.Pending(), sl.currentBit + 1, p', digits, upper);
  }

  /** The bit below the next package, its digits, and the equal digits skipped above it. */
  method NextDigits(imm: bv64, sl: Slices) returns (currentBit: int, digits: nat, equal: nat, upper: bool, shift: nat)
    requires sl.Shape() && sl.currentBit >= 0
    ensures -1 <= currentBit < sl.currentBit && currentBit + 1 + digits + equal == sl.currentBit + 1
    ensures sl.index < 5 && shift + currentBit + 1 == sl.Pending()
    ensures if digits == 12 then RunOf(imm, currentBit + 12, sl.currentBit + 1, upper)
      else digits < 12 && currentBit == -1 && equal == 0
    ensures sl.index == 1 ==>
      digits == 12 && (equal == 0 || currentBit == -1 || currentBit + 1 + 24 <= sl.currentBit + 1)
  {
    currentBit, equal, upper := CountEqual(imm, sl.currentBit);
    currentBit, digits, equal := ChooseDigits(sl.currentBit + 1, equal, sl.index, sl.luiUsed);
    shift := if sl.luiUsed && sl.index == 1 then digits + equal - 12 else digits + equal;
  }

  method NextRound(imm: bv64, sl: Slices) returns (next: Slices)
    requires sl.Valid(imm) && sl.currentBit >= 0
    ensures next.Valid(imm) && next.currentBit < sl.currentBit
  {
    hide Loaded, UpTo, InvertedUpTo, RunOf, Package, Shr;
    var currentBit, digits, equal, upper, shift := NextDigits(imm, sl);
    var parents := InvertParent(imm, sl, upper && digits == 12);
    var package := Package(Shr(imm, currentBit + 1), digits);
    next := Slices(parents[sl.index := package], sl.shifts[sl.index - 1 := shift], sl.index + 1, sl.luiUsed,
      currentBit);
    NextValue(imm, sl, parents, package, shift, currentBit + 1, digits, upper);
    NextShape(sl, next.packages, shift, currentBit + 1, digits, equal);
  }

  /** Slices a constant into at most five packages. */
  method Slice(imm: bv64) returns (sl: Slices)
    ensures sl.Shape() && sl.Value() == imm
  {
    sl := FirstRound(imm);
    while sl.currentBit >= 0
      invariant sl.Valid(imm)
      decreases sl.currentBit
    {
      sl := NextRound(imm, sl);
    }
    Finished(imm, sl.Value());
  }

  // ---- emitting the packages -------------------------------------------------------------------------

  /** Running the words sets `dest` to v and changes nothing else. */
  ghost predicate Sets(words: seq<Instr>, dest: Reg, v: bv64) {
    && (forall i <- words :: Straight(i))
    && forall s :: Exec(words, s) == s.Set(dest, v)
  }

  lemma SetTwice(s: State, dest: Reg, a: bv64, b: bv64)
    ensures s.Set(dest, a).Set(dest, b) == s.Set(dest, b)
  {
    if !dest.Zero? {
      assert s.regs[dest := a][dest := b] == s.regs[dest := b];
    }
  }

  lemma ExecLast(words: seq<Instr>, w: Instr, s: State)
    ensures Exec(words + [w], s) == Step(w, Exec(words, s))
  {
    ExecAppend(words, [w], s);
    assert [w][1..] == [];
    assert Exec([w][1..], Step(w, Exec(words, s))) == Step(w, Exec(words, s));
  }

  lemma SetsFirst(w: Instr, dest: Reg, v: bv64)
    requires Straight(w) && forall s :: Exec1(w, s) == s.Set(dest, v)
    ensures Sets([w], dest, v)
  {
    forall s ensures Exec([w], s) == s.Set(dest, v) {
      ExecLast([], w, s);
      assert [] + [w] == [w];
    }
  }

  lemma SetsNext(words: seq<Instr>, w: Instr, dest: Reg, u: bv64, v: bv64)
    requires Sets(words, dest, u) && Straight(w)
    requires forall s: State :: Exec1(w, s.Set(dest, u)) == s.Set(dest, v)
    ensures Sets(words + [w], dest, v)
  {
    forall s ensures Exec(words + [w], s) == s.Set(dest, v) {
      ExecLast(words, w, s);
    }
  }

  lemma XoriFirst(dest: Reg, x: bv12, s: State)
    ensures Exec1(OpImm(XORI, dest, Zero, x), s) == s.Set(dest, Sext12(x))
  {
    assert 0 ^ Sext12(x) == Sext12(x);
  }

  lemma Xori(dest: Reg, x: bv12, s: State)
    ensures Exec1(OpImm(XORI, dest, dest, x), s) == s.Set(dest, Xor(s.Get(dest), Sext12(x)))
  {
  }

  lemma GetSet(s: State, dest: Reg, u: bv64)
    requires !dest.Zero?
    ensures s.Set(dest, u).Get(dest) == u
  {
  }

  lemma XoriNext(dest: Reg, x: bv12, u: bv64, s: State)
    ensures Exec1(OpImm(XORI, dest, dest, x), s.Set(dest, u)) == s.Set(dest, Xor(u, Sext12(x)))
  {
    Xori(dest, x, s.Set(dest, u));
    if !dest.Zero? {
      GetSet(s, dest, u);
      SetTwice(s, dest, u, Xor(u, Sext12(x)));
    }
  }

  lemma SlliSets(words: seq<Instr>, dest: Reg, m: bv6, n: nat, u: bv64)
    requires Sets(words, dest, u) && m as nat == n
    ensures Sets(words + [Shift(SLLI, dest, dest, m)], dest, Shl(u, n))
  {
    var w := Shift(SLLI, dest, dest, m);
    forall s: State ensures Exec1(w, s.Set(dest, u)) == s.Set(dest, Shl(u, n)) {
      if !dest.Zero? {
        GetSet(s, dest, u);
        SetTwice(s, dest, u, Shl(u, n));
      }
    }
    SetsNext(words, w, dest, u, Shl(u, n));
  }

  lemma ZeroContributes(p: bv32, u: bv64)
    requires !(p > 0)
    ensures Xor(u, Contribution(p, false)) == u
  {
  }

  /** The register once the shift behind package k is done as well. */
  function Reached(sl: Slices, k: nat): bv64
    requires sl.Shape() && k < sl.index
  {
    var u := Loaded(sl.packages, sl.shifts, sl.luiUsed, k);
    if k + 1 < sl.index then Shl(u, sl.shifts[k]) else u
  }

  method EmitShift(batch: CodeBatch, dest: Reg, n: nat, ghost words: seq<Instr>, ghost u: bv64)
      returns (ghost more: seq<Instr>)
    requires n < 64 && Sets(words, dest, u)
    modifies batch
    ensures Sets(words + more, dest, Shl(u, n))
    ensures batch.code == old(batch.code) + more && |more| <= (if n == 0 then 0 else 1)
  {
    more := [];
    if n > 0 {
      var _ := batch.Add(Shift(SLLI, dest, dest, n as bv6));
      more := [Shift(SLLI, dest, dest, n as bv6)];
      AmountValue(n);
      SlliSets(words, dest, n as bv6, n, u);
    } else {
      assert words + more == words;
    }
  }

  method EmitFirst(batch: CodeBatch, dest: Reg, package: bv32, lui: bool) returns (ghost words: seq<Instr>)
    modifies batch
    ensures Sets(words, dest, Contribution(package, lui))
    ensures batch.code == old(batch.code) + words && |words| == 1
  {
    if lui {
      var _ := batch.Add(Lui(dest, Cut20(package)));
      words := [Lui(dest, Cut20(package))];
      SetsFirst(words[0], dest, UpperImm(Cut20(package)));
    } else {
      var _ := batch.Add(OpImm(XORI, dest, Zero, Cut12(package)));
      words := [OpImm(XORI, dest, Zero, Cut12(package))];
      forall s: State ensures Exec1(words[0], s) == s.Set(dest, Sext12(Cut12(package))) {
        XoriFirst(dest, Cut12(package), s);
      }
      SetsFirst(words[0], dest, Sext12(Cut12(package)));
    }
  }

  method EmitNext(batch: CodeBatch, dest: Reg, package: bv32, ghost words: seq<Instr>, ghost u: bv64)
      returns (ghost more: seq<Instr>)
    requires Sets(words, dest, u)
    modifies batch
    ensures Sets(words + more, dest, Xor(u, Contribution(package, false)))
    ensures batch.code == old(batch.code) + more && |more| <= 1
  {
    more := [];
    if package > 0 {
      var _ := batch.Add(OpImm(XORI, dest, dest, Cut12(package)));
      more := [OpImm(XORI, dest, dest, Cut12(package))];
      forall s: State ensures Exec1(more[0], s.Set(dest, u)) == s.Set(dest, Xor(u, Sext12(Cut12(package)))) {
        XoriNext(dest, Cut12(package), u, s);
      }
      SetsNext(words, more[0], dest, u, Xor(u, Sext12(Cut12(package))));
    } else {
      ZeroContributes(package, u);
      assert words + more == words;
    }
  }

  /** One round of the emitting loop. */
  method EmitPackage(batch: CodeBatch, dest: Reg, sl: Slices, i: nat, ghost words: seq<Instr>)
      returns (ghost more: seq<Instr>)
    requires sl.Shape() && 0 < i < sl.index && Sets(words, dest, Reached(sl, i - 1))
    modifies batch
    ensures Sets(words + more, dest, Reached(sl, i))
    ensures batch.code == old(batch.code) + more && |more| <= (if i + 1 == sl.index then 1 else 2)
  {
    LoadedStep(sl.packages, sl.shifts, sl.luiUsed, i);
    more := EmitNext(batch, dest, sl.packages[i], words, Reached(sl, i - 1));
    if i + 1 < sl.index {
      ghost var shift := EmitShift(batch, dest, sl.shifts[i], words + more,
        Loaded(sl.packages, sl.shifts, sl.luiUsed, i));
      assert words + more + shift == words + (more + shift);
      more := more + shift;
    }
  }

  method EmitPackages(batch: CodeBatch, dest: Reg, sl: Slices, ghost first: seq<Instr>)
      returns (ghost words: seq<Instr>)
    requires sl.Shape() && Sets(first, dest, Reached(sl, 0)) && |first| <= 2
    requires |first| == 2 ==> 1 < sl.index && sl.shifts[0] > 0
    modifies batch
    ensures batch.code == old(batch.code) + words && Sets(first + words, dest, sl.Value())
    ensures |first| + |words| <= 8
  {
    words := [];
    assert first + [] == first;
    var i := 1;
    while i < sl.index
      invariant 1 <= i <= sl.index
      invariant Sets(first + words, dest, Reached(sl, i - 1))
      invariant batch.code == old(batch.code) + words
      invariant |words| <= 2 * (i - 1) - (if 1 < i == sl.index then 1 else 0)
    {
      ghost var more := EmitPackage(batch, dest, sl, i, first + words);
      assert first + words + more == first + (words + more);
      words := words + more;
      i := i + 1;
    }
  }

  /** Loads any 64-bit constant exactly, in at most eight words. */
  method LoadImmediate(batch: CodeBatch, imm: bv64, dest: Reg) returns (ghost words: seq<Instr>)
    modifies batch
    ensures batch.code == old(batch.code) + words && |words| <= 8
    ensures Sets(words, dest, imm)
  {
    var sl := Slice(imm);
    words := EmitFirst(batch, dest, sl.packages[0], sl.luiUsed);
    ghost var more := [];
    if 1 < sl.index {
      more := EmitShift(batch, dest, sl.shifts[0], words, Loaded(sl.packages, sl.shifts, sl.luiUsed, 0));
      words := words + more;
    }
    more := EmitPackages(batch, dest, sl, words);
    words := words + more;
  }
}
