/**
 Loading an address in exactly eight words (helper.cpp), as block ends do.
 */
module Addresses {
  import opened RiscV
  import opened Batches
  import opened Bits
  import opened Immediates

  // ---- digit groups of an address -------------------------------------------------------------

  /** The five digit groups of an address: 20, 12, 12, 12 and 8 bits. */
  function Group(ptr: bv64, k: nat): bv64 {
    if k == 0 then ptr & 0xff
    else if k == 1 then (ptr & 0xfff00) >> 8
    else if k == 2 then (ptr & 0xfff0_0000) >> 20
    else if k == 3 then (ptr & 0xfff_0000_0000) >> 32
    else (ptr & 0xffff_f000_0000_0000) >> 44
  }

  lemma GroupSmall(ptr: bv64)
    ensures Group(ptr, 0) < 0x100 && Group(ptr, 1) < 0x1000 && Group(ptr, 2) < 0x1000
    ensures Group(ptr, 3) < 0x1000 && Group(ptr, 4) < 0x100000
  {
  }

  function Total(g0: bv64, g1: bv64, g2: bv64, g3: bv64, g4: bv64): bv64 {
    g4 * 0x1000_0000_0000 + g3 * 0x1_0000_0000 + g2 * 0x10_0000 + g1 * 0x100 + g0
  }

  lemma GroupsSum(ptr: bv64)
    ensures Total(Group(ptr, 0), Group(ptr, 1), Group(ptr, 2), Group(ptr, 3), Group(ptr, 4)) == ptr
  {
    PartsSum(ptr);
    assert
      var g0, g1, g2 := ptr & 0xff, (ptr & 0xfff00) >> 8, (ptr & 0xfff0_0000) >> 20;
      var g3, g4 := (ptr & 0xfff_0000_0000) >> 32, (ptr & 0xffff_f000_0000_0000) >> 44;
      Total(g0, g1, g2, g3, g4) == g4 * 0x1000_0000_0000 + g3 * 0x1_0000_0000 + g2 * 0x10_0000 + g1 * 0x100 + g0;
  }

  lemma PartsSum(ptr: bv64)
    ensures ((ptr & 0xffff_f000_0000_0000) >> 44) * 0x1000_0000_0000 + ((ptr & 0xfff_0000_0000) >> 32) * 0x1_0000_0000
            + ((ptr & 0xfff0_0000) >> 20) * 0x10_0000 + ((ptr & 0xfff00) >> 8) * 0x100 + (ptr & 0xff) == ptr
  {
  }

  function Flag(b: bool): (r: bv64)
    ensures if b then 0 < r < 2 else r < 1
  {
    if b then 1 else 0
  }

  function Raised(package: bv32, c: bool): bv32 { if c then package + 1 else package }

  /** A group and the carry into it, as the 32-bit package holds them. */
  function WithCarry(g: bv64, c: bool): bv32
    requires g < 0x100000
  {
    Raised(g as bv32, c)
  }

  /** A group with the carry into it and without the carry out of it. */
  function Balanced(g: bv64, into: bv64, out: bv64): bv64 { g + into - out * 0x1000 }
  function Lowest(g: bv64, out: bv64): bv64 { g - out * 0x1000 }
  function Topmost(g: bv64, into: bv64, out: bv64): bv64 { (g + into) * 0x1000 - out * 0x1_0000_0000 }

  lemma DigitLow(g: bv64)
    requires g < 0x800
    ensures Sext12(Cut12(g as bv32)) == g
  {
    assert !(0 < Cut12(g as bv32) & 0x800);
  }

  lemma DigitHigh(g: bv64)
    requires 0x800 <= g < 0x1000
    ensures Sext12(Cut12(g as bv32)) == g - 0x1000
  {
    assert 0 < Cut12(g as bv32) & 0x800;
    HighForm(g);
  }

  lemma HighForm(g: bv64)
    requires 0x800 <= g < 0x1000
    ensures 0xffff_ffff_ffff_f000 | (Cut12(g as bv32) as bv64) == g - 0x1000
  {
  }

  lemma Succ32(g: bv64)
    requires g < 0x100000
    ensures (g as bv32) + 1 == (g + 1) as bv32
  {
  }

  lemma DigitTop()
    ensures Sext12(Cut12(0x1000)) < 1
  {
    assert !(0 < Cut12(0x1000) & 0x800);
  }

  lemma Assemble(g: bv64, f: bv64, k: bv64)
    requires f < 2 && k < 2
    ensures f < 1 && k < 1 ==> g == g + f - k * 0x1000
    ensures f < 1 && 0 < k ==> g - 0x1000 == g + f - k * 0x1000
    ensures 0 < f && k < 1 ==> g + 1 == g + f - k * 0x1000
    ensures 0 < f && 0 < k ==> g + 1 - 0x1000 == g + f - k * 0x1000
  {
  }

  function Digit(g: bv64, c: bool): bv64
    requires g < 0x100000
  {
    Sext12(Cut12(WithCarry(g, c)))
  }

  lemma DigitLowPlain(g: bv64, k: bv64)
    requires g < 0x800 && k < 1
    ensures Digit(g, false) == Balanced(g, Flag(false), k)
  {
    DigitLow(g);
    Assemble(g, Flag(false), k);
  }

  lemma DigitHighPlain(g: bv64, k: bv64)
    requires 0x800 <= g < 0x1000 && 0 < k < 2
    ensures Digit(g, false) == Balanced(g, Flag(false), k)
  {
    DigitHigh(g);
    Assemble(g, Flag(false), k);
  }

  lemma DigitLowCarry(g: bv64, k: bv64)
    requires g < 0x7ff && k < 1
    ensures Digit(g, true) == Balanced(g, Flag(true), k)
  {
    Succ32(g);
    DigitLow(g + 1);
    Assemble(g, Flag(true), k);
  }

  lemma DigitHighCarry(g: bv64, k: bv64)
    requires 0x7ff <= g < 0xfff && 0 < k < 2
    ensures Digit(g, true) == Balanced(g, Flag(true), k)
  {
    Succ32(g);
    DigitHigh(g + 1);
    Assemble(g, Flag(true), k);
  }

  lemma DigitTopCarry(g: bv64, k: bv64)
    requires 0xfff <= g < 0x1000 && 0 < k < 2
    ensures Digit(g, true) == Balanced(g, Flag(true), k)
  {
    TopValue(g);
    DigitTop();
    Assemble(g, Flag(true), k);
    ZeroDigit(g, Digit(g, true));
  }

  lemma TopValue(g: bv64)
    requires 0xfff <= g < 0x1000
    ensures (g as bv32) + 1 == 0x1000
  {
  }

  lemma ZeroDigit(g: bv64, d: bv64)
    requires 0xfff <= g < 0x1000 && d < 1
    ensures d == g + 1 - 0x1000
  {
  }

  lemma CarryOutPlain(g: bv64)
    requires g < 0x1000
    ensures g as bv32 >= 0x800 <==> 0x800 <= g
  {
  }

  lemma CarryOutCarry(g: bv64)
    requires g < 0x1000
    ensures (g as bv32) + 1 >= 0x800 <==> 0x7ff <= g
  {
  }

  lemma DigitPlain(g: bv64, c: bool)
    requires g < 0x1000 && !c
    ensures Digit(g, c) == Balanced(g, Flag(c), Flag(WithCarry(g, c) >= 0x800))
  {
    CarryOutPlain(g);
    if g < 0x800 {
      DigitLowPlain(g, Flag(WithCarry(g, false) >= 0x800));
    } else {
      DigitHighPlain(g, Flag(WithCarry(g, false) >= 0x800));
    }
  }

  lemma DigitCarry(g: bv64, c: bool)
    requires g < 0x1000 && c
    ensures Digit(g, c) == Balanced(g, Flag(c), Flag(WithCarry(g, c) >= 0x800))
  {
    CarryOutCarry(g);
    if g < 0x7ff {
      DigitLowCarry(g, Flag(WithCarry(g, true) >= 0x800));
    } else if g < 0xfff {
      DigitHighCarry(g, Flag(WithCarry(g, true) >= 0x800));
    } else {
      DigitTopCarry(g, Flag(WithCarry(g, true) >= 0x800));
    }
  }

  /** A sign-extended group stands for its value, less the carry into the next group. */
  lemma DigitValue(g: bv64, c: bool)
    requires g < 0x1000
    ensures Digit(g, c) == Balanced(g, Flag(c), Flag(WithCarry(g, c) >= 0x800))
  {
    if c {
      DigitCarry(g, c);
    } else {
      DigitPlain(g, c);
    }
  }

  // ---- the upper group ------------------------------------------------------------------------

  function UpperDigit(g: bv64, c: bool): bv64
    requires g < 0x100000
  {
    UpperImm(Cut20(WithCarry(g, c)))
  }

  lemma UpperLow(g: bv64)
    requires g < 0x80000
    ensures UpperImm(Cut20(g as bv32)) == g * 0x1000
  {
    assert !(0 < Cut20(g as bv32) & 0x80000);
    UpperLowForm(g);
  }

  lemma UpperLowForm(g: bv64)
    requires g < 0x80000
    ensures (Cut20(g as bv32) as bv64) << 12 == g * 0x1000
  {
  }

  function HighUpper(g: bv64): bv64 { g * 0x1000 - 0x1_0000_0000 }

  lemma UpperHigh(g: bv64)
    requires 0x80000 <= g < 0x100000
    ensures UpperImm(Cut20(g as bv32)) == HighUpper(g)
  {
    assert 0 < Cut20(g as bv32) & 0x80000;
    UpperHighForm(g);
  }

  lemma UpperHighForm(g: bv64)
    requires 0x80000 <= g < 0x100000
    ensures 0xffff_ffff_0000_0000 | ((Cut20(g as bv32) as bv64) << 12) == g * 0x1000 - 0x1_0000_0000
  {
  }

  lemma UpperTop()
    ensures UpperImm(Cut20(0x100000)) < 1
  {
    assert !(0 < Cut20(0x100000) & 0x80000);
  }

  lemma UpperTopValue(g: bv64, d: bv64)
    requires 0xfffff <= g < 0x100000
    ensures (g as bv32) + 1 == 0x100000
    ensures d < 1 ==> d == (g + 1) * 0x1000 - 0x1_0000_0000
  {
  }

  lemma AssembleUpper(g: bv64, f: bv64, k: bv64)
    requires f < 2 && k < 2
    ensures f < 1 && k < 1 ==> g * 0x1000 == (g + f) * 0x1000 - k * 0x1_0000_0000
    ensures f < 1 && 0 < k ==> g * 0x1000 - 0x1_0000_0000 == (g + f) * 0x1000 - k * 0x1_0000_0000
    ensures 0 < f && k < 1 ==> (g + 1) * 0x1000 == (g + f) * 0x1000 - k * 0x1_0000_0000
    ensures 0 < f && 0 < k ==> (g + 1) * 0x1000 - 0x1_0000_0000 == (g + f) * 0x1000 - k * 0x1_0000_0000
  {
  }

  lemma UpperPlain(g: bv64, c: bool, k: bv64)
    requires !c && g < 0x100000 && (if g < 0x80000 then k < 1 else 0 < k < 2)
    ensures UpperDigit(g, c) == Topmost(g, Flag(c), k)
  {
    AssembleUpper(g, Flag(c), k);
    if g < 0x80000 {
      UpperLow(g);
    } else {
      UpperHigh(g);
    }
  }

  lemma UpperCarryLow(g: bv64, c: bool, k: bv64)
    requires c && g < 0x7ffff && k < 1
    ensures UpperDigit(g, c) == Topmost(g, Flag(c), k)
  {
    AssembleUpper(g, Flag(c), k);
    Succ32(g);
    UpperLow(g + 1);
  }

  lemma UpperHighSucc(g: bv64)
    requires 0x7ffff <= g < 0xfffff
    ensures UpperImm(Cut20((g as bv32) + 1)) == (g + 1) * 0x1000 - 0x1_0000_0000
  {
    Succ32(g);
    UpperHigh(g + 1);
    assert HighUpper(g + 1) == (g + 1) * 0x1000 - 0x1_0000_0000;
  }

  lemma BothCarries(g: bv64, f: bv64, k: bv64)
    requires 0 < f < 2 && 0 < k < 2
    ensures (g + 1) * 0x1000 - 0x1_0000_0000 == (g + f) * 0x1000 - k * 0x1_0000_0000
  {
  }

  lemma UpperCarryHigh(g: bv64, c: bool, k: bv64)
    requires c && 0x7ffff <= g < 0xfffff && 0 < k < 2
    ensures UpperDigit(g, c) == Topmost(g, Flag(c), k)
  {
    BothCarries(g, Flag(c), k);
    UpperHighSucc(g);
  }

  lemma UpperFull(g: bv64, c: bool, k: bv64)
    requires c && 0xfffff <= g < 0x100000 && 0 < k < 2
    ensures UpperDigit(g, c) == Topmost(g, Flag(c), k)
  {
    AssembleUpper(g, Flag(c), k);
    UpperTop();
    UpperTopValue(g, UpperDigit(g, c));
  }

  /** The upper group, up to bits that the following shifts push out. */
  lemma UpperValue(g: bv64, c: bool) returns (k: bv64)
    requires g < 0x100000
    ensures UpperDigit(g, c) == Topmost(g, Flag(c), k)
  {
    k := if g < (if c then 0x7ffff else 0x80000) then 0 else 1;
    if !c {
      UpperPlain(g, c, k);
    } else if g < 0x7ffff {
      UpperCarryLow(g, c, k);
    } else if g < 0xfffff {
      UpperCarryHigh(g, c, k);
    } else {
      UpperFull(g, c, k);
    }
  }

  // ---- loading an address in exactly eight words ------------------------------------------------

  function Addi(dest: Reg, p: bv32): Instr { OpImm(ADDI, dest, dest, Cut12(p)) }

  function AddressWords(dest: Reg, p: seq<bv32>): seq<Instr>
    requires |p| == 5
  {
    [Lui(dest, Cut20(p[4])), Addi(dest, p[3]), Shift(SLLI, dest, dest, 12), Addi(dest, p[2]),
      Shift(SLLI, dest, dest, 12),
     Addi(dest, p[1]), Shift(SLLI, dest, dest, 8), Addi(dest, p[0])]
  }

  function Times12(x: bv64): bv64 { x * 0x1000 }
  function Times8(x: bv64): bv64 { x * 0x100 }

  lemma ExecAddi(dest: Reg, p: bv32, s: State)
    ensures Exec1(Addi(dest, p), s) == s.Set(dest, Plus(s.Get(dest), Sext12(Cut12(p))))
  {
  }

  lemma AddiNext(dest: Reg, p: bv32, u: bv64, d: bv64, s: State)
    requires Sext12(Cut12(p)) == d
    ensures Exec1(Addi(dest, p), s.Set(dest, u)) == s.Set(dest, Plus(u, d))
  {
    ExecAddi(dest, p, s.Set(dest, u));
    if !dest.Zero? {
      GetSet(s, dest, u);
      SetTwice(s, dest, u, Plus(u, d));
    }
  }

  /** The instruction adds d to `dest`. */
  ghost predicate Adds(dest: Reg, i: Instr, d: bv64) {
    Straight(i) && forall s: State, u: bv64 {:trigger Plus(u, d), s.Set(dest, u)} ::
      Exec1(i, s.Set(dest, u)) == s.Set(dest, Plus(u, d))
  }

  lemma AddiAdds(dest: Reg, p: bv32, d: bv64)
    requires Sext12(Cut12(p)) == d
    ensures Adds(dest, Addi(dest, p), d)
  {
    forall s: State, u: bv64 ensures Exec1(Addi(dest, p), s.Set(dest, u)) == s.Set(dest, Plus(u, d)) {
      AddiNext(dest, p, u, d, s);
    }
  }

  lemma AddiSets(words: seq<Instr>, dest: Reg, i: Instr, u: bv64, d: bv64)
    requires Sets(words, dest, u) && Adds(dest, i, d)
    ensures Sets(words + [i], dest, Plus(u, d))
  {
    var v := Plus(u, d);
    forall s: State ensures Exec1(i, s.Set(dest, u)) == s.Set(dest, v) {
    }
    SetsNext(words, i, dest, u, v);
  }

  lemma Scale(x: bv64)
    ensures x << 12 == Times12(x) && x << 8 == Times8(x)
  {
  }

  lemma Slli12(words: seq<Instr>, dest: Reg, u: bv64)
    requires Sets(words, dest, u)
    ensures Sets(words + [Shift(SLLI, dest, dest, 12)], dest, Times12(u))
  {
    SlliSets(words, dest, 12, 12, u);
    Shl12(u);
    Scale(u);
  }

  lemma Slli8(words: seq<Instr>, dest: Reg, u: bv64)
    requires Sets(words, dest, u)
    ensures Sets(words + [Shift(SLLI, dest, dest, 8)], dest, Times8(u))
  {
    SlliSets(words, dest, 8, 8, u);
    Shl8(u);
    Scale(u);
  }

  lemma LuiSets(dest: Reg, p: bv32, u: bv64)
    requires UpperImm(Cut20(p)) == u
    ensures Sets([Lui(dest, Cut20(p))], dest, u)
  {
    SetsFirst(Lui(dest, Cut20(p)), dest, u);
  }

  function Prefix(dest: Reg, p: seq<bv32>, n: nat): seq<Instr>
    requires |p| == 5 && n <= 8
  {
    AddressWords(dest, p)[..n]
  }

  lemma PrefixNext(dest: Reg, p: seq<bv32>, n: nat)
    requires |p| == 5 && n < 8
    ensures Prefix(dest, p, n + 1) == Prefix(dest, p, n) + [AddressWords(dest, p)[n]]
  {
  }

  lemma AddStep(dest: Reg, p: seq<bv32>, n: nat, u: bv64, d: bv64)
    requires |p| == 5 && n < 8 && Sets(Prefix(dest, p, n), dest, u) && Adds(dest, AddressWords(dest, p)[n], d)
    ensures Sets(Prefix(dest, p, n + 1), dest, Plus(u, d))
  {
    PrefixNext(dest, p, n);
    AddiSets(Prefix(dest, p, n), dest, AddressWords(dest, p)[n], u, d);
  }

  lemma ShiftStep12(dest: Reg, p: seq<bv32>, n: nat, u: bv64)
    requires |p| == 5 && n < 8 && Sets(Prefix(dest, p, n), dest, u)
    requires AddressWords(dest, p)[n] == Shift(SLLI, dest, dest, 12)
    ensures Sets(Prefix(dest, p, n + 1), dest, Times12(u))
  {
    PrefixNext(dest, p, n);
    Slli12(Prefix(dest, p, n), dest, u);
  }

  lemma ShiftStep8(dest: Reg, p: seq<bv32>, n: nat, u: bv64)
    requires |p| == 5 && n < 8 && Sets(Prefix(dest, p, n), dest, u)
    requires AddressWords(dest, p)[n] == Shift(SLLI, dest, dest, 8)
    ensures Sets(Prefix(dest, p, n + 1), dest, Times8(u))
  {
    PrefixNext(dest, p, n);
    Slli8(Prefix(dest, p, n), dest, u);
  }

  lemma AddressWord(dest: Reg, p: seq<bv32>)
    requires |p| == 5
    ensures var a := AddressWords(dest, p);
      && a[1] == Addi(dest, p[3]) && a[2] == Shift(SLLI, dest, dest, 12) && a[3] == Addi(dest, p[2])
      && a[4] == Shift(SLLI, dest, dest, 12) && a[5] == Addi(dest, p[1])
      && a[6] == Shift(SLLI, dest, dest, 8) && a[7] == Addi(dest, p[0])
  {
    hide Addi;
  }

  lemma FirstPair(dest: Reg, p: seq<bv32>, u: bv64, d3: bv64)
    requires |p| == 5 && Adds(dest, Addi(dest, p[3]), d3) && Sets(Prefix(dest, p, 1), dest, u)
    ensures Sets(Prefix(dest, p, 3), dest, Times12(Plus(u, d3)))
  {
    hide Addi, Adds, Sets, Prefix, Plus, Times12;
    AddressWord(dest, p);
    AddStep(dest, p, 1, u, d3);
    ShiftStep12(dest, p, 2, Plus(u, d3));
  }

  lemma FirstHalf(dest: Reg, p: seq<bv32>, u: bv64, d3: bv64, d2: bv64)
    requires |p| == 5 && Sets(Prefix(dest, p, 1), dest, u) && Adds(dest, Addi(dest, p[3]), d3)
    requires Adds(dest, Addi(dest, p[2]), d2)
    ensures Sets(Prefix(dest, p, 4), dest, Plus(Times12(Plus(u, d3)), d2))
  {
    hide Addi, Adds, Sets, Prefix, Plus, Times12;
    AddressWord(dest, p);
    FirstPair(dest, p, u, d3);
    AddStep(dest, p, 3, Times12(Plus(u, d3)), d2);
  }

  lemma ThirdPair(dest: Reg, p: seq<bv32>, v: bv64, d1: bv64)
    requires |p| == 5 && Adds(dest, Addi(dest, p[1]), d1) && Sets(Prefix(dest, p, 4), dest, v)
    ensures Sets(Prefix(dest, p, 6), dest, Plus(Times12(v), d1))
  {
    hide Addi, Adds, Sets, Prefix, Plus, Times12;
    AddressWord(dest, p);
    ShiftStep12(dest, p, 4, v);
    AddStep(dest, p, 5, Times12(v), d1);
  }

  lemma LastPair(dest: Reg, p: seq<bv32>, v: bv64, d0: bv64)
    requires |p| == 5 && Adds(dest, Addi(dest, p[0]), d0) && Sets(Prefix(dest, p, 6), dest, v)
    ensures Sets(AddressWords(dest, p), dest, Plus(Times8(v), d0))
  {
    ShiftStep8(dest, p, 6, v);
    AddStep(dest, p, 7, Times8(v), d0);
    assert Prefix(dest, p, 8) == AddressWords(dest, p);
  }

  /** The value after the upper two, three and four packages: each carry is gone once its group is there. */
  function Top2(g3: bv64, g4: bv64, c3: bv64, c5: bv64): bv64 { g4 * 0x1000 - c5 * 0x1_0000_0000 + g3 + c3 }
  function Top3(g2: bv64, g3: bv64, g4: bv64, c2: bv64, c5: bv64): bv64 {
    g4 * 0x100_0000 - c5 * 0x1000_0000_0000 + g3 * 0x1000 + g2 + c2
  }
  function Top4(g1: bv64, g2: bv64, g3: bv64, g4: bv64, c5: bv64): bv64 {
    g4 * 0x10_0000_0000 - c5 * 0x100_0000_0000_0000 + g3 * 0x100_0000 + g2 * 0x1000 + g1
  }

  lemma CarryTop2(g3: bv64, g4: bv64, c3: bv64, c4: bv64, c5: bv64)
    ensures Plus(Topmost(g4, c4, c5), Balanced(g3, c3, c4)) == Top2(g3, g4, c3, c5)
  {
    assert Plus((g4 + c4) * 0x1000 - c5 * 0x1_0000_0000, g3 + c3 - c4 * 0x1000)
      == g4 * 0x1000 - c5 * 0x1_0000_0000 + g3 + c3;
  }

  lemma CarryTop3(g2: bv64, g3: bv64, g4: bv64, c2: bv64, c3: bv64, c5: bv64)
    ensures Plus(Times12(Top2(g3, g4, c3, c5)), Balanced(g2, c2, c3)) == Top3(g2, g3, g4, c2, c5)
  {
    assert Times12(g4 * 0x1000 - c5 * 0x1_0000_0000 + g3 + c3) == (g4 * 0x1000 - c5 * 0x1_0000_0000 + g3 + c3) * 0x1000;
    assert Plus((g4 * 0x1000 - c5 * 0x1_0000_0000 + g3 + c3) * 0x1000, g2 + c2 - c3 * 0x1000)
           == g4 * 0x100_0000 - c5 * 0x1000_0000_0000 + g3 * 0x1000 + g2 + c2;
  }

  lemma CarryTop4(g1: bv64, g2: bv64, g3: bv64, g4: bv64, c2: bv64, c5: bv64)
    ensures Plus(Times12(Top3(g2, g3, g4, c2, c5)), Lowest(g1, c2)) == Top4(g1, g2, g3, g4, c5)
  {
    assert Times12(g4 * 0x100_0000 - c5 * 0x1000_0000_0000 + g3 * 0x1000 + g2 + c2)
           == (g4 * 0x100_0000 - c5 * 0x1000_0000_0000 + g3 * 0x1000 + g2 + c2) * 0x1000;
    assert Plus((g4 * 0x100_0000 - c5 * 0x1000_0000_0000 + g3 * 0x1000 + g2 + c2) * 0x1000, g1 - c2 * 0x1000)
           == g4 * 0x10_0000_0000 - c5 * 0x100_0000_0000_0000 + g3 * 0x100_0000 + g2 * 0x1000 + g1;
  }

  lemma AllGroups(g0: bv64, g1: bv64, g2: bv64, g3: bv64, g4: bv64, c5: bv64)
    ensures Plus(Times8(Top4(g1, g2, g3, g4, c5)), g0) == Total(g0, g1, g2, g3, g4)
  {
    assert Times8(g4 * 0x10_0000_0000 - c5 * 0x100_0000_0000_0000 + g3 * 0x100_0000 + g2 * 0x1000 + g1)
           == (g4 * 0x10_0000_0000 - c5 * 0x100_0000_0000_0000 + g3 * 0x100_0000 + g2 * 0x1000 + g1) * 0x100;
    assert Plus((g4 * 0x10_0000_0000 - c5 * 0x100_0000_0000_0000 + g3 * 0x100_0000 + g2 * 0x1000 + g1) * 0x100, g0)
           == g4 * 0x1000_0000_0000 + g3 * 0x1_0000_0000 + g2 * 0x10_0000 + g1 * 0x100 + g0;
  }

  /** The packages once every carry has been passed on. */
  predicate Holds(p: seq<bv32>, g0: bv64, g1: bv64, g2: bv64, g3: bv64, g4: bv64) {
    && |p| == 5 && g0 < 0x800 && g1 < 0x1000 && g2 < 0x1000 && g3 < 0x1000 && g4 < 0x100000
    && p[0] == g0 as bv32 && p[1] == g1 as bv32 && p[2] == WithCarry(g2, p[1] >= 0x800)
    && p[3] == WithCarry(g3, p[2] >= 0x800) && p[4] == WithCarry(g4, p[3] >= 0x800)
  }

  lemma FirstPlain(g: bv64, k: bv64)
    requires g < 0x1000 && (if g < 0x800 then k < 1 else 0 < k < 2)
    ensures Sext12(Cut12(g as bv32)) == Lowest(g, k)
  {
    OneTimes(k);
    if g < 0x800 {
      DigitLow(g);
    } else {
      DigitHigh(g);
    }
  }

  lemma OneTimes(k: bv64)
    requires k < 2
    ensures k < 1 ==> k * 0x1000 == 0
    ensures 0 < k ==> k * 0x1000 == 0x1000
  {
  }

  /** A group that nothing is carried into. */
  lemma DigitFirst(g: bv64)
    requires g < 0x1000
    ensures Sext12(Cut12(g as bv32)) == Lowest(g, Flag(g as bv32 >= 0x800))
  {
    CarryOutPlain(g);
    FirstPlain(g, Flag(g as bv32 >= 0x800));
  }

  lemma GroupAdds(dest: Reg, g: bv64, c: bool)
    requires g < 0x1000
    ensures Adds(dest, Addi(dest, WithCarry(g, c)), Balanced(g, Flag(c), Flag(WithCarry(g, c) >= 0x800)))
  {
    DigitValue(g, c);
    AddiAdds(dest, WithCarry(g, c), Digit(g, c));
  }

  lemma FirstGroupAdds(dest: Reg, g: bv64)
    requires g < 0x800
    ensures Adds(dest, Addi(dest, g as bv32), g)
  {
    DigitLow(g);
    AddiAdds(dest, g as bv32, g);
  }

  lemma SecondGroupAdds(dest: Reg, g: bv64)
    requires g < 0x1000
    ensures Adds(dest, Addi(dest, g as bv32), Lowest(g, Flag(g as bv32 >= 0x800)))
  {
    DigitFirst(g);
    AddiAdds(dest, g as bv32, Lowest(g, Flag(g as bv32 >= 0x800)));
  }

  lemma UpperSets(dest: Reg, p: seq<bv32>, g: bv64, c: bool) returns (k: bv64)
    requires g < 0x100000 && |p| == 5 && p[4] == WithCarry(g, c)
    ensures Sets(Prefix(dest, p, 1), dest, Topmost(g, Flag(c), k))
  {
    k := UpperValue(g, c);
    LuiSets(dest, p[4], UpperDigit(g, c));
    assert Prefix(dest, p, 1) == [Lui(dest, Cut20(p[4]))];
  }

  lemma GroupsLoad(dest: Reg, p: seq<bv32>, g0: bv64, g1: bv64, g2: bv64, g3: bv64, g4: bv64,
        c2: bv64, c3: bv64, c4: bv64, c5: bv64)
    requires |p| == 5 && Adds(dest, Addi(dest, p[0]), g0) && Adds(dest, Addi(dest, p[1]), Lowest(g1, c2))
    requires Adds(dest, Addi(dest, p[2]), Balanced(g2, c2, c3)) && Adds(dest, Addi(dest, p[3]), Balanced(g3, c3, c4))
    requires Sets(Prefix(dest, p, 1), dest, Topmost(g4, c4, c5))
    ensures Sets(AddressWords(dest, p), dest, Total(g0, g1, g2, g3, g4))
  {
    FirstHalf(dest, p, Topmost(g4, c4, c5), Balanced(g3, c3, c4), Balanced(g2, c2, c3));
    CarryTop2(g3, g4, c3, c4, c5);
    CarryTop3(g2, g3, g4, c2, c3, c5);
    ThirdPair(dest, p, Top3(g2, g3, g4, c2, c5), Lowest(g1, c2));
    CarryTop4(g1, g2, g3, g4, c2, c5);
    LastPair(dest, p, Top4(g1, g2, g3, g4, c5), g0);
    AllGroups(g0, g1, g2, g3, g4, c5);
  }

  lemma PackagesLoad(dest: Reg, p: seq<bv32>, g0: bv64, g1: bv64, g2: bv64, g3: bv64, g4: bv64)
    requires Holds(p, g0, g1, g2, g3, g4)
    ensures Sets(AddressWords(dest, p), dest, Total(g0, g1, g2, g3, g4))
  {
    FirstGroupAdds(dest, g0);
    SecondGroupAdds(dest, g1);
    GroupAdds(dest, g2, p[1] >= 0x800);
    GroupAdds(dest, g3, p[2] >= 0x800);
    var c5 := UpperSets(dest, p, g4, p[3] >= 0x800);
    GroupsLoad(dest, p, g0, g1, g2, g3, g4, Flag(p[1] >= 0x800), Flag(p[2] >= 0x800), Flag(p[3] >= 0x800), c5);
  }

  // ---- emitting ---------------------------------------------------------------------------------

  /** Passes the carries on, group by group. */
  method PassCarries(groups: seq<bv32>) returns (packages: seq<bv32>)
    requires |groups| == 5
    ensures |packages| == 5 && packages[0] == groups[0] && packages[1] == groups[1]
    ensures forall k :: 2 <= k < 5 ==> packages[k] == Raised(groups[k], packages[k - 1] >= 0x800)
  {
    packages := groups;
    var i := 1;
    while i < 4
      invariant 1 <= i <= 4 && |packages| == 5
      invariant forall k :: 0 <= k < 5 && (k < 2 || i < k) ==> packages[k] == groups[k]
      invariant forall k :: 2 <= k <= i ==> packages[k] == Raised(groups[k], packages[k - 1] >= 0x800)
    {
      if packages[i] >= 0x800 {
        packages := packages[i + 1 := packages[i + 1] + 1];
      }
      i := i + 1;
    }
  }

  method PackGroups(g0: bv64, g1: bv64, g2: bv64, g3: bv64, g4: bv64) returns (packages: seq<bv32>)
    requires g0 < 0x800 && g1 < 0x1000 && g2 < 0x1000 && g3 < 0x1000 && g4 < 0x100000
    ensures Holds(packages, g0, g1, g2, g3, g4)
  {
    packages := PassCarries([g0 as bv32, g1 as bv32, g2 as bv32, g3 as bv32, g4 as bv32]);
  }

  /** Loads an address; unlike a constant it always takes eight words. */
  method LoadAddress(batch: CodeBatch, ptr: bv64, dest: Reg) returns (ghost words: seq<Instr>)
    modifies batch
    ensures batch.code == old(batch.code) + words && |words| == 8
    ensures Sets(words, dest, ptr)
  {
    GroupSmall(ptr);
    var packages := PackGroups(Group(ptr, 0), Group(ptr, 1), Group(ptr, 2), Group(ptr, 3), Group(ptr, 4));
    PackagesLoad(dest, packages, Group(ptr, 0), Group(ptr, 1), Group(ptr, 2), Group(ptr, 3), Group(ptr, 4));
    GroupsSum(ptr);
    words := AddressWords(dest, packages);
    EmitAddress(batch, packages, dest);
  }

  method EmitAddress(batch: CodeBatch, packages: seq<bv32>, dest: Reg)
    requires |packages| == 5
    modifies batch
    ensures batch.code == old(batch.code) + AddressWords(dest, packages)
  {
    var _ := batch.Add(Lui(dest, Cut20(packages[4])));
    assert Prefix(dest, packages, 1) == [AddressWords(dest, packages)[0]];
    var i := 4;
    while i > 0
      invariant 0 <= i <= 4
      invariant batch.code == old(batch.code) + Prefix(dest, packages, if i == 0 then 8 else 9 - 2 * i)
    {
      PrefixNext(dest, packages, 9 - 2 * i);
      var _ := batch.Add(Addi(dest, packages[i - 1]));
      if i > 1 {
        PrefixNext(dest, packages, 10 - 2 * i);
        var _ := batch.Add(Shift(SLLI, dest, dest, if i == 2 then 8 else 12));
      }
      i := i - 1;
    }
  }
}
