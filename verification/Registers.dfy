/**
 Sub-register access (helper.cpp).  A write of 8 bytes replaces the register, one of 4
 clears its upper half, and smaller ones leave the other bits alone (section 3.4.1.1 of
 Intel SDM Volume 1); access 0 is the second byte.
 */
module Registers {
  import opened RiscV
  import opened Machine
  import opened Batches
  import opened Bits
  import opened Effects

  predicate IsAccess(access: nat) { access == 8 || access == 4 || access == 2 || access == 1 || access == 0 }

  function WithWord(before: bv64, v: bv64): bv64 { (before & 0xffff_ffff_ffff_0000) | (v & 0xffff) }
  function WithByte(before: bv64, v: bv64): bv64 { (before & 0xffff_ffff_ffff_ff00) | (v & 0xff) }
  function WithHighByte(before: bv64, v: bv64): bv64 { (before & 0xffff_ffff_ffff_00ff) | ((v & 0xff) << 8) }

  /** A register after the write of a part of it. */
  function Merge(access: nat, before: bv64, v: bv64): bv64 {
    if access == 8 then v
    else if access == 4 then Low32(v)
    else if access == 2 then WithWord(before, v)
    else if access == 1 then WithByte(before, v)
    else WithHighByte(before, v)
  }

  function High8(v: bv64): bv64 { (v >> 8) & 0xff }

  /** The part of a register that an access reads. */
  function Part(access: nat, v: bv64): bv64 {
    if access == 8 then v
    else if access == 4 then Low32(v)
    else if access == 2 then Low16(v)
    else if access == 1 then Low8(v)
    else High8(v)
  }

  lemma WordReads(before: bv64, v: bv64)
    ensures Low16(WithWord(before, v)) == Low16(v)
  {
  }

  lemma ByteReads(before: bv64, v: bv64)
    ensures Low8(WithByte(before, v)) == Low8(v) && High8(WithByte(before, v)) == High8(before)
  {
  }

  lemma HighByteReads(before: bv64, v: bv64)
    ensures High8(WithHighByte(before, v)) == Low8(v) && Low8(WithHighByte(before, v)) == Low8(before)
  {
  }

  lemma Low32Reads(v: bv64)
    ensures Low32(Low32(v)) == Low32(v)
  {
  }

  /** What was written is what is read, and the bytes of a pair do not disturb each other. */
  lemma MergeReads(access: nat, before: bv64, v: bv64)
    requires IsAccess(access)
    ensures Part(access, Merge(access, before, v)) == Part(if access == 0 then 1 else access, v)
    ensures access == 0 ==> Part(1, Merge(0, before, v)) == Part(1, before)
    ensures access == 1 ==> Part(0, Merge(1, before, v)) == Part(0, before)
  {
    hide Low32, Low16, Low8, High8, WithWord, WithByte, WithHighByte;
    WordReads(before, v);
    ByteReads(before, v);
    HighByteReads(before, v);
    Low32Reads(v);
  }

  // ---- pairs of instructions --------------------------------------------------------------------------

  lemma StepMv(rd: Reg, rs: Reg, s: State)
    ensures Step(Mv(rd, rs), s) == s.Set(rd, s.Get(rs))
  {
    hide Step, State.Set, State.Get, Plus;
    StepImm(ADDI, rd, rs, 0, s);
    PlusZero(s.Get(rs));
  }

  lemma PlusZero(x: bv64)
    ensures Plus(x, Sext12(0)) == x
  {
    assert !(0 < 0 as bv12 & 0x800);
    assert Plus(x, 0) == x;
  }

  function ShiftPair(dest: Reg, src: Reg, up: bv6, down: bv6): seq<Instr> {
    [Shift(SLLI, dest, src, up), Shift(SRLI, dest, dest, down)]
  }

  lemma ShiftPairGives(dest: Reg, src: Reg, up: bv6, down: bv6, m: nat, n: nat, s: State)
    requires !dest.Zero? && up as nat == m && down as nat == n
    ensures Gives(ShiftPair(dest, src, up, down), s, dest, Shr(Shl(s.Get(src), m), n), {})
  {
    hide Step, Exec, Shl, Shr, State.Set, State.Get, Gives;
    var u := Shl(s.Get(src), m);
    Exec2Words(ShiftPair(dest, src, up, down), s);
    StepShift(SLLI, dest, src, up, s);
    SetKeeps(s, dest, u);
    StepShift(SRLI, dest, dest, down, s.Set(dest, u));
    SetKeeps(s.Set(dest, u), dest, Shr(u, n));
    GivesFrom(ShiftPair(dest, src, up, down), s, s.Set(dest, u).Set(dest, Shr(u, n)), dest, Shr(u, n), {}, {dest});
  }

  lemma Cut32(x: bv64)
    ensures Shr(Shl(x, 32), 32) == Low32(x)
  {
    Shl32(x);
    Shr32(x << 32);
    Upper32(x);
  }

  lemma Upper32(x: bv64)
    ensures (x << 32) >> 32 == x & 0xffff_ffff
  {
  }

  // ---- writing a register -------------------------------------------------------------------------------

  function WordWords(dest: Reg, src: Reg, temp: Reg): seq<Instr> {
    [Op(XOR, temp, src, dest)] + ShiftPair(temp, temp, 48, 48) + [Op(XOR, dest, temp, dest)]
  }

  /** Exclusive-or of two registers. */
  lemma XorGives(rd: Reg, a: Reg, b: Reg, s: State)
    requires !rd.Zero?
    ensures Gives([Op(XOR, rd, a, b)], s, rd, Xor(s.Get(a), s.Get(b)), {})
  {
    hide Step, Exec, Xor, State.Set, State.Get, Gives;
    Exec1Word([Op(XOR, rd, a, b)], s);
    StepOp(XOR, rd, a, b, s);
    SetKeeps(s, rd, Xor(s.Get(a), s.Get(b)));
    GivesFrom([Op(XOR, rd, a, b)], s, s.Set(rd, Xor(s.Get(a), s.Get(b))), rd, Xor(s.Get(a), s.Get(b)), {}, {rd});
  }

  function Up48(x: bv64): bv64 { x << 48 }
  function Down48(x: bv64): bv64 { x >> 48 }
  function Up56(x: bv64): bv64 { x << 56 }

  lemma ShiftNames(x: bv64)
    ensures Shl(x, 48) == Up48(x) && Shr(x, 48) == Down48(x) && Shl(x, 56) == Up56(x)
  {
    Shl48(x);
    Shr48(x);
    Shl56(x);
  }

  lemma WordValue(d: bv64, v: bv64)
    ensures Xor(Down48(Up48(Xor(v, d))), d) == WithWord(d, v)
  {
    assert Up48(v ^ d) == (v ^ d) << 48;
    assert Down48((v ^ d) << 48) == ((v ^ d) << 48) >> 48;
    assert Xor(((v ^ d) << 48) >> 48, d) == (d & 0xffff_ffff_ffff_0000) | (v & 0xffff);
  }

  /** Mixing the temporary into the destination. */
  lemma XorAfter(b: seq<Instr>, s: State, dest: Reg, temp: Reg, y: bv64)
    requires Gives(b, s, temp, y, {}) && temp != dest && !dest.Zero?
    ensures Gives(b + [Op(XOR, dest, temp, dest)], s, dest, Xor(y, s.Get(dest)), {temp})
  {
    hide Exec, Xor, State.Get;
    var v := Xor(y, s.Get(dest));
    XorGives(dest, temp, dest, Exec(b, s));
    GivesMore(b, s, temp, y, {}, {temp});
    GivesMore([Op(XOR, dest, temp, dest)], Exec(b, s), dest, v, {}, {temp});
    GivesThen(b, [Op(XOR, dest, temp, dest)], s, temp, y, dest, v, {temp});
  }

  lemma WordGives(dest: Reg, src: Reg, temp: Reg, s: State)
    requires !dest.Zero? && !temp.Zero? && temp != dest && temp != src
    ensures Gives(WordWords(dest, src, temp), s, dest, WithWord(s.Get(dest), s.Get(src)), {temp})
  {
    hide Exec, Shl, Shr, Xor, Up48, Down48, WithWord, ShiftPair, State.Get;
    var d, v := s.Get(dest), s.Get(src);
    var x := Xor(v, d);
    var a := [Op(XOR, temp, src, dest)];
    XorGives(temp, src, dest, s);
    ShiftPairGives(temp, temp, 48, 48, 48, 48, Exec(a, s));
    var y := Down48(Up48(x));
    ShiftNames(x);
    ShiftNames(Up48(x));
    GivesThen(a, ShiftPair(temp, temp, 48, 48), s, temp, x, temp, y, {});
    var b := a + ShiftPair(temp, temp, 48, 48);
    WordValue(d, v);
    XorAfter(b, s, dest, temp, y);
  }

  function HighWords(dest: Reg, src: Reg, temp: Reg): seq<Instr> {
    [Shift(SRLI, temp, dest, 8), Op(XOR, temp, temp, src)] + ShiftPair(temp, temp, 56, 48) + [Op(XOR, dest, temp, dest)]
  }

  function Down8(x: bv64): bv64 { x >> 8 }

  lemma HighStart(dest: Reg, src: Reg, temp: Reg, s: State)
    requires !temp.Zero? && temp != dest && temp != src
    ensures Gives([Shift(SRLI, temp, dest, 8), Op(XOR, temp, temp, src)], s, temp, Xor(Down8(s.Get(dest)), s.Get(src)),
      {})
  {
    hide Step, Exec, Shr, Xor, Down8, State.Set, State.Get, Gives;
    var w := [Shift(SRLI, temp, dest, 8), Op(XOR, temp, temp, src)];
    var u := Shr(s.Get(dest), 8);
    Exec2Words(w, s);
    StepShift(SRLI, temp, dest, 8, s);
    SetKeeps(s, temp, u);
    ShrName8(s.Get(dest));
    var s1 := s.Set(temp, u);
    StepOp(XOR, temp, temp, src, s1);
    var v := Xor(u, s.Get(src));
    SetKeeps(s1, temp, v);
    GivesFrom(w, s, s1.Set(temp, v), temp, v, {}, {temp});
  }

  lemma ShrName8(x: bv64)
    ensures Shr(x, 8) == Down8(x)
  {
    Shr8(x);
  }

  lemma HighValue(d: bv64, v: bv64)
    ensures Xor(Down48(Up56(Xor(Down8(d), v))), d) == WithHighByte(d, v)
  {
    assert Xor(d >> 8, v) == (d >> 8) ^ v;
    assert Up56((d >> 8) ^ v) == ((d >> 8) ^ v) << 56;
    assert Down48(((d >> 8) ^ v) << 56) == (((d >> 8) ^ v) << 56) >> 48;
    assert Xor((((d >> 8) ^ v) << 56) >> 48, d) == (d & 0xffff_ffff_ffff_00ff) | ((v & 0xff) << 8);
  }

  lemma HighGives(dest: Reg, src: Reg, temp: Reg, s: State)
    requires !dest.Zero? && !temp.Zero? && temp != dest && temp != src
    ensures Gives(HighWords(dest, src, temp), s, dest, WithHighByte(s.Get(dest), s.Get(src)), {temp})
  {
    hide Exec, Shl, Shr, Xor, Up56, Down48, Down8, WithHighByte, ShiftPair, State.Get;
    var d, v := s.Get(dest), s.Get(src);
    var x := Xor(Down8(d), v);
    var a := [Shift(SRLI, temp, dest, 8), Op(XOR, temp, temp, src)];
    HighStart(dest, src, temp, s);
    ShiftPairGives(temp, temp, 56, 48, 56, 48, Exec(a, s));
    var y := Down48(Up56(x));
    ShiftNames(x);
    ShiftNames(Up56(x));
    GivesThen(a, ShiftPair(temp, temp, 56, 48), s, temp, x, temp, y, {});
    var b := a + ShiftPair(temp, temp, 56, 48);
    HighValue(d, v);
    XorAfter(b, s, dest, temp, y);
  }

  function ByteWords(dest: Reg, src: Reg, temp: Reg): seq<Instr> {
    [OpImm(ANDI, dest, dest, 0xf00), OpImm(ANDI, temp, src, 0xff), Op(OR, dest, dest, temp)]
  }

  lemma ByteMasks()
    ensures Sext12(0xf00) == 0xffff_ffff_ffff_ff00 && Sext12(0xff) == 0xff
  {
    assert 0 < 0xf00 as bv12 & 0x800 && !(0 < 0xff as bv12 & 0x800);
  }

  lemma ByteValue(d: bv64, v: bv64)
    ensures Or(And(d, 0xffff_ffff_ffff_ff00), And(v, 0xff)) == WithByte(d, v)
  {
    assert Or(d & 0xffff_ffff_ffff_ff00, v & 0xff) == (d & 0xffff_ffff_ffff_ff00) | (v & 0xff);
  }

  lemma ByteGives(dest: Reg, src: Reg, temp: Reg, s: State)
    requires !dest.Zero? && !temp.Zero? && temp != dest && temp != src && src != dest
    ensures Gives(ByteWords(dest, src, temp), s, dest, WithByte(s.Get(dest), s.Get(src)), {temp})
  {
    hide Step, Exec, Sext12, And, Or, WithByte, State.Set, State.Get, Gives;
    var d, v := s.Get(dest), s.Get(src);
    var x, y := And(d, Sext12(0xf00)), And(v, Sext12(0xff));
    Exec3Words(ByteWords(dest, src, temp), s);
    StepImm(ANDI, dest, dest, 0xf00, s);
    SetKeeps(s, dest, x);
    var s1 := s.Set(dest, x);
    StepImm(ANDI, temp, src, 0xff, s1);
    SetKeeps(s1, temp, y);
    var s2 := s1.Set(temp, y);
    StepOp(OR, dest, dest, temp, s2);
    ByteMasks();
    ByteValue(d, v);
    SetKeeps(s2, dest, WithByte(d, v));
    GivesFrom(ByteWords(dest, src, temp), s, s2.Set(dest, WithByte(d, v)), dest, WithByte(d, v), {temp}, {temp, dest});
  }

  function Down16(x: bv64): bv64 { x >> 16 }
  function Up16(x: bv64): bv64 { x << 16 }

  /** The same for a source whose upper bits are known to be clear. */
  function ClearedWordWords(dest: Reg, src: Reg): seq<Instr> {
    [Shift(SRLI, dest, dest, 16), Shift(SLLI, dest, dest, 16), Op(OR, dest, dest, src)]
  }

  lemma ShiftNames16(x: bv64)
    ensures Shl(x, 16) == Up16(x) && Shr(x, 16) == Down16(x)
  {
    Shl16(x);
    Shr16(x);
  }

  lemma ClearedWordValue(d: bv64, v: bv64)
    ensures Or(Up16(Down16(d)), Low16(v)) == WithWord(d, v)
  {
    assert Up16(d >> 16) == (d >> 16) << 16;
    assert Or((d >> 16) << 16, v & 0xffff) == (d & 0xffff_ffff_ffff_0000) | (v & 0xffff);
  }

  lemma ClearedWordGives(dest: Reg, src: Reg, s: State)
    requires !dest.Zero? && src != dest && Low16(s.Get(src)) == s.Get(src)
    ensures Gives(ClearedWordWords(dest, src), s, dest, WithWord(s.Get(dest), s.Get(src)), {})
  {
    hide Step, Exec, Shl, Shr, Or, Up16, Down16, Low16, WithWord, State.Set, State.Get, Gives;
    var d, v := s.Get(dest), s.Get(src);
    var x := Down16(d);
    var y := Up16(x);
    Exec3Words(ClearedWordWords(dest, src), s);
    ShiftNames16(d);
    StepShift(SRLI, dest, dest, 16, s);
    SetKeeps(s, dest, x);
    var s1 := s.Set(dest, x);
    ShiftNames16(x);
    StepShift(SLLI, dest, dest, 16, s1);
    SetKeeps(s1, dest, y);
    var s2 := s1.Set(dest, y);
    StepOp(OR, dest, dest, src, s2);
    ClearedWordValue(d, v);
    SetKeeps(s2, dest, WithWord(d, v));
    GivesFrom(ClearedWordWords(dest, src), s, s2.Set(dest, WithWord(d, v)), dest, WithWord(d, v), {}, {dest});
  }

  function ClearedByteWords(dest: Reg, src: Reg): seq<Instr> {
    [OpImm(ANDI, dest, dest, 0xf00), Op(OR, dest, dest, src)]
  }

  lemma ClearedByteValue(d: bv64, v: bv64)
    ensures Or(And(d, 0xffff_ffff_ffff_ff00), Low8(v)) == WithByte(d, v)
  {
    assert Or(d & 0xffff_ffff_ffff_ff00, v & 0xff) == (d & 0xffff_ffff_ffff_ff00) | (v & 0xff);
  }

  lemma ClearedByteGives(dest: Reg, src: Reg, s: State)
    requires !dest.Zero? && src != dest && Low8(s.Get(src)) == s.Get(src)
    ensures Gives(ClearedByteWords(dest, src), s, dest, WithByte(s.Get(dest), s.Get(src)), {})
  {
    hide Step, Exec, Sext12, And, Or, Low8, WithByte, State.Set, State.Get, Gives;
    var d, v := s.Get(dest), s.Get(src);
    var x := And(d, Sext12(0xf00));
    Exec2Words(ClearedByteWords(dest, src), s);
    StepImm(ANDI, dest, dest, 0xf00, s);
    SetKeeps(s, dest, x);
    var s1 := s.Set(dest, x);
    StepOp(OR, dest, dest, src, s1);
    ByteMasks();
    ClearedByteValue(d, v);
    SetKeeps(s1, dest, WithByte(d, v));
    GivesFrom(ClearedByteWords(dest, src), s, s1.Set(dest, WithByte(d, v)), dest, WithByte(d, v), {}, {dest});
  }

  lemma MvGives(dest: Reg, src: Reg, s: State)
    requires !dest.Zero?
    ensures Gives([Mv(dest, src)], s, dest, s.Get(src), {})
  {
    hide Step, Exec, Mv, State.Set, State.Get, Gives;
    Exec1Word([Mv(dest, src)], s);
    StepMv(dest, src, s);
    SetKeeps(s, dest, s.Get(src));
    GivesFrom([Mv(dest, src)], s, s.Set(dest, s.Get(src)), dest, s.Get(src), {}, {dest});
  }

  lemma NothingGives(dest: Reg, s: State)
    ensures Gives([], s, dest, s.Get(dest), {})
  {
    hide State.Get;
  }

  lemma Low32Gives(dest: Reg, src: Reg, s: State)
    requires !dest.Zero?
    ensures Gives(ShiftPair(dest, src, 32, 32), s, dest, Low32(s.Get(src)), {})
  {
    hide Exec, ShiftPair, Shl, Shr, Low32, State.Get, Gives;
    ShiftPairGives(dest, src, 32, 32, 32, 32, s);
    Cut32(s.Get(src));
  }

  /**
   The registers a write may use: the low byte, and words known to be clear, may not come from the register
   itself.
   */
  predicate Separate(access: nat, dest: Reg, src: Reg, temp: Reg, cleared: bool) {
    && !dest.Zero?
    && (access == 0 || ((access == 1 || access == 2) && !cleared) ==> !temp.Zero? && temp != dest && temp != src)
    && (access == 1 || (access == 2 && cleared) ==> src != dest)
  }

  predicate IsCleared(access: nat, v: bv64) {
    (access == 2 ==> Low16(v) == v) && (access == 1 ==> Low8(v) == v)
  }

  /** The words for each kind of access. */
  function MoveWords(dest: Reg, src: Reg, access: nat, temp: Reg, cleared: bool): seq<Instr> {
    if access == 8 then if src != dest then [Mv(dest, src)] else []
    else if access == 4 then ShiftPair(dest, src, 32, 32)
    else if access == 2 then if cleared then ClearedWordWords(dest, src) else WordWords(dest, src, temp)
    else if access == 1 then if cleared then ClearedByteWords(dest, src) else ByteWords(dest, src, temp)
    else HighWords(dest, src, temp)
  }

  lemma PairFlows(dest: Reg, src: Reg, up: bv6, down: bv6)
    ensures AllFlow(ShiftPair(dest, src, up, down))
  {
    hide AllFlow;
    Flow2(Shift(SLLI, dest, src, up), Shift(SRLI, dest, dest, down));
  }

  lemma WordFlows(dest: Reg, src: Reg, temp: Reg)
    ensures AllFlow(WordWords(dest, src, temp)) && AllFlow(ClearedWordWords(dest, src))
  {
    hide AllFlow, ShiftPair;
    Flow1(Op(XOR, temp, src, dest));
    PairFlows(temp, temp, 48, 48);
    Flow1(Op(XOR, dest, temp, dest));
    AllFlowAppend([Op(XOR, temp, src, dest)], ShiftPair(temp, temp, 48, 48));
    AllFlowAppend([Op(XOR, temp, src, dest)] + ShiftPair(temp, temp, 48, 48), [Op(XOR, dest, temp, dest)]);
    Flow3(Shift(SRLI, dest, dest, 16), Shift(SLLI, dest, dest, 16), Op(OR, dest, dest, src));
  }

  lemma ByteFlows(dest: Reg, src: Reg, temp: Reg)
    ensures AllFlow(ByteWords(dest, src, temp)) && AllFlow(ClearedByteWords(dest, src))
  {
    hide AllFlow;
    Flow3(OpImm(ANDI, dest, dest, 0xf00), OpImm(ANDI, temp, src, 0xff), Op(OR, dest, dest, temp));
    Flow2(OpImm(ANDI, dest, dest, 0xf00), Op(OR, dest, dest, src));
  }

  lemma HighFlows(dest: Reg, src: Reg, temp: Reg)
    ensures AllFlow(HighWords(dest, src, temp))
  {
    hide AllFlow, ShiftPair;
    var a := [Shift(SRLI, temp, dest, 8), Op(XOR, temp, temp, src)];
    Flow2(Shift(SRLI, temp, dest, 8), Op(XOR, temp, temp, src));
    PairFlows(temp, temp, 56, 48);
    Flow1(Op(XOR, dest, temp, dest));
    AllFlowAppend(a, ShiftPair(temp, temp, 56, 48));
    AllFlowAppend(a + ShiftPair(temp, temp, 56, 48), [Op(XOR, dest, temp, dest)]);
  }

  lemma MoveFlows(dest: Reg, src: Reg, access: nat, temp: Reg, cleared: bool)
    ensures AllFlow(MoveWords(dest, src, access, temp, cleared))
  {
    hide ClearedWordWords, WordWords, ClearedByteWords, ByteWords, HighWords, ShiftPair;
    Flow1(Mv(dest, src));
    PairFlows(dest, src, 32, 32);
    WordFlows(dest, src, temp);
    ByteFlows(dest, src, temp);
    HighFlows(dest, src, temp);
  }

  lemma MoveGives(dest: Reg, src: Reg, access: nat, temp: Reg, cleared: bool, s: State)
    requires IsAccess(access) && Separate(access, dest, src, temp, cleared)
    requires (cleared ==> IsCleared(access, s.Get(src)))
    ensures Gives(MoveWords(dest, src, access, temp, cleared), s, dest, Merge(access, s.Get(dest), s.Get(src)), {temp})
  {
    hide Gives, Exec, ClearedWordWords, WordWords, ClearedByteWords, ByteWords, HighWords, ShiftPair;
    hide Low32, Low16, Low8, WithWord, WithByte, WithHighByte, Mv, State.Get;
    var v, x := Merge(access, s.Get(dest), s.Get(src)), MoveWords(dest, src, access, temp, cleared);
    if access == 8 {
      if src != dest {
        MvGives(dest, src, s);
      } else {
        NothingGives(dest, s);
      }
      GivesMore(x, s, dest, v, {}, {temp});
    } else if access == 4 {
      Low32Gives(dest, src, s);
      GivesMore(x, s, dest, v, {}, {temp});
    } else if access == 2 {
      if cleared {
        ClearedWordGives(dest, src, s);
        GivesMore(x, s, dest, v, {}, {temp});
      } else {
        WordGives(dest, src, temp, s);
      }
    } else if access == 1 {
      if cleared {
        ClearedByteGives(dest, src, s);
        GivesMore(x, s, dest, v, {}, {temp});
      } else {
        ByteGives(dest, src, temp, s);
      }
    } else {
      HighGives(dest, src, temp, s);
    }
  }

  method MoveWord(batch: CodeBatch, dest: Reg, src: Reg, temp: Reg, cleared: bool)
    modifies batch
    ensures batch.code == old(batch.code) + if cleared then ClearedWordWords(dest, src) else WordWords(dest, src, temp)
  {
    if cleared {
      var _ := batch.Add(Shift(SRLI, dest, dest, 16));
      var _ := batch.Add(Shift(SLLI, dest, dest, 16));
      var _ := batch.Add(Op(OR, dest, dest, src));
    } else {
      var _ := batch.Add(Op(XOR, temp, src, dest));
      var _ := batch.Add(Shift(SLLI, temp, temp, 48));
      var _ := batch.Add(Shift(SRLI, temp, temp, 48));
      var _ := batch.Add(Op(XOR, dest, temp, dest));
    }
  }

  method MoveByte(batch: CodeBatch, dest: Reg, src: Reg, temp: Reg, cleared: bool)
    modifies batch
    ensures batch.code == old(batch.code) + if cleared then ClearedByteWords(dest, src) else ByteWords(dest, src, temp)
  {
    var _ := batch.Add(OpImm(ANDI, dest, dest, 0xf00));
    if !cleared {
      var _ := batch.Add(OpImm(ANDI, temp, src, 0xff));
    }
    var _ := batch.Add(Op(OR, dest, dest, if cleared then src else temp));
  }

  method MoveHighByte(batch: CodeBatch, dest: Reg, src: Reg, temp: Reg)
    modifies batch
    ensures batch.code == old(batch.code) + HighWords(dest, src, temp)
  {
    var _ := batch.Add(Shift(SRLI, temp, dest, 8));
    var _ := batch.Add(Op(XOR, temp, temp, src));
    var _ := batch.Add(Shift(SLLI, temp, temp, 56));
    var _ := batch.Add(Shift(SRLI, temp, temp, 48));
    var _ := batch.Add(Op(XOR, dest, temp, dest));
  }

  /** The words write the part of the register; they spoil at most `temp`. */
  ghost predicate Moves(x: seq<Instr>, dest: Reg, src: Reg, access: nat, temp: Reg, cleared: bool) {
    forall s: State {:trigger Exec(x, s)} :: (cleared ==> IsCleared(access, s.Get(src))) ==>
      Gives(x, s, dest, Merge(access, s.Get(dest), s.Get(src)), {temp})
  }

  lemma WordsMove(dest: Reg, src: Reg, access: nat, temp: Reg, cleared: bool)
    requires IsAccess(access) && Separate(access, dest, src, temp, cleared)
    ensures Moves(MoveWords(dest, src, access, temp, cleared), dest, src, access, temp, cleared)
  {
    hide Gives, Exec, MoveWords, Merge, IsAccess, Separate, IsCleared, State.Get;
    forall s: State | cleared ==> IsCleared(access, s.Get(src))
      ensures
        Gives(MoveWords(dest, src, access, temp, cleared), s, dest, Merge(access, s.Get(dest), s.Get(src)), {temp})
    {
      MoveGives(dest, src, access, temp, cleared, s);
    }
  }

  lemma MaybeMoves(dest: Reg, src: Reg, access: nat, temp: Reg, cleared: bool)
    requires IsAccess(access)
    ensures Separate(access, dest, src, temp, cleared) ==>
      Moves(MoveWords(dest, src, access, temp, cleared), dest, src, access, temp, cleared)
  {
    hide Moves, Separate, MoveWords, IsAccess;
    if Separate(access, dest, src, temp, cleared) {
      WordsMove(dest, src, access, temp, cleared);
    }
  }

  /** Writes a part of a register; `cleared` says that the source holds nothing beside that part. */
  method MoveToRegister(batch: CodeBatch, dest: Reg, src: Reg, access: nat, temp: Reg, cleared: bool)
    requires IsAccess(access)
    modifies batch
    ensures batch.code == old(batch.code) + MoveWords(dest, src, access, temp, cleared)
    ensures Separate(access, dest, src, temp, cleared) ==>
      Moves(MoveWords(dest, src, access, temp, cleared), dest, src, access, temp, cleared)
  {
    hide ClearedWordWords, WordWords, ClearedByteWords, ByteWords, HighWords, Moves, Separate;
    MaybeMoves(dest, src, access, temp, cleared);
    if access == 8 {
      if src != dest {
        var _ := batch.Add(Mv(dest, src));
      }
    } else if access == 4 {
      var _ := batch.Add(Shift(SLLI, dest, src, 32));
      var _ := batch.Add(Shift(SRLI, dest, dest, 32));
    } else if access == 2 {
      MoveWord(batch, dest, src, temp, cleared);
    } else if access == 1 {
      MoveByte(batch, dest, src, temp, cleared);
    } else {
      MoveHighByte(batch, dest, src, temp);
    }
  }
}
