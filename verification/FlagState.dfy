/**
 The lazy flag state (flags.h, instruction.cpp): what the context record says the flags
 are, the code that evaluates them and the code that updates them.
 */
module FlagState {
  import opened RiscV
  import opened Machine
  import opened Batches
  import opened Bits
  import opened Effects

  // ---- the flags a context record stands for ----------------------------------------------------

  function Shifted6(x: bv64, n: bv64): bv64 { Shr(x, (n & 0x3f) as nat) }

  /** The parity flag is set for an even number of ones in the byte. */
  predicate EvenOnes(b: bv8) {
    (b ^ (b >> 1) ^ (b >> 2) ^ (b >> 3) ^ (b >> 4) ^ (b >> 5) ^ (b >> 6) ^ (b >> 7)) & 1 < 1
  }

  function ZeroBit(c: Context): (r: bv64)
    ensures IsBit(r)
  {
    Bit(IsZero(c.zeroValue))
  }

  function SignBit(c: Context): (r: bv64)
    ensures IsBit(r)
  {
    And(Shifted6(c.signValue, c.signSize as bv64), 1)
  }

  function ParityBit(c: Context): (r: bv64)
    ensures IsBit(r)
  {
    Bit(EvenOnes(c.parityValue))
  }

  /** Carry and overflow are what the registered evaluators answer. */
  function CarryBit(s: State): (r: bv64)
    ensures IsBit(r)
  {
    EvalFlag(s.ctx, s.ctx.carryOp, s.scratch)
  }

  function OverflowBit(s: State): (r: bv64)
    ensures IsBit(r)
  {
    EvalFlag(s.ctx, s.ctx.overflowOp, s.scratch)
  }

  // ---- the steps of the evaluating code ------------------------------------------------------------

  lemma StepSeqz(rd: Reg, rs: Reg, s: State)
    ensures Step(Seqz(rd, rs), s) == s.Set(rd, Bit(IsZero(s.Get(rs))))
  {
    hide Step, IsZero, Bit, AluImm, Sext12;
    StepImm(SLTIU, rd, rs, 1, s);
    SeqzValue(s.Get(rs));
  }

  lemma SeqzValue(x: bv64)
    ensures AluImm(SLTIU, x, Sext12(1)) == Bit(IsZero(x))
  {
    assert !(0 < 1 as bv12 & 0x800);
  }

  lemma StepAndOne(rd: Reg, rs: Reg, s: State)
    ensures Step(OpImm(ANDI, rd, rs, 1), s) == s.Set(rd, And(s.Get(rs), 1))
  {
    hide Step, Sext12, And;
    StepImm(ANDI, rd, rs, 1, s);
    SextOne();
  }

  lemma SextOne()
    ensures Sext12(1) == 1
  {
    assert !(0 < 1 as bv12 & 0x800);
  }

  lemma StepSrl(rd: Reg, a: Reg, b: Reg, s: State)
    ensures Step(Op(SRL, rd, a, b), s) == s.Set(rd, Shifted6(s.Get(a), s.Get(b)))
  {
    hide Step, State.Set, State.Get, Shr;
    StepOp(SRL, rd, a, b, s);
  }

  lemma LoadsZeroValue(rd: Reg, s: State)
    ensures Step(Load(LD, rd, S11, 0x200), s) == s.Set(rd, s.ctx.zeroValue)
  {
    hide Step, State.Set;
    StepContextLoad(LD, rd, 0x200, s);
  }

  lemma LoadsSignValue(rd: Reg, s: State)
    ensures Step(Load(LD, rd, S11, 0x208), s) == s.Set(rd, s.ctx.signValue)
  {
    hide Step, State.Set;
    StepContextLoad(LD, rd, 0x208, s);
  }

  lemma LoadsSignSize(rd: Reg, s: State)
    ensures Step(Load(LBU, rd, S11, 0x244), s) == s.Set(rd, s.ctx.signSize as bv64)
  {
    hide Step, State.Set;
    StepContextLoad(LBU, rd, 0x244, s);
  }

  lemma LoadsParity(rd: Reg, s: State)
    ensures Step(Load(LBU, rd, S11, 0x245), s) == s.Set(rd, s.ctx.parityValue as bv64)
  {
    hide Step, State.Set;
    StepContextLoad(LBU, rd, 0x245, s);
  }

  lemma LoadsCarryOp(rd: Reg, s: State)
    ensures Step(Load(LHU, rd, S11, 0x242), s) == s.Set(rd, s.ctx.carryOp as bv64)
  {
    hide Step, State.Set;
    StepContextLoad(LHU, rd, 0x242, s);
  }

  lemma LoadsOverflowOp(rd: Reg, s: State)
    ensures Step(Load(LHU, rd, S11, 0x240), s) == s.Set(rd, s.ctx.overflowOp as bv64)
  {
    hide Step, State.Set;
    StepContextLoad(LHU, rd, 0x240, s);
  }

  // ---- evaluating -----------------------------------------------------------------------------------

  function ZeroWords(dest: Reg): seq<Instr> { [Load(LD, dest, S11, 0x200), Seqz(dest, dest)] }

  lemma ZeroEvaluated(dest: Reg, s: State)
    requires !dest.Zero?
    ensures Gives(ZeroWords(dest), s, dest, ZeroBit(s.ctx), {})
  {
    hide Step, Exec, Bit, IsZero, Seqz, State.Set, State.Get, Gives;
    var s1 := s.Set(dest, s.ctx.zeroValue);
    Exec2Words(ZeroWords(dest), s);
    LoadsZeroValue(dest, s);
    SetKeeps(s, dest, s.ctx.zeroValue);
    StepSeqz(dest, dest, s1);
    SetKeeps(s1, dest, ZeroBit(s.ctx));
    GivesFrom(ZeroWords(dest), s, s1.Set(dest, ZeroBit(s.ctx)), dest, ZeroBit(s.ctx), {}, {dest});
  }

  function SignWords(dest: Reg, temp: Reg): seq<Instr> {
    [Load(LBU, temp, S11, 0x244), Load(LD, dest, S11, 0x208), Op(SRL, dest, dest, temp), OpImm(ANDI, dest, dest, 1)]
  }

  lemma SignRuns(dest: Reg, temp: Reg, s: State)
    requires !dest.Zero? && !temp.Zero? && dest != temp
    ensures var x := s.ctx.signValue; var n := s.ctx.signSize as bv64;
      Exec(SignWords(dest, temp), s) == s.Set(temp, n).Set(dest, x).Set(dest, Shifted6(x, n)).Set(dest, SignBit(s.ctx))
  {
    hide Step, Exec, Shifted6, And, State.Set, State.Get;
    var n, x := s.ctx.signSize as bv64, s.ctx.signValue;
    Exec4Words(SignWords(dest, temp), s);
    LoadsSignSize(temp, s);
    SetContext(s, temp, n);
    GetSet(s, temp, n);
    var s1 := s.Set(temp, n);
    LoadsSignValue(dest, s1);
    GetOther(s1, dest, x, temp);
    GetSet(s1, dest, x);
    var s2 := s1.Set(dest, x);
    StepSrl(dest, dest, temp, s2);
    GetSet(s2, dest, Shifted6(x, n));
    StepAndOne(dest, dest, s2.Set(dest, Shifted6(x, n)));
  }

  lemma SignEvaluated(dest: Reg, temp: Reg, s: State)
    requires !dest.Zero? && !temp.Zero? && dest != temp
    ensures Gives(SignWords(dest, temp), s, dest, SignBit(s.ctx), {temp})
  {
    hide Exec, Shifted6, SignBit, SignWords, State.Set, State.Get, Gives;
    var n, x, y, v := s.ctx.signSize as bv64, s.ctx.signValue, Shifted6(s.ctx.signValue, s.ctx.signSize as bv64),
      SignBit(s.ctx);
    SignRuns(dest, temp, s);
    KeepsTwo(s, temp, n, dest, x);
    KeepsTwo(s.Set(temp, n).Set(dest, x), dest, y, dest, v);
    GetSet(s.Set(temp, n).Set(dest, x).Set(dest, y), dest, v);
    GivesFrom(SignWords(dest, temp), s, s.Set(temp, n).Set(dest, x).Set(dest, y).Set(dest, v), dest, v, {temp},
      {temp, dest});
  }

  // Parity folds the byte onto its lowest bit.

  function Folded(x: bv64, k: nat): bv64 { Xor(x, Shr(x, k)) }

  function FoldWords(dest: Reg, temp: Reg, m: bv6): seq<Instr> {
    [Shift(SRLI, temp, dest, m), Op(XOR, dest, dest, temp)]
  }

  lemma FoldGives(dest: Reg, temp: Reg, m: bv6, k: nat, s: State)
    requires !dest.Zero? && !temp.Zero? && dest != temp && m as nat == k
    ensures Gives(FoldWords(dest, temp, m), s, dest, Folded(s.Get(dest), k), {temp})
  {
    hide Step, Exec, Shr, Xor, State.Set, State.Get, Gives;
    var x := s.Get(dest);
    Exec2Words(FoldWords(dest, temp, m), s);
    StepShift(SRLI, temp, dest, m, s);
    SetKeeps(s, temp, Shr(x, k));
    var s1 := s.Set(temp, Shr(x, k));
    StepOp(XOR, dest, dest, temp, s1);
    SetKeeps(s1, dest, Folded(x, k));
    GivesFrom(FoldWords(dest, temp, m), s, s1.Set(dest, Folded(x, k)), dest, Folded(x, k), {temp}, {temp, dest});
  }

  function ParityLoad(dest: Reg): seq<Instr> { [Load(LBU, dest, S11, 0x245)] }

  lemma ParityLoadGives(dest: Reg, temp: Reg, s: State)
    requires !dest.Zero?
    ensures Gives(ParityLoad(dest), s, dest, s.ctx.parityValue as bv64, {temp})
  {
    hide Step, Exec, State.Set, State.Get, Gives;
    Exec1Word(ParityLoad(dest), s);
    LoadsParity(dest, s);
    SetKeeps(s, dest, s.ctx.parityValue as bv64);
    GivesFrom(ParityLoad(dest), s, s.Set(dest, s.ctx.parityValue as bv64), dest, s.ctx.parityValue as bv64, {temp},
      {dest});
  }

  function ParityEnd(dest: Reg): seq<Instr> { [OpImm(ANDI, dest, dest, 1), Seqz(dest, dest)] }

  lemma ParityEndGives(dest: Reg, temp: Reg, s: State)
    requires !dest.Zero?
    ensures Gives(ParityEnd(dest), s, dest, Bit(IsZero(And(s.Get(dest), 1))), {temp})
  {
    hide Step, Exec, And, IsZero, Bit, Seqz, State.Set, State.Get, Gives;
    var x := And(s.Get(dest), 1);
    var v := Bit(IsZero(x));
    Exec2Words(ParityEnd(dest), s);
    StepAndOne(dest, dest, s);
    SetKeeps(s, dest, x);
    StepSeqz(dest, dest, s.Set(dest, x));
    SetKeeps(s.Set(dest, x), dest, v);
    GivesFrom(ParityEnd(dest), s, s.Set(dest, x).Set(dest, v), dest, v, {temp}, {dest});
  }

  lemma FoldBits(b: bv8)
    ensures
      var x := b as bv64;
      var y := x ^ (x >> 4);
      var z := y ^ (y >> 2);
      (z ^ (z >> 1)) & 1 < 1 <==> EvenOnes(b)
  {
  }

  lemma FoldedShift(x: bv64)
    ensures Folded(x, 4) == x ^ (x >> 4) && Folded(x, 2) == x ^ (x >> 2) && Folded(x, 1) == x ^ (x >> 1)
  {
    Shr4(x);
    Shr2(x);
    Shr1(x);
  }

  lemma FoldValue(b: bv8)
    ensures IsZero(And(Folded(Folded(Folded(b as bv64, 4), 2), 1), 1)) == EvenOnes(b)
  {
    hide EvenOnes, Folded;
    FoldBits(b);
    var x := b as bv64;
    FoldedShift(x);
    FoldedShift(x ^ (x >> 4));
    FoldedShift((x ^ (x >> 4)) ^ ((x ^ (x >> 4)) >> 2));
    FoldEnd(b, Folded(x, 4), Folded(Folded(x, 4), 2), Folded(Folded(Folded(x, 4), 2), 1));
  }

  lemma FoldEnd(b: bv8, y: bv64, z: bv64, w: bv64)
    requires y == b as bv64 ^ (b as bv64 >> 4) && z == y ^ (y >> 2) && w == z ^ (z >> 1)
    ensures IsZero(And(w, 1)) == EvenOnes(b)
  {
    FoldBits(b);
  }

  lemma FoldAfter(a: seq<Instr>, dest: Reg, temp: Reg, m: bv6, k: nat, u: bv64, s: State)
    requires !dest.Zero? && !temp.Zero? && dest != temp && m as nat == k && Gives(a, s, dest, u, {temp})
    ensures Gives(a + FoldWords(dest, temp, m), s, dest, Folded(u, k), {temp})
  {
    hide Exec, Folded, FoldWords, State.Get;
    FoldGives(dest, temp, m, k, Exec(a, s));
    GivesThen(a, FoldWords(dest, temp, m), s, dest, u, dest, Folded(u, k), {temp});
  }

  lemma EndAfter(a: seq<Instr>, dest: Reg, temp: Reg, u: bv64, s: State)
    requires !dest.Zero? && Gives(a, s, dest, u, {temp})
    ensures Gives(a + ParityEnd(dest), s, dest, Bit(IsZero(And(u, 1))), {temp})
  {
    hide Exec, And, IsZero, Bit, ParityEnd, State.Get;
    ParityEndGives(dest, temp, Exec(a, s));
    GivesThen(a, ParityEnd(dest), s, dest, u, dest, Bit(IsZero(And(u, 1))), {temp});
  }

  function ParityWords(dest: Reg, temp: Reg): seq<Instr> {
    ParityLoad(dest) + FoldWords(dest, temp, 4) + FoldWords(dest, temp, 2) + FoldWords(dest, temp, 1) + ParityEnd(dest)
  }

  lemma ParityEvaluated(dest: Reg, temp: Reg, s: State)
    requires !dest.Zero? && !temp.Zero? && dest != temp
    ensures Gives(ParityWords(dest, temp), s, dest, ParityBit(s.ctx), {temp})
  {
    hide Gives, And, IsZero, Bit, Folded, EvenOnes, FoldWords, ParityLoad, ParityEnd;
    var x := s.ctx.parityValue as bv64;
    var a := ParityLoad(dest);
    ParityLoadGives(dest, temp, s);
    FoldAfter(a, dest, temp, 4, 4, x, s);
    FoldAfter(a + FoldWords(dest, temp, 4), dest, temp, 2, 2, Folded(x, 4), s);
    FoldAfter(a + FoldWords(dest, temp, 4) + FoldWords(dest, temp, 2), dest, temp, 1, 1, Folded(Folded(x, 4), 2), s);
    EndAfter(a + FoldWords(dest, temp, 4) + FoldWords(dest, temp, 2) + FoldWords(dest, temp, 1), dest, temp,
      Folded(Folded(Folded(x, 4), 2), 1), s);
    FoldValue(s.ctx.parityValue);
  }

  // Carry and overflow ask an evaluator.

  function AskWords(off: bv12): seq<Instr> { [Load(LHU, T4, S11, off), Op(ADD, T4, S10, T4), Jalr(RA, T4, 0)] }

  const Asked: set<Reg> := {T4, T5, T6, RA}

  lemma CallKeeps(s: State)
    ensures var t := Step(Jalr(RA, T4, 0), s);
      Keeps(s, t, Asked) && t.Get(T4) == EvalFlag(s.ctx, Cut16(Minus(s.Get(T4), s.Get(S10))), s.scratch)
  {
    hide EvalFlag, Cut16, Minus, Exec1;
  }

  lemma OffsetBack(base: bv64, op: bv16)
    ensures Cut16(Minus(Plus(base, op as bv64), base)) == op
  {
    assert Minus(base + op as bv64, base) == op as bv64;
    CutWide(op);
  }

  lemma CutWide(op: bv16)
    ensures Cut16(op as bv64) == op
  {
  }

  lemma AskGives(off: bv12, op: bv16, s: State)
    requires Step(Load(LHU, T4, S11, off), s) == s.Set(T4, op as bv64)
    ensures Gives(AskWords(off), s, T4, EvalFlag(s.ctx, op, s.scratch), {T5, T6, RA})
  {
    hide Step, Exec, EvalFlag, Cut16, Minus, Plus, State.Set, State.Get, Gives;
    var x := op as bv64;
    var s1 := s.Set(T4, x);
    Exec3Words(AskWords(off), s);
    SetKeeps(s, T4, x);
    StepOp(ADD, T4, S10, T4, s1);
    var y := Plus(s.Get(S10), x);
    SetKeeps(s1, T4, y);
    CallKeeps(s1.Set(T4, y));
    OffsetBack(s.Get(S10), op);
    GivesFrom(AskWords(off), s, Step(Jalr(RA, T4, 0), s1.Set(T4, y)), T4, EvalFlag(s.ctx, op, s.scratch), {T5, T6, RA},
      Asked);
  }

  lemma CarryEvaluated(s: State)
    ensures Gives(AskWords(0x242), s, T4, CarryBit(s), {T5, T6, RA})
  {
    hide Step, EvalFlag, Gives, State.Set;
    LoadsCarryOp(T4, s);
    AskGives(0x242, s.ctx.carryOp, s);
  }

  lemma OverflowEvaluated(s: State)
    ensures Gives(AskWords(0x240), s, T4, OverflowBit(s), {T5, T6, RA})
  {
    hide Step, EvalFlag, Gives, State.Set;
    LoadsOverflowOp(T4, s);
    AskGives(0x240, s.ctx.overflowOp, s);
  }

  // ---- the emitters -----------------------------------------------------------------------------------

  method EvaluateZero(batch: CodeBatch, dest: Reg)
    modifies batch
    ensures batch.code == old(batch.code) + ZeroWords(dest)
  {
    var _ := batch.Add(Load(LD, dest, S11, 0x200));
    var _ := batch.Add(Seqz(dest, dest));
  }

  method EvaluateSign(batch: CodeBatch, dest: Reg, temp: Reg)
    modifies batch
    ensures batch.code == old(batch.code) + SignWords(dest, temp)
  {
    var _ := batch.Add(Load(LBU, temp, S11, 0x244));
    var _ := batch.Add(Load(LD, dest, S11, 0x208));
    var _ := batch.Add(Op(SRL, dest, dest, temp));
    var _ := batch.Add(OpImm(ANDI, dest, dest, 1));
  }

  method EvaluateParity(batch: CodeBatch, dest: Reg, temp: Reg)
    modifies batch
    ensures batch.code == old(batch.code) + ParityWords(dest, temp)
  {
    var _ := batch.Add(Load(LBU, dest, S11, 0x245));
    var _ := batch.Add(Shift(SRLI, temp, dest, 4));
    var _ := batch.Add(Op(XOR, dest, dest, temp));
    var _ := batch.Add(Shift(SRLI, temp, dest, 2));
    var _ := batch.Add(Op(XOR, dest, dest, temp));
    var _ := batch.Add(Shift(SRLI, temp, dest, 1));
    var _ := batch.Add(Op(XOR, dest, dest, temp));
    var _ := batch.Add(OpImm(ANDI, dest, dest, 1));
    var _ := batch.Add(Seqz(dest, dest));
  }

  method Ask(batch: CodeBatch, off: bv12)
    modifies batch
    ensures batch.code == old(batch.code) + AskWords(off)
  {
    var _ := batch.Add(Load(LHU, T4, S11, off));
    var _ := batch.Add(Op(ADD, T4, S10, T4));
    var _ := batch.Add(Jalr(RA, T4, 0));
  }

  method EvaluateCarry(batch: CodeBatch)
    modifies batch
    ensures batch.code == old(batch.code) + AskWords(0x242)
  {
    Ask(batch, 0x242);
  }

  method EvaluateOverflow(batch: CodeBatch)
    modifies batch
    ensures batch.code == old(batch.code) + AskWords(0x240)
  {
    Ask(batch, 0x240);
  }
}
