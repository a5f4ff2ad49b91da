/** Byte sets (setcc.cpp): the condition as a value, merged into a low byte register. */
module ByteSets {
  import opened RiscV
  import opened Machine
  import opened Batches
  import opened Bits
  import opened Effects
  import opened FlagState
  import opened Conditions
  import opened Registers
  import opened Selects

  /** The condition as 0 or 1. */
  function HoldsBit(c: Condition, s: State): (r: bv64)
    ensures IsBit(r)
  {
    Bit(Holds(c, FlagsOf(s)))
  }

  ghost predicate ValueOf(e: seq<Instr>, r: Reg, c: Condition) {
    r in {T0, T4} && AllFlow(e) && forall s :: Gives(e, s, r, HoldsBit(c, s), Temps)
  }

  // ---- bits -------------------------------------------------------------------------------------------

  lemma BitIs(v: bv64)
    requires IsBit(v)
    ensures v == Bit(0 < v) && Bit(IsZero(v)) == Bit(!(0 < v))
  {
  }

  lemma OrOfBits(u: bv64, v: bv64)
    requires IsBit(u) && IsBit(v)
    ensures Or(u, v) == Bit(0 < u || 0 < v)
  {
  }

  lemma XorOfBits(u: bv64, v: bv64)
    requires IsBit(u) && IsBit(v)
    ensures Xor(u, v) == Bit((0 < u) != (0 < v))
  {
  }

  lemma BitPositive(b: bool)
    ensures (0 < Bit(b)) == b && IsBit(Bit(b)) && Low8(Bit(b)) == Bit(b)
  {
  }

  // ---- combining ----------------------------------------------------------------------------------------

  /** Both temporaries hold a value. */
  ghost predicate Both(e: seq<Instr>, s: State, u: bv64, v: bv64) {
    Keeps(s, Exec(e, s), Temps) && Exec(e, s).Get(T0) == u && Exec(e, s).Get(T4) == v
  }

  lemma SeqzGives(e: seq<Instr>, s: State, r: Reg, v: bv64)
    requires Gives(e, s, r, v, Temps) && r in Temps
    ensures Gives(e + [Seqz(T0, r)], s, T0, Bit(IsZero(v)), Temps)
  {
    hide Step, Exec, IsZero, Bit, Seqz, State.Set, State.Get, Keeps, Gives;
    var t, b := Exec(e, s), Bit(IsZero(v));
    GivesParts(e, s, r, v, Temps);
    ExecAppend(e, [Seqz(T0, r)], s);
    Exec1Word([Seqz(T0, r)], t);
    StepSeqz(T0, r, t);
    SetKeeps(t, T0, b);
    KeepsTrans(s, t, t.Set(T0, b), Temps + {r}, {T0});
    GivesFrom(e + [Seqz(T0, r)], s, t.Set(T0, b), T0, b, Temps, Temps + {r} + {T0});
  }

  lemma OpGives(e: seq<Instr>, op: RegOp, s: State, u: bv64, v: bv64)
    requires Both(e, s, u, v)
    ensures Gives(e + [Op(op, T0, T0, T4)], s, T0, Alu(op, u, v), Temps)
  {
    hide Step, Exec, Alu, State.Set, State.Get, Keeps, Gives;
    var t, w := Exec(e, s), Op(op, T0, T0, T4);
    ExecAppend(e, [w], s);
    Exec1Word([w], t);
    StepOp(op, T0, T0, T4, t);
    SetKeeps(t, T0, Alu(op, u, v));
    KeepsTrans(s, t, t.Set(T0, Alu(op, u, v)), Temps, {T0});
    GivesFrom(e + [w], s, t.Set(T0, Alu(op, u, v)), T0, Alu(op, u, v), Temps, Temps + {T0});
  }

  /** A flag put into T4 beside the value in T0. */
  lemma ZeroBeside(e: seq<Instr>, s: State, u: bv64)
    requires Gives(e, s, T0, u, Temps)
    ensures Both(e + ZeroWords(T4), s, u, ZeroBit(s.ctx))
  {
    hide Exec, ZeroWords, ZeroBit, State.Get;
    var t := Exec(e, s);
    ExecAppend(e, ZeroWords(T4), s);
    ZeroEvaluated(T4, t);
    KeepsTrans(s, t, Exec(ZeroWords(T4), t), Temps + {T0}, {} + {T4});
    assert Temps + {T0} + ({} + {T4}) == Temps;
  }

  function ZeroCarryWords(): seq<Instr> { ZeroWords(T0) + AskWords(0x242) }

  lemma ZeroCarry(s: State)
    ensures Both(ZeroCarryWords(), s, ZeroBit(s.ctx), CarryBit(s))
  {
    hide Exec, ZeroWords, AskWords, ZeroBit, CarryBit, State.Get;
    var t := Exec(ZeroWords(T0), s);
    ExecAppend(ZeroWords(T0), AskWords(0x242), s);
    ZeroEvaluated(T0, s);
    SameBits(s, t);
    CarryEvaluated(t);
  }

  lemma BelowEqualBit(s: State)
    ensures Alu(OR, ZeroBit(s.ctx), CarryBit(s)) == HoldsBit(BE, s)
  {
    hide ZeroBit, CarryBit, SignBit, OverflowBit, ParityBit, Bit, Or;
    OrOfBits(ZeroBit(s.ctx), CarryBit(s));
    assert Holds(BE, FlagsOf(s)) == (0 < ZeroBit(s.ctx) || 0 < CarryBit(s));
  }

  lemma LessBit(s: State)
    ensures Alu(XOR, SignBit(s.ctx), OverflowBit(s)) == HoldsBit(L, s)
  {
    hide ZeroBit, CarryBit, SignBit, OverflowBit, ParityBit, Bit, Xor;
    XorOfBits(SignBit(s.ctx), OverflowBit(s));
    assert Holds(L, FlagsOf(s)) == ((0 < SignBit(s.ctx)) != (0 < OverflowBit(s)));
  }

  lemma LessEqualBit(s: State)
    ensures Alu(OR, HoldsBit(L, s), ZeroBit(s.ctx)) == HoldsBit(LE, s)
  {
    hide ZeroBit, CarryBit, SignBit, OverflowBit, ParityBit, Bit, Or;
    OrOfBits(HoldsBit(L, s), ZeroBit(s.ctx));
    BitPositive(Holds(L, FlagsOf(s)));
    assert Holds(LE, FlagsOf(s)) == (Holds(L, FlagsOf(s)) || 0 < ZeroBit(s.ctx));
  }

  // ---- the sixteen values --------------------------------------------------------------------------------

  lemma SingleValue(e: seq<Instr>, c: Condition)
    requires Single(c) && Computes(e, c)
    ensures ValueOf(e, T4, c) && ValueOf(e + [Seqz(T0, T4)], T0, Negated(c))
  {
    Flow1(Seqz(T0, T4));
    AllFlowAppend(e, [Seqz(T0, T4)]);
    forall s
      ensures Gives(e, s, T4, HoldsBit(c, s), Temps) && Gives(e + [Seqz(T0, T4)], s, T0, HoldsBit(Negated(c), s), Temps)
    {
      hide Gives, IsZero, Bit, Seqz, FlagsOf, BitOf, Holds, Negated, AllFlow;
      SeqzGives(e, s, T4, BitOf(c, s));
      BitIs(BitOf(c, s));
      BitHolds(c, s);
      NegatedHolds(c, FlagsOf(s));
    }
  }

  lemma NegatedValue(e: seq<Instr>, c: Condition)
    requires ValueOf(e, T0, c)
    ensures ValueOf(e + [Seqz(T0, T0)], T0, Negated(c))
  {
    Flow1(Seqz(T0, T0));
    AllFlowAppend(e, [Seqz(T0, T0)]);
    forall s ensures Gives(e + [Seqz(T0, T0)], s, T0, HoldsBit(Negated(c), s), Temps) {
      hide Gives, IsZero, Bit, Seqz, FlagsOf, Holds, Negated, AllFlow;
      SeqzGives(e, s, T0, HoldsBit(c, s));
      BitIs(HoldsBit(c, s));
      BitPositive(Holds(c, FlagsOf(s)));
      NegatedHolds(c, FlagsOf(s));
    }
  }

  lemma BelowEqualValue()
    ensures ValueOf(ZeroCarryWords() + [Op(OR, T0, T0, T4)], T0, BE)
  {
    var e := ZeroCarryWords();
    FlowZeroT0();
    FlowAsk(0x242);
    AllFlowAppend(ZeroWords(T0), AskWords(0x242));
    Flow1(Op(OR, T0, T0, T4));
    AllFlowAppend(e, [Op(OR, T0, T0, T4)]);
    forall s ensures Gives(e + [Op(OR, T0, T0, T4)], s, T0, HoldsBit(BE, s), Temps) {
      hide Gives, Both, ZeroCarryWords, ZeroBit, CarryBit, HoldsBit, Alu, AllFlow;
      ZeroCarry(s);
      OpGives(e, OR, s, ZeroBit(s.ctx), CarryBit(s));
      BelowEqualBit(s);
    }
  }

  lemma FlowZeroT0() ensures AllFlow(ZeroWords(T0)) {}

  lemma CompareBoth(s: State)
    ensures Both(CompareWords(), s, SignBit(s.ctx), OverflowBit(s))
  {
    hide Exec, CompareWords, SignBit, OverflowBit, State.Get, Keeps;
    Compared(s);
  }

  lemma LessValue()
    ensures ValueOf(CompareWords() + [Op(XOR, T0, T0, T4)], T0, L)
  {
    var e := CompareWords();
    CompareFlows();
    Flow1(Op(XOR, T0, T0, T4));
    AllFlowAppend(e, [Op(XOR, T0, T0, T4)]);
    forall s ensures Gives(e + [Op(XOR, T0, T0, T4)], s, T0, HoldsBit(L, s), Temps) {
      hide Gives, Both, CompareWords, SignBit, OverflowBit, HoldsBit, Alu, AllFlow;
      CompareBoth(s);
      OpGives(e, XOR, s, SignBit(s.ctx), OverflowBit(s));
      LessBit(s);
    }
  }

  lemma LessEqualValue(e: seq<Instr>)
    requires ValueOf(e, T0, L)
    ensures ValueOf(e + ZeroWords(T4) + [Op(OR, T0, T0, T4)], T0, LE)
  {
    FlowZero();
    AllFlowAppend(e, ZeroWords(T4));
    Flow1(Op(OR, T0, T0, T4));
    AllFlowAppend(e + ZeroWords(T4), [Op(OR, T0, T0, T4)]);
    forall s ensures Gives(e + ZeroWords(T4) + [Op(OR, T0, T0, T4)], s, T0, HoldsBit(LE, s), Temps) {
      hide Gives, Both, ZeroWords, ZeroBit, HoldsBit, Alu, AllFlow;
      ZeroBeside(e, s, HoldsBit(L, s));
      OpGives(e + ZeroWords(T4), OR, s, HoldsBit(L, s), ZeroBit(s.ctx));
      LessEqualBit(s);
    }
  }

  // ---- the emitters -----------------------------------------------------------------------------------------

  /** The value of a condition that is a flag or its negation. */
  method EmitSingle(batch: CodeBatch, c: Condition) returns (ghost e: seq<Instr>, r: Reg)
    requires Single(c) || Single(Negated(c))
    modifies batch
    ensures batch.code == old(batch.code) + e && ValueOf(e, r, c)
  {
    hide ValueOf, Computes, SignWords, ZeroWords, ParityWords, AskWords;
    r := T4;
    if c.O? || c.NO? {
      EvaluateOverflow(batch);
      e := AskWords(0x240);
      OverflowComputes();
    } else if c.C? || c.NC? {
      EvaluateCarry(batch);
      e := AskWords(0x242);
      CarryComputes();
    } else if c.Z? || c.NZ? {
      EvaluateZero(batch, T4);
      e := ZeroWords(T4);
      ZeroComputes();
    } else if c.S? || c.NS? {
      EvaluateSign(batch, T4, T0);
      e := SignWords(T4, T0);
      SignComputes();
    } else {
      EvaluateParity(batch, T4, T5);
      e := ParityWords(T4, T5);
      ParityComputes();
    }
    SingleValue(e, if Single(c) then c else Negated(c));
    NegatedAgain(c);
    if !Single(c) {
      var _ := batch.Add(Seqz(T0, T4));
      e, r := e + [Seqz(T0, T4)], T0;
    }
  }

  lemma NegatedAgain(c: Condition)
    ensures Negated(Negated(c)) == c
  {
  }

  /** The value of a condition over two or three flags. */
  method EmitCombined(batch: CodeBatch, c: Condition) returns (ghost e: seq<Instr>)
    requires !Single(c) && !Single(Negated(c))
    modifies batch
    ensures batch.code == old(batch.code) + e && ValueOf(e, T0, c)
  {
    hide ValueOf, SignWords, ZeroWords, AskWords;
    if c.BE? || c.A? {
      EvaluateZero(batch, T0);
      EvaluateCarry(batch);
      var _ := batch.Add(Op(OR, T0, T0, T4));
      e := ZeroCarryWords() + [Op(OR, T0, T0, T4)];
      BelowEqualValue();
    } else {
      EvaluateSign(batch, T0, T5);
      EvaluateOverflow(batch);
      var _ := batch.Add(Op(XOR, T0, T0, T4));
      e := CompareWords() + [Op(XOR, T0, T0, T4)];
      LessValue();
      if c.LE? || c.G? {
        LessEqualValue(e);
        EvaluateZero(batch, T4);
        var _ := batch.Add(Op(OR, T0, T0, T4));
        e := e + ZeroWords(T4) + [Op(OR, T0, T0, T4)];
      }
    }
    if c.A? || c.GE? || c.G? {
      NegatedValue(e, Negated(c));
      var _ := batch.Add(Seqz(T0, T0));
      e := e + [Seqz(T0, T0)];
    }
  }

  /** The code merges the condition into the low byte of `dst`. */
  ghost predicate SetsWhen(x: seq<Instr>, c: Condition, dst: Reg) {
    AllFlow(x) && forall s: State :: Gives(x, s, dst, WithByte(s.Get(dst), HoldsBit(c, s)), Temps)
  }

  /** A value in a temporary leaves the guest registers alone. */
  lemma GivesApart(e: seq<Instr>, s: State, r: Reg, v: bv64, dst: Reg)
    requires Gives(e, s, r, v, Temps) && r in Temps && Guest(dst)
    ensures Exec(e, s).Get(r) == v && Exec(e, s).Get(dst) == s.Get(dst)
  {
    hide Exec, State.Get;
    GuestApart(dst);
  }

  lemma MoveFits(dst: Reg, r: Reg, v: bv64)
    requires r in {T0, T4} && IsBit(v) && Guest(dst)
    ensures IsAccess(1) && Separate(1, dst, r, T0, true) && IsCleared(1, v)
    ensures forall u: bv64 :: Merge(1, u, v) == WithByte(u, v)
  {
    hide Low32, Low16, WithByte, WithWord, WithHighByte;
    GuestApart(dst);
    BitLow(v);
  }

  lemma ByteMoved(dst: Reg, r: Reg, v: bv64, t: State)
    requires r in {T0, T4} && IsBit(v) && Guest(dst) && t.Get(r) == v
    ensures Gives(MoveWords(dst, r, 1, T0, true), t, dst, WithByte(t.Get(dst), v), Temps)
  {
    hide Exec, MoveWords, Merge, WithByte, IsAccess, Separate, IsCleared, IsBit, Gives, Guest, State.Get;
    MoveFits(dst, r, v);
    MoveGives(dst, r, 1, T0, true, t);
    GivesMore(MoveWords(dst, r, 1, T0, true), t, dst, WithByte(t.Get(dst), v), {T0}, Temps);
  }

  lemma ValueMoved(e: seq<Instr>, r: Reg, v: bv64, dst: Reg, s: State)
    requires Gives(e, s, r, v, Temps) && r in {T0, T4} && IsBit(v) && Guest(dst)
    ensures Gives(e + MoveWords(dst, r, 1, T0, true), s, dst, WithByte(s.Get(dst), v), Temps)
  {
    hide Exec, MoveWords, WithByte, IsBit, Gives, Guest, State.Get;
    GivesApart(e, s, r, v, dst);
    ByteMoved(dst, r, v, Exec(e, s));
    GivesThen(e, MoveWords(dst, r, 1, T0, true), s, r, v, dst, WithByte(s.Get(dst), v), Temps);
  }

  lemma ValueSet(e: seq<Instr>, r: Reg, c: Condition, dst: Reg)
    requires ValueOf(e, r, c) && Guest(dst)
    ensures SetsWhen(e + MoveWords(dst, r, 1, T0, true), c, dst)
  {
    hide Exec, MoveWords, WithByte, Holds, FlagsOf, AllFlow, Gives, Guest, State.Get;
    MoveFlows(dst, r, 1, T0, true);
    AllFlowAppend(e, MoveWords(dst, r, 1, T0, true));
    forall s: State
      ensures Gives(e + MoveWords(dst, r, 1, T0, true), s, dst, WithByte(s.Get(dst), HoldsBit(c, s)), Temps)
    {
      ValueMoved(e, r, HoldsBit(c, s), dst, s);
    }
  }

  lemma BitLow(v: bv64)
    requires IsBit(v)
    ensures Low8(v) == v
  {
  }

  /** Emits a byte set into a low byte register. */
  method GenerateSetcc(batch: CodeBatch, c: Condition, dst: Reg) returns (ghost x: seq<Instr>)
    requires Guest(dst)
    modifies batch
    ensures batch.code == old(batch.code) + x && SetsWhen(x, c, dst)
  {
    hide ValueOf, SetsWhen, MoveWords, Moves;
    var r := T0;
    ghost var e;
    if Single(c) || Single(Negated(c)) {
      e, r := EmitSingle(batch, c);
    } else {
      e := EmitCombined(batch, c);
    }
    MoveToRegister(batch, dst, r, 1, T0, true);
    x := e + MoveWords(dst, r, 1, T0, true);
    ValueSet(e, r, c, dst);
  }
}
