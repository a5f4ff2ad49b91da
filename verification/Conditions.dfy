/** The sixteen conditions (Appendix B of Intel SDM Volume 1) and the code that tests them. */
module Conditions {
  import opened RiscV
  import opened Machine
  import opened Effects
  import opened FlagState

  datatype Condition = O | NO | C | NC | Z | NZ | BE | A | S | NS | P | NP | L | GE | LE | G

  datatype Flags = Flags(cf: bool, zf: bool, sf: bool, of: bool, pf: bool)

  predicate Holds(c: Condition, f: Flags) {
    match c
    case O => f.of
    case NO => !f.of
    case C => f.cf
    case NC => !f.cf
    case Z => f.zf
    case NZ => !f.zf
    case BE => f.cf || f.zf
    case A => !(f.cf || f.zf)
    case S => f.sf
    case NS => !f.sf
    case P => f.pf
    case NP => !f.pf
    case L => f.sf != f.of
    case GE => f.sf == f.of
    case LE => f.zf || f.sf != f.of
    case G => !f.zf && f.sf == f.of
  }

  /** The eager flags a state stands for. */
  function FlagsOf(s: State): Flags {
    Flags(0 < CarryBit(s), 0 < ZeroBit(s.ctx), 0 < SignBit(s.ctx), 0 < OverflowBit(s), 0 < ParityBit(s.ctx))
  }

  /** What testing a condition may spoil. */
  const Temps: set<Reg> := {T0, T4, T5, T6, RA}

  lemma FlagsKept(s: State, t: State, regs: set<Reg>)
    requires Keeps(s, t, regs)
    ensures FlagsOf(t) == FlagsOf(s)
  {
    hide CarryBit, ZeroBit, SignBit, OverflowBit, ParityBit, State.Get;
    SameBits(s, t);
  }

  lemma SameBits(s: State, t: State)
    requires s.ctx == t.ctx && s.scratch == t.scratch
    ensures CarryBit(s) == CarryBit(t) && OverflowBit(s) == OverflowBit(t)
  {
    hide EvalFlag;
  }

  // ---- a test: code followed by a branch -----------------------------------------------------------

  /** After the code, the branch is taken exactly when the condition holds. */
  ghost predicate Tests(e: seq<Instr>, op: BranchOp, a: Reg, b: Reg, c: Condition) {
    && AllFlow(e)
    && forall s ::
      Keeps(s, Exec(e, s), Temps) && Taken(op, Exec(e, s).Get(a), Exec(e, s).Get(b)) == Holds(c, FlagsOf(s))
  }

  lemma BitTaken(v: bv64)
    requires IsBit(v)
    ensures Taken(BNE, v, 0) == (0 < v) && Taken(BEQ, v, 0) == !(0 < v)
  {
  }

  lemma BitsTaken(u: bv64, v: bv64)
    requires IsBit(u) && IsBit(v)
    ensures Taken(BNE, u, v) == ((0 < u) != (0 < v)) && Taken(BEQ, u, v) == ((0 < u) == (0 < v))
  {
  }

  lemma FlowZero() ensures AllFlow(ZeroWords(T4)) {}
  lemma FlowAsk(off: bv12) ensures AllFlow(AskWords(off)) {}
  lemma FlowSign(d: Reg, t: Reg) ensures AllFlow(SignWords(d, t)) {}
  lemma FlowParity(d: Reg, t: Reg) ensures AllFlow(ParityWords(d, t)) {}

  /** The conditions that are a single flag, and that flag. */
  predicate Single(c: Condition) { c.O? || c.C? || c.Z? || c.S? || c.P? }

  function BitOf(c: Condition, s: State): (r: bv64)
    ensures IsBit(r)
  {
    match c
    case O => OverflowBit(s)
    case C => CarryBit(s)
    case Z => ZeroBit(s.ctx)
    case S => SignBit(s.ctx)
    case _ => ParityBit(s.ctx)
  }

  function Negated(c: Condition): Condition {
    match c
    case O => NO case NO => O case C => NC case NC => C case Z => NZ case NZ => Z case BE => A case A => BE
    case S => NS case NS => S case P => NP case NP => P case L => GE case GE => L case LE => G case G => LE
  }

  lemma NegatedHolds(c: Condition, f: Flags)
    ensures Holds(Negated(c), f) == !Holds(c, f)
  {
  }

  lemma BitHolds(c: Condition, s: State)
    requires Single(c)
    ensures Holds(c, FlagsOf(s)) == (0 < BitOf(c, s))
  {
    hide ZeroBit, CarryBit, OverflowBit, SignBit, ParityBit;
  }

  ghost predicate Computes(e: seq<Instr>, c: Condition) {
    AllFlow(e) && forall s :: Gives(e, s, T4, BitOf(c, s), Temps)
  }

  lemma BitTests(e: seq<Instr>, c: Condition)
    requires Single(c) && Computes(e, c)
    ensures Tests(e, BNE, T4, Zero, c) && Tests(e, BEQ, T4, Zero, Negated(c))
  {
    forall s ensures Keeps(s, Exec(e, s), Temps)
      ensures Taken(BNE, Exec(e, s).Get(T4), Exec(e, s).Get(Zero)) == Holds(c, FlagsOf(s))
      ensures Taken(BEQ, Exec(e, s).Get(T4), Exec(e, s).Get(Zero)) == Holds(Negated(c), FlagsOf(s))
    {
      hide Exec, FlagsOf, Taken, AllFlow, BitOf, Holds, Negated;
      assert Gives(e, s, T4, BitOf(c, s), Temps);
      assert Temps + {T4} == Temps;
      BitTaken(BitOf(c, s));
      BitHolds(c, s);
      NegatedHolds(c, FlagsOf(s));
    }
  }

  lemma ZeroComputes()
    ensures Computes(ZeroWords(T4), Z)
  {
    hide Gives, ZeroWords, ZeroBit, AllFlow;
    FlowZero();
    forall s ensures Gives(ZeroWords(T4), s, T4, BitOf(Z, s), Temps) {
      ZeroEvaluated(T4, s);
      GivesMore(ZeroWords(T4), s, T4, ZeroBit(s.ctx), {}, Temps);
    }
  }

  lemma SignComputes()
    ensures Computes(SignWords(T4, T0), S)
  {
    hide Gives, SignWords, SignBit, AllFlow;
    FlowSign(T4, T0);
    forall s ensures Gives(SignWords(T4, T0), s, T4, BitOf(S, s), Temps) {
      SignEvaluated(T4, T0, s);
      GivesMore(SignWords(T4, T0), s, T4, SignBit(s.ctx), {T0}, Temps);
    }
  }

  lemma ParityComputes()
    ensures Computes(ParityWords(T4, T5), P)
  {
    hide Gives, ParityWords, ParityBit, AllFlow;
    FlowParity(T4, T5);
    forall s ensures Gives(ParityWords(T4, T5), s, T4, BitOf(P, s), Temps) {
      ParityEvaluated(T4, T5, s);
      GivesMore(ParityWords(T4, T5), s, T4, ParityBit(s.ctx), {T5}, Temps);
    }
  }

  lemma CarryComputes()
    ensures Computes(AskWords(0x242), C)
  {
    hide Gives, AskWords, CarryBit, AllFlow;
    FlowAsk(0x242);
    forall s ensures Gives(AskWords(0x242), s, T4, BitOf(C, s), Temps) {
      CarryEvaluated(s);
      GivesMore(AskWords(0x242), s, T4, CarryBit(s), {T5, T6, RA}, Temps);
    }
  }

  lemma OverflowComputes()
    ensures Computes(AskWords(0x240), O)
  {
    hide Gives, AskWords, OverflowBit, AllFlow;
    FlowAsk(0x240);
    forall s ensures Gives(AskWords(0x240), s, T4, BitOf(O, s), Temps) {
      OverflowEvaluated(s);
      GivesMore(AskWords(0x240), s, T4, OverflowBit(s), {T5, T6, RA}, Temps);
    }
  }

  // ---- comparing sign and overflow ---------------------------------------------------------------------

  function CompareWords(): seq<Instr> { SignWords(T0, T5) + AskWords(0x240) }

  lemma Compared(s: State)
    ensures var t := Exec(CompareWords(), s);
      Keeps(s, t, Temps) && t.Get(T0) == SignBit(s.ctx) && t.Get(T4) == OverflowBit(s)
  {
    hide Exec, SignWords, AskWords, SignBit, OverflowBit, State.Get;
    SignEvaluated(T0, T5, s);
    ExecAppend(SignWords(T0, T5), AskWords(0x240), s);
    var t := Exec(SignWords(T0, T5), s);
    SameBits(s, t);
    OverflowEvaluated(t);
  }

  lemma CompareTaken(s: State)
    ensures var t := Exec(CompareWords(), s); var f := FlagsOf(s);
      && Taken(BNE, t.Get(T4), t.Get(T0)) == Taken(BNE, t.Get(T0), t.Get(T4)) == Holds(L, f)
      && Taken(BEQ, t.Get(T4), t.Get(T0)) == Taken(BEQ, t.Get(T0), t.Get(T4)) == Holds(GE, f)
  {
    hide Exec, CompareWords, CarryBit, ZeroBit, ParityBit, SignBit, OverflowBit, Taken, Keeps, State.Get;
    Compared(s);
    BitsTaken(SignBit(s.ctx), OverflowBit(s));
    BitsTaken(OverflowBit(s), SignBit(s.ctx));
  }

  lemma CompareFlows()
    ensures AllFlow(CompareWords())
  {
    FlowSign(T0, T5);
    FlowAsk(0x240);
    AllFlowAppend(SignWords(T0, T5), AskWords(0x240));
  }

  lemma CompareTests(swapped: bool)
    ensures var a, b := if swapped then T0 else T4, if swapped then T4 else T0;
      Tests(CompareWords(), BNE, a, b, L) && Tests(CompareWords(), BEQ, a, b, GE)
  {
    hide Exec, CompareWords, FlagsOf, Holds, Taken, AllFlow, Keeps, State.Get;
    CompareFlows();
    forall s ensures Keeps(s, Exec(CompareWords(), s), Temps) {
      Compared(s);
    }
    forall s
      ensures Taken(BNE, Exec(CompareWords(), s).Get(T4), Exec(CompareWords(), s).Get(T0)) == Holds(L, FlagsOf(s))
      ensures Taken(BNE, Exec(CompareWords(), s).Get(T0), Exec(CompareWords(), s).Get(T4)) == Holds(L, FlagsOf(s))
      ensures Taken(BEQ, Exec(CompareWords(), s).Get(T4), Exec(CompareWords(), s).Get(T0)) == Holds(GE, FlagsOf(s))
      ensures Taken(BEQ, Exec(CompareWords(), s).Get(T0), Exec(CompareWords(), s).Get(T4)) == Holds(GE, FlagsOf(s))
    {
      CompareTaken(s);
    }
  }
}
