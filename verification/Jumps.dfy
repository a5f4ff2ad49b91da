/** Conditional jumps (jcc.cpp): tests, a block end, and branches patched in afterwards. */
module Jumps {
  import opened RiscV
  import opened Machine
  import opened Batches
  import opened Effects
  import opened FlagState
  import opened Conditions
  import opened Relink

  // ---- code inside other code -----------------------------------------------------------------------

  predicate Placed(code: seq<Instr>, p: nat, part: seq<Instr>) {
    p + |part| <= |code| && code[p..p + |part|] == part
  }

  lemma PlacedPart(code: seq<Instr>, p: nat, a: seq<Instr>, b: seq<Instr>, c: seq<Instr>)
    requires Placed(code, p, a + b + c)
    ensures Placed(code, p + |a|, b)
  {
    var whole := a + b + c;
    assert whole[|a|..|a| + |b|] == b;
    assert code[p + |a|..p + |a| + |b|] == code[p..p + |whole|][|a|..|a| + |b|];
  }

  // ---- a branch around a body ---------------------------------------------------------------------------

  /** Test code, a branch past the body, and the body. */
  function Guarded(e: seq<Instr>, op: BranchOp, a: Reg, b: Reg, body: seq<Instr>): seq<Instr> {
    e + [Branch(op, a, b, 4 * (|body| + 1))] + body
  }

  lemma PlacedTest(code: seq<Instr>, p: nat, e: seq<Instr>, w: Instr)
    requires Placed(code, p, e + [w])
    ensures Placed(code, p, e) && p + |e| < |code| && code[p + |e|] == w
  {
    PlacedPart(code, p, [], e, [w]);
    assert [] + e + [w] == e + [w];
    assert code[p + |e|] == code[p..p + |e| + 1][|e|];
  }

  lemma TestAnswer(e: seq<Instr>, op: BranchOp, a: Reg, b: Reg, c: Condition, s: State)
    requires Tests(e, op, a, b, c)
    ensures Keeps(s, Exec(e, s), Temps) && AllFlow(e)
    ensures Taken(op, Exec(e, s).Get(a), Exec(e, s).Get(b)) == Holds(c, FlagsOf(s))
  {
    hide Exec, Holds, FlagsOf, Taken, AllFlow, State.Get, Keeps;
  }

  lemma TestRuns(code: seq<Instr>, p: nat, e: seq<Instr>, op: BranchOp, a: Reg, b: Reg, offset: int, c: Condition,
        s: State)
    requires Placed(code, p, e + [Branch(op, a, b, offset)]) && Tests(e, op, a, b, c)
    ensures Keeps(s, Exec(e, s), Temps)
    ensures Holds(c, FlagsOf(s)) ==> Reaches(code, At(p, s), At(p + |e| + offset / 4, Exec(e, s)))
    ensures !Holds(c, FlagsOf(s)) ==> Reaches(code, At(p, s), At(p + |e| + 1, Exec(e, s)))
  {
    hide Exec, Holds, FlagsOf, Taken, AllFlow, State.Get, Keeps, Reaches, Tests;
    PlacedTest(code, p, e, Branch(op, a, b, offset));
    TestAnswer(e, op, a, b, c, s);
    ReachesStraight(code, p, e, s);
    ReachesBranch(code, p + |e|, Exec(e, s));
    if Holds(c, FlagsOf(s)) {
      ReachesTrans(code, At(p, s), At(p + |e|, Exec(e, s)), At(p + |e| + offset / 4, Exec(e, s)));
    } else {
      ReachesTrans(code, At(p, s), At(p + |e|, Exec(e, s)), At(p + |e| + 1, Exec(e, s)));
    }
  }

  // ---- jumping code ---------------------------------------------------------------------------------------

  /** What a jump may spoil: the test's registers and the one holding the target. */
  const JumpTemps: set<Reg> := {T0, T3, T4, T5, T6, RA}

  /** Wherever the code stands, it leaves for the target if the condition holds, and else runs to its end. */
  ghost predicate JumpsAt(code: seq<Instr>, p: nat, n: nat, s: State, go: bool, target: bv64) {
    exists t: State :: Keeps(s, t, JumpTemps)
      && if go then t.Get(T3) == target && Reaches(code, At(p, s), Rerouted(4, t))
        else Reaches(code, At(p, s), At(p + n, t))
  }

  ghost predicate JumpsWhen(x: seq<Instr>, c: Condition, target: bv64) {
    forall code: seq<Instr>, p: nat, s: State {:trigger JumpsAt(code, p, |x|, s, Holds(c, FlagsOf(s)), target)} ::
      Placed(code, p, x) ==> JumpsAt(code, p, |x|, s, Holds(c, FlagsOf(s)), target)
  }

  lemma SlotJumps(code: seq<Instr>, p: nat, slot: seq<Instr>, target: bv64, s: State)
    requires EobSlot(slot, target) && Placed(code, p, slot)
    ensures JumpsAt(code, p, SlotSize, s, true, target)
  {
    hide Run, State.Set, State.Get;
    SlotReroutes(code, p, slot, target, s);
    SetKeeps(s, T3, target);
    assert Keeps(s, s.Set(T3, target), JumpTemps);
  }

  /** Continuing after a test that left the flags alone. */
  lemma JumpsAfter(code: seq<Instr>, p: nat, n: nat, s: State, q: nat, m: nat, t: State, go: bool, target: bv64)
    requires Reaches(code, At(p, s), At(q, t)) && Keeps(s, t, Temps) && JumpsAt(code, q, m, t, go, target)
    requires q + m == p + n
    ensures JumpsAt(code, p, n, s, go, target)
  {
    hide Reaches, State.Get;
    var u :| Keeps(t, u, JumpTemps)
      && if go then u.Get(T3) == target && Reaches(code, At(q, t), Rerouted(4, u))
        else Reaches(code, At(q, t), At(q + m, u));
    KeepsTrans(s, t, u, Temps, JumpTemps);
    assert Temps + JumpTemps == JumpTemps;
    ReachesTrans(code, At(p, s), At(q, t), if go then Rerouted(4, u) else At(q + m, u));
  }

  lemma EndsHere(code: seq<Instr>, p: nat, n: nat, s: State, t: State, target: bv64)
    requires Reaches(code, At(p, s), At(p + n, t)) && Keeps(s, t, Temps)
    ensures JumpsAt(code, p, n, s, false, target)
  {
    hide Reaches, State.Get;
    KeepsMore(s, t, Temps, JumpTemps);
  }

  /** A block end behind one test. */
  lemma GuardedJumps(e: seq<Instr>, op: BranchOp, a: Reg, b: Reg, skip: Condition, slot: seq<Instr>, target: bv64)
    requires Tests(e, op, a, b, skip) && EobSlot(slot, target)
    ensures JumpsWhen(Guarded(e, op, a, b, slot), Negated(skip), target)
  {
    var x := Guarded(e, op, a, b, slot);
    forall code: seq<Instr>, p: nat, s: State | Placed(code, p, x)
      ensures JumpsAt(code, p, |x|, s, Holds(Negated(skip), FlagsOf(s)), target)
    {
      GuardedJumpsAt(code, p, e, op, a, b, skip, slot, target, s);
    }
  }

  lemma GuardedJumpsAt(code: seq<Instr>, p: nat, e: seq<Instr>, op: BranchOp, a: Reg, b: Reg, skip: Condition,
        slot: seq<Instr>, target: bv64, s: State)
    requires Tests(e, op, a, b, skip) && EobSlot(slot, target) && Placed(code, p, Guarded(e, op, a, b, slot))
    ensures JumpsAt(code, p, |Guarded(e, op, a, b, slot)|, s, Holds(Negated(skip), FlagsOf(s)), target)
  {
    hide Exec, Holds, FlagsOf, Reaches, Keeps, Tests, EobSlot, JumpsAt, Negated;
    assert |slot| == SlotSize by { SlotLength(slot, target); }
    var w := Branch(op, a, b, 4 * (|slot| + 1));
    PlacedPart(code, p, [], e + [w], slot);
    assert [] + (e + [w]) + slot == Guarded(e, op, a, b, slot);
    TestRuns(code, p, e, op, a, b, 4 * (|slot| + 1), skip, s);
    NegatedHolds(skip, FlagsOf(s));
    var t := Exec(e, s);
    var n := |Guarded(e, op, a, b, slot)|;
    if Holds(skip, FlagsOf(s)) {
      EndsHere(code, p, n, s, t, target);
    } else {
      PlacedPart(code, p, e + [w], slot, []);
      assert e + [w] + slot + [] == Guarded(e, op, a, b, slot);
      SlotJumps(code, p + |e| + 1, slot, target, t);
      JumpsAfter(code, p, n, s, p + |e| + 1, SlotSize, t, true, target);
    }
  }

  lemma SlotLength(slot: seq<Instr>, target: bv64)
    requires EobSlot(slot, target)
    ensures |slot| == SlotSize
  {
  }

  /** A test before code that jumps on its own condition. */
  lemma DoublyGuarded(e: seq<Instr>, op: BranchOp, a: Reg, b: Reg, skip: Condition, rest: seq<Instr>, then_: Condition,
        c: Condition, target: bv64)
    requires Tests(e, op, a, b, skip) && JumpsWhen(rest, then_, target)
    requires forall f :: Holds(c, f) == (!Holds(skip, f) && Holds(then_, f))
    ensures JumpsWhen(Guarded(e, op, a, b, rest), c, target)
  {
    var x := Guarded(e, op, a, b, rest);
    forall code: seq<Instr>, p: nat, s: State | Placed(code, p, x)
      ensures JumpsAt(code, p, |x|, s, Holds(c, FlagsOf(s)), target)
    {
      hide Exec, FlagsOf, Tests, JumpsAt, Holds, JumpsWhen;
      DoublyGuardedAt(code, p, e, op, a, b, skip, rest, then_, target, s);
    }
  }

  lemma JumpsThere(code: seq<Instr>, p: nat, rest: seq<Instr>, c: Condition, target: bv64, s: State)
    requires JumpsWhen(rest, c, target) && Placed(code, p, rest)
    ensures JumpsAt(code, p, |rest|, s, Holds(c, FlagsOf(s)), target)
  {
    hide FlagsOf, JumpsAt, Holds;
  }

  lemma DoublyGuardedAt(code: seq<Instr>, p: nat, e: seq<Instr>, op: BranchOp, a: Reg, b: Reg, skip: Condition,
        rest: seq<Instr>,
        then_: Condition, target: bv64, s: State)
    requires Tests(e, op, a, b, skip) && JumpsWhen(rest, then_, target) && Placed(code, p, Guarded(e, op, a, b, rest))
    ensures JumpsAt(code, p, |Guarded(e, op, a, b, rest)|, s, !Holds(skip, FlagsOf(s)) && Holds(then_, FlagsOf(s)),
      target)
  {
    hide Exec, Holds, FlagsOf, Reaches, Keeps, Tests, JumpsAt, JumpsWhen;
    var w := Branch(op, a, b, 4 * (|rest| + 1));
    var n, t := |Guarded(e, op, a, b, rest)|, Exec(e, s);
    PlacedPart(code, p, [], e + [w], rest);
    assert [] + (e + [w]) + rest == Guarded(e, op, a, b, rest);
    TestRuns(code, p, e, op, a, b, 4 * (|rest| + 1), skip, s);
    if Holds(skip, FlagsOf(s)) {
      EndsHere(code, p, n, s, t, target);
    } else {
      PlacedPart(code, p, e + [w], rest, []);
      assert e + [w] + rest + [] == Guarded(e, op, a, b, rest);
      FlagsKept(s, t, Temps);
      JumpsThere(code, p + |e| + 1, rest, then_, target, t);
      JumpsAfter(code, p, n, s, p + |e| + 1, |rest|, t, Holds(then_, FlagsOf(s)), target);
    }
  }

  /** A block end between two tests, the second jumping back to it. */
  function Backward(e1: seq<Instr>, op1: BranchOp, a1: Reg, b1: Reg, slot: seq<Instr>, e2: seq<Instr>, op2: BranchOp,
        a2: Reg, b2: Reg): seq<Instr> {
    Guarded(e1, op1, a1, b1, slot) + e2 + [Branch(op2, a2, b2, -4 * (|slot| + |e2|))]
  }

  lemma BackwardJumps(e1: seq<Instr>, op1: BranchOp, a1: Reg, b1: Reg, skip: Condition, slot: seq<Instr>,
        e2: seq<Instr>, op2: BranchOp, a2: Reg, b2: Reg, again: Condition, c: Condition, target: bv64)
    requires Tests(e1, op1, a1, b1, skip) && EobSlot(slot, target) && Tests(e2, op2, a2, b2, again)
    requires forall f :: Holds(c, f) == (!Holds(skip, f) || Holds(again, f))
    ensures JumpsWhen(Backward(e1, op1, a1, b1, slot, e2, op2, a2, b2), c, target)
  {
    var x := Backward(e1, op1, a1, b1, slot, e2, op2, a2, b2);
    forall code: seq<Instr>, p: nat, s: State | Placed(code, p, x)
      ensures JumpsAt(code, p, |x|, s, Holds(c, FlagsOf(s)), target)
    {
      hide Exec, FlagsOf, Reaches, Tests, JumpsAt, EobSlot, Holds;
      BackwardJumpsAt(code, p, e1, op1, a1, b1, skip, slot, e2, op2, a2, b2, again, target, s);
    }
  }

  lemma BackwardParts(code: seq<Instr>, p: nat, e1: seq<Instr>, op1: BranchOp, a1: Reg, b1: Reg, slot: seq<Instr>,
        e2: seq<Instr>, op2: BranchOp, a2: Reg, b2: Reg)
    requires Placed(code, p, Backward(e1, op1, a1, b1, slot, e2, op2, a2, b2))
    ensures Placed(code, p, e1 + [Branch(op1, a1, b1, 4 * (|slot| + 1))]) && Placed(code, p + |e1| + 1, slot)
    ensures Placed(code, p + |e1| + 1 + |slot|, e2 + [Branch(op2, a2, b2, -4 * (|slot| + |e2|))])
  {
    var w1, w2 := Branch(op1, a1, b1, 4 * (|slot| + 1)), Branch(op2, a2, b2, -4 * (|slot| + |e2|));
    var x := Backward(e1, op1, a1, b1, slot, e2, op2, a2, b2);
    assert x == [] + (e1 + [w1]) + (slot + e2 + [w2]);
    PlacedPart(code, p, [], e1 + [w1], slot + e2 + [w2]);
    assert x == (e1 + [w1]) + slot + (e2 + [w2]);
    PlacedPart(code, p, e1 + [w1], slot, e2 + [w2]);
    assert x == (e1 + [w1] + slot) + (e2 + [w2]) + [];
    PlacedPart(code, p, e1 + [w1] + slot, e2 + [w2], []);
  }

  lemma BackwardJumpsAt(code: seq<Instr>, p: nat, e1: seq<Instr>, op1: BranchOp, a1: Reg, b1: Reg, skip: Condition,
        slot: seq<Instr>,
        e2: seq<Instr>, op2: BranchOp, a2: Reg, b2: Reg, again: Condition, target: bv64, s: State)
    requires Tests(e1, op1, a1, b1, skip) && EobSlot(slot, target) && Tests(e2, op2, a2, b2, again)
    requires Placed(code, p, Backward(e1, op1, a1, b1, slot, e2, op2, a2, b2))
    ensures JumpsAt(code, p, |Backward(e1, op1, a1, b1, slot, e2, op2, a2, b2)|, s,
      !Holds(skip, FlagsOf(s)) || Holds(again, FlagsOf(s)), target)
  {
    hide Exec, Holds, FlagsOf, Reaches, Keeps, Tests, EobSlot, JumpsAt, Placed;
    SlotLength(slot, target);
    BackwardParts(code, p, e1, op1, a1, b1, slot, e2, op2, a2, b2);
    var n, t, q := |e1| + 1 + |slot| + |e2| + 1, Exec(e1, s), p + |e1| + 1;
    TestRuns(code, p, e1, op1, a1, b1, 4 * (|slot| + 1), skip, s);
    if !Holds(skip, FlagsOf(s)) {
      SlotJumps(code, q, slot, target, t);
      JumpsInto(code, p, n, s, q, t, true, target);
    } else {
      var r, u := q + |slot|, Exec(e2, t);
      FlagsKept(s, t, Temps);
      TestRuns(code, r, e2, op2, a2, b2, -4 * (|slot| + |e2|), again, t);
      KeepsTrans(s, t, u, Temps, Temps);
      assert Temps + Temps == Temps;
      if Holds(again, FlagsOf(s)) {
        ReachesTrans(code, At(p, s), At(r, t), At(q, u));
        SlotJumps(code, q, slot, target, u);
        JumpsInto(code, p, n, s, q, u, true, target);
      } else {
        ReachesTrans(code, At(p, s), At(r, t), At(p + n, u));
        EndsHere(code, p, n, s, u, target);
      }
    }
  }

  /** Arriving at code that leaves for the target. */
  lemma JumpsInto(code: seq<Instr>, p: nat, n: nat, s: State, q: nat, t: State, go: bool, target: bv64)
    requires Reaches(code, At(p, s), At(q, t)) && Keeps(s, t, Temps) && JumpsAt(code, q, SlotSize, t, true, target)
    requires go
    ensures JumpsAt(code, p, n, s, go, target)
  {
    hide Reaches, State.Get;
    var u :| Keeps(t, u, JumpTemps) && u.Get(T3) == target && Reaches(code, At(q, t), Rerouted(4, u));
    KeepsTrans(s, t, u, Temps, JumpTemps);
    assert Temps + JumpTemps == JumpTemps;
    ReachesTrans(code, At(p, s), At(q, t), Rerouted(4, u));
  }

  // ---- the emitters ---------------------------------------------------------------------------------------

  lemma Patched(a: seq<Instr>, b: seq<Instr>, w: Instr)
    ensures (a + [Nop()] + b)[|a| := w] == a + [w] + b
  {
  }

  /** The conditions that one test decides. */
  predicate OneTest(c: Condition) { !(c.BE? || c.A? || c.LE? || c.G?) }

  /** Emits the code of one test and says which branch then skips what the condition guards. */
  method EmitTest(batch: CodeBatch, c: Condition, flipped: bool)
      returns (ghost e: seq<Instr>, op: BranchOp, a: Reg, b: Reg)
    requires OneTest(c)
    modifies batch
    ensures batch.code == old(batch.code) + e && Tests(e, op, a, b, Negated(c))
  {
    hide Tests, SignWords, ZeroWords, ParityWords, AskWords;
    a, b := T4, Zero;
    op := if c.O? || c.C? || c.Z? || c.S? || c.P? || c.L? then BEQ else BNE;
    if c.O? || c.NO? {
      EvaluateOverflow(batch);
      e := AskWords(0x240);
      OverflowComputes();
      BitTests(e, O);
    } else if c.C? || c.NC? {
      EvaluateCarry(batch);
      e := AskWords(0x242);
      CarryComputes();
      BitTests(e, C);
    } else if c.Z? || c.NZ? {
      EvaluateZero(batch, T4);
      e := ZeroWords(T4);
      ZeroComputes();
      BitTests(e, Z);
    } else if c.S? || c.NS? {
      EvaluateSign(batch, T4, T0);
      e := SignWords(T4, T0);
      SignComputes();
      BitTests(e, S);
    } else if c.P? || c.NP? {
      EvaluateParity(batch, T4, T5);
      e := ParityWords(T4, T5);
      ParityComputes();
      BitTests(e, P);
    } else {
      EvaluateSign(batch, T0, T5);
      EvaluateOverflow(batch);
      e := CompareWords();
      CompareTests(flipped);
      a, b := if flipped then T0 else T4, if flipped then T4 else T0;
    }
  }

  /** A jump guarded by one test. */
  method JumpOnTest(batch: CodeBatch, c: Condition, target: bv64) returns (ghost x: seq<Instr>)
    requires OneTest(c)
    modifies batch
    ensures batch.code == old(batch.code) + x && JumpsWhen(x, c, target)
  {
    hide Tests, EobSlot, JumpsWhen;
    var op, a, b;
    ghost var e;
    e, op, a, b := EmitTest(batch, c, false);
    var index := batch.Add(Nop());
    ghost var slot := AppendEob(batch, target);
    batch.Insert(index, Branch(op, a, b, batch.Offset(index, |batch.code|) * 4));
    SlotLength(slot, target);
    Patched(old(batch.code) + e, slot, Branch(op, a, b, 4 * (|slot| + 1)));
    x := Guarded(e, op, a, b, slot);
    assert batch.code == old(batch.code) + x;
    GuardedJumps(e, op, a, b, Negated(c), slot, target);
    NegatedTwice(c);
  }

  lemma NegatedTwice(c: Condition)
    ensures Negated(Negated(c)) == c
  {
  }

  /** Ja and Jg: leave at once if the first condition holds, else jump on the second. */
  method JumpIfNeither(batch: CodeBatch, c: Condition, target: bv64) returns (ghost x: seq<Instr>)
    requires c.A? || c.G?
    modifies batch
    ensures batch.code == old(batch.code) + x && JumpsWhen(x, c, target)
  {
    hide Tests, EobSlot, JumpsWhen, ZeroWords;
    EvaluateZero(batch, T4);
    ghost var e := ZeroWords(T4);
    ZeroComputes();
    BitTests(e, Z);
    var dummy := batch.Add(Nop());
    ghost var rest := JumpOnTest(batch, if c.A? then NC else GE, target);
    batch.Insert(dummy, Bnqz(T4, batch.Offset(dummy, |batch.code|) * 4));
    Patched(old(batch.code) + e, rest, Bnqz(T4, 4 * (|rest| + 1)));
    x := Guarded(e, BNE, T4, Zero, rest);
    assert batch.code == old(batch.code) + x;
    DoublyGuarded(e, BNE, T4, Zero, Z, rest, if c.A? then NC else GE, c, target);
  }

  /** Jbe and Jle: a test before the jump, and one behind it that branches back. */
  method JumpIfEither(batch: CodeBatch, c: Condition, target: bv64) returns (ghost x: seq<Instr>)
    requires c.BE? || c.LE?
    modifies batch
    ensures batch.code == old(batch.code) + x && JumpsWhen(x, c, target)
  {
    hide Tests, EobSlot, JumpsWhen, ZeroWords;
    EvaluateZero(batch, T4);
    ghost var e := ZeroWords(T4);
    ZeroComputes();
    BitTests(e, Z);
    var index := batch.Add(Nop());
    var finish := |batch.code|;
    ghost var slot := AppendEob(batch, target);
    batch.Insert(index, Beqz(T4, batch.Offset(index, |batch.code|) * 4));
    SlotLength(slot, target);
    Patched(old(batch.code) + e, slot, Beqz(T4, 4 * (|slot| + 1)));
    ghost var first := Guarded(e, BEQ, T4, Zero, slot);
    assert batch.code == old(batch.code) + first;
    var op, a, b;
    ghost var e2;
    e2, op, a, b := EmitTest(batch, if c.BE? then NC else GE, false);
    var _ := batch.Add(Branch(op, a, b, batch.Offset(|batch.code|, finish) * 4));
    x := Backward(e, BEQ, T4, Zero, slot, e2, op, a, b);
    assert batch.code == old(batch.code) + x;
    BackwardJumps(e, BEQ, T4, Zero, NZ, slot, e2, op, a, b, if c.BE? then C else L, c, target);
  }

  /** Emits a conditional jump: it leaves for the target exactly when the condition holds. */
  method GenerateJcc(batch: CodeBatch, c: Condition, target: bv64) returns (ghost x: seq<Instr>)
    modifies batch
    ensures batch.code == old(batch.code) + x && JumpsWhen(x, c, target)
  {
    if OneTest(c) {
      x := JumpOnTest(batch, c, target);
    } else if c.A? || c.G? {
      x := JumpIfNeither(batch, c, target);
    } else {
      x := JumpIfEither(batch, c, target);
    }
  }
}
