/** Conditional moves (cmov.cpp): the same tests as the conditional jumps. */
module Selects {
  import opened RiscV
  import opened Machine
  import opened Batches
  import opened Effects
  import opened FlagState
  import opened Conditions
  import opened Registers
  import opened Jumps

  // ---- conditional moves ------------------------------------------------------------------------------

  /** The code runs to its end, leaving v in `dst`. */
  ghost predicate EndsWith(code: seq<Instr>, p: nat, n: nat, s: State, dst: Reg, v: bv64) {
    exists t: State :: Reaches(code, At(p, s), At(p + n, t)) && t.Get(dst) == v && Keeps(s, t, Temps + {dst})
  }

  function Selected(go: bool, size: nat, d: bv64, v: bv64): bv64 { if go then Merge(size, d, v) else d }

  ghost predicate Selects(x: seq<Instr>, c: Condition, size: nat, dst: Reg, src: Reg) {
    forall code: seq<Instr>, p: nat, s: State {:trigger Placed(code, p, x), FlagsOf(s)} :: Placed(code, p, x) ==>
      EndsWith(code, p, |x|, s, dst, Selected(Holds(c, FlagsOf(s)), size, s.Get(dst), s.Get(src)))
  }

  /** Guest registers never collide with the temporaries. */
  predicate Guest(r: Reg) { !r.Zero? && r !in JumpTemps }

  function Move(size: nat, dst: Reg, src: Reg): seq<Instr> { MoveWords(dst, src, size, T0, false) }

  lemma GuestApart(r: Reg)
    requires Guest(r)
    ensures !r.Zero? && r != T0 && r != T3 && r != T4 && r != T5 && r != T6 && r != RA
  {
  }

  lemma MoveApart(size: nat, dst: Reg, src: Reg)
    requires size in {2, 4, 8} && Guest(dst) && Guest(src)
    ensures IsAccess(size) && Separate(size, dst, src, T0, false)
  {
    GuestApart(dst);
    GuestApart(src);
  }

  lemma MoveEnds(x: seq<Instr>, size: nat, dst: Reg, src: Reg, s: State)
    requires size in {2, 4, 8} && Guest(dst) && Guest(src) && x == Move(size, dst, src)
    ensures Keeps(s, Exec(x, s), Temps + {dst}) && Exec(x, s).Get(dst) == Selected(true, size, s.Get(dst), s.Get(src))
  {
    hide Exec, MoveWords, Merge, Keeps, Gives, Guest, IsAccess, Separate, State.Get;
    MoveApart(size, dst, src);
    MoveGives(dst, src, size, T0, false, s);
    GivesParts(x, s, dst, Merge(size, s.Get(dst), s.Get(src)), {T0});
    KeepsMore(s, Exec(x, s), {T0} + {dst}, Temps + {dst});
  }

  lemma MoveRuns(code: seq<Instr>, p: nat, size: nat, dst: Reg, src: Reg, s: State)
    requires size in {2, 4, 8} && Guest(dst) && Guest(src) && Placed(code, p, Move(size, dst, src))
    ensures EndsWith(code, p, |Move(size, dst, src)|, s, dst, Selected(true, size, s.Get(dst), s.Get(src)))
  {
    hide Exec, MoveWords, Reaches, AllFlow, Keeps, Selected, State.Get;
    MoveFlows(dst, src, size, T0, false);
    ReachesStraight(code, p, Move(size, dst, src), s);
    MoveEnds(Move(size, dst, src), size, dst, src, s);
  }

  lemma EndsThere(code: seq<Instr>, p: nat, n: nat, s: State, t: State, dst: Reg)
    requires Reaches(code, At(p, s), At(p + n, t)) && Keeps(s, t, Temps) && dst !in Temps
    ensures EndsWith(code, p, n, s, dst, s.Get(dst))
  {
    hide Reaches, State.Get;
  }

  lemma EndsAfter(code: seq<Instr>, p: nat, n: nat, s: State, q: nat, m: nat, t: State, dst: Reg, v: bv64)
    requires Reaches(code, At(p, s), At(q, t)) && Keeps(s, t, Temps + {dst}) && EndsWith(code, q, m, t, dst, v)
    requires q + m == p + n
    ensures EndsWith(code, p, n, s, dst, v)
  {
    hide Reaches, State.Get;
    var u :| Reaches(code, At(q, t), At(q + m, u)) && u.Get(dst) == v && Keeps(t, u, Temps + {dst});
    KeepsTrans(s, t, u, Temps + {dst}, Temps + {dst});
    assert (Temps + {dst}) + (Temps + {dst}) == Temps + {dst};
    ReachesTrans(code, At(p, s), At(q, t), At(q + m, u));
  }

  lemma GuardedParts(code: seq<Instr>, p: nat, e: seq<Instr>, op: BranchOp, a: Reg, b: Reg, body: seq<Instr>)
    requires Placed(code, p, Guarded(e, op, a, b, body))
    ensures Placed(code, p, e + [Branch(op, a, b, 4 * (|body| + 1))]) && Placed(code, p + |e| + 1, body)
  {
    var w := Branch(op, a, b, 4 * (|body| + 1));
    PlacedPart(code, p, [], e + [w], body);
    assert [] + (e + [w]) + body == Guarded(e, op, a, b, body);
    PlacedPart(code, p, e + [w], body, []);
    assert e + [w] + body + [] == Guarded(e, op, a, b, body);
  }

  lemma GuardedSelectsAt(code: seq<Instr>, p: nat, e: seq<Instr>, op: BranchOp, a: Reg, b: Reg, skip: Condition,
        size: nat, dst: Reg, src: Reg, s: State)
    requires size in {2, 4, 8} && Guest(dst) && Guest(src) && Tests(e, op, a, b, skip)
    requires Placed(code, p, Guarded(e, op, a, b, Move(size, dst, src)))
    ensures EndsWith(code, p, |Guarded(e, op, a, b, Move(size, dst, src))|, s, dst,
      Selected(!Holds(skip, FlagsOf(s)), size, s.Get(dst), s.Get(src)))
  {
    hide Exec, Holds, FlagsOf, Reaches, Tests, EndsWith, Merge, Move, State.Get;
    var body := Move(size, dst, src);
    var n, t := |Guarded(e, op, a, b, body)|, Exec(e, s);
    GuardedParts(code, p, e, op, a, b, body);
    TestRuns(code, p, e, op, a, b, 4 * (|body| + 1), skip, s);
    assert t.Get(dst) == s.Get(dst) && t.Get(src) == s.Get(src);
    if Holds(skip, FlagsOf(s)) {
      EndsThere(code, p, n, s, t, dst);
    } else {
      MoveRuns(code, p + |e| + 1, size, dst, src, t);
      EndsAfter(code, p, n, s, p + |e| + 1, |body|, t, dst, Selected(true, size, s.Get(dst), s.Get(src)));
    }
  }

  lemma GuardedSelects(e: seq<Instr>, op: BranchOp, a: Reg, b: Reg, skip: Condition, size: nat, dst: Reg, src: Reg)
    requires size in {2, 4, 8} && Guest(dst) && Guest(src) && Tests(e, op, a, b, skip)
    ensures Selects(Guarded(e, op, a, b, Move(size, dst, src)), Negated(skip), size, dst, src)
  {
    var x := Guarded(e, op, a, b, Move(size, dst, src));
    forall code: seq<Instr>, p: nat, s: State | Placed(code, p, x)
      ensures EndsWith(code, p, |x|, s, dst, Selected(Holds(Negated(skip), FlagsOf(s)), size, s.Get(dst), s.Get(src)))
    {
      hide Holds, FlagsOf, Tests, EndsWith, Merge, Move, Negated, State.Get;
      GuardedSelectsAt(code, p, e, op, a, b, skip, size, dst, src, s);
      NegatedHolds(skip, FlagsOf(s));
    }
  }

  lemma SelectsThere(code: seq<Instr>, p: nat, rest: seq<Instr>, c: Condition, size: nat, dst: Reg, src: Reg, s: State)
    requires Selects(rest, c, size, dst, src) && Placed(code, p, rest)
    ensures EndsWith(code, p, |rest|, s, dst, Selected(Holds(c, FlagsOf(s)), size, s.Get(dst), s.Get(src)))
  {
    hide FlagsOf, Holds, EndsWith, Merge, State.Get;
  }

  /** Cmova and Cmovg: a test in front of code that selects. */
  lemma DoublySelectsAt(code: seq<Instr>, p: nat, e: seq<Instr>, op: BranchOp, a: Reg, b: Reg, skip: Condition,
        rest: seq<Instr>, then_: Condition, size: nat, dst: Reg, src: Reg, s: State)
    requires Guest(dst) && Guest(src) && Tests(e, op, a, b, skip) && Selects(rest, then_, size, dst, src)
    requires Placed(code, p, Guarded(e, op, a, b, rest))
    ensures EndsWith(code, p, |Guarded(e, op, a, b, rest)|, s, dst,
      Selected(!Holds(skip, FlagsOf(s)) && Holds(then_, FlagsOf(s)), size, s.Get(dst), s.Get(src)))
  {
    hide Exec, Holds, FlagsOf, Reaches, Tests, EndsWith, Merge, Selects, State.Get;
    var n, t := |Guarded(e, op, a, b, rest)|, Exec(e, s);
    GuardedParts(code, p, e, op, a, b, rest);
    TestRuns(code, p, e, op, a, b, 4 * (|rest| + 1), skip, s);
    if Holds(skip, FlagsOf(s)) {
      EndsThere(code, p, n, s, t, dst);
    } else {
      FlagsKept(s, t, Temps);
      SelectsThere(code, p + |e| + 1, rest, then_, size, dst, src, t);
      EndsAfter(code, p, n, s, p + |e| + 1, |rest|, t, dst,
        Selected(Holds(then_, FlagsOf(s)), size, s.Get(dst), s.Get(src)));
    }
  }

  lemma DoublySelects(e: seq<Instr>, op: BranchOp, a: Reg, b: Reg, skip: Condition, rest: seq<Instr>, then_: Condition,
        c: Condition, size: nat, dst: Reg, src: Reg)
    requires Guest(dst) && Guest(src) && Tests(e, op, a, b, skip) && Selects(rest, then_, size, dst, src)
    requires forall f :: Holds(c, f) == (!Holds(skip, f) && Holds(then_, f))
    ensures Selects(Guarded(e, op, a, b, rest), c, size, dst, src)
  {
    var x := Guarded(e, op, a, b, rest);
    forall code: seq<Instr>, p: nat, s: State | Placed(code, p, x)
      ensures EndsWith(code, p, |x|, s, dst, Selected(Holds(c, FlagsOf(s)), size, s.Get(dst), s.Get(src)))
    {
      hide Holds, FlagsOf, Tests, EndsWith, Merge, Selects, State.Get;
      DoublySelectsAt(code, p, e, op, a, b, skip, rest, then_, size, dst, src, s);
    }
  }

  /** Cmovbe and Cmovle: the first branch leads to the move, the second past it. */
  function Either(e1: seq<Instr>, op1: BranchOp, a1: Reg, b1: Reg, e2: seq<Instr>, op2: BranchOp, a2: Reg, b2: Reg,
        body: seq<Instr>): seq<Instr> {
    e1 + [Branch(op1, a1, b1, 4 * (|e2| + 2))] + Guarded(e2, op2, a2, b2, body)
  }

  lemma EitherParts(code: seq<Instr>, p: nat, e1: seq<Instr>, op1: BranchOp, a1: Reg, b1: Reg,
        e2: seq<Instr>, op2: BranchOp, a2: Reg, b2: Reg, body: seq<Instr>)
    requires Placed(code, p, Either(e1, op1, a1, b1, e2, op2, a2, b2, body))
    ensures Placed(code, p, e1 + [Branch(op1, a1, b1, 4 * (|e2| + 2))])
    ensures Placed(code, p + |e1| + 1, Guarded(e2, op2, a2, b2, body))
    ensures Placed(code, p + |e1| + |e2| + 2, body)
  {
    var w, g := Branch(op1, a1, b1, 4 * (|e2| + 2)), Guarded(e2, op2, a2, b2, body);
    PlacedPart(code, p, [], e1 + [w], g);
    assert [] + (e1 + [w]) + g == Either(e1, op1, a1, b1, e2, op2, a2, b2, body);
    PlacedPart(code, p, e1 + [w], g, []);
    assert e1 + [w] + g + [] == Either(e1, op1, a1, b1, e2, op2, a2, b2, body);
    GuardedParts(code, p + |e1| + 1, e2, op2, a2, b2, body);
  }

  lemma EitherSelectsAt(code: seq<Instr>, p: nat, e1: seq<Instr>, op1: BranchOp, a1: Reg, b1: Reg, first: Condition,
        e2: seq<Instr>, op2: BranchOp, a2: Reg, b2: Reg, skip: Condition, size: nat, dst: Reg, src: Reg, s: State)
    requires size in {2, 4, 8} && Guest(dst) && Guest(src) && Tests(e1, op1, a1, b1, first)
    requires Tests(e2, op2, a2, b2, skip)
    requires Placed(code, p, Either(e1, op1, a1, b1, e2, op2, a2, b2, Move(size, dst, src)))
    ensures EndsWith(code, p, |Either(e1, op1, a1, b1, e2, op2, a2, b2, Move(size, dst, src))|, s, dst,
      Selected(Holds(first, FlagsOf(s)) || !Holds(skip, FlagsOf(s)), size, s.Get(dst), s.Get(src)))
  {
    hide Exec, Holds, FlagsOf, Reaches, Tests, EndsWith, Merge, Move, State.Get;
    var body := Move(size, dst, src);
    var n, t := |Either(e1, op1, a1, b1, e2, op2, a2, b2, body)|, Exec(e1, s);
    EitherParts(code, p, e1, op1, a1, b1, e2, op2, a2, b2, body);
    TestRuns(code, p, e1, op1, a1, b1, 4 * (|e2| + 2), first, s);
    assert t.Get(dst) == s.Get(dst) && t.Get(src) == s.Get(src);
    if Holds(first, FlagsOf(s)) {
      MoveRuns(code, p + |e1| + |e2| + 2, size, dst, src, t);
      EndsAfter(code, p, n, s, p + |e1| + |e2| + 2, |body|, t, dst, Selected(true, size, s.Get(dst), s.Get(src)));
    } else {
      FlagsKept(s, t, Temps);
      GuardedSelectsAt(code, p + |e1| + 1, e2, op2, a2, b2, skip, size, dst, src, t);
      EndsAfter(code, p, n, s, p + |e1| + 1, |e2| + 1 + |body|, t, dst,
        Selected(!Holds(skip, FlagsOf(s)), size, s.Get(dst), s.Get(src)));
    }
  }

  lemma EitherSelects(e1: seq<Instr>, op1: BranchOp, a1: Reg, b1: Reg, first: Condition,
        e2: seq<Instr>, op2: BranchOp, a2: Reg, b2: Reg, skip: Condition, c: Condition, size: nat, dst: Reg, src: Reg)
    requires size in {2, 4, 8} && Guest(dst) && Guest(src) && Tests(e1, op1, a1, b1, first)
    requires Tests(e2, op2, a2, b2, skip)
    requires forall f :: Holds(c, f) == (Holds(first, f) || !Holds(skip, f))
    ensures Selects(Either(e1, op1, a1, b1, e2, op2, a2, b2, Move(size, dst, src)), c, size, dst, src)
  {
    var x := Either(e1, op1, a1, b1, e2, op2, a2, b2, Move(size, dst, src));
    forall code: seq<Instr>, p: nat, s: State | Placed(code, p, x)
      ensures EndsWith(code, p, |x|, s, dst, Selected(Holds(c, FlagsOf(s)), size, s.Get(dst), s.Get(src)))
    {
      hide Holds, FlagsOf, Tests, EndsWith, Merge, Move, State.Get;
      EitherSelectsAt(code, p, e1, op1, a1, b1, first, e2, op2, a2, b2, skip, size, dst, src, s);
    }
  }

  /** A move guarded by one test. */
  method SelectOnTest(batch: CodeBatch, c: Condition, size: nat, dst: Reg, src: Reg) returns (ghost x: seq<Instr>)
    requires OneTest(c) && size in {2, 4, 8} && Guest(dst) && Guest(src)
    modifies batch
    ensures batch.code == old(batch.code) + x && Selects(x, c, size, dst, src)
  {
    hide Tests, Selects, MoveWords, Moves, Separate;
    var op, a, b;
    ghost var e;
    e, op, a, b := EmitTest(batch, c, true);
    var index := batch.Add(Nop());
    MoveToRegister(batch, dst, src, size, T0, false);
    ghost var body := Move(size, dst, src);
    batch.Insert(index, Branch(op, a, b, batch.Offset(index, |batch.code|) * 4));
    Patched(old(batch.code) + e, body, Branch(op, a, b, 4 * (|body| + 1)));
    x := Guarded(e, op, a, b, body);
    assert batch.code == old(batch.code) + x;
    GuardedSelects(e, op, a, b, Negated(c), size, dst, src);
    NegatedTwice(c);
  }

  method SelectIfNeither(batch: CodeBatch, c: Condition, size: nat, dst: Reg, src: Reg) returns (ghost x: seq<Instr>)
    requires (c.A? || c.G?) && size in {2, 4, 8} && Guest(dst) && Guest(src)
    modifies batch
    ensures batch.code == old(batch.code) + x && Selects(x, c, size, dst, src)
  {
    hide Tests, Selects, ZeroWords;
    EvaluateZero(batch, T4);
    ghost var e := ZeroWords(T4);
    ZeroComputes();
    BitTests(e, Z);
    var zero := batch.Add(Nop());
    ghost var rest := SelectOnTest(batch, if c.A? then NC else GE, size, dst, src);
    batch.Insert(zero, Bnqz(T4, batch.Offset(zero, |batch.code|) * 4));
    Patched(old(batch.code) + e, rest, Bnqz(T4, 4 * (|rest| + 1)));
    x := Guarded(e, BNE, T4, Zero, rest);
    assert batch.code == old(batch.code) + x;
    DoublySelects(e, BNE, T4, Zero, Z, rest, if c.A? then NC else GE, c, size, dst, src);
  }

  lemma EitherIs(before: seq<Instr>, e1: seq<Instr>, r: Reg, e2: seq<Instr>, op: BranchOp, a: Reg, b: Reg,
        body: seq<Instr>)
    ensures before + e1 + [Bnqz(r, 4 * (|e2| + 2))] + e2 + [Branch(op, a, b, 4 * (|body| + 1))] + body
      == before + Either(e1, BNE, r, Zero, e2, op, a, b, body)
  {
  }

  lemma EitherHolds(c: Condition)
    requires c.BE? || c.LE?
    ensures forall f :: Holds(c, f) == (Holds(Z, f) || !Holds(Negated(if c.BE? then C else L), f))
  {
  }

  method SelectIfEither(batch: CodeBatch, c: Condition, size: nat, dst: Reg, src: Reg) returns (ghost x: seq<Instr>)
    requires (c.BE? || c.LE?) && size in {2, 4, 8} && Guest(dst) && Guest(src)
    modifies batch
    ensures batch.code == old(batch.code) + x && Selects(x, c, size, dst, src)
  {
    hide Tests, Selects, ZeroWords, MoveWords, Moves, Separate, Holds, Guest, Either;
    EvaluateZero(batch, T4);
    ghost var e1 := ZeroWords(T4);
    ZeroComputes();
    BitTests(e1, Z);
    var zero := batch.Add(Nop());
    var op, a, b;
    ghost var e2;
    e2, op, a, b := EmitTest(batch, if c.BE? then C else L, true);
    var second := batch.Add(Nop());
    batch.Insert(zero, Bnqz(T4, batch.Offset(zero, |batch.code|) * 4));
    ghost var w := Bnqz(T4, 4 * (|e2| + 2));
    Patched(old(batch.code) + e1, e2 + [Nop()], w);
    assert batch.code == old(batch.code) + e1 + [w] + e2 + [Nop()];
    MoveToRegister(batch, dst, src, size, T0, false);
    ghost var body := Move(size, dst, src);
    batch.Insert(second, Branch(op, a, b, batch.Offset(second, |batch.code|) * 4));
    Patched(old(batch.code) + e1 + [w] + e2, body, Branch(op, a, b, 4 * (|body| + 1)));
    x := Either(e1, BNE, T4, Zero, e2, op, a, b, body);
    EitherIs(old(batch.code), e1, T4, e2, op, a, b, body);
    assert batch.code == old(batch.code) + x;
    EitherHolds(c);
    EitherSelects(e1, BNE, T4, Zero, Z, e2, op, a, b, Negated(if c.BE? then C else L), c, size, dst, src);
  }

  method ExecuteCmov(batch: CodeBatch, c: Condition, size: nat, dst: Reg, src: Reg) returns (ghost x: seq<Instr>)
    requires size in {2, 4, 8} && Guest(dst) && Guest(src)
    modifies batch
    ensures batch.code == old(batch.code) + x && Selects(x, c, size, dst, src)
  {
    if OneTest(c) {
      x := SelectOnTest(batch, c, size, dst, src);
    } else if c.A? || c.G? {
      x := SelectIfNeither(batch, c, size, dst, src);
    } else {
      x := SelectIfEither(batch, c, size, dst, src);
    }
  }

  /** CMOVcc: a 4-byte destination is cleared above even when nothing is moved. */
  function X86Cmov(go: bool, size: nat, d: bv64, v: bv64): bv64 {
    if size == 4 then Low32(if go then v else d) else Selected(go, size, d, v)
  }

  ghost predicate MovesWhen(x: seq<Instr>, c: Condition, size: nat, dst: Reg, src: Reg) {
    forall code: seq<Instr>, p: nat, s: State {:trigger Placed(code, p, x), FlagsOf(s)} :: Placed(code, p, x) ==>
      EndsWith(code, p, |x|, s, dst, X86Cmov(Holds(c, FlagsOf(s)), size, s.Get(dst), s.Get(src)))
  }

  lemma ClearedFirst(code: seq<Instr>, p: nat, rest: seq<Instr>, c: Condition, dst: Reg, src: Reg, s: State)
    requires Guest(dst) && Guest(src) && Selects(rest, c, 4, dst, src)
    requires Placed(code, p, ShiftPair(dst, dst, 32, 32) + rest)
    ensures EndsWith(code, p, 2 + |rest|, s, dst, X86Cmov(Holds(c, FlagsOf(s)), 4, s.Get(dst), s.Get(src)))
  {
    hide Exec, Holds, FlagsOf, Reaches, EndsWith, Selects, AllFlow, Low32, State.Get;
    var x := ShiftPair(dst, dst, 32, 32);
    PlacedPart(code, p, [], x, rest);
    assert [] + x + rest == x + rest;
    PlacedPart(code, p, x, rest, []);
    assert x + rest + [] == x + rest;
    PairFlows(dst, dst, 32, 32);
    ReachesStraight(code, p, x, s);
    var t := Exec(x, s);
    Low32Gives(dst, dst, s);
    assert Keeps(s, t, {} + {dst});
    KeepsMore(s, t, {} + {dst}, Temps + {dst});
    FlagsKept(s, t, {} + {dst});
    SelectsThere(code, p + 2, rest, c, 4, dst, src, t);
    Low32Reads(s.Get(dst));
    EndsAfter(code, p, 2 + |rest|, s, p + 2, |rest|, t, dst,
      Selected(Holds(c, FlagsOf(s)), 4, t.Get(dst), t.Get(src)));
  }

  /** Emits a conditional move between registers. */
  method GenerateCmov(batch: CodeBatch, c: Condition, size: nat, dst: Reg, src: Reg) returns (ghost x: seq<Instr>)
    requires size in {2, 4, 8} && Guest(dst) && Guest(src)
    modifies batch
    ensures batch.code == old(batch.code) + x && MovesWhen(x, c, size, dst, src)
  {
    hide Selects, EndsWith, FlagsOf, Holds;
    ghost var first := [];
    if size == 4 {
      var _ := batch.Add(Shift(SLLI, dst, dst, 32));
      var _ := batch.Add(Shift(SRLI, dst, dst, 32));
      first := ShiftPair(dst, dst, 32, 32);
    }
    ghost var rest := ExecuteCmov(batch, c, size, dst, src);
    x := first + rest;
    forall code: seq<Instr>, p: nat, s: State | Placed(code, p, x)
      ensures EndsWith(code, p, |x|, s, dst, X86Cmov(Holds(c, FlagsOf(s)), size, s.Get(dst), s.Get(src)))
    {
      if size == 4 {
        ClearedFirst(code, p, rest, c, dst, src, s);
      } else {
        SelectsThere(code, p, rest, c, size, dst, src, s);
      }
    }
  }
}
