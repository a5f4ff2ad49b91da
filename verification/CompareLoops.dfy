/** REPZ and REPNZ CMPS (repeatable.cpp, cmps.cpp). */
module CompareLoops {
  import opened RiscV
  import opened Machine
  import opened Batches
  import opened Effects
  import opened FlagState
  import opened FlagUpdates
  import opened Jumps
  import opened MemoryOperands
  import opened StringLoops
  import opened EagerFlags
  import opened ArithmeticOps
  import opened LazyFlags
  import opened CarryState
  import BO = BinaryOperation

  // ---- the instruction, with the direction flag clear -----------------------------------------------------

  /** Where a comparison has got to, and the last two elements it compared. */
  datatype Comparison = Comparison(rsi: bv64, rdi: bv64, count: bv64, left: bv64, right: bv64)

  /** REPZ goes on while the elements are equal, REPNZ while they differ; at least one pair is compared. */
  function RepeatCompare(z: bool, size: nat, m: Memory, rsi: bv64, rdi: bv64, count: bv64): Comparison
    requires !(count < 1)
    decreases count
  {
    var l, r := ReadMem(m, rsi, size), ReadMem(m, rdi, size);
    var here := Comparison(Plus(rsi, Width(size)), Plus(rdi, Width(size)), Minus(count, 1), l, r);
    Smaller(count);
    if (l == r) != z || here.count < 1 then here else RepeatCompare(z, size, m, here.rsi, here.rdi, here.count)
  }

  // ---- one round ---------------------------------------------------------------------------------------------

  function CmpsWords(size: nat): seq<Instr> {
    [Load(MA.LoadOf(size, false), T2, RSI, 0)] + [Load(MA.LoadOf(size, false), T1, RDI, 0)] + [Op(SUB, T0, T2, T1)]
    + ([Bump(RSI, size)] + [Bump(RDI, size)])
  }

  const CompareTemps: set<Reg> := {A1, A0, A6, T0, T1, T2}

  /** The registers after one comparison. */
  ghost predicate Compared(s: State, t: State, size: nat) {
    && Keeps(s, t, CompareTemps)
    && t.Get(T2) == ReadMem(s.memory, s.Get(RSI), size) && t.Get(T1) == ReadMem(s.memory, s.Get(RDI), size)
    && t.Get(T0) == Minus(t.Get(T2), t.Get(T1))
    && t.Get(RSI) == Plus(s.Get(RSI), Width(size)) && t.Get(RDI) == Plus(s.Get(RDI), Width(size))
  }

  lemma SubRuns(s: State)
    ensures Leaves([Op(SUB, T0, T2, T1)], s, T0, Minus(s.Get(T2), s.Get(T1)), {T0})
  {
    hide Exec, Step, Minus, State.Set, State.Get;
    Exec1Word([Op(SUB, T0, T2, T1)], s);
    StepOp(SUB, T0, T2, T1, s);
    SetKeeps(s, T0, Minus(s.Get(T2), s.Get(T1)));
  }

  lemma TwoLoads(a: seq<Instr>, b: seq<Instr>, s: State, x: bv64, y: bv64)
    requires Leaves(a, s, T2, x, {T2}) && Leaves(b, Exec(a, s), T1, y, {T1})
    ensures var t := Exec(a + b, s); Keeps(s, t, {T1, T2}) && t.Get(T2) == x && t.Get(T1) == y
  {
    hide Exec, State.Get, Leaves, Keeps;
    var u := Exec(a, s);
    LeavesParts(a, s, T2, x, {T2}, RDI);
    LeavesParts(b, u, T1, y, {T1}, T2);
    ExecAppend(a, b, s);
    KeepsTrans(s, u, Exec(b, u), {T2}, {T1});
    assert {T2} + {T1} == {T1, T2};
  }

  lemma BothLoaded(size: nat, s: State)
    requires IsSize(size)
    ensures var t := Exec([Load(MA.LoadOf(size, false), T2, RSI, 0)] + [Load(MA.LoadOf(size, false), T1, RDI, 0)], s);
      && Keeps(s, t, {T1, T2}) && t.Get(T2) == ReadMem(s.memory, s.Get(RSI), size)
      && t.Get(T1) == ReadMem(s.memory, s.Get(RDI), size)
  {
    hide Exec, ReadMem, MA.LoadOf, State.Get, Leaves, Keeps, IsSize;
    var a, b := [Load(MA.LoadOf(size, false), T2, RSI, 0)], [Load(MA.LoadOf(size, false), T1, RDI, 0)];
    var x, y := ReadMem(s.memory, s.Get(RSI), size), ReadMem(s.memory, s.Get(RDI), size);
    LoadRuns(T2, RSI, size, s);
    LeavesParts(a, s, T2, x, {T2}, RDI);
    KeepsMemory(s, Exec(a, s), {T2});
    LoadRuns(T1, RDI, size, Exec(a, s));
    TwoLoads(a, b, s, x, y);
  }

  lemma ElementsLoaded(size: nat, s: State)
    requires IsSize(size)
    ensures var t := Exec([Load(MA.LoadOf(size, false), T2, RSI, 0)] + [Load(MA.LoadOf(size, false), T1, RDI, 0)]
      + [Op(SUB, T0, T2, T1)], s);
      && Keeps(s, t, {T0, T1, T2}) && t.Get(T2) == ReadMem(s.memory, s.Get(RSI), size)
      && t.Get(T1) == ReadMem(s.memory, s.Get(RDI), size) && t.Get(T0) == Minus(t.Get(T2), t.Get(T1))
  {
    hide Exec, ReadMem, Minus, MA.LoadOf, State.Get;
    var a := [Load(MA.LoadOf(size, false), T2, RSI, 0)] + [Load(MA.LoadOf(size, false), T1, RDI, 0)];
    BothLoaded(size, s);
    ExecAppend(a, [Op(SUB, T0, T2, T1)], s);
    SubRuns(Exec(a, s));
  }

  lemma CmpsRuns(size: nat, s: State)
    requires IsSize(size)
    ensures Compared(s, Exec(CmpsWords(size), s), size) && Exec(CmpsWords(size), s).Get(RCX) == s.Get(RCX)
  {
    hide Exec, ReadMem, Minus, Plus, Width, Bump, MA.LoadOf, State.Get;
    var a := [Load(MA.LoadOf(size, false), T2, RSI, 0)] + [Load(MA.LoadOf(size, false), T1, RDI, 0)]
      + [Op(SUB, T0, T2, T1)];
    ElementsLoaded(size, s);
    ExecAppend(a, [Bump(RSI, size)] + [Bump(RDI, size)], s);
    BothBumped(size, Exec(a, s));
  }

  lemma CmpsFlows(size: nat)
    ensures AllFlow(CmpsWords(size))
  {
  }

  function RoundWords(size: nat): seq<Instr> { [OpImm(ADDI, RCX, RCX, 0xfff)] + CmpsWords(size) }

  lemma RoundCompares(size: nat, s: State)
    requires IsSize(size)
    ensures var t := Exec(RoundWords(size), s); Compared(s, t, size) && t.Get(RCX) == Minus(s.Get(RCX), 1)
  {
    hide Exec, ReadMem, Minus, Plus, Width, CmpsWords, State.Get;
    var w := [OpImm(ADDI, RCX, RCX, 0xfff)];
    DecrementRuns(s);
    ExecAppend(w, CmpsWords(size), s);
    CmpsRuns(size, Exec(w, s));
  }

  lemma RoundFlows(size: nat)
    ensures AllFlow(RoundWords(size))
  {
    hide AllFlow, CmpsWords;
    CmpsFlows(size);
    Flow1(OpImm(ADDI, RCX, RCX, 0xfff));
    AllFlowAppend([OpImm(ADDI, RCX, RCX, 0xfff)], CmpsWords(size));
  }

  // ---- the loop ------------------------------------------------------------------------------------------------

  function DiffTest(z: bool): Instr { if z then Bnqz(T0, 8) else Beqz(T0, 8) }

  function CompareWords(z: bool, size: nat, flags: seq<Instr>): seq<Instr> {
    var r := RoundWords(size);
    [Beqz(RCX, 4 * (|r| + |flags| + 3))] + r + [DiffTest(z)] + [Bnqz(RCX, -4 * (|r| + 1))] + flags
  }

  lemma CompareParts(code: seq<Instr>, p: nat, z: bool, size: nat, flags: seq<Instr>)
    requires Placed(code, p, CompareWords(z, size, flags))
    ensures var n := |RoundWords(size)|;
      && p + n + 3 <= |code|
      && code[p] == Beqz(RCX, 4 * (n + |flags| + 3)) && Placed(code, p + 1, RoundWords(size))
      && code[p + n + 1] == DiffTest(z) && code[p + n + 2] == Bnqz(RCX, -4 * (n + 1)) && Placed(code, p + n + 3, flags)
  {
    hide RoundWords, DiffTest;
    var r, y := RoundWords(size), CompareWords(z, size, flags);
    var a, d, b := [Beqz(RCX, 4 * (|r| + |flags| + 3))], [DiffTest(z)], [Bnqz(RCX, -4 * (|r| + 1))];
    assert y == a + r + (d + b + flags);
    PlacedPart(code, p, a, r, d + b + flags);
    assert y == (a + r + d + b) + flags + [];
    PlacedPart(code, p, a + r + d + b, flags, []);
    assert y[|r| + 1] == (a + r + d + b)[|r| + 1] == DiffTest(z);
    assert y[|r| + 2] == (a + r + d + b)[|r| + 2] == b[0];
    assert code[p] == code[p..p + |y|][0];
    assert code[p + |r| + 1] == code[p..p + |y|][|r| + 1];
    assert code[p + |r| + 2] == code[p..p + |y|][|r| + 2];
  }

  /** The state after the loop holds the outcome of the comparison. */
  ghost predicate Holds(s: State, t: State, c: Comparison) {
    && Keeps(s, t, CompareTemps)
    && t.Get(RSI) == c.rsi && t.Get(RDI) == c.rdi && t.Get(RCX) == c.count
    && t.Get(T2) == c.left && t.Get(T1) == c.right && t.Get(T0) == Minus(c.left, c.right)
  }

  function Outcome(z: bool, size: nat, s: State): Comparison
    requires !(s.Get(RCX) < 1)
  {
    RepeatCompare(z, size, s.memory, s.Get(RSI), s.Get(RDI), s.Get(RCX))
  }

  lemma PutBack(x: bv64, y: bv64)
    ensures Plus(Minus(x, y), y) == x
  {
    assert Plus(x - y, y) == x;
  }

  lemma NoDifference(x: bv64)
    ensures Minus(x, x) < 1
  {
  }

  lemma BelowOne(x: bv64)
    requires x < 1
    ensures x == 0
  {
  }

  lemma MinusZero(x: bv64, y: bv64)
    ensures (Minus(x, y) < 1) == (x == y)
  {
    hide Plus, Minus;
    PutBack(x, y);
    NoDifference(x);
    if Minus(x, y) < 1 {
      BelowOne(Minus(x, y));
      PlusNone(y);
    }
  }

  lemma DiffTaken(z: bool, v: bv64)
    ensures Taken(DiffTest(z).bop, v, 0) == ((v < 1) != z)
  {
  }

  /** The loop ends behind this comparison. */
  predicate Stops(z: bool, t: State) { (t.Get(T0) < 1) != z || t.Get(RCX) < 1 }

  lemma DiffReaches(code: seq<Instr>, q: nat, z: bool, t: State)
    requires q < |code| && code[q] == DiffTest(z)
    ensures (t.Get(T0) < 1) != z ==> Reaches(code, At(q, t), At(q + 2, t))
    ensures !((t.Get(T0) < 1) != z) ==> Reaches(code, At(q, t), At(q + 1, t))
  {
    hide Reaches, Taken, State.Get;
    ReachesBranch(code, q, t);
    DiffTaken(z, t.Get(T0));
    GetZero(t);
  }

  /** The test of the difference, and the branch back. */
  lemma TestsReach(code: seq<Instr>, p: nat, z: bool, size: nat, flags: seq<Instr>, t: State)
    requires Placed(code, p, CompareWords(z, size, flags))
    ensures var n := |RoundWords(size)|;
      && (Stops(z, t) ==> Reaches(code, At(p + n + 1, t), At(p + n + 3, t)))
      && (!Stops(z, t) ==> Reaches(code, At(p + n + 1, t), At(p + 1, t)))
  {
    hide Reaches, Placed, RoundWords, CompareWords, DiffTest, State.Get;
    var n := |RoundWords(size)|;
    CompareParts(code, p, z, size, flags);
    DiffReaches(code, p + n + 1, z, t);
    CountBranch(code, p + n + 2, BNE, -4 * (n + 1), t);
    if !((t.Get(T0) < 1) != z) {
      if t.Get(RCX) < 1 {
        ReachesTrans(code, At(p + n + 1, t), At(p + n + 2, t), At(p + n + 3, t));
      } else {
        ReachesTrans(code, At(p + n + 1, t), At(p + n + 2, t), At(p + 1, t));
      }
    }
  }

  lemma GoesOn(z: bool, t: State)
    requires !Stops(z, t)
    ensures !(t.Get(RCX) < 1)
  {
    hide State.Get;
  }

  lemma RoundThere(code: seq<Instr>, p: nat, z: bool, size: nat, flags: seq<Instr>, s: State) returns (t: State)
    requires Placed(code, p, CompareWords(z, size, flags)) && IsSize(size)
    ensures Compared(s, t, size) && t.Get(RCX) == Minus(s.Get(RCX), 1)
    ensures Reaches(code, At(p + 1, s), At(p + |RoundWords(size)| + 1, t))
  {
    hide Exec, Reaches, Placed, RoundWords, CompareWords, Compared, Minus, AllFlow, State.Get;
    CompareParts(code, p, z, size, flags);
    RoundCompares(size, s);
    RoundFlows(size);
    t := Exec(RoundWords(size), s);
    PlacedCode(code, p + 1, RoundWords(size));
    ReachesStraight(code, p + 1, RoundWords(size), s);
  }

  /** The loop, entered in state s with a count, has ended in state t. */
  ghost predicate Finished(z: bool, size: nat, s: State, t: State) {
    !(s.Get(RCX) < 1) && Holds(s, t, Outcome(z, size, s))
  }

  lemma LastComparison(z: bool, size: nat, s: State, t: State)
    requires !(s.Get(RCX) < 1) && Compared(s, t, size) && t.Get(RCX) == Minus(s.Get(RCX), 1)
    requires Stops(z, t)
    ensures Finished(z, size, s, t)
  {
    hide ReadMem, Minus, Plus, Width, State.Get;
    MinusZero(t.Get(T2), t.Get(T1));
  }

  lemma NextComparison(z: bool, size: nat, s: State, u: State, t: State)
    requires !(s.Get(RCX) < 1) && Compared(s, u, size) && u.Get(RCX) == Minus(s.Get(RCX), 1)
    requires !Stops(z, u)
    requires Finished(z, size, u, t)
    ensures Finished(z, size, s, t)
  {
    hide ReadMem, Minus, Plus, Width, State.Get;
    MinusZero(u.Get(T2), u.Get(T1));
  }

  /** One round, to the end of the loop or back to its beginning. */
  lemma RoundReaches(code: seq<Instr>, p: nat, z: bool, size: nat, flags: seq<Instr>, s: State) returns (u: State)
    requires Placed(code, p, CompareWords(z, size, flags)) && IsSize(size)
    ensures Compared(s, u, size) && u.Get(RCX) == Minus(s.Get(RCX), 1)
    ensures Stops(z, u) ==> Reaches(code, At(p + 1, s), At(p + |RoundWords(size)| + 3, u))
    ensures !Stops(z, u) ==> Reaches(code, At(p + 1, s), At(p + 1, u))
  {
    hide Reaches, Placed, RoundWords, CompareWords, Compared, Stops, Minus, State.Get;
    var n := |RoundWords(size)|;
    u := RoundThere(code, p, z, size, flags, s);
    TestsReach(code, p, z, size, flags, u);
    if Stops(z, u) {
      ReachesTrans(code, At(p + 1, s), At(p + n + 1, u), At(p + n + 3, u));
    } else {
      ReachesTrans(code, At(p + 1, s), At(p + n + 1, u), At(p + 1, u));
    }
  }

  /** One round has counted down and compared. */
  ghost predicate OneRound(size: nat, s: State, u: State) {
    Compared(s, u, size) && u.Get(RCX) == Minus(s.Get(RCX), 1)
  }

  lemma EndsHere(code: seq<Instr>, p: nat, z: bool, size: nat, flags: seq<Instr>, s: State) returns (u: State)
    requires Placed(code, p, CompareWords(z, size, flags)) && IsSize(size) && !(s.Get(RCX) < 1)
    ensures OneRound(size, s, u)
    ensures Stops(z, u) ==> Reaches(code, At(p + 1, s), At(p + |RoundWords(size)| + 3, u)) && Finished(z, size, s, u)
    ensures !Stops(z, u) ==> Reaches(code, At(p + 1, s), At(p + 1, u)) && !(u.Get(RCX) < 1)
  {
    hide Reaches, Placed, RoundWords, CompareWords, Compared, Finished, Stops, Minus, State.Get, IsSize;
    u := RoundReaches(code, p, z, size, flags, s);
    if Stops(z, u) {
      LastComparison(z, size, s, u);
    } else {
      GoesOn(z, u);
    }
  }

  lemma CountsDown(size: nat, s: State, u: State)
    requires OneRound(size, s, u) && !(s.Get(RCX) < 1)
    ensures u.Get(RCX) < s.Get(RCX)
  {
    hide Compared, Minus, State.Get;
    Smaller(s.Get(RCX));
  }

  lemma GoesOnComparing(z: bool, size: nat, s: State, u: State, t: State)
    requires OneRound(size, s, u) && !(s.Get(RCX) < 1) && !Stops(z, u) && Finished(z, size, u, t)
    ensures Finished(z, size, s, t)
  {
    hide Compared, Minus, Stops, Finished, State.Get;
    NextComparison(z, size, s, u, t);
  }

  /** Entered with a count, the loop ends, having compared as the REP rules say. */
  lemma {:induction false} CompareReaches(code: seq<Instr>, p: nat, z: bool, size: nat, flags: seq<Instr>, n: nat,
        s: State) returns (t: State)
    requires Placed(code, p, CompareWords(z, size, flags)) && IsSize(size) && !(s.Get(RCX) < 1)
    requires n == |RoundWords(size)|
    ensures Reaches(code, At(p + 1, s), At(p + n + 3, t)) && Finished(z, size, s, t)
    decreases s.Get(RCX)
  {
    hide Reaches, Placed, RoundWords, CompareWords, OneRound, Finished, Stops, State.Get, IsSize;
    t := EndsHere(code, p, z, size, flags, s);
    if !Stops(z, t) {
      var u := t;
      CountsDown(size, s, u);
      t := CompareReaches(code, p, z, size, flags, n, u);
      ReachesTrans(code, At(p + 1, s), At(p + 1, u), At(p + n + 3, t));
      GoesOnComparing(z, size, s, u, t);
    }
  }

  // ---- the flags -----------------------------------------------------------------------------------------------

  /** The flag state asked for: of the difference in T0, and of the operands that carry and overflow are read from. */
  ghost predicate DifferenceFlags(f: seq<Instr>, s: State, size: nat, update: set<G.Flag>) {
    && Updates(f, s, {T3}, update)
    && (G.Zero in update ==> ZeroBit(Exec(f, s).ctx) == EagerZero(size, s.Get(T0)))
    && (G.Sign in update ==> SignBit(Exec(f, s).ctx) == EagerSign(size, s.Get(T0)))
    && (G.Parity in update ==> ParityBit(Exec(f, s).ctx) == EagerParity(s.Get(T0)))
    && OperandsTell(Exec(f, s), s, size, update)
  }

  /** update_overflow is given the elements in an order in which the evaluator takes the left from the right one. */
  ghost predicate OperandsTell(u: State, s: State, size: nat, update: set<G.Flag>) {
    && (G.Carry in update ==> CarryFrom(u, CarryAdd, size, s.Get(T0), s.Get(T2)))
    && (G.Overflow in update ==> OverflowFrom(u, OverflowSub, size, s.Get(T2), s.Get(T1)))
  }

  lemma SameFlags(c: Context, d: Context)
    requires Touches(c, d, CarryAndOverflow)
    ensures ZeroBit(d) == ZeroBit(c) && SignBit(d) == SignBit(c) && ParityBit(d) == ParityBit(c)
  {
  }

  lemma LazyUpdates(x: seq<Instr>, update: set<G.Flag>, s: State)
    requires Updates(x, s, {T3}, CarryAndOverflow * update)
    ensures Touches(s.ctx, Exec(x, s).ctx, CarryAndOverflow)
  {
    hide Exec, Framed;
  }

  lemma StoredParts(y: seq<Instr>, s: State, size: nat, update: set<G.Flag>)
    requires BO.FlagsStored(y, s, T0, size, update)
    ensures Updates(y, s, {T3}, BO.ResultFlags * update)
    ensures G.Zero in update ==> ZeroBit(Exec(y, s).ctx) == EagerZero(size, s.Get(T0))
    ensures G.Sign in update ==> SignBit(Exec(y, s).ctx) == EagerSign(size, s.Get(T0))
    ensures G.Parity in update ==> ParityBit(Exec(y, s).ctx) == EagerParity(s.Get(T0))
  {
    hide Exec, Updates, ZeroBit, SignBit, ParityBit, EagerZero, EagerSign, EagerParity, State.Get;
  }

  lemma FlagsFollow(y: seq<Instr>, x: seq<Instr>, s: State, size: nat, update: set<G.Flag>)
    requires BO.FlagsStored(y, s, T0, size, update) && Updates(x, Exec(y, s), {T3}, CarryAndOverflow * update)
    requires OperandsTell(Exec(x, Exec(y, s)), Exec(y, s), size, update)
    ensures DifferenceFlags(y + x, s, size, update)
  {
    hide BO.FlagsStored, Exec, Updates, Touches, ZeroBit, SignBit, ParityBit, EagerZero, EagerSign, EagerParity;
    hide CarryFrom, OverflowFrom, State.Get;
    StoredParts(y, s, size, update);
    UpdatesThen(y, x, s, {T3}, {T3}, BO.ResultFlags * update, CarryAndOverflow * update);
    LazyUpdates(x, update, Exec(y, s));
    SameFlags(Exec(y, s).ctx, Exec(x, Exec(y, s)).ctx);
    UpdatesMore(y + x, s, {T3} + {T3}, {T3}, BO.ResultFlags * update + CarryAndOverflow * update, update);
    ElementsKept(y, s, BO.ResultFlags * update);
  }

  lemma ElementsKept(y: seq<Instr>, s: State, f: set<G.Flag>)
    requires Updates(y, s, {T3}, f)
    ensures var t := Exec(y, s); t.Get(T0) == s.Get(T0) && t.Get(T1) == s.Get(T1) && t.Get(T2) == s.Get(T2)
  {
    hide Exec, State.Get;
  }

  /** The stores of the carry and overflow operands. */
  method EmitOperands(batch: CodeBatch, update: set<G.Flag>, size: nat) returns (ghost x: seq<Instr>)
    modifies batch
    ensures batch.code == old(batch.code) + x && AllFlow(x)
    ensures forall s: State ::
      Updates(x, s, {T3}, CarryAndOverflow * update) && OperandsTell(Exec(x, s), s, size, update)
  {
    hide Exec, CarryFields, OverflowFields, AllFlow, EntryOf, OperandsTell, State.Get;
    ghost var a := UpdateCarry(batch, update, EntryOf(CarryAdd, size), Some(T0), Some(T2), T3);
    ghost var b := UpdateOverflow(batch, update, EntryOf(OverflowSub, size), Some(T2), Some(T1), T3);
    x := a + b;
    AllFlowAppend(a, b);
    forall s: State
      ensures Updates(x, s, {T3}, CarryAndOverflow * update) && OperandsTell(Exec(x, s), s, size, update)
    {
      CarryKept(a, update, s, EntryOf(CarryAdd, size));
      OverflowKept(b, update, Exec(a, s), EntryOf(OverflowSub, size));
      BothKept(a, b, update, s);
      ElementsKept(a, s, CarryAndOverflow * update);
      ExecAppend(a, b, s);
      OperandsStored(s, Exec(a, s), Exec(x, s), size, update);
    }
  }

  lemma OperandsStored(s: State, t: State, u: State, size: nat, update: set<G.Flag>)
    requires t.Get(T0) == s.Get(T0) && t.Get(T1) == s.Get(T1) && t.Get(T2) == s.Get(T2)
    requires t.ctx
      == if G.Carry in update then CarryFields(s.ctx, EntryOf(CarryAdd, size), Some(T0), Some(T2), s) else s.ctx
    requires u.ctx
      == if G.Overflow in update then OverflowFields(t.ctx, EntryOf(OverflowSub, size), Some(T2), Some(T1), t)
         else t.ctx
    ensures OperandsTell(u, s, size, update)
  {
    hide CarryFields, OverflowFields, EntryOf, Names, Wide, State.Get;
    CarryParts(s.ctx, EntryOf(CarryAdd, size), Some(T0), Some(T2), s);
    OverflowParts(t.ctx, EntryOf(OverflowSub, size), Some(T2), Some(T1), t);
    EntryNames(CarryAdd, size);
    EntryNames(OverflowSub, size);
  }

  lemma BothKept(a: seq<Instr>, b: seq<Instr>, update: set<G.Flag>, s: State)
    requires Updates(a, s, {T3}, CarryAndOverflow * update) && Updates(b, Exec(a, s), {T3}, CarryAndOverflow * update)
    ensures Updates(a + b, s, {T3}, CarryAndOverflow * update)
  {
    hide Exec, Updates;
    var f := CarryAndOverflow * update;
    UpdatesThen(a, b, s, {T3}, {T3}, f, f);
    assert {T3} + {T3} == {T3} && f + f == f;
  }

  lemma CarryKept(a: seq<Instr>, update: set<G.Flag>, s: State, e: Entry)
    requires Framed(s, Exec(a, s), {T3})
    requires Exec(a, s).ctx == if G.Carry in update then CarryFields(s.ctx, e, Some(T0), Some(T2), s) else s.ctx
    ensures Updates(a, s, {T3}, CarryAndOverflow * update)
  {
    hide Exec, CarryFields, Framed;
    CarryTouches(s.ctx, e, Some(T0), Some(T2), s);
  }

  lemma OverflowKept(a: seq<Instr>, update: set<G.Flag>, s: State, e: Entry)
    requires Framed(s, Exec(a, s), {T3})
    requires Exec(a, s).ctx == if G.Overflow in update then OverflowFields(s.ctx, e, Some(T2), Some(T1), s) else s.ctx
    ensures Updates(a, s, {T3}, CarryAndOverflow * update)
  {
    hide Exec, OverflowFields, Framed;
    OverflowTouches(s.ctx, e, Some(T2), Some(T1), s);
  }

  /** RepeatableFlag::update_flags. */
  method EmitCompareFlags(batch: CodeBatch, update: set<G.Flag>, size: nat) returns (ghost f: seq<Instr>)
    requires IsSize(size)
    modifies batch
    ensures batch.code == old(batch.code) + f && AllFlow(f)
    ensures forall s: State :: DifferenceFlags(f, s, size, update)
  {
    hide BO.FlagsStored, DifferenceFlags, OperandsTell, Updates, Exec, AllFlow;
    ghost var y := BO.EmitFlags(batch, update, T0, size);
    ghost var x := EmitOperands(batch, update, size);
    f := y + x;
    AllFlowAppend(y, x);
    forall s: State ensures DifferenceFlags(f, s, size, update) {
      FlagsFollow(y, x, s, size, update);
    }
  }

  // ---- the whole instruction -----------------------------------------------------------------------------------

  const CompareRegs: set<Reg> := {A1, A0, A6, T0, T1, T2, T3}

  /** Registers and flags are those of the comparison; memory and all other registers are as before. */
  ghost predicate CompareEffect(size: nat, update: set<G.Flag>, s: State, t: State, c: Comparison) {
    && Framed(s, t, CompareRegs) && Touches(s.ctx, t.ctx, update)
    && t.Get(RSI) == c.rsi && t.Get(RDI) == c.rdi && t.Get(RCX) == c.count
    && (G.Zero in update ==> ZeroBit(t.ctx) == EagerZero(size, Minus(c.left, c.right)))
    && (G.Sign in update ==> SignBit(t.ctx) == EagerSign(size, Minus(c.left, c.right)))
    && (G.Parity in update ==> ParityBit(t.ctx) == EagerParity(Minus(c.left, c.right)))
    && Tells(t, Bit(SubBorrows(size, c.left, c.right)),
      Bit(SubOverflows(size, c.right, c.left, Minus(c.right, c.left))), update)
  }

  /** The overflow read behind a comparison is that of the opposite difference: right unless it is the lowest value. */
  lemma CompareOverflowExact(size: nat, left: bv64, right: bv64)
    requires IsSize(size)
    ensures Bit(SubOverflows(size, right, left, Minus(right, left)))
        == Bit(SubOverflows(size, left, right, Minus(left, right)))
      <==> ZeroExtend(size, Minus(left, right)) != TopMask(size)
  {
    hide SubOverflows, Minus, ZeroExtend, TopMask, Bit;
    OppositeOverflow(size, left, right);
    SameBit(SubOverflows(size, right, left, Minus(right, left)), SubOverflows(size, left, right, Minus(left, right)));
  }

  /** Comparing 0 with -128: x86 overflows, and the flag reads as clear. */
  lemma CompareMisses()
    ensures SubOverflows(1, 0, 0x80, Minus(0, 0x80)) && !SubOverflows(1, 0x80, 0, Minus(0x80, 0))
  {
  }

  lemma EffectTold(u: State, s: State, size: nat, update: set<G.Flag>, c: Comparison)
    requires IsSize(size) && OperandsTell(u, s, size, update)
    requires s.Get(T2) == c.left && s.Get(T1) == c.right && s.Get(T0) == Minus(c.left, c.right)
    ensures Tells(u, Bit(SubBorrows(size, c.left, c.right)),
              Bit(SubOverflows(size, c.right, c.left, Minus(c.right, c.left))), update)
  {
    hide CarryBit, OverflowBit, Minus, SubBorrows, SubOverflows, EvalCarryAdd, EvalOverflowSub, Names, State.Get;
    if G.Carry in update {
      AsksCarryAdd(u, size);
      BorrowSubtracted(size, c.left, c.right);
    }
    if G.Overflow in update {
      AsksOverflowSub(u, size);
      OverflowSubtracted(size, c.right, c.left);
    }
  }

  lemma EffectFollows(f: seq<Instr>, size: nat, update: set<G.Flag>, s: State, u: State, c: Comparison)
    requires IsSize(size) && Holds(s, u, c) && DifferenceFlags(f, u, size, update)
    ensures CompareEffect(size, update, s, Exec(f, u), c)
  {
    hide Exec, Minus, Touches, ZeroBit, SignBit, ParityBit, EagerZero, EagerSign, EagerParity, State.Get, OperandsTell;
    hide Tells, SubBorrows, SubOverflows, IsSize;
    EffectTold(Exec(f, u), u, size, update, c);
  }

  /** One comparison without a prefix. */
  function OneComparison(size: nat, s: State): Comparison {
    Comparison(Plus(s.Get(RSI), Width(size)), Plus(s.Get(RDI), Width(size)), s.Get(RCX),
      ReadMem(s.memory, s.Get(RSI), size), ReadMem(s.memory, s.Get(RDI), size))
  }

  lemma SingleCompares(f: seq<Instr>, size: nat, update: set<G.Flag>, s: State)
    requires IsSize(size)
    requires forall u: State :: DifferenceFlags(f, u, size, update)
    ensures CompareEffect(size, update, s, Exec(CmpsWords(size) + f, s), OneComparison(size, s))
  {
    hide Exec, CmpsWords, ReadMem, Minus, Plus, Width, DifferenceFlags, CompareEffect, State.Get;
    CmpsRuns(size, s);
    ExecAppend(CmpsWords(size), f, s);
    EffectFollows(f, size, update, s, Exec(CmpsWords(size), s), OneComparison(size, s));
  }

  /** Wherever it stands, the code compares as REPZ or REPNZ does; a count of zero touches nothing, flags included. */
  ghost predicate ComparesAt(code: seq<Instr>, p: nat, n: nat, z: bool, size: nat, update: set<G.Flag>, s: State) {
    if s.Get(RCX) < 1 then Reaches(code, At(p, s), At(p + n, s))
    else exists t: State ::
      Reaches(code, At(p, s), At(p + n, t)) && CompareEffect(size, update, s, t, Outcome(z, size, s))
  }

  ghost predicate Compares(y: seq<Instr>, z: bool, size: nat, update: set<G.Flag>) {
    forall code: seq<Instr>, p: nat, s: State {:trigger ComparesAt(code, p, |y|, z, size, update, s)} ::
      Placed(code, p, y) ==> ComparesAt(code, p, |y|, z, size, update, s)
  }

  lemma CompareLength(z: bool, size: nat, flags: seq<Instr>)
    ensures |CompareWords(z, size, flags)| == |RoundWords(size)| + |flags| + 3
  {
    hide RoundWords, DiffTest;
  }

  lemma CompareEntry(code: seq<Instr>, p: nat, z: bool, size: nat, flags: seq<Instr>, s: State)
    requires Placed(code, p, CompareWords(z, size, flags))
    ensures s.Get(RCX) < 1 ==> Reaches(code, At(p, s), At(p + |CompareWords(z, size, flags)|, s))
    ensures !(s.Get(RCX) < 1) ==> Reaches(code, At(p, s), At(p + 1, s))
  {
    hide Reaches, Placed, RoundWords, CompareWords, DiffTest, State.Get;
    CompareParts(code, p, z, size, flags);
    CompareLength(z, size, flags);
    CountBranch(code, p, BEQ, 4 * (|RoundWords(size)| + |flags| + 3), s);
  }

  lemma FlagsReach(code: seq<Instr>, p: nat, z: bool, size: nat, flags: seq<Instr>, t: State)
    requires Placed(code, p, CompareWords(z, size, flags)) && AllFlow(flags)
    ensures Reaches(code, At(p + |RoundWords(size)| + 3, t), At(p + |CompareWords(z, size, flags)|, Exec(flags, t)))
  {
    hide Reaches, Placed, RoundWords, CompareWords, DiffTest, AllFlow, Exec, State.Get;
    CompareParts(code, p, z, size, flags);
    CompareLength(z, size, flags);
    PlacedCode(code, p + |RoundWords(size)| + 3, flags);
    ReachesStraight(code, p + |RoundWords(size)| + 3, flags, t);
  }

  lemma FinishedEffect(f: seq<Instr>, z: bool, size: nat, update: set<G.Flag>, s: State, u: State)
    requires IsSize(size) && Finished(z, size, s, u) && DifferenceFlags(f, u, size, update)
    ensures !(s.Get(RCX) < 1) && CompareEffect(size, update, s, Exec(f, u), Outcome(z, size, s))
  {
    hide Exec, Holds, Outcome, DifferenceFlags, CompareEffect, IsSize, State.Get;
    EffectFollows(f, size, update, s, u, Outcome(z, size, s));
  }

  lemma ComparesWith(code: seq<Instr>, p: nat, n: nat, z: bool, size: nat, update: set<G.Flag>, s: State, t: State)
    requires !(s.Get(RCX) < 1) && Reaches(code, At(p, s), At(p + n, t))
    requires CompareEffect(size, update, s, t, Outcome(z, size, s))
    ensures ComparesAt(code, p, n, z, size, update, s)
  {
    hide Reaches, CompareEffect, Outcome, State.Get;
  }

  lemma LoopComparesAt(code: seq<Instr>, p: nat, z: bool, size: nat, flags: seq<Instr>, update: set<G.Flag>, s: State)
    requires IsSize(size) && AllFlow(flags) && (forall u: State :: DifferenceFlags(flags, u, size, update))
    requires Placed(code, p, CompareWords(z, size, flags))
    ensures ComparesAt(code, p, |CompareWords(z, size, flags)|, z, size, update, s)
  {
    hide Reaches, Placed, RoundWords, CompareWords, DifferenceFlags, CompareEffect, Finished, Outcome, AllFlow, Exec;
    hide IsSize, State.Get;
    CompareEntry(code, p, z, size, flags, s);
    if !(s.Get(RCX) < 1) {
      var n, e := |RoundWords(size)|, |CompareWords(z, size, flags)|;
      var u := CompareReaches(code, p, z, size, flags, n, s);
      var t := Exec(flags, u);
      FlagsReach(code, p, z, size, flags, u);
      FinishedEffect(flags, z, size, update, s, u);
      ReachesTrans(code, At(p, s), At(p + 1, s), At(p + n + 3, u));
      ReachesTrans(code, At(p, s), At(p + n + 3, u), At(p + e, t));
      ComparesWith(code, p, e, z, size, update, s, t);
    }
  }

  lemma LoopCompares(z: bool, size: nat, flags: seq<Instr>, update: set<G.Flag>)
    requires IsSize(size) && AllFlow(flags) && (forall u: State :: DifferenceFlags(flags, u, size, update))
    ensures Compares(CompareWords(z, size, flags), z, size, update)
  {
    hide Placed, CompareWords, DifferenceFlags, ComparesAt, AllFlow, IsSize;
    var y := CompareWords(z, size, flags);
    forall code: seq<Instr>, p: nat, s: State | Placed(code, p, y)
      ensures ComparesAt(code, p, |y|, z, size, update, s)
    {
      LoopComparesAt(code, p, z, size, flags, update, s);
    }
  }

  // ---- the emitters --------------------------------------------------------------------------------------------

  /** Cmps::execute_operation. */
  method ExecuteCmps(batch: CodeBatch, size: nat)
    requires IsSize(size)
    modifies batch
    ensures batch.code == old(batch.code) + CmpsWords(size)
  {
    hide Bump, MA.LoadOf;
    var _ := batch.Add(Load(MA.LoadOf(size, false), T2, RSI, 0));
    var _ := batch.Add(Load(MA.LoadOf(size, false), T1, RDI, 0));
    var _ := batch.Add(Op(SUB, T0, T2, T1));
    var _ := batch.Add(Bump(RSI, size));
    var _ := batch.Add(Bump(RDI, size));
  }

  lemma LoopPatched(before: seq<Instr>, r: seq<Instr>, d: seq<Instr>, b: seq<Instr>, f: seq<Instr>, w: Instr)
    ensures (before + [Nop()] + r + d + b + f)[|before| := w] == before + ([w] + r + d + b + f)
  {
    hide Nop;
    Patched(before, r + d + b + f, w);
    assert before + [Nop()] + r + d + b + f == before + [Nop()] + (r + d + b + f);
  }

  /** RepeatableFlag::generate_loop. */
  method GenerateLoop(batch: CodeBatch, update: set<G.Flag>, size: nat, z: bool) returns (ghost y: seq<Instr>)
    requires IsSize(size)
    modifies batch
    ensures batch.code == old(batch.code) + y && Compares(y, z, size, update)
  {
    hide Compares, CmpsWords, DifferenceFlags, AllFlow, Nop;
    ghost var before := batch.code;
    var zeroTest := batch.Add(Nop());
    var loopBegin := batch.Add(OpImm(ADDI, RCX, RCX, 0xfff));
    ExecuteCmps(batch, size);
    var diffTest := batch.Add(Nop());
    var _ := batch.Add(Bnqz(RCX, (loopBegin - |batch.code|) * 4));
    var skip := batch.Offset(diffTest, |batch.code|) * 4;
    batch.Insert(diffTest, if z then Bnqz(T0, skip) else Beqz(T0, skip));
    ghost var r := RoundWords(size);
    ghost var a, b := before + [Nop()] + r, [Bnqz(RCX, -4 * (|r| + 1))];
    Patched(a, b, DiffTest(z));
    assert batch.code == a + [DiffTest(z)] + b;
    ghost var f := EmitCompareFlags(batch, update, size);
    batch.Insert(zeroTest, Beqz(RCX, batch.Offset(zeroTest, |batch.code|) * 4));
    y := CompareWords(z, size, f);
    LoopPatched(before, r, [DiffTest(z)], b, f, Beqz(RCX, 4 * (|r| + |f| + 3)));
    LoopCompares(z, size, f, update);
  }

  datatype Prefix = NoPrefix | RepZ | RepNZ

  /** RepeatableFlag::generate for cmps: address sizes below 8 end the program. */
  method GenerateCmps(batch: CodeBatch, update: set<G.Flag>, size: nat, prefix: Prefix, addressSize: nat)
      returns (fault: bool, ghost y: seq<Instr>)
    requires IsSize(size)
    modifies batch
    ensures fault == (addressSize != 8)
    ensures !fault ==> batch.code == old(batch.code) + y
    ensures !fault && prefix.RepZ? ==> Compares(y, true, size, update)
    ensures !fault && prefix.RepNZ? ==> Compares(y, false, size, update)
    ensures !fault && prefix.NoPrefix? ==> AllFlow(y) && forall s: State ::
      CompareEffect(size, update, s, Exec(y, s), OneComparison(size, s))
  {
    hide Compares, CmpsWords, DifferenceFlags, AllFlow, CompareEffect, OneComparison, Exec;
    fault, y := addressSize != 8, [];
    if fault {
      return;
    }
    if prefix.RepZ? {
      y := GenerateLoop(batch, update, size, true);
    } else if prefix.RepNZ? {
      y := GenerateLoop(batch, update, size, false);
    } else {
      ExecuteCmps(batch, size);
      ghost var f := EmitCompareFlags(batch, update, size);
      y := CmpsWords(size) + f;
      CmpsFlows(size);
      AllFlowAppend(CmpsWords(size), f);
      forall s: State ensures CompareEffect(size, update, s, Exec(y, s), OneComparison(size, s)) {
        SingleCompares(f, size, update, s);
      }
    }
  }
}
