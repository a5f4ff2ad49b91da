/** Repeated string instructions (repeatable.cpp, movs.cpp, stos.cpp, lods.cpp). */
module StringLoops {
  import opened RiscV
  import opened Machine
  import opened Batches
  import opened Effects
  import opened Registers
  import opened Jumps
  import opened MemoryOperands
  import MA = MemoryAccess

  const RCX: Reg := A6
  const RSI: Reg := A1
  const RDI: Reg := A0
  const RAX: Reg := A7

  // ---- the instructions, with the direction flag clear ----------------------------------------------------

  /** What string instructions read and write. */
  datatype Strings = Strings(memory: Memory, rsi: bv64, rdi: bv64, rax: bv64)

  datatype StringOp = Movs | Stos | Lods

  function Width(size: nat): bv64 { if size == 8 then 8 else if size == 4 then 4 else if size == 2 then 2 else 1 }

  function StringStep(op: StringOp, size: nat, g: Strings): Strings {
    match op
    case Movs =>
      Strings(WriteMem(g.memory, g.rdi, size, ReadMem(g.memory, g.rsi, size)), Plus(g.rsi, Width(size)),
        Plus(g.rdi, Width(size)), g.rax)
    case Stos => Strings(WriteMem(g.memory, g.rdi, size, g.rax), g.rsi, Plus(g.rdi, Width(size)), g.rax)
    case Lods => Strings(g.memory, Plus(g.rsi, Width(size)), g.rdi, Merge(size, g.rax, ReadMem(g.memory, g.rsi, size)))
  }

  /** REP: as often as rcx says. */
  function Repeat(op: StringOp, size: nat, g: Strings, count: bv64): Strings
    decreases count
  {
    if count < 1 then g else Repeat(op, size, StringStep(op, size, g), Minus(count, 1))
  }

  function View(s: State): Strings { Strings(s.memory, s.Get(RSI), s.Get(RDI), s.Get(RAX)) }

  /** Everything a string instruction leaves alone: flags, and all other registers. */
  ghost predicate Beside(s: State, t: State, regs: set<Reg>) {
    && t.ctx == s.ctx && t.scratch == s.scratch && t.base == s.base
    && forall r :: r !in regs ==> t.Get(r) == s.Get(r)
  }

  const StringTemps: set<Reg> := {A1, A0, A7, T4, T5}

  /** The code does one step. */
  ghost predicate Steps(x: seq<Instr>, op: StringOp, size: nat) {
    && AllFlow(x)
    && forall s: State :: Beside(s, Exec(x, s), StringTemps) && View(Exec(x, s)) == StringStep(op, size, View(s))
  }

  // ---- the loop --------------------------------------------------------------------------------------------

  function LoopWords(x: seq<Instr>): seq<Instr> {
    [Beqz(RCX, 4 * (|x| + 3))] + ([OpImm(ADDI, RCX, RCX, 0xfff)] + x) + [Bnqz(RCX, -4 * (|x| + 1))]
  }

  lemma CountDown(x: bv64)
    ensures Plus(x, Sext12(0xfff)) == Minus(x, 1)
  {
    assert 0 < 0xfff as bv12 & 0x800;
    assert Plus(x, 0xffff_ffff_ffff_ffff) == x - 1;
  }

  lemma Smaller(x: bv64)
    requires !(x < 1)
    ensures Minus(x, 1) < x
  {
  }

  lemma DecrementRuns(s: State)
    ensures var t := Exec([OpImm(ADDI, RCX, RCX, 0xfff)], s);
      Keeps(s, t, {RCX}) && t.Get(RCX) == Minus(s.Get(RCX), 1)
  {
    hide Exec, Step, Plus, Sext12, Minus, State.Set, State.Get;
    Exec1Word([OpImm(ADDI, RCX, RCX, 0xfff)], s);
    StepImm(ADDI, RCX, RCX, 0xfff, s);
    CountDown(s.Get(RCX));
    SetKeeps(s, RCX, Minus(s.Get(RCX), 1));
  }

  /** Counting down and doing one step. */
  lemma RoundRuns(x: seq<Instr>, op: StringOp, size: nat, s: State)
    requires Steps(x, op, size)
    ensures var t := Exec([OpImm(ADDI, RCX, RCX, 0xfff)] + x, s);
      && Beside(s, t, StringTemps + {RCX}) && t.Get(RCX) == Minus(s.Get(RCX), 1)
      && View(t) == StringStep(op, size, View(s))
  {
    hide Exec, StringStep, Minus, AllFlow, State.Get;
    var w := [OpImm(ADDI, RCX, RCX, 0xfff)];
    DecrementRuns(s);
    ExecAppend(w, x, s);
    SameView(s, Exec(w, s));
  }

  lemma SameView(s: State, t: State)
    requires Keeps(s, t, {RCX})
    ensures View(t) == View(s)
  {
    hide State.Get;
  }

  lemma LoopParts(code: seq<Instr>, p: nat, x: seq<Instr>)
    requires Placed(code, p, LoopWords(x))
    ensures p + |x| + 2 < |code| && code[p] == Beqz(RCX, 4 * (|x| + 3))
    ensures code[p + |x| + 2] == Bnqz(RCX, -4 * (|x| + 1))
    ensures Placed(code, p + 1, [OpImm(ADDI, RCX, RCX, 0xfff)] + x)
  {
    var a, b, c := [Beqz(RCX, 4 * (|x| + 3))], [OpImm(ADDI, RCX, RCX, 0xfff)] + x, [Bnqz(RCX, -4 * (|x| + 1))];
    PlacedPart(code, p, a, b, c);
    assert code[p] == code[p..p + |a + b + c|][0];
    assert code[p + |x| + 2] == code[p..p + |a + b + c|][|x| + 2];
  }

  lemma ZeroTest(v: bv64)
    ensures Taken(BEQ, v, 0) == (v < 1) && Taken(BNE, v, 0) == !(v < 1)
  {
  }

  lemma BesideTrans(s: State, t: State, u: State, regs: set<Reg>)
    requires Beside(s, t, regs) && Beside(t, u, regs)
    ensures Beside(s, u, regs)
  {
    hide State.Get;
  }

  lemma CountTaken(op: BranchOp, s: State)
    requires op == BEQ || op == BNE
    ensures Taken(op, s.Get(RCX), s.Get(Zero)) == ((op == BEQ) == (s.Get(RCX) < 1))
  {
    hide Taken, State.Get;
    ZeroTest(s.Get(RCX));
    GetZero(s);
  }

  /** A branch that tests rcx. */
  lemma CountBranch(code: seq<Instr>, q: nat, op: BranchOp, offset: int, s: State)
    requires q < |code| && code[q] == Branch(op, RCX, Zero, offset) && (op == BEQ || op == BNE)
    ensures (op == BEQ) == (s.Get(RCX) < 1) ==> Reaches(code, At(q, s), At(q + offset / 4, s))
    ensures (op == BEQ) != (s.Get(RCX) < 1) ==> Reaches(code, At(q, s), At(q + 1, s))
  {
    hide Reaches, Taken, State.Get;
    ReachesBranch(code, q, s);
    CountTaken(op, s);
    if Taken(op, s.Get(RCX), s.Get(Zero)) {
      assert Reaches(code, At(q, s), At(q + offset / 4, s));
    } else {
      assert Reaches(code, At(q, s), At(q + 1, s));
    }
  }

  lemma BackBranch(code: seq<Instr>, p: nat, x: seq<Instr>, t: State)
    requires Placed(code, p, LoopWords(x))
    ensures t.Get(RCX) < 1 ==> Reaches(code, At(p + |x| + 2, t), At(p + |x| + 3, t))
    ensures !(t.Get(RCX) < 1) ==> Reaches(code, At(p + |x| + 2, t), At(p + 1, t))
  {
    hide Reaches, Placed, State.Get;
    LoopParts(code, p, x);
    CountBranch(code, p + |x| + 2, BNE, -4 * (|x| + 1), t);
  }

  lemma StraightRound(code: seq<Instr>, p: nat, x: seq<Instr>, op: StringOp, size: nat, s: State)
    requires Placed(code, p, LoopWords(x)) && Steps(x, op, size)
    ensures Reaches(code, At(p + 1, s), At(p + |x| + 2, Exec([OpImm(ADDI, RCX, RCX, 0xfff)] + x, s)))
  {
    hide Exec, Steps, Reaches, Placed, AllFlow, State.Get;
    LoopParts(code, p, x);
    BodyFlows(x, op, size);
    PlacedCode(code, p + 1, [OpImm(ADDI, RCX, RCX, 0xfff)] + x);
    ReachesStraight(code, p + 1, [OpImm(ADDI, RCX, RCX, 0xfff)] + x, s);
  }

  lemma PlacedCode(code: seq<Instr>, p: nat, x: seq<Instr>)
    requires Placed(code, p, x)
    ensures p + |x| <= |code| && code[p..p + |x|] == x
  {
  }

  /** One round of the loop, from its beginning back to the branch. */
  lemma RoundReaches(code: seq<Instr>, p: nat, x: seq<Instr>, op: StringOp, size: nat, s: State) returns (t: State)
    requires Placed(code, p, LoopWords(x)) && Steps(x, op, size)
    ensures Beside(s, t, StringTemps + {RCX}) && t.Get(RCX) == Minus(s.Get(RCX), 1)
    ensures View(t) == StringStep(op, size, View(s))
    ensures t.Get(RCX) < 1 ==> Reaches(code, At(p + 1, s), At(p + |x| + 3, t))
    ensures !(t.Get(RCX) < 1) ==> Reaches(code, At(p + 1, s), At(p + 1, t))
  {
    hide Exec, StringStep, Minus, Steps, Reaches, View, Beside, Placed, LoopWords, State.Get;
    RoundRuns(x, op, size, s);
    t := Exec([OpImm(ADDI, RCX, RCX, 0xfff)] + x, s);
    StraightRound(code, p, x, op, size, s);
    BackBranch(code, p, x, t);
    if t.Get(RCX) < 1 {
      ReachesTrans(code, At(p + 1, s), At(p + |x| + 2, t), At(p + |x| + 3, t));
    } else {
      ReachesTrans(code, At(p + 1, s), At(p + |x| + 2, t), At(p + 1, t));
    }
  }

  lemma BodyFlows(x: seq<Instr>, op: StringOp, size: nat)
    requires Steps(x, op, size)
    ensures AllFlow([OpImm(ADDI, RCX, RCX, 0xfff)] + x)
  {
    hide Exec, View, Beside, StringStep;
    Flow1(OpImm(ADDI, RCX, RCX, 0xfff));
    AllFlowAppend([OpImm(ADDI, RCX, RCX, 0xfff)], x);
  }

  /** The loop has ended, having done the given number of steps. */
  ghost predicate Done(op: StringOp, size: nat, s: State, t: State) {
    Beside(s, t, StringTemps + {RCX}) && t.Get(RCX) < 1 && View(t) == Repeat(op, size, View(s), s.Get(RCX))
  }

  lemma LastRound(op: StringOp, size: nat, s: State, t: State)
    requires Beside(s, t, StringTemps + {RCX}) && t.Get(RCX) == Minus(s.Get(RCX), 1)
    requires View(t) == StringStep(op, size, View(s))
    requires !(s.Get(RCX) < 1) && t.Get(RCX) < 1
    ensures Done(op, size, s, t)
  {
    hide StringStep, Minus, View, Beside, State.Get;
    assert Repeat(op, size, View(t), t.Get(RCX)) == View(t);
  }

  lemma OneMoreRound(op: StringOp, size: nat, s: State, u: State, t: State)
    requires Beside(s, u, StringTemps + {RCX}) && u.Get(RCX) == Minus(s.Get(RCX), 1)
    requires View(u) == StringStep(op, size, View(s))
    requires !(s.Get(RCX) < 1) && Done(op, size, u, t)
    ensures Done(op, size, s, t)
  {
    hide StringStep, Minus, View, Beside, State.Get;
    BesideTrans(s, u, t, StringTemps + {RCX});
  }

  /** Entered with a count, the loop ends, having done that many steps. */
  lemma {:induction false} LoopReaches(code: seq<Instr>, p: nat, x: seq<Instr>, op: StringOp, size: nat, s: State)
      returns (t: State)
    requires Placed(code, p, LoopWords(x)) && Steps(x, op, size) && !(s.Get(RCX) < 1)
    ensures Reaches(code, At(p + 1, s), At(p + |x| + 3, t)) && Done(op, size, s, t)
    decreases s.Get(RCX)
  {
    hide StringStep, Minus, Steps, Reaches, View, Beside, Placed, Done, LoopWords, State.Get;
    var u := RoundReaches(code, p, x, op, size, s);
    Smaller(s.Get(RCX));
    if u.Get(RCX) < 1 {
      t := u;
      LastRound(op, size, s, t);
    } else {
      t := LoopReaches(code, p, x, op, size, u);
      ReachesTrans(code, At(p + 1, s), At(p + 1, u), At(p + |x| + 3, t));
      OneMoreRound(op, size, s, u, t);
    }
  }

  /** Wherever it stands, the code repeats the step as REP does; a count of zero touches nothing. */
  ghost predicate RepeatsAt(code: seq<Instr>, p: nat, n: nat, op: StringOp, size: nat, s: State) {
    exists t: State :: Reaches(code, At(p, s), At(p + n, t)) && Done(op, size, s, t) && (s.Get(RCX) < 1 ==> t == s)
  }

  ghost predicate Repeats(y: seq<Instr>, op: StringOp, size: nat) {
    forall code: seq<Instr>, p: nat, s: State {:trigger RepeatsAt(code, p, |y|, op, size, s)} ::
      Placed(code, p, y) ==> RepeatsAt(code, p, |y|, op, size, s)
  }

  lemma NothingDone(op: StringOp, size: nat, s: State)
    requires s.Get(RCX) < 1
    ensures Done(op, size, s, s)
  {
    hide State.Get, View;
  }

  lemma EntryReaches(code: seq<Instr>, p: nat, x: seq<Instr>, s: State)
    requires Placed(code, p, LoopWords(x))
    ensures s.Get(RCX) < 1 ==> Reaches(code, At(p, s), At(p + |x| + 3, s))
    ensures !(s.Get(RCX) < 1) ==> Reaches(code, At(p, s), At(p + 1, s))
  {
    hide Reaches, Placed, State.Get;
    LoopParts(code, p, x);
    CountBranch(code, p, BEQ, 4 * (|x| + 3), s);
  }

  lemma LoopRepeatsAt(code: seq<Instr>, p: nat, x: seq<Instr>, op: StringOp, size: nat, s: State)
    requires Placed(code, p, LoopWords(x)) && Steps(x, op, size)
    ensures RepeatsAt(code, p, |x| + 3, op, size, s)
  {
    hide Steps, Reaches, Placed, Done, LoopWords, State.Get;
    EntryReaches(code, p, x, s);
    if s.Get(RCX) < 1 {
      NothingDone(op, size, s);
    } else {
      var t := LoopReaches(code, p, x, op, size, s);
      ReachesTrans(code, At(p, s), At(p + 1, s), At(p + |x| + 3, t));
    }
  }

  lemma LoopRepeats(x: seq<Instr>, op: StringOp, size: nat)
    requires Steps(x, op, size)
    ensures Repeats(LoopWords(x), op, size)
  {
    hide StringStep, Steps, RepeatsAt, Placed;
    forall code: seq<Instr>, p: nat, s: State | Placed(code, p, LoopWords(x))
      ensures RepeatsAt(code, p, |LoopWords(x)|, op, size, s)
    {
      LoopRepeatsAt(code, p, x, op, size, s);
    }
  }

  // ---- the bodies ------------------------------------------------------------------------------------------------

  lemma WidthSmall(size: nat)
    requires IsSize(size)
    ensures Small(Width(size))
  {
  }

  function Bump(r: Reg, size: nat): Instr { OpImm(ADDI, r, r, Cut(Width(size))) }

  lemma BumpRuns(r: Reg, size: nat, s: State)
    requires IsSize(size) && !r.Zero?
    ensures Leaves([Bump(r, size)], s, r, Plus(s.Get(r), Width(size)), {r})
  {
    hide Exec, Plus, Cut, Small, Width, State.Get;
    WidthSmall(size);
    StepAddi(r, r, Width(size), s);
  }

  lemma LoadRuns(dest: Reg, r: Reg, size: nat, s: State)
    requires IsSize(size) && r != S11 && !dest.Zero?
    ensures Leaves([Load(MA.LoadOf(size, false), dest, r, 0)], s, dest, ReadMem(s.memory, s.Get(r), size), {dest})
  {
    hide Exec, Step, ReadMem, Plus, Sext12, State.Set, State.Get;
    var op := MA.LoadOf(size, false);
    MA.Sizes(size, false);
    Exec1Word([Load(op, dest, r, 0)], s);
    StepLoad(op, dest, r, 0, s);
    PlusZero(s.Get(r));
    SetKeeps(s, dest, ReadMem(s.memory, s.Get(r), size));
  }

  lemma StoreRuns(r: Reg, src: Reg, size: nat, s: State)
    requires IsSize(size) && r != S11
    ensures Exec([Store(MA.StoreOf(size), r, src, 0)], s)
      == s.(memory := WriteMem(s.memory, s.Get(r), size, s.Get(src)))
  {
    hide Exec, Step, WriteMem, Plus, Sext12, State.Get;
    var op := MA.StoreOf(size);
    MA.Sizes(size, false);
    Exec1Word([Store(op, r, src, 0)], s);
    StepStore(op, r, src, 0, s);
    PlusZero(s.Get(r));
  }

  lemma MemoryOnly(s: State, m: Memory)
    ensures Beside(s, s.(memory := m), {})
  {
  }

  function MovsWords(size: nat): seq<Instr> {
    [Load(MA.LoadOf(size, false), T4, RSI, 0)] + [Store(MA.StoreOf(size), RDI, T4, 0)] + [Bump(RSI, size)]
      + [Bump(RDI, size)]
  }

  function StosWords(size: nat): seq<Instr> { [Store(MA.StoreOf(size), RDI, RAX, 0)] + [Bump(RDI, size)] }

  lemma StosRuns(size: nat, s: State)
    requires IsSize(size)
    ensures Beside(s, Exec(StosWords(size), s), StringTemps)
    ensures View(Exec(StosWords(size), s)) == StringStep(Stos, size, View(s))
  {
    hide Exec, WriteMem, Plus, Width, Bump, MA.StoreOf, State.Get;
    var a, b := [Store(MA.StoreOf(size), RDI, RAX, 0)], [Bump(RDI, size)];
    ExecAppend(a, b, s);
    StoreRuns(RDI, RAX, size, s);
    MemoryOnly(s, WriteMem(s.memory, s.Get(RDI), size, s.Get(RAX)));
    BumpRuns(RDI, size, Exec(a, s));
  }

  lemma StosFlows(size: nat)
    ensures AllFlow(StosWords(size))
  {
  }

  lemma StosSteps(size: nat)
    requires IsSize(size)
    ensures Steps(StosWords(size), Stos, size)
  {
    hide AllFlow, Beside, View, StosWords, StringStep, Exec;
    StosFlows(size);
    forall s: State
      ensures Beside(s, Exec(StosWords(size), s), StringTemps)
        && View(Exec(StosWords(size), s)) == StringStep(Stos, size, View(s))
    {
      StosRuns(size, s);
    }
  }

  lemma CopyRuns(size: nat, s: State)
    requires IsSize(size)
    ensures var t := Exec([Load(MA.LoadOf(size, false), T4, RSI, 0)] + [Store(MA.StoreOf(size), RDI, T4, 0)], s);
      && Beside(s, t, {T4})
      && t.memory == WriteMem(s.memory, s.Get(RDI), size, ReadMem(s.memory, s.Get(RSI), size))
  {
    hide Exec, ReadMem, WriteMem, MA.StoreOf, MA.LoadOf, State.Get;
    var a, b := [Load(MA.LoadOf(size, false), T4, RSI, 0)], [Store(MA.StoreOf(size), RDI, T4, 0)];
    LoadRuns(T4, RSI, size, s);
    ExecAppend(a, b, s);
    StoreRuns(RDI, T4, size, Exec(a, s));
    MemoryOnly(Exec(a, s), WriteMem(s.memory, s.Get(RDI), size, ReadMem(s.memory, s.Get(RSI), size)));
  }

  lemma BothBumped(size: nat, s: State)
    requires IsSize(size)
    ensures var t := Exec([Bump(RSI, size)] + [Bump(RDI, size)], s);
      && Keeps(s, t, {RSI, RDI})
      && t.Get(RSI) == Plus(s.Get(RSI), Width(size)) && t.Get(RDI) == Plus(s.Get(RDI), Width(size))
  {
    hide Exec, Plus, Width, Bump, State.Get;
    ExecAppend([Bump(RSI, size)], [Bump(RDI, size)], s);
    BumpRuns(RSI, size, s);
    BumpRuns(RDI, size, Exec([Bump(RSI, size)], s));
  }

  lemma MovsRuns(size: nat, s: State)
    requires IsSize(size)
    ensures Beside(s, Exec(MovsWords(size), s), StringTemps)
    ensures View(Exec(MovsWords(size), s)) == StringStep(Movs, size, View(s))
  {
    hide Exec, ReadMem, WriteMem, Plus, Width, Bump, MA.StoreOf, MA.LoadOf, State.Get;
    var a, b := [Load(MA.LoadOf(size, false), T4, RSI, 0)] + [Store(MA.StoreOf(size), RDI, T4, 0)],
      [Bump(RSI, size)] + [Bump(RDI, size)];
    assert MovsWords(size) == a + b;
    CopyRuns(size, s);
    ExecAppend(a, b, s);
    BothBumped(size, Exec(a, s));
  }

  lemma MovsSteps(size: nat)
    requires IsSize(size)
    ensures Steps(MovsWords(size), Movs, size)
  {
    hide AllFlow, Beside, View, MovsWords, StringStep, Exec;
    MovsFlows(size);
    forall s: State
      ensures Beside(s, Exec(MovsWords(size), s), StringTemps)
        && View(Exec(MovsWords(size), s)) == StringStep(Movs, size, View(s))
    {
      MovsRuns(size, s);
    }
  }

  lemma MovsFlows(size: nat)
    ensures AllFlow(MovsWords(size))
  {
  }

  lemma LoadedClear(m: Memory, a: bv64, size: nat)
    requires IsSize(size)
    ensures IsCleared(size, ReadMem(m, a, size))
  {
    hide Byte, Low8, Low16;
    if size == 2 {
      ByteSmall(m.bytes, a);
      ByteSmall(m.bytes, Plus(a, 1));
      HalfClear(Byte(m.bytes, a), Byte(m.bytes, Plus(a, 1)));
    } else if size == 1 {
      ByteSmall(m.bytes, a);
      ByteClear(Byte(m.bytes, a));
    }
  }

  lemma ByteSmall(mem: map<Address, bv8>, a: bv64)
    ensures Byte(mem, a) < 0x100
  {
  }

  lemma ByteClear(x: bv64)
    requires x < 0x100
    ensures Low8(x) == x
  {
  }

  lemma HalfClear(x: bv64, y: bv64)
    requires x < 0x100 && y < 0x100
    ensures Low16(Join8(x, y)) == Join8(x, y)
  {
  }

  function LodsWords(size: nat): seq<Instr> {
    if size == 8 then [Load(LD, RAX, RSI, 0)] + [Bump(RSI, 8)]
    else [Load(MA.LoadOf(size, false), T4, RSI, 0)] + MoveWords(RAX, T4, size, T5, true) + [Bump(RSI, size)]
  }

  lemma LodsNarrow(size: nat, s: State)
    requires IsSize(size) && size != 8
    ensures var t := Exec([Load(MA.LoadOf(size, false), T4, RSI, 0)] + MoveWords(RAX, T4, size, T5, true), s);
      && Keeps(s, t, {T4, T5, RAX}) && t.Get(RAX) == Merge(size, s.Get(RAX), ReadMem(s.memory, s.Get(RSI), size))
  {
    hide Exec, ReadMem, Merge, MoveWords, IsCleared, MA.LoadOf, State.Get, Keeps, Leaves, Gives, IsAccess, Separate;
    hide IsSize;
    Accessible(size);
    var a, b := [Load(MA.LoadOf(size, false), T4, RSI, 0)], MoveWords(RAX, T4, size, T5, true);
    LoadRuns(T4, RSI, size, s);
    LeavesParts(a, s, T4, ReadMem(s.memory, s.Get(RSI), size), {T4}, RAX);
    LoadedClear(s.memory, s.Get(RSI), size);
    ExecAppend(a, b, s);
    MoveGives(RAX, T4, size, T5, true, Exec(a, s));
    GivesParts(b, Exec(a, s), RAX, Merge(size, s.Get(RAX), ReadMem(s.memory, s.Get(RSI), size)), {T5});
    KeepsTrans(s, Exec(a, s), Exec(b, Exec(a, s)), {T4}, {T5} + {RAX});
    assert {T4} + ({T5} + {RAX}) == {T4, T5, RAX};
  }

  lemma Accessible(size: nat)
    requires IsSize(size) && size != 8
    ensures IsAccess(size) && Separate(size, RAX, T4, T5, true)
  {
  }

  lemma LeavesParts(x: seq<Instr>, s: State, r: Reg, v: bv64, temps: set<Reg>, other: Reg)
    requires Leaves(x, s, r, v, temps) && other !in temps
    ensures Keeps(s, Exec(x, s), temps) && Exec(x, s).Get(r) == v && Exec(x, s).Get(other) == s.Get(other)
  {
    hide Exec, State.Get;
  }

  lemma LodsFull(s: State)
    ensures var t := Exec([Load(LD, RAX, RSI, 0)], s);
      && Keeps(s, t, {T4, T5, RAX}) && t.Get(RAX) == ReadMem(s.memory, s.Get(RSI), 8)
  {
    hide Exec, ReadMem, MA.LoadOf, State.Get, Keeps, Leaves;
    FullLoad();
    LoadRuns(RAX, RSI, 8, s);
    LeavesParts([Load(LD, RAX, RSI, 0)], s, RAX, ReadMem(s.memory, s.Get(RSI), 8), {RAX}, RSI);
    KeepsMore(s, Exec([Load(LD, RAX, RSI, 0)], s), {RAX}, {T4, T5, RAX});
  }

  /** The value is loaded and rsi is raised. */
  lemma LodsMoved(s: State, t: State, u: State, size: nat)
    requires Keeps(s, t, {T4, T5, RAX}) && t.Get(RAX) == Merge(size, s.Get(RAX), ReadMem(s.memory, s.Get(RSI), size))
    requires Keeps(t, u, {RSI}) && u.Get(RSI) == Plus(t.Get(RSI), Width(size))
    ensures Beside(s, u, StringTemps) && View(u) == StringStep(Lods, size, View(s))
  {
    hide ReadMem, Plus, Width, Merge, State.Get;
    KeepsTrans(s, t, u, {T4, T5, RAX}, {RSI});
  }

  lemma LodsEnds(a: seq<Instr>, size: nat, s: State)
    requires IsSize(size) && Keeps(s, Exec(a, s), {T4, T5, RAX})
    requires Exec(a, s).Get(RAX) == Merge(size, s.Get(RAX), ReadMem(s.memory, s.Get(RSI), size))
    ensures var t := Exec(a + [Bump(RSI, size)], s);
      Beside(s, t, StringTemps) && View(t) == StringStep(Lods, size, View(s))
  {
    hide Exec, ReadMem, Plus, Width, Merge, Bump, State.Get, Keeps, Leaves, IsSize, Beside, View, StringStep;
    var t := Exec(a, s);
    ExecAppend(a, [Bump(RSI, size)], s);
    BumpRuns(RSI, size, t);
    LeavesParts([Bump(RSI, size)], t, RSI, Plus(t.Get(RSI), Width(size)), {RSI}, RAX);
    LodsMoved(s, t, Exec([Bump(RSI, size)], t), size);
  }

  lemma LodsRuns(size: nat, s: State)
    requires IsSize(size)
    ensures Beside(s, Exec(LodsWords(size), s), StringTemps)
    ensures View(Exec(LodsWords(size), s)) == StringStep(Lods, size, View(s))
  {
    hide Exec, ReadMem, Bump, MoveWords, MA.LoadOf, State.Get, Keeps, IsSize, Beside, View, StringStep;
    hide Low32, WithWord, WithByte, WithHighByte;
    if size == 8 {
      LodsFull(s);
      LodsEnds([Load(LD, RAX, RSI, 0)], 8, s);
    } else {
      LodsNarrow(size, s);
      LodsEnds([Load(MA.LoadOf(size, false), T4, RSI, 0)] + MoveWords(RAX, T4, size, T5, true), size, s);
    }
  }

  lemma FullLoad() ensures MA.LoadOf(8, false) == LD {}

  lemma LodsFlows(size: nat)
    requires IsSize(size)
    ensures AllFlow(LodsWords(size))
  {
    hide AllFlow, MoveWords, Bump, MA.LoadOf;
    Flow1(Load(LD, RAX, RSI, 0));
    Flow1(Load(MA.LoadOf(size, false), T4, RSI, 0));
    BumpFlows(size);
    BumpFlows(8);
    MoveFlows(RAX, T4, size, T5, true);
    AllFlowAppend([Load(LD, RAX, RSI, 0)], [Bump(RSI, 8)]);
    AllFlowAppend([Load(MA.LoadOf(size, false), T4, RSI, 0)], MoveWords(RAX, T4, size, T5, true));
    AllFlowAppend([Load(MA.LoadOf(size, false), T4, RSI, 0)] + MoveWords(RAX, T4, size, T5, true), [Bump(RSI, size)]);
  }

  lemma BumpFlows(size: nat)
    ensures AllFlow([Bump(RSI, size)])
  {
    Flow1(Bump(RSI, size));
  }

  lemma LodsSteps(size: nat)
    requires IsSize(size)
    ensures Steps(LodsWords(size), Lods, size)
  {
    hide AllFlow, Beside, View, LodsWords, StringStep, Exec;
    LodsFlows(size);
    forall s: State
      ensures Beside(s, Exec(LodsWords(size), s), StringTemps)
        && View(Exec(LodsWords(size), s)) == StringStep(Lods, size, View(s))
    {
      LodsRuns(size, s);
    }
  }

  // ---- the emitters ----------------------------------------------------------------------------------------------

  /** execute_operation of the three instructions. */
  method ExecuteString(batch: CodeBatch, op: StringOp, size: nat) returns (ghost x: seq<Instr>)
    requires IsSize(size)
    modifies batch
    ensures batch.code == old(batch.code) + x && Steps(x, op, size)
  {
    hide Steps, MoveWords, Bump, MA.LoadOf, MA.StoreOf;
    match op
    case Movs =>
      var _ := batch.Add(Load(MA.LoadOf(size, false), T4, RSI, 0));
      var _ := batch.Add(Store(MA.StoreOf(size), RDI, T4, 0));
      var _ := batch.Add(Bump(RSI, size));
      var _ := batch.Add(Bump(RDI, size));
      x := MovsWords(size);
      MovsSteps(size);
    case Stos =>
      var _ := batch.Add(Store(MA.StoreOf(size), RDI, RAX, 0));
      var _ := batch.Add(Bump(RDI, size));
      x := StosWords(size);
      StosSteps(size);
    case Lods =>
      if size == 8 {
        var _ := batch.Add(Load(LD, RAX, RSI, 0));
        var _ := batch.Add(Bump(RSI, 8));
      } else {
        var _ := batch.Add(Load(MA.LoadOf(size, false), T4, RSI, 0));
        MoveToRegister(batch, RAX, T4, size, T5, true);
        var _ := batch.Add(Bump(RSI, size));
      }
      x := LodsWords(size);
      LodsSteps(size);
  }

  /** Repeatable::generate: address sizes below 8 end the program. */
  method GenerateString(batch: CodeBatch, op: StringOp, size: nat, rep: bool, addressSize: nat)
      returns (fault: bool, ghost y: seq<Instr>)
    requires IsSize(size)
    modifies batch
    ensures fault == (addressSize != 8)
    ensures !fault ==> batch.code == old(batch.code) + y && if rep then Repeats(y, op, size) else Steps(y, op, size)
  {
    hide Steps, Repeats;
    fault, y := addressSize != 8, [];
    if fault {
      return;
    }
    if rep {
      var zeroTest := batch.Add(Nop());
      var loopBegin := batch.Add(OpImm(ADDI, RCX, RCX, 0xfff));
      ghost var x := ExecuteString(batch, op, size);
      var _ := batch.Add(Bnqz(RCX, batch.Offset(|batch.code|, loopBegin) * 4));
      batch.Insert(zeroTest, Beqz(RCX, batch.Offset(zeroTest, |batch.code|) * 4));
      y := LoopWords(x);
      ghost var rest := [OpImm(ADDI, RCX, RCX, 0xfff)] + x + [Bnqz(RCX, -4 * (|x| + 1))];
      Patched(old(batch.code), rest, Beqz(RCX, 4 * (|x| + 3)));
      assert batch.code == old(batch.code) + y;
      LoopRepeats(x, op, size);
    } else {
      y := ExecuteString(batch, op, size);
    }
  }
}
