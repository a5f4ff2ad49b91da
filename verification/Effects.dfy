/** What emitted code does to the state: which register it computes, and what it leaves alone. */
module Effects {
  import opened RiscV
  import opened Machine

  /** The two states differ at most in the given registers. */
  ghost predicate Keeps(s: State, t: State, regs: set<Reg>) {
    && t.ctx == s.ctx && t.memory == s.memory
    && t.scratch == s.scratch && t.base == s.base
    && forall r :: r !in regs ==> t.Get(r) == s.Get(r)
  }

  /** Running the words leaves v in `dest` and spoils at most the temporaries. */
  ghost predicate Gives(words: seq<Instr>, s: State, dest: Reg, v: bv64, temps: set<Reg>) {
    var t := Exec(words, s);
    t.Get(dest) == v && Keeps(s, t, temps + {dest})
  }

  predicate AllFlow(words: seq<Instr>) { forall i <- words :: Flows(i) }

  lemma AllFlowAppend(a: seq<Instr>, b: seq<Instr>)
    requires AllFlow(a) && AllFlow(b)
    ensures AllFlow(a + b)
  {
    forall i <- a + b ensures Flows(i) {
      assert i in a || i in b;
    }
  }

  lemma Flow1(a: Instr)
    requires Flows(a)
    ensures AllFlow([a])
  {
  }

  lemma Flow2(a: Instr, b: Instr)
    requires Flows(a) && Flows(b)
    ensures AllFlow([a, b])
  {
    hide Flows;
  }

  lemma Flow3(a: Instr, b: Instr, c: Instr)
    requires Flows(a) && Flows(b) && Flows(c)
    ensures AllFlow([a, b, c])
  {
    hide Flows;
  }

  lemma KeepsTrans(s: State, t: State, u: State, a: set<Reg>, b: set<Reg>)
    requires Keeps(s, t, a) && Keeps(t, u, b)
    ensures Keeps(s, u, a + b)
  {
  }

  lemma KeepsMore(s: State, t: State, a: set<Reg>, b: set<Reg>)
    requires Keeps(s, t, a) && a <= b
    ensures Keeps(s, t, b)
  {
  }

  lemma KeepsMemory(s: State, t: State, regs: set<Reg>)
    requires Keeps(s, t, regs)
    ensures t.memory == s.memory
  {
    hide State.Get;
  }

  lemma SetKeeps(s: State, r: Reg, v: bv64)
    ensures Keeps(s, s.Set(r, v), {r})
    ensures !r.Zero? ==> s.Set(r, v).Get(r) == v
  {
  }

  lemma GetSet(s: State, r: Reg, v: bv64)
    requires !r.Zero?
    ensures s.Set(r, v).Get(r) == v
  {
  }

  lemma GetOther(s: State, r: Reg, v: bv64, q: Reg)
    requires q != r
    ensures s.Set(r, v).Get(q) == s.Get(q)
  {
  }

  lemma SetContext(s: State, r: Reg, v: bv64)
    ensures s.Set(r, v).ctx == s.ctx
  {
  }

  lemma KeepsTwo(s: State, a: Reg, u: bv64, b: Reg, v: bv64)
    ensures Keeps(s, s.Set(a, u).Set(b, v), {a, b})
  {
    hide State.Set, State.Get;
    SetKeeps(s, a, u);
    SetKeeps(s.Set(a, u), b, v);
  }

  /** The code has run: the rules below speak of states only. */
  lemma GivesFrom(words: seq<Instr>, s: State, t: State, dest: Reg, v: bv64, temps: set<Reg>, kept: set<Reg>)
    requires Exec(words, s) == t && Keeps(s, t, kept) && kept <= temps + {dest} && t.Get(dest) == v
    ensures Gives(words, s, dest, v, temps)
  {
    hide Exec, State.Get;
  }

  lemma GivesParts(x: seq<Instr>, s: State, r: Reg, v: bv64, temps: set<Reg>)
    requires Gives(x, s, r, v, temps)
    ensures Keeps(s, Exec(x, s), temps + {r}) && Exec(x, s).Get(r) == v
  {
    hide Exec, State.Get, Keeps;
  }

  /** Two stretches of code, the second leaving the result. */
  lemma GivesThen(a: seq<Instr>, b: seq<Instr>, s: State, d: Reg, u: bv64, dest: Reg, v: bv64, temps: set<Reg>)
    requires Gives(a, s, d, u, temps) && Gives(b, Exec(a, s), dest, v, temps) && d in temps + {dest}
    ensures Gives(a + b, s, dest, v, temps)
  {
    hide Exec, State.Get;
    ExecAppend(a, b, s);
  }

  lemma GivesMore(words: seq<Instr>, s: State, dest: Reg, v: bv64, temps: set<Reg>, more: set<Reg>)
    requires Gives(words, s, dest, v, temps) && temps <= more
    ensures Gives(words, s, dest, v, more)
  {
    hide Exec, State.Get;
  }

  // ---- where running code gets to ------------------------------------------------------------------

  ghost predicate Reaches(code: seq<Instr>, from: Outcome, to: Outcome) {
    exists n: nat :: Run(code, from, n) == to
  }

  lemma ReachesTrans(code: seq<Instr>, a: Outcome, b: Outcome, c: Outcome)
    requires Reaches(code, a, b) && Reaches(code, b, c)
    ensures Reaches(code, a, c)
  {
    var m: nat :| Run(code, a, m) == b;
    var n: nat :| Run(code, b, n) == c;
    RunTwice(code, a, m, n);
  }

  lemma ReachesStraight(code: seq<Instr>, pc: nat, part: seq<Instr>, s: State)
    requires pc + |part| <= |code| && code[pc..pc + |part|] == part && AllFlow(part)
    ensures Reaches(code, At(pc, s), At(pc + |part|, Exec(part, s)))
  {
    RunStraight(code, pc, part, s);
  }

  lemma ReachesBranch(code: seq<Instr>, pc: nat, s: State)
    requires pc < |code| && code[pc].Branch?
    ensures var i := code[pc];
      Reaches(code, At(pc, s), At(if Taken(i.bop, s.Get(i.rs1), s.Get(i.rs2)) then pc + i.offset / 4 else pc + 1, s))
  {
    var i := code[pc];
    var o := At(if Taken(i.bop, s.Get(i.rs1), s.Get(i.rs2)) then pc + i.offset / 4 else pc + 1, s);
    assert StepAt(code, pc, s) == o;
    assert Run(code, o, 0) == o;
    assert Run(code, At(pc, s), 1) == o;
  }

  // ---- single steps -----------------------------------------------------------------------------------

  lemma StepImm(op: ImmOp, rd: Reg, rs: Reg, imm: bv12, s: State)
    ensures Step(OpImm(op, rd, rs, imm), s) == s.Set(rd, AluImm(op, s.Get(rs), Sext12(imm)))
  {
    hide AluImm, Sext12;
  }

  lemma StepOp(op: RegOp, rd: Reg, a: Reg, b: Reg, s: State)
    ensures Step(Op(op, rd, a, b), s) == s.Set(rd, Alu(op, s.Get(a), s.Get(b)))
  {
    hide Alu;
  }

  lemma StepShift(op: ShiftOp, rd: Reg, rs: Reg, m: bv6, s: State)
    ensures Step(Shift(op, rd, rs, m), s) == s.Set(rd, Shifted(op, s.Get(rs), m))
  {
    hide Shifted;
  }

  lemma StepContextLoad(op: LoadOp, rd: Reg, off: bv12, s: State)
    ensures Step(Load(op, rd, S11, off), s) == s.Set(rd, ReadContext(s.ctx, op, off))
  {
    hide ReadContext;
  }

  lemma StepContextStore(op: StoreOp, rs: Reg, off: bv12, s: State)
    ensures Step(Store(op, S11, rs, off), s) == s.(ctx := WriteContext(s.ctx, op, off, s.Get(rs)))
  {
    hide WriteContext;
  }

  lemma StepLoad(op: LoadOp, rd: Reg, rs: Reg, imm: bv12, s: State)
    requires rs != S11
    ensures Step(Load(op, rd, rs, imm), s)
      == s.Set(rd, Extend(op, ReadMem(s.memory, Plus(s.Get(rs), Sext12(imm)), LoadSize(op))))
  {
    hide Extend, ReadMem, Plus, Sext12, LoadSize;
  }

  lemma StepStore(op: StoreOp, rs1: Reg, rs2: Reg, imm: bv12, s: State)
    requires rs1 != S11
    ensures Step(Store(op, rs1, rs2, imm), s)
      == s.(memory := WriteMem(s.memory, Plus(s.Get(rs1), Sext12(imm)), StoreSize(op), s.Get(rs2)))
  {
    hide WriteMem, Plus, Sext12, StoreSize;
  }

  // ---- unrolling short sequences ------------------------------------------------------------

  lemma Exec1Word(c: seq<Instr>, s: State)
    requires |c| == 1
    ensures Exec(c, s) == Step(c[0], s)
  {
    hide Step;
    assert Exec(c, s) == Exec(c[1..], Step(c[0], s));
  }

  lemma Exec2Words(c: seq<Instr>, s: State)
    requires |c| == 2
    ensures Exec(c, s) == Step(c[1], Step(c[0], s))
  {
    hide Step;
    Exec1Word(c[1..], Step(c[0], s));
  }

  lemma Exec3Words(c: seq<Instr>, s: State)
    requires |c| == 3
    ensures Exec(c, s) == Step(c[2], Step(c[1], Step(c[0], s)))
  {
    hide Step;
    Exec2Words(c[1..], Step(c[0], s));
  }

  lemma Exec4Words(c: seq<Instr>, s: State)
    requires |c| == 4
    ensures Exec(c, s) == Step(c[3], Step(c[2], Step(c[1], Step(c[0], s))))
  {
    hide Step;
    Exec3Words(c[1..], Step(c[0], s));
  }
}
