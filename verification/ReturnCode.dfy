/** The code of calls and returns (call.cpp, ret.cpp) on a machine that represents the return predictor. */
module ReturnCode {
  import opened RiscV
  import opened Machine
  import opened Batches
  import opened Effects
  import opened Immediates
  import opened MemoryOperands
  import opened ReturnStacks
  import opened Relink
  import opened Jumps
  import opened StringLoops
  import GM = GuestMemory

  // ---- where the ring and the table are ----------------------------------------------------------------------

  /** The ring begins on a page; entry i of the table is 16 * i bytes into it. */
  datatype Layout = Layout(ring: bv64, table: bv64)

  predicate Aligned(ring: bv64) { ring & 0xfff < 1 }

  function SlotAddress(ring: bv64, k: bv8): bv64 { ring | ((k as bv64) << 2) }

  function EntryOffset(i: nat): bv64 { if i == 0 then 0 else Plus(EntryOffset(i - 1), 16) }

  function EntryAddress(l: Layout, i: nat): bv64 { Plus(l.table, EntryOffset(i)) }

  /** The slots of the ring hold the offsets of table entries. */
  ghost predicate RingHolds(l: Layout, m: Predictor, mem: Memory) {
    forall k: bv8 {:trigger SlotAddress(l.ring, k)} ::
      Address(SlotAddress(l.ring, k)) in mem.ring
        && mem.ring[Address(SlotAddress(l.ring, k))] as bv64 == EntryOffset(m.Slot(k))
  }

  ghost predicate TableHolds(l: Layout, m: Predictor, mem: Memory) {
    forall i: nat {:trigger EntryAddress(l, i)} :: i < |m.table| ==>
      && Address(EntryAddress(l, i)) in mem.table && mem.table[Address(EntryAddress(l, i))] == m.table[i].x86
      && Address(Plus(EntryAddress(l, i), 8)) in mem.table
        && mem.table[Address(Plus(EntryAddress(l, i), 8))] == m.table[i].host
  }

  /** The return stack pointer points to the top slot, and the table pointer to the table. */
  ghost predicate Represents(s: State, l: Layout, m: Predictor) {
    && Aligned(l.ring) && s.Get(S1) == SlotAddress(l.ring, m.top) && s.Get(S8) == l.table
    && |m.slots| == RingSize && (forall k: bv8 :: m.Slot(k) < |m.table|)
    && RingHolds(l, m, s.memory) && TableHolds(l, m, s.memory)
  }

  // ---- the pointer arithmetic ---------------------------------------------------------------------------------

  /** Clearing bit 10 wraps the pointer. */
  function Wrapped(p: bv64): bv64 { And(p, Sext12(0xbff)) }

  lemma WrapMask()
    ensures Sext12(0xbff) == 0xffff_ffff_ffff_fbff
  {
    assert 0 < 0xbff as bv12 & 0x800;
  }

  lemma FourUp(ring: bv64, k: bv8)
    requires ring & 0xfff < 1
    ensures (SlotAddress(ring, k) + 4) & 0xffff_ffff_ffff_fbff == SlotAddress(ring, k + 1)
  {
  }

  lemma FourDown(ring: bv64, k: bv8)
    requires ring & 0xfff < 1
    ensures (SlotAddress(ring, k) + 0x3fc) & 0xffff_ffff_ffff_fbff == SlotAddress(ring, k - 1)
  {
  }

  lemma PointerUp(ring: bv64, k: bv8)
    requires Aligned(ring)
    ensures And(Plus(SlotAddress(ring, k), 4), 0xffff_ffff_ffff_fbff) == SlotAddress(ring, Next(k))
  {
    hide SlotAddress;
    FourUp(ring, k);
  }

  lemma PointerDown(ring: bv64, k: bv8)
    requires Aligned(ring)
    ensures And(Plus(SlotAddress(ring, k), 0x3fc), 0xffff_ffff_ffff_fbff) == SlotAddress(ring, Prev(k))
  {
    hide SlotAddress;
    FourDown(ring, k);
  }

  lemma SlotsApart(ring: bv64, k: bv8, j: bv8)
    requires Aligned(ring) && SlotAddress(ring, k) == SlotAddress(ring, j)
    ensures k == j
  {
  }

  // ---- single instructions --------------------------------------------------------------------------------------

  lemma WrapRuns(s: State)
    ensures Leaves([OpImm(ANDI, S1, S1, 0xbff)], s, S1, Wrapped(s.Get(S1)), {S1})
  {
    hide Exec, Step, And, Sext12, State.Set, State.Get;
    Exec1Word([OpImm(ANDI, S1, S1, 0xbff)], s);
    StepImm(ANDI, S1, S1, 0xbff, s);
    SetKeeps(s, S1, Wrapped(s.Get(S1)));
  }

  /** Moving the pointer by some bytes and wrapping it. */
  lemma PointerMoves(bytes: bv64, s: State)
    requires Small(bytes)
    ensures Leaves([OpImm(ADDI, S1, S1, Cut(bytes))] + [OpImm(ANDI, S1, S1, 0xbff)], s, S1,
      Wrapped(Plus(s.Get(S1), bytes)), {S1})
  {
    hide Exec, Plus, Cut, Wrapped, Small, State.Get;
    var a := [OpImm(ADDI, S1, S1, Cut(bytes))];
    StepAddi(S1, S1, bytes, s);
    WrapRuns(Exec(a, s));
    LeavesThen(a, [OpImm(ANDI, S1, S1, 0xbff)], s, S1, Plus(s.Get(S1), bytes), S1, Wrapped(Plus(s.Get(S1), bytes)),
      {S1}, {S1});
    assert {S1} + {S1} == {S1};
  }

  lemma LoadFrom(op: LoadOp, dest: Reg, r: Reg, imm: bv12, s: State)
    requires (op == LD || op == LWU) && r != S11 && !dest.Zero?
    ensures Leaves([Load(op, dest, r, imm)], s, dest, ReadMem(s.memory, Plus(s.Get(r), Sext12(imm)), LoadSize(op)),
      {dest})
  {
    hide Exec, Step, ReadMem, Plus, Sext12, State.Set, State.Get;
    Exec1Word([Load(op, dest, r, imm)], s);
    StepLoad(op, dest, r, imm, s);
    SetKeeps(s, dest, ReadMem(s.memory, Plus(s.Get(r), Sext12(imm)), LoadSize(op)));
  }

  lemma PlusSextZero(x: bv64)
    ensures Plus(x, Sext12(0)) == x
  {
    assert !(0 < 0 as bv12 & 0x800);
    assert Plus(x, 0) == x;
  }

  lemma LoadAt(op: LoadOp, dest: Reg, r: Reg, s: State)
    requires (op == LD || op == LWU) && r != S11 && !dest.Zero?
    ensures Leaves([Load(op, dest, r, 0)], s, dest, ReadMem(s.memory, s.Get(r), LoadSize(op)), {dest})
  {
    hide Leaves, ReadMem, Plus, Sext12, State.Get;
    LoadFrom(op, dest, r, 0, s);
    PlusSextZero(s.Get(r));
  }

  // ---- returning: taking the address from the stack and the guess from the ring -----------------------------------

  /** rsp is raised by the popped address and the instruction's operand. */
  function PopWords(pop: bv64, load: seq<Instr>): seq<Instr> {
    if pop < 0x800 then [OpImm(ADDI, SP, SP, Cut(pop))] else load + [Op(ADD, SP, SP, T0)]
  }

  lemma PopRuns(pop: bv64, load: seq<Instr>, s: State)
    requires !(pop < 0x800) ==> Sets(load, T0, pop)
    ensures Leaves(PopWords(pop, load), s, SP, Plus(s.Get(SP), pop), {T0, SP})
  {
    hide Exec, Plus, Cut, Sets, State.Get, Keeps;
    if pop < 0x800 {
      StepAddi(SP, SP, pop, s);
      LeavesMore([OpImm(ADDI, SP, SP, Cut(pop))], s, SP, Plus(s.Get(SP), pop), {SP}, {T0, SP});
    } else {
      SetsLeaves(load, T0, pop, s);
      StepAdd(SP, SP, T0, Exec(load, s));
      LeavesParts(load, s, T0, pop, {T0}, SP);
      LeavesThen(load, [Op(ADD, SP, SP, T0)], s, T0, pop, SP, Plus(s.Get(SP), pop), {T0}, {SP});
      assert {T0} + {SP} == {T0, SP};
    }
  }

  function PointerWords(bytes: bv64): seq<Instr> { [OpImm(ADDI, S1, S1, Cut(bytes))] + [OpImm(ANDI, S1, S1, 0xbff)] }

  const GuessWords: seq<Instr> := [Load(LWU, T0, S1, 0)] + [Op(ADD, T1, S8, T0)] + [Load(LD, T2, T1, 0)]

  /** The address of the table entry the top slot names. */
  lemma EntryRuns(s: State)
    ensures Leaves([Load(LWU, T0, S1, 0)] + [Op(ADD, T1, S8, T0)], s, T1,
      Plus(s.Get(S8), ReadMem(s.memory, s.Get(S1), 4)), {T0, T1})
  {
    hide Exec, ReadMem, Plus, State.Get, Leaves, Keeps;
    var a, b, v := [Load(LWU, T0, S1, 0)], [Op(ADD, T1, S8, T0)], ReadMem(s.memory, s.Get(S1), 4);
    LoadAt(LWU, T0, S1, s);
    LeavesParts(a, s, T0, v, {T0}, S8);
    StepAdd(T1, S8, T0, Exec(a, s));
    LeavesThen(a, b, s, T0, v, T1, Plus(s.Get(S8), v), {T0}, {T1});
    assert {T0} + {T1} == {T0, T1};
  }

  /** The table entry the top slot names. */
  lemma GuessRuns(s: State)
    ensures var t := Exec(GuessWords, s);
      && Keeps(s, t, {T0, T1, T2})
      && t.Get(T1) == Plus(s.Get(S8), ReadMem(s.memory, s.Get(S1), 4)) && t.Get(T2) == ReadMem(s.memory, t.Get(T1), 8)
  {
    hide Exec, ReadMem, Plus, State.Get, Leaves, Keeps;
    var a, b := [Load(LWU, T0, S1, 0)] + [Op(ADD, T1, S8, T0)], [Load(LD, T2, T1, 0)];
    var u, v := Exec(a, s), Plus(s.Get(S8), ReadMem(s.memory, s.Get(S1), 4));
    EntryRuns(s);
    LeavesParts(a, s, T1, v, {T0, T1}, S8);
    KeepsMemory(s, u, {T0, T1});
    LoadAt(LD, T2, T1, u);
    LeavesParts(b, u, T2, ReadMem(u.memory, u.Get(T1), 8), {T2}, T1);
    ExecAppend(a, b, s);
    KeepsTrans(s, u, Exec(b, u), {T0, T1}, {T2});
    assert {T0, T1} + {T2} == {T0, T1, T2};
  }

  function PreparedWords(pop: bv64, load: seq<Instr>): seq<Instr> {
    [Load(LD, T3, SP, 0)] + PopWords(pop, load) + PointerWords(0x3fc) + GuessWords
  }

  const RetTemps: set<Reg> := {T0, T1, T2, T3, SP, S1}

  /** The popped address is in t3, the entry's address in t1 and the guessed guest address in t2. */
  ghost predicate Prepared(s: State, t: State, pop: bv64) {
    && Keeps(s, t, RetTemps)
    && t.Get(T3) == ReadMem(s.memory, s.Get(SP), 8) && t.Get(SP) == Plus(s.Get(SP), pop)
    && t.Get(S1) == Wrapped(Plus(s.Get(S1), 0x3fc))
    && t.Get(T1) == Plus(s.Get(S8), ReadMem(s.memory, t.Get(S1), 4)) && t.Get(T2) == ReadMem(s.memory, t.Get(T1), 8)
  }

  lemma PoppedRuns(pop: bv64, load: seq<Instr>, s: State)
    requires !(pop < 0x800) ==> Sets(load, T0, pop)
    ensures var t := Exec([Load(LD, T3, SP, 0)] + PopWords(pop, load), s);
      && Keeps(s, t, {T0, T3, SP})
      && t.Get(T3) == ReadMem(s.memory, s.Get(SP), 8) && t.Get(SP) == Plus(s.Get(SP), pop)
  {
    hide Exec, ReadMem, Plus, PopWords, Sets, State.Get;
    var a := [Load(LD, T3, SP, 0)];
    LoadAt(LD, T3, SP, s);
    ExecAppend(a, PopWords(pop, load), s);
    PopRuns(pop, load, Exec(a, s));
  }

  lemma MovedRuns(pop: bv64, load: seq<Instr>, s: State)
    requires !(pop < 0x800) ==> Sets(load, T0, pop)
    ensures var t := Exec([Load(LD, T3, SP, 0)] + PopWords(pop, load) + PointerWords(0x3fc), s);
      && Keeps(s, t, {T0, T3, SP, S1})
      && t.Get(T3) == ReadMem(s.memory, s.Get(SP), 8) && t.Get(SP) == Plus(s.Get(SP), pop)
      && t.Get(S1) == Wrapped(Plus(s.Get(S1), 0x3fc))
  {
    hide Exec, ReadMem, Plus, PopWords, PointerWords, Wrapped, Sets, State.Get;
    var a := [Load(LD, T3, SP, 0)] + PopWords(pop, load);
    PoppedRuns(pop, load, s);
    ExecAppend(a, PointerWords(0x3fc), s);
    PointerDownRuns(Exec(a, s));
  }

  lemma PointerDownRuns(s: State)
    ensures Leaves(PointerWords(0x3fc), s, S1, Wrapped(Plus(s.Get(S1), 0x3fc)), {S1})
  {
    hide Leaves, Plus, Wrapped, Cut, State.Get;
    PointerMoves(0x3fc, s);
  }

  lemma PreparedRuns(pop: bv64, load: seq<Instr>, s: State)
    requires !(pop < 0x800) ==> Sets(load, T0, pop)
    ensures Prepared(s, Exec(PreparedWords(pop, load), s), pop)
  {
    hide Exec, ReadMem, Plus, PopWords, PointerWords, Wrapped, Sets, State.Get;
    var a := [Load(LD, T3, SP, 0)] + PopWords(pop, load) + PointerWords(0x3fc);
    MovedRuns(pop, load, s);
    ExecAppend(a, GuessWords, s);
    GuessRuns(Exec(a, s));
  }

  /** The entry that a return is guessed to go back to. */
  function Guess(m: Predictor): nat { m.Slot(Prev(m.top)) }

  lemma GuessListed(s: State, l: Layout, m: Predictor)
    requires Represents(s, l, m)
    ensures Guess(m) < |m.table| && m.Popped() == m.table[Guess(m)]
    ensures ReadMem(s.memory, SlotAddress(l.ring, Prev(m.top)), 4) == EntryOffset(Guess(m))
    ensures ReadMem(s.memory, EntryAddress(l, Guess(m)), 8) == m.Popped().x86
    ensures ReadMem(s.memory, Plus(EntryAddress(l, Guess(m)), 8), 8) == m.Popped().host
  {
    hide EntryAddress, EntryOffset, SlotAddress, Plus, Predictor.Slot;
    var k := SlotAddress(l.ring, Prev(m.top));
    var e := EntryAddress(l, Guess(m));
  }

  lemma PointerAfter(s: State, l: Layout, m: Predictor)
    requires Represents(s, l, m)
    ensures Wrapped(Plus(s.Get(S1), 0x3fc)) == SlotAddress(l.ring, Prev(m.top))
  {
    hide SlotAddress, Plus, And, Sext12, State.Get, RingHolds, TableHolds, Aligned;
    WrapMask();
    PointerDown(l.ring, m.top);
  }

  lemma SameSlots(l: Layout, m: Predictor, n: Predictor, mem: Memory)
    requires n.slots == m.slots && n.table == m.table && RingHolds(l, m, mem) && TableHolds(l, m, mem)
    requires forall k: bv8 :: m.Slot(k) < |m.table|
    ensures RingHolds(l, n, mem) && TableHolds(l, n, mem) && forall k: bv8 :: n.Slot(k) < |n.table|
  {
    hide SlotAddress, EntryAddress, EntryOffset, Predictor.Slot;
    forall k: bv8 ensures n.Slot(k) == m.Slot(k) {
      SameSlot(m, n, k);
    }
  }

  /** The machine after the guess was taken represents the predictor after the return. */
  lemma PreparedRepresents(s: State, t: State, pop: bv64, l: Layout, m: Predictor)
    requires Represents(s, l, m) && Prepared(s, t, pop)
    ensures Represents(t, l, m.(top := Prev(m.top)))
    ensures t.Get(T1) == EntryAddress(l, Guess(m)) && t.Get(T2) == m.Popped().x86
    ensures ReadMem(t.memory, Plus(t.Get(T1), 8), 8) == m.Popped().host
  {
    hide SlotAddress, EntryOffset, Wrapped, Plus, RingHolds, TableHolds, Aligned, ReadMem, State.Get, Predictor.Slot;
    hide Predictor.Popped, Guess;
    PointerAfter(s, l, m);
    GuessListed(s, l, m);
    SameSlots(l, m, m.(top := Prev(m.top)), s.memory);
  }

  // ---- returning: the three ways out ----------------------------------------------------------------------

  function RetWords(pop: bv64, load: seq<Instr>): seq<Instr> {
    PreparedWords(pop, load)
      + [Branch(BEQ, T3, T2, 8), Jalr(RA, S10, 8), Load(LD, T3, T1, 8), Beqz(T3, 8), Jalr(Zero, T3, 0),
        Jalr(RA, S10, 12)]
  }

  lemma PlacedWords(code: seq<Instr>, p: nat, x: seq<Instr>)
    requires Placed(code, p, x)
    ensures p + |x| <= |code| && forall i :: 0 <= i < |x| ==> code[p + i] == x[i]
  {
    forall i | 0 <= i < |x| ensures code[p + i] == x[i] {
      assert code[p..p + |x|][i] == code[p + i];
    }
  }

  lemma RetParts(code: seq<Instr>, p: nat, pop: bv64, load: seq<Instr>)
    requires Placed(code, p, RetWords(pop, load))
    ensures var n := p + |PreparedWords(pop, load)|;
      && Placed(code, p, PreparedWords(pop, load)) && n + 6 <= |code|
      && code[n] == Branch(BEQ, T3, T2, 8) && code[n + 1] == Jalr(RA, S10, 8) && code[n + 2] == Load(LD, T3, T1, 8)
      && code[n + 3] == Beqz(T3, 8) && code[n + 4] == Jalr(Zero, T3, 0) && code[n + 5] == Jalr(RA, S10, 12)
  {
    hide PreparedWords;
    var x, y := PreparedWords(pop, load), RetWords(pop, load);
    var z := [Branch(BEQ, T3, T2, 8), Jalr(RA, S10, 8), Load(LD, T3, T1, 8), Beqz(T3, 8), Jalr(Zero, T3, 0),
      Jalr(RA, S10, 12)];
    assert [] + x + z == y && x + z + [] == y;
    PlacedPart(code, p, [], x, z);
    PlacedPart(code, p, x, z, []);
    PlacedWords(code, p + |x|, z);
    assert |z| == 6;
  }

  lemma OneStep(code: seq<Instr>, p: nat, s: State, o: Machine.Outcome)
    requires p < |code| && StepAt(code, p, s) == o
    ensures Reaches(code, At(p, s), o)
  {
    hide StepAt;
    assert Run(code, o, 0) == o;
    assert Run(code, At(p, s), 1) == o;
  }

  lemma LeavesThrough(code: seq<Instr>, p: nat, entry: bv12, s: State)
    requires p < |code| && code[p] == Jalr(RA, S10, entry)
    ensures Reaches(code, At(p, s), Rerouted(entry, s))
  {
    hide Reaches;
    OneStep(code, p, s, Rerouted(entry, s));
  }

  lemma JumpsTo(code: seq<Instr>, p: nat, s: State)
    requires p < |code| && code[p] == Jalr(Zero, T3, 0)
    ensures Reaches(code, At(p, s), Jumped(s.Get(T3), s))
  {
    hide Reaches, Plus, Sext12, State.Get;
    PlusSextZero(s.Get(T3));
    OneStep(code, p, s, Jumped(s.Get(T3), s));
  }

  lemma LoadHost(s: State)
    ensures Leaves([Load(LD, T3, T1, 8)], s, T3, ReadMem(s.memory, Plus(s.Get(T1), 8), 8), {T3})
  {
    hide Leaves, ReadMem, Plus, State.Get;
    LoadFrom(LD, T3, T1, 8, s);
    assert Sext12(8) == 8 by { assert !(0 < 8 as bv12 & 0x800); }
  }

  lemma HostLoaded(code: seq<Instr>, q: nat, t: State) returns (u: State)
    requires q < |code| && code[q] == Load(LD, T3, T1, 8)
    ensures Keeps(t, u, {T3}) && u.Get(T3) == ReadMem(t.memory, Plus(t.Get(T1), 8), 8) && u.Get(T1) == t.Get(T1)
    ensures Reaches(code, At(q, t), At(q + 1, u))
  {
    hide Exec, ReadMem, Plus, Reaches, State.Get;
    var w := [Load(LD, T3, T1, 8)];
    u := Exec(w, t);
    LoadHost(t);
    Flow1(Load(LD, T3, T1, 8));
    assert code[q..q + 1] == w;
    ReachesStraight(code, q, w, t);
  }

  /** The guess was right: on to the translation, or to the routine that finds it. */
  lemma RightGuess(code: seq<Instr>, q: nat, t: State) returns (u: State)
    requires q + 4 <= |code| && code[q] == Load(LD, T3, T1, 8)
    requires code[q + 1] == Beqz(T3, 8) && code[q + 2] == Jalr(Zero, T3, 0) && code[q + 3] == Jalr(RA, S10, 12)
    ensures Keeps(t, u, {T3}) && u.Get(T1) == t.Get(T1)
    ensures var h := ReadMem(t.memory, Plus(t.Get(T1), 8), 8);
      Reaches(code, At(q, t), if h == 0 then Rerouted(12, u) else Jumped(h, u))
  {
    hide ReadMem, Plus, Reaches, Keeps, Taken, State.Get;
    u := HostLoaded(code, q, t);
    var h := ReadMem(t.memory, Plus(t.Get(T1), 8), 8);
    ReachesBranch(code, q + 1, u);
    GetZero(u);
    EqualTest(h, 0);
    if h == 0 {
      LeavesThrough(code, q + 3, 12, u);
      ReachesTrans(code, At(q, t), At(q + 1, u), At(q + 3, u));
      ReachesTrans(code, At(q, t), At(q + 3, u), Rerouted(12, u));
    } else {
      JumpsTo(code, q + 2, u);
      ReachesTrans(code, At(q, t), At(q + 1, u), At(q + 2, u));
      ReachesTrans(code, At(q, t), At(q + 2, u), Jumped(h, u));
    }
  }

  lemma EqualTest(a: bv64, b: bv64)
    ensures Taken(BEQ, a, b) == (a == b)
  {
  }

  /** Where control goes, as the dispatcher's routines promise (dispatcher.h). */
  function Continues(o: Machine.Outcome, t: Translation): bv64 {
    match o
    case Rerouted(entry, u) => if entry == 8 then t(u.Get(T3))
      else if entry == 12 then t(ReadMem(u.memory, u.Get(T1), 8)) else 0
    case Jumped(target, _) => target
    case At(_, _) => 0
  }

  /** The run of a return ends here. */
  ghost predicate Returned(code: seq<Instr>, p: nat, s: State, l: Layout, m: Predictor, pop: bv64, t: Translation,
        o: Machine.Outcome) {
    && Reaches(code, At(p, s), o) && !o.At?
    && Keeps(s, o.s, RetTemps) && o.s.Get(SP) == Plus(s.Get(SP), pop) && Represents(o.s, l, m.(top := Prev(m.top)))
    && Continues(o, t) == Destination(m, ReadMem(s.memory, s.Get(SP), 8), t)
  }

  lemma MoreKept(s: State, t: State, u: State, l: Layout, m: Predictor)
    requires Keeps(s, t, RetTemps) && Keeps(t, u, {T3}) && Represents(t, l, m)
    ensures Keeps(s, u, RetTemps) && u.Get(SP) == t.Get(SP) && Represents(u, l, m)
  {
    hide State.Get, SlotAddress, RingHolds, TableHolds, Aligned, Predictor.Slot;
  }

  /** Running to the test of the guess. */
  lemma PreparedThere(code: seq<Instr>, p: nat, s: State, pop: bv64, load: seq<Instr>) returns (u: State)
    requires Placed(code, p, PreparedWords(pop, load)) && (!(pop < 0x800) ==> Sets(load, T0, pop))
    ensures Prepared(s, u, pop) && Reaches(code, At(p, s), At(p + |PreparedWords(pop, load)|, u))
  {
    hide Exec, Reaches, PreparedWords, Prepared, AllFlow, Sets;
    PreparedRuns(pop, load, s);
    PreparedFlows(pop, load);
    u := Exec(PreparedWords(pop, load), s);
    ReachesStraight(code, p, PreparedWords(pop, load), s);
  }

  lemma PreparedFlows(pop: bv64, load: seq<Instr>)
    requires !(pop < 0x800) ==> Sets(load, T0, pop)
    ensures AllFlow(PreparedWords(pop, load))
  {
    hide Sets, Cut;
    var a, b, c := [Load(LD, T3, SP, 0)], PopWords(pop, load), PointerWords(0x3fc);
    if pop < 0x800 {
      Flow1(OpImm(ADDI, SP, SP, Cut(pop)));
    } else {
      SetsFlow(load, T0, pop);
      Flow1(Op(ADD, SP, SP, T0));
      AllFlowAppend(load, [Op(ADD, SP, SP, T0)]);
    }
    PlainFlows();
    AllFlowAppend(a, b);
    AllFlowAppend(a + b, c);
    AllFlowAppend(a + b + c, GuessWords);
  }

  lemma PlainFlows()
    ensures AllFlow([Load(LD, T3, SP, 0)]) && AllFlow(PointerWords(0x3fc)) && AllFlow(GuessWords)
  {
  }

  /** A right guess: control leaves for what the table entry names. */
  lemma GuessLeaves(code: seq<Instr>, q: nat, u: State, m: Predictor, t: Translation) returns (o: Machine.Outcome)
    requires q + 4 <= |code| && code[q] == Load(LD, T3, T1, 8)
    requires code[q + 1] == Beqz(T3, 8) && code[q + 2] == Jalr(Zero, T3, 0) && code[q + 3] == Jalr(RA, S10, 12)
    requires u.Get(T2) == ReadMem(u.memory, u.Get(T1), 8) && u.Get(T2) == m.Popped().x86
    requires ReadMem(u.memory, Plus(u.Get(T1), 8), 8) == m.Popped().host
    ensures Reaches(code, At(q, u), o) && !o.At? && Keeps(u, o.s, {T3})
    ensures Continues(o, t) == Destination(m, u.Get(T2), t)
  {
    hide Reaches, Keeps, ReadMem, Plus, Predictor.Popped, State.Get;
    var v := RightGuess(code, q, u);
    var h := m.Popped().host;
    o := if h == 0 then Rerouted(12, v) else Jumped(h, v);
    EntryRead(u, v);
  }

  /** Wherever the code of a return stands, it leaves for the address on top of the guest's stack. */
  lemma RetReturns(code: seq<Instr>, p: nat, s: State, l: Layout, m: Predictor, pop: bv64, load: seq<Instr>,
        t: Translation)
      returns (o: Machine.Outcome)
    requires Placed(code, p, RetWords(pop, load)) && Represents(s, l, m) && (!(pop < 0x800) ==> Sets(load, T0, pop))
    ensures Returned(code, p, s, l, m, pop, t, o)
  {
    hide Exec, Reaches, PreparedWords, RetWords, Prepared, Placed, Represents, Keeps, Sets, ReadMem, Plus, Taken;
    hide Predictor.Popped, State.Get;
    var n, k := p + |PreparedWords(pop, load)|, m.(top := Prev(m.top));
    RetParts(code, p, pop, load);
    var u := PreparedThere(code, p, s, pop, load);
    PreparedParts(s, u, pop);
    PreparedRepresents(s, u, pop, l, m);
    ReachesBranch(code, n, u);
    EqualTest(u.Get(T3), u.Get(T2));
    if u.Get(T3) == u.Get(T2) {
      o := GuessLeaves(code, n + 2, u, m, t);
      MoreKept(s, u, o.s, l, k);
      ReachesTrans(code, At(p, s), At(n, u), At(n + 2, u));
      ReachesTrans(code, At(p, s), At(n + 2, u), o);
    } else {
      LeavesThrough(code, n + 1, 8, u);
      ReachesTrans(code, At(p, s), At(n, u), At(n + 1, u));
      ReachesTrans(code, At(p, s), At(n + 1, u), Rerouted(8, u));
      o := Rerouted(8, u);
    }
  }

  lemma PreparedParts(s: State, t: State, pop: bv64)
    requires Prepared(s, t, pop)
    ensures Keeps(s, t, RetTemps) && t.Get(T3) == ReadMem(s.memory, s.Get(SP), 8) && t.Get(SP) == Plus(s.Get(SP), pop)
    ensures t.Get(T2) == ReadMem(t.memory, t.Get(T1), 8)
  {
    hide State.Get, ReadMem, Plus, Wrapped;
  }

  lemma EntryRead(u: State, v: State)
    requires Keeps(u, v, {T3}) && v.Get(T1) == u.Get(T1) && u.Get(T2) == ReadMem(u.memory, u.Get(T1), 8)
    ensures ReadMem(v.memory, v.Get(T1), 8) == u.Get(T2)
  {
    hide State.Get, ReadMem;
  }

  ghost predicate ReturnsAt(code: seq<Instr>, p: nat, s: State, l: Layout, m: Predictor, pop: bv64, t: Translation) {
    exists o: Machine.Outcome :: Returned(code, p, s, l, m, pop, t, o)
  }

  lemma ReturnsThere(code: seq<Instr>, p: nat, s: State, l: Layout, m: Predictor, pop: bv64, load: seq<Instr>,
        t: Translation)
    requires Placed(code, p, RetWords(pop, load)) && Represents(s, l, m) && (!(pop < 0x800) ==> Sets(load, T0, pop))
    ensures ReturnsAt(code, p, s, l, m, pop, t)
  {
    hide Placed, Represents, Returned, Sets, RetWords;
    var o := RetReturns(code, p, s, l, m, pop, load, t);
  }

  /** Wherever the code stands and whatever the machine represents, it returns. */
  ghost predicate Returns(x: seq<Instr>, pop: bv64) {
    forall code: seq<Instr>, p: nat, s: State, l: Layout, m: Predictor, t: Translation
      {:trigger ReturnsAt(code, p, s, l, m, pop, t)} ::
      Placed(code, p, x) && Represents(s, l, m) ==> ReturnsAt(code, p, s, l, m, pop, t)
  }

  /** Popping the address and looking up the guess. */
  method EmitPrepared(batch: CodeBatch, pop: bv64) returns (ghost load: seq<Instr>)
    modifies batch
    ensures batch.code == old(batch.code) + PreparedWords(pop, load)
    ensures !(pop < 0x800) ==> Sets(load, T0, pop)
  {
    hide Sets;
    load := [];
    var _ := batch.Add(Load(LD, T3, SP, 0));
    if pop < 0x800 {
      var _ := batch.Add(OpImm(ADDI, SP, SP, Cut(pop)));
    } else {
      load := LoadImmediate(batch, pop, T0);
      var _ := batch.Add(Op(ADD, SP, SP, T0));
    }
    assert batch.code == old(batch.code) + ([Load(LD, T3, SP, 0)] + PopWords(pop, load));
    var _ := batch.Add(OpImm(ADDI, S1, S1, 0x3fc));
    var _ := batch.Add(OpImm(ANDI, S1, S1, 0xbff));
    var _ := batch.Add(Load(LWU, T0, S1, 0));
    var _ := batch.Add(Op(ADD, T1, S8, T0));
    var _ := batch.Add(Load(LD, T2, T1, 0));
  }

  /** Ret::generate. */
  method GenerateRet(batch: CodeBatch, immediate: bv16) returns (ghost x: seq<Instr>)
    modifies batch
    ensures batch.code == old(batch.code) + x
    ensures Returns(x, immediate as bv64 + 8)
  {
    hide Placed, Represents, ReturnsAt, Sets, PreparedWords;
    var pop := immediate as bv64 + 8;
    ghost var load := EmitPrepared(batch, pop);
    ghost var a := batch.code;
    var guessTest := batch.Add(Nop());
    var _ := batch.Add(Jalr(RA, S10, 8));
    batch.Insert(guessTest, Branch(BEQ, T3, T2, batch.Offset(guessTest, |batch.code|) * 4));
    Patched(a, [Jalr(RA, S10, 8)], Branch(BEQ, T3, T2, 8));
    assert batch.code == a + [Branch(BEQ, T3, T2, 8)] + [Jalr(RA, S10, 8)];
    var _ := batch.Add(Load(LD, T3, T1, 8));
    ghost var b := batch.code;
    var translate := batch.Add(Nop());
    var _ := batch.Add(Jalr(Zero, T3, 0));
    batch.Insert(translate, Beqz(T3, batch.Offset(translate, |batch.code|) * 4));
    Patched(b, [Jalr(Zero, T3, 0)], Beqz(T3, 8));
    var _ := batch.Add(Jalr(RA, S10, 12));
    x := RetWords(pop, load);
    assert batch.code == old(batch.code) + x;
    EmittedReturns(x, pop, load);
  }

  lemma EmittedReturns(x: seq<Instr>, pop: bv64, load: seq<Instr>)
    requires x == RetWords(pop, load) && (!(pop < 0x800) ==> Sets(load, T0, pop))
    ensures Returns(x, pop)
  {
    hide Placed, Represents, ReturnsAt, Sets, RetWords;
    forall code: seq<Instr>, p: nat, s: State, l: Layout, m: Predictor, t: Translation | Placed(code, p, x)
      && Represents(s, l, m)
      ensures ReturnsAt(code, p, s, l, m, pop, t)
    {
      ReturnsThere(code, p, s, l, m, pop, load, t);
    }
  }

  /**
   The code of a return, wherever it stands, continues at the translation of the guest address
   on top of the guest's stack, whatever the ring and the table hold.
   */
  lemma ReturnsToPopped(x: seq<Instr>, pop: bv64, code: seq<Instr>, p: nat, s: State, l: Layout, m: Predictor,
        t: Translation)
      returns (o: Machine.Outcome)
    requires Returns(x, pop) && Placed(code, p, x) && Represents(s, l, m) && Valid(m, t)
    ensures Reaches(code, At(p, s), o) && !o.At? && Continues(o, t) == t(ReadMem(s.memory, s.Get(SP), 8))
    ensures Keeps(s, o.s, RetTemps) && o.s.Get(SP) == Plus(s.Get(SP), pop)
    ensures Represents(o.s, l, m.(top := Prev(m.top)))
  {
    hide Placed, Represents, Reaches, Continues, ReadMem, Keeps, Valid, Destination, State.Get;
    assert ReturnsAt(code, p, s, l, m, pop, t);
    o :| Returned(code, p, s, l, m, pop, t, o);
    DestinationRight(m, ReadMem(s.memory, s.Get(SP), 8), t);
  }

  // ---- calling ------------------------------------------------------------------------------------------------------

  function TableLoad(offset: bv64): seq<Instr> {
    if offset < 0x800 then [Load(LD, T1, S8, Cut(offset))] else [Op(ADD, T1, S8, T0)] + [Load(LD, T1, T1, 0)]
  }

  /** The code before the jump. */
  function CallWords(offset: bv64, load: seq<Instr>): seq<Instr> {
    load + [Store(SW, S1, T0, 0)] + PointerWords(4) + TableLoad(offset)
      + ([OpImm(ADDI, SP, SP, 0xff8)] + [Store(SD, SP, T1, 0)])
  }

  lemma TableRuns(offset: bv64, s: State)
    requires s.Get(T0) == offset
    ensures Leaves(TableLoad(offset), s, T1, ReadMem(s.memory, Plus(s.Get(S8), offset), 8), {T1})
  {
    hide Exec, ReadMem, Plus, Cut, Sext12, State.Get;
    if offset < 0x800 {
      LoadFrom(LD, T1, S8, Cut(offset), s);
      SmallBits(offset);
    } else {
      var a := [Op(ADD, T1, S8, T0)];
      StepAdd(T1, S8, T0, s);
      LoadAt(LD, T1, T1, Exec(a, s));
      LeavesThen(a, [Load(LD, T1, T1, 0)], s, T1, Plus(s.Get(S8), offset), T1,
        ReadMem(s.memory, Plus(s.Get(S8), offset), 8), {T1}, {T1});
      assert {T1} + {T1} == {T1};
    }
  }

  lemma StoreTo(op: StoreOp, r: Reg, src: Reg, s: State)
    requires (op == SW || op == SD) && r != S11
    ensures Exec([Store(op, r, src, 0)], s) == s.(memory := WriteMem(s.memory, s.Get(r), StoreSize(op), s.Get(src)))
  {
    hide Exec, Step, WriteMem, Plus, Sext12, State.Get;
    Exec1Word([Store(op, r, src, 0)], s);
    StepStore(op, r, src, 0, s);
    PlusSextZero(s.Get(r));
  }

  /** Pushing the entry's offset onto the ring. */
  lemma RingRuns(offset: bv64, load: seq<Instr>, s: State)
    requires Sets(load, T0, offset)
    ensures var t := Exec(load + [Store(SW, S1, T0, 0)] + PointerWords(4), s);
      && Beside(s, t, {T0, S1}) && t.memory == WriteMem(s.memory, s.Get(S1), 4, offset)
      && t.Get(T0) == offset && t.Get(S1) == Wrapped(Plus(s.Get(S1), 4))
  {
    hide Exec, WriteMem, Plus, PointerWords, Wrapped, Sets, State.Get;
    var a, b := load, [Store(SW, S1, T0, 0)];
    SetsLeaves(load, T0, offset, s);
    ExecAppend(a, b, s);
    StoreTo(SW, S1, T0, Exec(a, s));
    MemoryOnly(Exec(a, s), WriteMem(s.memory, s.Get(S1), 4, offset));
    ExecAppend(a + b, PointerWords(4), s);
    PointerUpRuns(Exec(a + b, s));
  }

  lemma PointerUpRuns(s: State)
    ensures Leaves(PointerWords(4), s, S1, Wrapped(Plus(s.Get(S1), 4)), {S1})
  {
    hide Leaves, Plus, Wrapped, Cut, State.Get;
    PointerMoves(4, s);
  }

  function Below8(a: bv64): bv64 { Plus(a, 0xffff_ffff_ffff_fff8) }

  lemma DownEight(s: State)
    ensures Leaves([OpImm(ADDI, SP, SP, 0xff8)], s, SP, Below8(s.Get(SP)), {SP})
  {
    hide Leaves, Plus, State.Get;
    assert Cut(0xffff_ffff_ffff_fff8) == 0xff8;
    StepAddi(SP, SP, 0xffff_ffff_ffff_fff8, s);
  }

  lemma PushRuns(s: State)
    ensures var t := Exec([OpImm(ADDI, SP, SP, 0xff8)] + [Store(SD, SP, T1, 0)], s);
      && Beside(s, t, {SP}) && t.Get(SP) == Below8(s.Get(SP))
        && t.memory == WriteMem(s.memory, Below8(s.Get(SP)), 8, s.Get(T1))
  {
    hide Exec, WriteMem, Below8, State.Get;
    var a := [OpImm(ADDI, SP, SP, 0xff8)];
    DownEight(s);
    ExecAppend(a, [Store(SD, SP, T1, 0)], s);
    StoreTo(SD, SP, T1, Exec(a, s));
    MemoryOnly(Exec(a, s), WriteMem(s.memory, Below8(s.Get(SP)), 8, s.Get(T1)));
  }

  /** The state after the code before the jump. */
  ghost predicate Called(s: State, t: State, offset: bv64) {
    && Beside(s, t, {T0, T1, S1, SP})
    && t.Get(S1) == Wrapped(Plus(s.Get(S1), 4)) && t.Get(SP) == Below8(s.Get(SP))
    && var ringed := WriteMem(s.memory, s.Get(S1), 4, offset);
    t.memory == WriteMem(ringed, Below8(s.Get(SP)), 8, ReadMem(ringed, Plus(s.Get(S8), offset), 8))
  }

  lemma CallRuns(offset: bv64, load: seq<Instr>, s: State)
    requires Sets(load, T0, offset)
    ensures Called(s, Exec(CallWords(offset, load), s), offset)
  {
    hide Exec, WriteMem, ReadMem, Plus, PointerWords, TableLoad, Wrapped, Below8, Sets, State.Get;
    var a, b := load + [Store(SW, S1, T0, 0)] + PointerWords(4), TableLoad(offset);
    var c := [OpImm(ADDI, SP, SP, 0xff8)] + [Store(SD, SP, T1, 0)];
    RingRuns(offset, load, s);
    ExecAppend(a, b, s);
    TableRuns(offset, Exec(a, s));
    ExecAppend(a + b, c, s);
    PushRuns(Exec(a + b, s));
  }

  /** The offset survives in a 32-bit slot, and the guest's stack is not the call table. */
  predicate Callable(s: State, l: Layout, m: Predictor, i: nat) {
    i < |m.table| && EntryOffset(i) < 0x1_0000_0000 && Address(Below8(s.Get(SP))) !in s.memory.table
  }

  lemma PointerNext(s: State, l: Layout, m: Predictor)
    requires Represents(s, l, m)
    ensures Wrapped(Plus(s.Get(S1), 4)) == SlotAddress(l.ring, Next(m.top))
  {
    hide SlotAddress, Plus, And, Sext12, State.Get, RingHolds, TableHolds, Aligned;
    WrapMask();
    PointerUp(l.ring, m.top);
  }

  function Pushed(m: Predictor, i: nat): Predictor { m.Put(i).(top := Next(m.top)) }

  lemma Narrow32(v: bv64)
    requires v < 0x1_0000_0000
    ensures ((v & 0xffff_ffff) as bv32) as bv64 == v
  {
  }

  lemma RingPut(l: Layout, m: Predictor, mem: Memory, i: nat)
    requires Aligned(l.ring) && |m.slots| == RingSize && RingHolds(l, m, mem) && EntryOffset(i) < 0x1_0000_0000
    ensures var n := WriteMem(mem, SlotAddress(l.ring, m.top), 4, EntryOffset(i));
      n.table == mem.table && RingHolds(l, Pushed(m, i), n)
  {
    hide EntryOffset, SlotAddress, Aligned, Next, Number, Predictor.Slot, Predictor.Put;
    var o := EntryOffset(i);
    Narrow32(o);
    assert Address(SlotAddress(l.ring, m.top)) in mem.ring;
    var n := WriteMem(mem, SlotAddress(l.ring, m.top), 4, o);
    forall k: bv8 {:trigger SlotAddress(l.ring, k)}
      ensures Address(SlotAddress(l.ring, k)) in n.ring
      ensures n.ring[Address(SlotAddress(l.ring, k))] as bv64 == EntryOffset(Pushed(m, i).Slot(k))
    {
      assert Address(SlotAddress(l.ring, k)) in mem.ring;
      SlotPut(m, i, k);
      SlotsSame(m.Put(i), Next(m.top), k);
      if SlotAddress(l.ring, k) == SlotAddress(l.ring, m.top) {
        SlotsApart(l.ring, k, m.top);
      }
    }
  }

  lemma SlotsSame(m: Predictor, top: bv8, k: bv8)
    ensures m.(top := top).Slot(k) == m.Slot(k)
  {
  }

  lemma PushedSlots(m: Predictor, i: nat)
    requires |m.slots| == RingSize && (forall k: bv8 :: m.Slot(k) < |m.table|) && i < |m.table|
    ensures var n := Pushed(m, i); n.table == m.table && |n.slots| == RingSize && forall k: bv8 :: n.Slot(k) < |n.table|
  {
    hide Number, Next;
    var n := Pushed(m, i);
    forall k: bv8 ensures n.Slot(k) < |n.table| {
      hide Predictor.Slot;
      SlotPut(m, i, k);
      SlotsSame(m.Put(i), Next(m.top), k);
    }
  }

  /** Storing to the guest's stack keeps ring and table. */
  lemma StackPut(mem: Memory, a: bv64, v: bv64)
    requires Address(a) !in mem.table
    ensures var n := WriteMem(mem, a, 8, v); n.ring == mem.ring && n.table == mem.table && ReadMem(n, a, 8) == v
  {
    hide PutDouble, Double;
    GM.ReadBack(mem, a, 8, v);
  }

  lemma TableRead(l: Layout, m: Predictor, mem: Memory, i: nat)
    requires TableHolds(l, m, mem) && i < |m.table|
    ensures ReadMem(mem, Plus(l.table, EntryOffset(i)), 8) == m.table[i].x86
  {
    hide EntryOffset, Plus;
    assert EntryAddress(l, i) == Plus(l.table, EntryOffset(i));
  }

  /**
   The machine after a call represents the predictor after the push, and the guest's stack holds the return
   address.
   */
  lemma CalledRepresents(s: State, t: State, l: Layout, m: Predictor, i: nat)
    requires Represents(s, l, m) && Callable(s, l, m, i) && Called(s, t, EntryOffset(i))
    ensures Represents(t, l, Pushed(m, i)) && t.Get(SP) == Below8(s.Get(SP))
    ensures ReadMem(t.memory, t.Get(SP), 8) == m.table[i].x86
  {
    hide EntryOffset, SlotAddress, Wrapped, Plus, Below8, WriteMem, ReadMem, Aligned, State.Get, Predictor.Slot;
    hide Predictor.Put;
    var o := EntryOffset(i);
    var ringed := WriteMem(s.memory, s.Get(S1), 4, o);
    PointerNext(s, l, m);
    RingPut(l, m, s.memory, i);
    PushedSlots(m, i);
    SameTable(l, m, Pushed(m, i), s.memory, ringed);
    TableRead(l, Pushed(m, i), ringed, i);
    StackPut(ringed, Below8(s.Get(SP)), ReadMem(ringed, Plus(s.Get(S8), o), 8));
    SameRegions(l, Pushed(m, i), ringed, t.memory);
  }

  lemma SameTable(l: Layout, m: Predictor, n: Predictor, mem: Memory, mem1: Memory)
    requires TableHolds(l, m, mem) && n.table == m.table && mem1.table == mem.table
    ensures TableHolds(l, n, mem1)
  {
    hide EntryAddress, Plus;
  }

  lemma SameRegions(l: Layout, m: Predictor, mem: Memory, mem1: Memory)
    requires RingHolds(l, m, mem) && TableHolds(l, m, mem) && mem1.ring == mem.ring && mem1.table == mem.table
    ensures RingHolds(l, m, mem1) && TableHolds(l, m, mem1)
  {
    hide EntryAddress, EntryOffset, SlotAddress, Plus, Predictor.Slot;
  }

  const CallTemps: set<Reg> := {T0, T1, T3, S1, SP}

  /** The code calls: it leaves for the target, with the return address pushed and its table entry on the ring. */
  ghost predicate CallsAt(code: seq<Instr>, p: nat, s: State, l: Layout, m: Predictor, i: nat, target: bv64) {
    exists t: State :: Reaches(code, At(p, s), Rerouted(4, t)) && t.Get(T3) == target && Calls(s, t, l, m, i)
  }

  ghost predicate Calls(s: State, t: State, l: Layout, m: Predictor, i: nat) {
    && Beside(s, t, CallTemps) && t.Get(SP) == Below8(s.Get(SP))
    && Represents(t, l, Pushed(m, i)) && i < |m.table| && ReadMem(t.memory, t.Get(SP), 8) == m.table[i].x86
  }

  lemma CallFlows(offset: bv64, load: seq<Instr>)
    requires Sets(load, T0, offset)
    ensures AllFlow(CallWords(offset, load))
  {
    hide Sets, Cut;
    var a, b, c := load, [Store(SW, S1, T0, 0)], PointerWords(4);
    var d, e := TableLoad(offset), [OpImm(ADDI, SP, SP, 0xff8)] + [Store(SD, SP, T1, 0)];
    SetsFlow(load, T0, offset);
    CallPartsFlow(offset);
    AllFlowAppend(a, b);
    AllFlowAppend(a + b, c);
    AllFlowAppend(a + b + c, d);
    AllFlowAppend(a + b + c + d, e);
  }

  lemma CallPartsFlow(offset: bv64)
    ensures AllFlow([Store(SW, S1, T0, 0)]) && AllFlow(PointerWords(4)) && AllFlow(TableLoad(offset))
    ensures AllFlow([OpImm(ADDI, SP, SP, 0xff8)] + [Store(SD, SP, T1, 0)])
  {
    hide Cut;
  }

  lemma TargetLoaded(s: State, t: State, l: Layout, m: Predictor, i: nat, target: bv64)
    requires Beside(s, t, {T0, T1, S1, SP}) && t.Get(SP) == Below8(s.Get(SP)) && Represents(t, l, Pushed(m, i))
    requires i < |m.table| && ReadMem(t.memory, t.Get(SP), 8) == m.table[i].x86
    ensures Calls(s, t.Set(T3, target), l, m, i) && t.Set(T3, target).Get(T3) == target
  {
    hide State.Get, State.Set, SlotAddress, RingHolds, TableHolds, Aligned, ReadMem, Below8, Predictor.Slot, Pushed;
    SetKeeps(t, T3, target);
  }

  lemma CallThere(code: seq<Instr>, p: nat, s: State, l: Layout, m: Predictor, i: nat, load: seq<Instr>,
        slot: seq<Instr>, target: bv64)
    requires Placed(code, p, CallWords(EntryOffset(i), load) + slot) && Sets(load, T0, EntryOffset(i))
    requires EobSlot(slot, target)
    requires Represents(s, l, m) && Callable(s, l, m, i)
    ensures CallsAt(code, p, s, l, m, i, target)
  {
    hide Exec, Reaches, CallWords, Placed, Represents, Called, Calls, Beside, Sets, EobSlot, AllFlow, EntryOffset;
    hide Below8, ReadMem, State.Get, State.Set;
    var x := CallWords(EntryOffset(i), load);
    var t := Exec(x, s);
    BothPlaced(code, p, x, slot);
    CallFlows(EntryOffset(i), load);
    CallRuns(EntryOffset(i), load, s);
    CalledRepresents(s, t, l, m, i);
    CalledBeside(s, t, EntryOffset(i));
    PlacedCode(code, p, x);
    ReachesStraight(code, p, x, s);
    SlotThere(code, p + |x|, slot, target, t);
    TargetLoaded(s, t, l, m, i, target);
    ReachesTrans(code, At(p, s), At(p + |x|, t), Rerouted(4, t.Set(T3, target)));
  }

  lemma BothPlaced(code: seq<Instr>, p: nat, x: seq<Instr>, y: seq<Instr>)
    requires Placed(code, p, x + y)
    ensures Placed(code, p, x) && Placed(code, p + |x|, y)
  {
    assert [] + x + y == x + y && x + y + [] == x + y;
    PlacedPart(code, p, [], x, y);
    PlacedPart(code, p, x, y, []);
  }

  lemma CalledBeside(s: State, t: State, offset: bv64)
    requires Called(s, t, offset)
    ensures Beside(s, t, {T0, T1, S1, SP})
  {
    hide Beside, WriteMem, ReadMem, State.Get;
  }

  lemma SlotThere(code: seq<Instr>, p: nat, slot: seq<Instr>, target: bv64, s: State)
    requires Placed(code, p, slot) && EobSlot(slot, target)
    ensures Reaches(code, At(p, s), Rerouted(4, s.Set(T3, target)))
  {
    hide Run, State.Set, Sets;
    SlotReroutes(code, p, slot, target, s);
  }

  /** The call table of the code generator. */
  class CallTable {
    var entries: seq<CallEntry>

    constructor ()
      ensures entries == [CallEntry(0, 0)]
    {
      entries := [CallEntry(0, 0)];
    }
  }

  ghost predicate CallsEverywhere(x: seq<Instr>, i: nat, target: bv64) {
    forall code: seq<Instr>, p: nat, s: State, l: Layout, m: Predictor
      {:trigger CallsAt(code, p, s, l, m, i, target)} ::
      Placed(code, p, x) && Represents(s, l, m) && Callable(s, l, m, i) ==> CallsAt(code, p, s, l, m, i, target)
  }

  /** Call::generate for a direct call: a new table entry for the return address, and the code that pushes it. */
  method GenerateCall(batch: CodeBatch, table: CallTable, returnAddress: bv64, target: bv64)
      returns (ghost x: seq<Instr>)
    modifies batch, table
    ensures batch.code == old(batch.code) + x
    ensures table.entries == old(table.entries) + [CallEntry(returnAddress, 0)]
    ensures CallsEverywhere(x, |old(table.entries)|, target)
  {
    hide Sets, CallsAt, Callable, Represents, EobSlot, EntryOffset;
    ghost var i := |table.entries|;
    var offset := EntryOffset(|table.entries|);
    table.entries := table.entries + [CallEntry(returnAddress, 0)];
    ghost var load := EmitCall(batch, offset);
    ghost var slot := AppendEob(batch, target);
    x := CallWords(offset, load) + slot;
    assert batch.code == old(batch.code) + x;
    forall code: seq<Instr>, p: nat, s: State, l: Layout, m: Predictor | Placed(code, p, x) && Represents(s, l, m)
      && Callable(s, l, m, i)
      ensures CallsAt(code, p, s, l, m, i, target)
    {
      CallThere(code, p, s, l, m, i, load, slot, target);
    }
  }

  method EmitTableLoad(batch: CodeBatch, offset: bv64)
    modifies batch
    ensures batch.code == old(batch.code) + TableLoad(offset)
  {
    hide Cut;
    if offset < 0x800 {
      var _ := batch.Add(Load(LD, T1, S8, Cut(offset)));
    } else {
      var _ := batch.Add(Op(ADD, T1, S8, T0));
      var _ := batch.Add(Load(LD, T1, T1, 0));
    }
  }

  method EmitCall(batch: CodeBatch, offset: bv64) returns (ghost load: seq<Instr>)
    modifies batch
    ensures batch.code == old(batch.code) + CallWords(offset, load) && Sets(load, T0, offset)
  {
    hide Sets, TableLoad;
    load := LoadImmediate(batch, offset, T0);
    var _ := batch.Add(Store(SW, S1, T0, 0));
    var _ := batch.Add(OpImm(ADDI, S1, S1, 4));
    var _ := batch.Add(OpImm(ANDI, S1, S1, 0xbff));
    assert batch.code == old(batch.code) + (load + [Store(SW, S1, T0, 0)] + PointerWords(4));
    EmitTableLoad(batch, offset);
    var _ := batch.Add(OpImm(ADDI, SP, SP, 0xff8));
    var _ := batch.Add(Store(SD, SP, T1, 0));
  }

  /** The return behind a call is guessed right. */
  lemma CallMatched(m: Predictor, i: nat)
    requires |m.slots| == RingSize && i < |m.table|
    ensures Pushed(m, i).Popped() == m.table[i]
  {
    hide Number;
    assert Prev(Next(m.top)) == m.top by { UpAndDown(m.top); }
    SlotPut(m, i, m.top);
    SlotsSame(m.Put(i), Next(m.top), m.top);
  }

  lemma UpAndDown(k: bv8)
    ensures Prev(Next(k)) == k
  {
  }
}
