/** What the stores of carry and overflow leave in the context record, and which evaluator it names. */
module CarryState {
  import opened RiscV
  import opened Machine
  import opened Batches
  import opened Effects
  import opened FlagState
  import opened FlagUpdates

  /** calculate_entries (helper.cpp) for one flag. */
  function EntryOf(group: bv16, size: nat): (e: Entry)
    ensures e.Entry? && e.offset < 0x800
  {
    Entry.Entry((Sized(group, size) & 0x7ff) as bv12)
  }

  /** The registers an operation may spoil. */
  const OpTemps: set<Reg> := {T4, T5, T6, RA}

  const CarryAndOverflow: set<G.Flag> := {G.Carry, G.Overflow}

  ghost predicate Carries(x: seq<Instr>, update: set<G.Flag>) {
    AllFlow(x) && forall s: State :: Updates(x, s, OpTemps, CarryAndOverflow * update)
  }

  /** What is stored: an evaluator and two operands for either flag, each of them optional. */
  datatype Stored = Stored(carry: Entry, c0: Operand, c1: Operand, overflow: Entry, o0: Operand, o1: Operand)

  const NothingStored: Stored := Stored(Same, None, None, Same, None, None)

  /** The record after the stores asked for. */
  function RecordOf(c: Context, p: Stored, update: set<G.Flag>, s: State): Context {
    var c1 := if G.Carry in update then CarryFields(c, p.carry, p.c0, p.c1, s) else c;
    if G.Overflow in update then OverflowFields(c1, p.overflow, p.o0, p.o1, s) else c1
  }

  /** The code stores this and nothing else. */
  ghost predicate Records(x: seq<Instr>, p: Stored, update: set<G.Flag>) {
    Carries(x, update) && forall s: State :: Exec(x, s).ctx == RecordOf(s.ctx, p, update, s)
  }

  method EmitCarry(batch: CodeBatch, update: set<G.Flag>, e: Entry, va: Operand, vb: Operand)
      returns (ghost x: seq<Instr>)
    requires Free(e, va, vb, T4)
    modifies batch
    ensures batch.code == old(batch.code) + x && Records(x, Stored(e, va, vb, Same, None, None), update)
  {
    hide Exec, CarryFields;
    x := UpdateCarry(batch, update, e, va, vb, T4);
    forall s: State
      ensures Updates(x, s, OpTemps, CarryAndOverflow * update)
        && Exec(x, s).ctx == RecordOf(s.ctx, Stored(e, va, vb, Same, None, None), update, s)
    {
      hide State.Get;
      CarryTouches(s.ctx, e, va, vb, s);
    }
  }

  method EmitOverflow(batch: CodeBatch, update: set<G.Flag>, e: Entry, va: Operand, vb: Operand)
      returns (ghost x: seq<Instr>)
    requires Free(e, va, vb, T4)
    modifies batch
    ensures batch.code == old(batch.code) + x && Records(x, Stored(Same, None, None, e, va, vb), update)
  {
    hide Exec, OverflowFields;
    x := UpdateOverflow(batch, update, e, va, vb, T4);
    forall s: State
      ensures Updates(x, s, OpTemps, CarryAndOverflow * update)
        && Exec(x, s).ctx == RecordOf(s.ctx, Stored(Same, None, None, e, va, vb), update, s)
    {
      hide State.Get;
      OverflowTouches(s.ctx, e, va, vb, s);
    }
  }

  lemma BothCarries(a: seq<Instr>, b: seq<Instr>, update: set<G.Flag>)
    requires Carries(a, update) && Carries(b, update)
    ensures Carries(a + b, update)
  {
    AllFlowAppend(a, b);
    forall s: State ensures Updates(a + b, s, OpTemps, CarryAndOverflow * update) {
      hide Exec, Updates, AllFlow;
      var f := CarryAndOverflow * update;
      UpdatesThen(a, b, s, OpTemps, OpTemps, f, f);
      assert OpTemps + OpTemps == OpTemps && f + f == f;
    }
  }

  lemma CarriesKeep(a: seq<Instr>, update: set<G.Flag>, s: State, r: Reg)
    requires Carries(a, update) && r !in OpTemps
    ensures Exec(a, s).Get(r) == s.Get(r)
  {
    hide Exec, State.Get;
    assert Updates(a, s, OpTemps, CarryAndOverflow * update);
  }

  /** An operand the stores leave alone. */
  predicate Kept(o: Operand) { o.Some? ==> o.reg !in OpTemps }

  /** The stores of one flag state after the other. */
  method EmitBoth(batch: CodeBatch, update: set<G.Flag>, p: Stored) returns (ghost x: seq<Instr>)
    requires Free(p.carry, p.c0, p.c1, T4) && Free(p.overflow, p.o0, p.o1, T4) && Kept(p.o0) && Kept(p.o1)
    modifies batch
    ensures batch.code == old(batch.code) + x && Records(x, p, update)
  {
    hide Carries, Free, RecordOf, Exec;
    ghost var a := EmitCarry(batch, update, p.carry, p.c0, p.c1);
    ghost var b := EmitOverflow(batch, update, p.overflow, p.o0, p.o1);
    BothCarries(a, b, update);
    x := a + b;
    forall s: State ensures Exec(x, s).ctx == RecordOf(s.ctx, p, update, s) {
      ExecAppend(a, b, s);
      OperandKept(a, update, s, p.o0);
      OperandKept(a, update, s, p.o1);
      RecordedBoth(s.ctx, p, update, s, Exec(a, s));
    }
  }

  lemma OperandKept(a: seq<Instr>, update: set<G.Flag>, s: State, o: Operand)
    requires Carries(a, update) && Kept(o)
    ensures SameOperand(o, s, Exec(a, s))
  {
    hide Carries, Exec, State.Get;
    if o.Some? {
      CarriesKeep(a, update, s, o.reg);
    }
  }

  predicate SameOperand(o: Operand, s: State, t: State) { o.Some? ==> t.Get(o.reg) == s.Get(o.reg) }

  lemma RecordedBoth(c: Context, p: Stored, update: set<G.Flag>, s: State, t: State)
    requires SameOperand(p.o0, s, t) && SameOperand(p.o1, s, t)
    ensures var c1 := RecordOf(c, Stored(p.carry, p.c0, p.c1, Same, None, None), update, s);
      RecordOf(c1, Stored(Same, None, None, p.overflow, p.o0, p.o1), update, t) == RecordOf(c, p, update, s)
  {
    hide CarryFields, OverflowFields, SameOperand;
    var c1 := if G.Carry in update then CarryFields(c, p.carry, p.c0, p.c1, s) else c;
    NoFields(c1, s);
    NoFields(c1, t);
    SameFields(c1, p.overflow, p.o0, p.o1, s, t);
  }

  lemma NoFields(c: Context, s: State)
    ensures CarryFields(c, Same, None, None, s) == c && OverflowFields(c, Same, None, None, s) == c
  {
  }

  lemma SameFields(c: Context, e: Entry, va: Operand, vb: Operand, s: State, t: State)
    requires SameOperand(va, s, t) && SameOperand(vb, s, t)
    ensures OverflowFields(c, e, va, vb, t) == OverflowFields(c, e, va, vb, s)
  {
    hide State.Get, Wide;
  }

  lemma CarryParts(c: Context, e: Entry, va: Operand, vb: Operand, s: State)
    ensures var r := CarryFields(c, e, va, vb, s);
      && (if e.Entry? then r.carryOp == Wide(e.offset) else r.carryOp == c.carryOp)
      && (if va.Some? then r.carry0 == s.Get(va.reg) else r.carry0 == c.carry0)
      && (if vb.Some? then r.carry1 == s.Get(vb.reg) else r.carry1 == c.carry1)
      && r.overflowOp == c.overflowOp && r.overflow0 == c.overflow0 && r.overflow1 == c.overflow1
  {
    hide State.Get, Wide;
  }

  lemma OverflowParts(c: Context, e: Entry, va: Operand, vb: Operand, s: State)
    ensures var r := OverflowFields(c, e, va, vb, s);
      && (if e.Entry? then r.overflowOp == Wide(e.offset) else r.overflowOp == c.overflowOp)
      && (if va.Some? then r.overflow0 == s.Get(va.reg) else r.overflow0 == c.overflow0)
      && (if vb.Some? then r.overflow1 == s.Get(vb.reg) else r.overflow1 == c.overflow1)
      && r.carryOp == c.carryOp && r.carry0 == c.carry0 && r.carry1 == c.carry1
  {
    hide State.Get, Wide;
  }

  lemma RecordedCarry(c: Context, p: Stored, update: set<G.Flag>, s: State)
    requires G.Carry in update
    ensures var r := RecordOf(c, p, update, s);
      && (if p.carry.Entry? then r.carryOp == Wide(p.carry.offset) else r.carryOp == c.carryOp)
      && (if p.c0.Some? then r.carry0 == s.Get(p.c0.reg) else r.carry0 == c.carry0)
      && (if p.c1.Some? then r.carry1 == s.Get(p.c1.reg) else r.carry1 == c.carry1)
  {
    hide State.Get, Wide, CarryFields, OverflowFields;
    CarryParts(c, p.carry, p.c0, p.c1, s);
    OverflowParts(CarryFields(c, p.carry, p.c0, p.c1, s), p.overflow, p.o0, p.o1, s);
  }

  lemma RecordedOverflow(c: Context, p: Stored, update: set<G.Flag>, s: State)
    requires G.Overflow in update
    ensures var r := RecordOf(c, p, update, s);
      && (if p.overflow.Entry? then r.overflowOp == Wide(p.overflow.offset) else r.overflowOp == c.overflowOp)
      && (if p.o0.Some? then r.overflow0 == s.Get(p.o0.reg) else r.overflow0 == c.overflow0)
      && (if p.o1.Some? then r.overflow1 == s.Get(p.o1.reg) else r.overflow1 == c.overflow1)
  {
    hide State.Get, Wide, CarryFields, OverflowFields;
    CarryParts(c, p.carry, p.c0, p.c1, s);
    OverflowParts(c, p.overflow, p.o0, p.o1, s);
    OverflowParts(CarryFields(c, p.carry, p.c0, p.c1, s), p.overflow, p.o0, p.o1, s);
  }

  /** The carry, and the overflow, behind two groups of stores. */
  lemma RecordedTwice(c: Context, p: Stored, q: Stored, update: set<G.Flag>, s: State, t: State)
    ensures var r := RecordOf(RecordOf(c, p, update, s), q, update, t);
      && (G.Carry in update && (q.carry.Entry? || p.carry.Entry?) ==>
        r.carryOp == Wide((if q.carry.Entry? then q.carry else p.carry).offset))
      && (G.Carry in update && q.c0.Some? ==> r.carry0 == t.Get(q.c0.reg))
      && (G.Carry in update && q.c0.None? && p.c0.Some? ==> r.carry0 == s.Get(p.c0.reg))
      && (G.Carry in update && q.c1.Some? ==> r.carry1 == t.Get(q.c1.reg))
      && (G.Carry in update && q.c1.None? && p.c1.Some? ==> r.carry1 == s.Get(p.c1.reg))
      && (G.Overflow in update && (q.overflow.Entry? || p.overflow.Entry?) ==>
        r.overflowOp == Wide((if q.overflow.Entry? then q.overflow else p.overflow).offset))
      && (G.Overflow in update && q.o0.Some? ==> r.overflow0 == t.Get(q.o0.reg))
      && (G.Overflow in update && q.o0.None? && p.o0.Some? ==> r.overflow0 == s.Get(p.o0.reg))
      && (G.Overflow in update && q.o1.Some? ==> r.overflow1 == t.Get(q.o1.reg))
      && (G.Overflow in update && q.o1.None? && p.o1.Some? ==> r.overflow1 == s.Get(p.o1.reg))
  {
    hide State.Get, Wide, RecordOf;
    var c1 := RecordOf(c, p, update, s);
    if G.Carry in update {
      RecordedCarry(c, p, update, s);
      RecordedCarry(c1, q, update, t);
    }
    if G.Overflow in update {
      RecordedOverflow(c, p, update, s);
      RecordedOverflow(c1, q, update, t);
    }
  }

  lemma NothingRecords(update: set<G.Flag>)
    ensures Records([], NothingStored, update)
  {
    forall s: State
      ensures Updates([], s, OpTemps, CarryAndOverflow * update)
        && Exec([], s).ctx == RecordOf(s.ctx, NothingStored, update, s)
    {
      hide State.Get, Exec, Wide, CarryFields, OverflowFields;
      UpdatesNothing(s);
      NoFields(s.ctx, s);
    }
  }

  /** Code between two groups of stores that stores nothing itself. */
  lemma RecordedAround(a: seq<Instr>, w: seq<Instr>, b: seq<Instr>, p: Stored, q: Stored, update: set<G.Flag>, s: State)
    requires Records(a, p, update) && Records(b, q, update)
    requires Exec(w, Exec(a, s)).ctx == Exec(a, s).ctx
    ensures Exec(a + w + b, s).ctx
      == RecordOf(RecordOf(s.ctx, p, update, s), q, update, Exec(w, Exec(a, s)))
  {
    hide Exec, RecordOf, Carries;
    ExecAppend(a, w, s);
    ExecAppend(a + w, b, s);
  }

  // ---- which evaluator answers ----------------------------------------------------------------------------------

  predicate Names(op: bv16, group: bv16, size: nat) { op == Sized(group, size) }

  lemma EntryNames(group: bv16, size: nat)
    requires group < 0x400
    ensures Names(Wide(EntryOf(group, size).offset), group, size)
  {
  }

  lemma AsksCarryAdd(s: State, size: nat)
    requires IsSize(size) && Names(s.ctx.carryOp, CarryAdd, size)
    ensures CarryBit(s) == EvalCarryAdd(size, s.ctx.carry0, s.ctx.carry1)
  {
    hide EvalCarryAdd;
  }

  lemma AsksCarryAdc(s: State, size: nat)
    requires IsSize(size) && Names(s.ctx.carryOp, CarryAdc, size)
    ensures CarryBit(s) == EvalCarryAdc(size, s.ctx.carry0, s.ctx.carry1)
  {
    hide EvalCarryAdc;
  }

  lemma AsksOverflowAdd(s: State, size: nat)
    requires IsSize(size) && Names(s.ctx.overflowOp, OverflowAdd, size)
    ensures OverflowBit(s) == EvalOverflowAdd(size, s.ctx.overflow0, s.ctx.overflow1)
  {
    hide EvalOverflowAdd;
  }

  lemma AsksOverflowAdc(s: State, size: nat)
    requires IsSize(size) && Names(s.ctx.overflowOp, OverflowAdc, size)
    ensures OverflowBit(s) == EvalOverflowAdc(size, s.ctx.overflow0, s.ctx.overflow1)
  {
    hide EvalOverflowAdc;
  }

  lemma AsksOverflowPos(s: State, size: nat)
    requires IsSize(size) && Names(s.ctx.overflowOp, OverflowAddPos, size)
    ensures OverflowBit(s) == EvalOverflowPos(size, s.ctx.overflow0, s.ctx.overflow1)
  {
    hide EvalOverflowPos;
  }

  lemma AsksOverflowNeg(s: State, size: nat)
    requires IsSize(size) && Names(s.ctx.overflowOp, OverflowAddNeg, size)
    ensures OverflowBit(s) == EvalOverflowNeg(size, s.ctx.overflow0, s.ctx.overflow1)
  {
    hide EvalOverflowNeg;
  }

  lemma AsksOverflowSub(s: State, size: nat)
    requires IsSize(size) && Names(s.ctx.overflowOp, OverflowSub, size)
    ensures OverflowBit(s) == EvalOverflowSub(size, s.ctx.overflow0, s.ctx.overflow1)
  {
    hide EvalOverflowSub;
  }

  lemma AsksCleared(s: State)
    ensures s.ctx.carryOp == Wide(48) ==> CarryBit(s) == 0
    ensures s.ctx.overflowOp == Wide(56) ==> OverflowBit(s) == 0
  {
  }
}
