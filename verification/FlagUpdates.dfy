/** Storing the lazy flags (instruction.cpp): what each update leaves in the context record. */
module FlagUpdates {
  import opened RiscV
  import opened Machine
  import opened Batches
  import opened Effects
  import G = Guest

  /** Only the given flags' fields may differ. */
  ghost predicate Touches(c: Context, d: Context, flags: set<G.Flag>) {
    && d.fsBase == c.fsBase && d.gsBase == c.gsBase
    && (G.Zero !in flags ==> d.zeroValue == c.zeroValue)
    && (G.Sign !in flags ==> d.signValue == c.signValue && d.signSize == c.signSize)
    && (G.Parity !in flags ==> d.parityValue == c.parityValue)
    && (G.Carry !in flags ==> d.carry0 == c.carry0 && d.carry1 == c.carry1 && d.carryOp == c.carryOp)
    && (G.Overflow !in flags ==>
      d.overflow0 == c.overflow0 && d.overflow1 == c.overflow1 && d.overflowOp == c.overflowOp)
  }

  /** Registers outside the set, and everything but registers and flags, stay as they are. */
  ghost predicate Framed(s: State, t: State, regs: set<Reg>) {
    && t.memory == s.memory && t.scratch == s.scratch && t.base == s.base
    && forall r :: r !in regs ==> t.Get(r) == s.Get(r)
  }

  /** The code changes at most these registers and these flags. */
  ghost predicate Updates(x: seq<Instr>, s: State, regs: set<Reg>, flags: set<G.Flag>) {
    Framed(s, Exec(x, s), regs) && Touches(s.ctx, Exec(x, s).ctx, flags)
  }

  lemma FramedTrans(s: State, t: State, u: State, a: set<Reg>, b: set<Reg>, f: set<G.Flag>, g: set<G.Flag>)
    requires Framed(s, t, a) && Framed(t, u, b) && Touches(s.ctx, t.ctx, f) && Touches(t.ctx, u.ctx, g)
    ensures Framed(s, u, a + b) && Touches(s.ctx, u.ctx, f + g)
  {
    hide State.Get;
  }

  lemma UpdatesThen(a: seq<Instr>, b: seq<Instr>, s: State, k: set<Reg>, l: set<Reg>, f: set<G.Flag>, g: set<G.Flag>)
    requires Updates(a, s, k, f) && Updates(b, Exec(a, s), l, g)
    ensures Updates(a + b, s, k + l, f + g) && Exec(a + b, s) == Exec(b, Exec(a, s))
  {
    hide Exec, Framed, Touches;
    ExecAppend(a, b, s);
    FramedTrans(s, Exec(a, s), Exec(b, Exec(a, s)), k, l, f, g);
  }

  lemma UpdatesMore(x: seq<Instr>, s: State, k: set<Reg>, l: set<Reg>, f: set<G.Flag>, g: set<G.Flag>)
    requires Updates(x, s, k, f) && k <= l && f <= g
    ensures Updates(x, s, l, g)
  {
    hide Exec, State.Get;
  }

  lemma UpdatesNothing(s: State)
    ensures Updates([], s, {}, {}) && Exec([], s) == s
  {
    hide State.Get, Step;
  }

  lemma KeptUpdates(x: seq<Instr>, s: State, k: set<Reg>)
    requires Keeps(s, Exec(x, s), k)
    ensures Updates(x, s, k, {})
  {
    hide Exec, State.Get;
  }

  /** One store into the context record. */
  lemma StoreContext(op: StoreOp, rs: Reg, off: bv12, s: State)
    ensures Exec([Store(op, S11, rs, off)], s) == s.(ctx := WriteContext(s.ctx, op, off, s.Get(rs)))
    ensures Framed(s, Exec([Store(op, S11, rs, off)], s), {})
  {
    hide Exec, Step, WriteContext;
    Exec1Word([Store(op, S11, rs, off)], s);
    StepContextStore(op, rs, off, s);
  }

  // ---- zero ---------------------------------------------------------------------------------------------

  function StoreOf(size: nat): StoreOp {
    if size == 8 then SD else if size == 4 then SW else if size == 2 then SH else SB
  }

  function ZeroStore(va: Reg, size: nat): seq<Instr> {
    if size == 8 then [Store(SD, S11, va, 0x200)]
    else [Store(SD, S11, Zero, 0x200)] + [Store(StoreOf(size), S11, va, 0x200)]
  }

  lemma ZeroFull(c: Context, v: bv64)
    ensures WriteContext(c, SD, 0x200, v) == c.(zeroValue := v)
  {
  }

  lemma ZeroWord(c: Context, v: bv64)
    ensures WriteContext(c.(zeroValue := 0), SW, 0x200, v) == c.(zeroValue := v & 0xffff_ffff)
  {
  }

  lemma ZeroHalf(c: Context, v: bv64)
    ensures WriteContext(c.(zeroValue := 0), SH, 0x200, v) == c.(zeroValue := v & 0xffff)
  {
  }

  lemma ZeroByte(c: Context, v: bv64)
    ensures WriteContext(c.(zeroValue := 0), SB, 0x200, v) == c.(zeroValue := v & 0xff)
  {
  }

  lemma ZeroPart(c: Context, size: nat, v: bv64)
    requires IsSize(size) && size != 8
    ensures WriteContext(c.(zeroValue := 0), StoreOf(size), 0x200, v) == c.(zeroValue := ZeroExtend(size, v))
  {
    hide WriteContext;
    if size == 4 {
      ZeroWord(c, v);
    } else if size == 2 {
      ZeroHalf(c, v);
    } else {
      ZeroByte(c, v);
    }
  }

  lemma ZeroCleared(s: State)
    ensures Exec([Store(SD, S11, Zero, 0x200)], s) == s.(ctx := s.ctx.(zeroValue := 0))
  {
    hide Exec, WriteContext, Framed, State.Get;
    StoreContext(SD, Zero, 0x200, s);
    ZeroFull(s.ctx, s.Get(Zero));
    GetNone(s);
  }

  lemma ZeroStored(va: Reg, size: nat, s: State)
    requires IsSize(size)
    ensures Exec(ZeroStore(va, size), s) == s.(ctx := s.ctx.(zeroValue := ZeroExtend(size, s.Get(va))))
  {
    hide Exec, WriteContext, Framed, State.Get, ZeroExtend, StoreOf;
    if size == 8 {
      StoreContext(SD, va, 0x200, s);
      ZeroFull(s.ctx, s.Get(va));
      FullExtend(s.Get(va));
    } else {
      var t := s.(ctx := s.ctx.(zeroValue := 0));
      ExecAppend([Store(SD, S11, Zero, 0x200)], [Store(StoreOf(size), S11, va, 0x200)], s);
      ZeroCleared(s);
      SameGet(s, t, va);
      StoreContext(StoreOf(size), va, 0x200, t);
      ZeroPart(s.ctx, size, s.Get(va));
    }
  }

  lemma FullExtend(v: bv64)
    ensures ZeroExtend(8, v) == v
  {
  }

  lemma GetNone(s: State)
    ensures s.Get(Zero) == 0
  {
  }

  lemma SameGet(s: State, t: State, r: Reg)
    requires s.regs == t.regs
    ensures s.Get(r) == t.Get(r)
  {
  }

  method UpdateZero(batch: CodeBatch, update: set<G.Flag>, va: Reg, size: nat) returns (ghost x: seq<Instr>)
    requires IsSize(size)
    modifies batch
    ensures batch.code == old(batch.code) + x && AllFlow(x)
    ensures forall s: State :: Updates(x, s, {}, {G.Zero} * update)
    ensures G.Zero in update ==> forall s: State :: Exec(x, s).ctx.zeroValue == ZeroExtend(size, s.Get(va))
  {
    x := [];
    if G.Zero !in update {
      forall s: State ensures Updates(x, s, {}, {G.Zero} * update) {
        UpdatesNothing(s);
        UpdatesMore(x, s, {}, {}, {}, {G.Zero} * update);
      }
      return;
    }
    if size == 8 {
      var _ := batch.Add(Store(SD, S11, va, 0x200));
    } else {
      var _ := batch.Add(Store(SD, S11, Zero, 0x200));
      var _ := batch.Add(Store(StoreOf(size), S11, va, 0x200));
    }
    x := ZeroStore(va, size);
    forall s: State
      ensures Updates(x, s, {}, {G.Zero} * update) && Exec(x, s).ctx.zeroValue == ZeroExtend(size, s.Get(va))
    {
      hide Exec, State.Get, ZeroStore, ZeroExtend;
      ZeroStored(va, size, s);
      ContextOnly(s, s.ctx.(zeroValue := ZeroExtend(size, s.Get(va))));
    }
  }

  lemma ContextOnly(s: State, c: Context)
    ensures Framed(s, s.(ctx := c), {})
  {
  }

  // ---- sign ------------------------------------------------------------------------------------------------

  function SignStore(va: Reg, size: nat, temp: Reg): seq<Instr>
    requires IsSize(size)
  {
    [Store(SD, S11, va, 0x208)] + [OpImm(ADDI, temp, Zero, TopBit(size))] + [Store(SB, S11, temp, 0x244)]
  }

  /** The index of the sign bit. */
  function TopBit(size: nat): bv12
    requires IsSize(size)
  {
    if size == 8 then 63 else if size == 4 then 31 else if size == 2 then 15 else 7
  }

  function TopBitByte(size: nat): bv8
    requires IsSize(size)
  {
    if size == 8 then 63 else if size == 4 then 31 else if size == 2 then 15 else 7
  }

  lemma SignFull(c: Context, v: bv64)
    ensures WriteContext(c, SD, 0x208, v) == c.(signValue := v)
  {
  }

  lemma SizeByte(c: Context, v: bv64)
    ensures WriteContext(c, SB, 0x244, v) == c.(signSize := (v & 0xff) as bv8)
  {
  }

  lemma TopBitLoaded(size: nat)
    requires IsSize(size)
    ensures (Plus(0, Sext12(TopBit(size))) & 0xff) as bv8 == TopBitByte(size)
  {
    assert !(0 < TopBit(size) & 0x800);
    assert Plus(0, Sext12(TopBit(size))) == Sext12(TopBit(size));
  }

  lemma LoadConstant(temp: Reg, imm: bv12, s: State)
    requires !temp.Zero?
    ensures var t := Exec([OpImm(ADDI, temp, Zero, imm)], s);
      t == s.Set(temp, Plus(0, Sext12(imm))) && Keeps(s, t, {temp}) && t.Get(temp) == Plus(0, Sext12(imm))
  {
    hide Exec, Step, Sext12, Plus, State.Set, State.Get;
    Exec1Word([OpImm(ADDI, temp, Zero, imm)], s);
    StepImm(ADDI, temp, Zero, imm, s);
    GetNone(s);
    SetKeeps(s, temp, Plus(0, Sext12(imm)));
  }

  lemma SignStored(va: Reg, size: nat, temp: Reg, s: State)
    requires IsSize(size) && !temp.Zero?
    ensures var t := Exec(SignStore(va, size, temp), s);
      Framed(s, t, {temp}) && t.ctx == s.ctx.(signValue := s.Get(va), signSize := TopBitByte(size))
  {
    hide Exec, Sext12, Plus, WriteContext, State.Set, State.Get, TopBit, TopBitByte;
    var a, b, c := [Store(SD, S11, va, 0x208)], [OpImm(ADDI, temp, Zero, TopBit(size))], [Store(SB, S11, temp, 0x244)];
    var t1 := s.(ctx := s.ctx.(signValue := s.Get(va)));
    StoreContext(SD, va, 0x208, s);
    SignFull(s.ctx, s.Get(va));
    ExecAppend(a, b, s);
    LoadConstant(temp, TopBit(size), t1);
    var t2 := Exec(b, t1);
    ExecAppend(a + b, c, s);
    StoreContext(SB, temp, 0x244, t2);
    SizeByte(t2.ctx, t2.Get(temp));
    TopBitLoaded(size);
  }

  method UpdateSign(batch: CodeBatch, update: set<G.Flag>, va: Reg, size: nat, temp: Reg) returns (ghost x: seq<Instr>)
    requires IsSize(size) && !temp.Zero?
    modifies batch
    ensures batch.code == old(batch.code) + x && AllFlow(x)
    ensures forall s: State :: Updates(x, s, {temp}, {G.Sign} * update)
    ensures G.Sign in update ==> forall s: State ::
      Exec(x, s).ctx.signValue == s.Get(va) && Exec(x, s).ctx.signSize == TopBitByte(size)
  {
    x := [];
    if G.Sign !in update {
      forall s: State ensures Updates(x, s, {temp}, {G.Sign} * update) {
        UpdatesNothing(s);
        UpdatesMore(x, s, {}, {temp}, {}, {G.Sign} * update);
      }
      return;
    }
    var _ := batch.Add(Store(SD, S11, va, 0x208));
    var _ := batch.Add(OpImm(ADDI, temp, Zero, TopBit(size)));
    var _ := batch.Add(Store(SB, S11, temp, 0x244));
    x := SignStore(va, size, temp);
    forall s: State ensures Updates(x, s, {temp}, {G.Sign} * update)
      && Exec(x, s).ctx.signValue == s.Get(va) && Exec(x, s).ctx.signSize == TopBitByte(size)
    {
      hide Exec, State.Get, SignStore, TopBitByte;
      SignStored(va, size, temp, s);
    }
  }

  // ---- parity ------------------------------------------------------------------------------------------------

  lemma ParityByte(c: Context, v: bv64)
    ensures WriteContext(c, SB, 0x245, v) == c.(parityValue := (v & 0xff) as bv8)
  {
  }

  method UpdateParity(batch: CodeBatch, update: set<G.Flag>, va: Reg) returns (ghost x: seq<Instr>)
    modifies batch
    ensures batch.code == old(batch.code) + x && AllFlow(x)
    ensures forall s: State :: Updates(x, s, {}, {G.Parity} * update)
    ensures G.Parity in update ==> forall s: State :: Exec(x, s).ctx.parityValue == (s.Get(va) & 0xff) as bv8
  {
    x := [];
    if G.Parity !in update {
      forall s: State ensures Updates(x, s, {}, {G.Parity} * update) {
        UpdatesNothing(s);
        UpdatesMore(x, s, {}, {}, {}, {G.Parity} * update);
      }
      return;
    }
    var _ := batch.Add(Store(SB, S11, va, 0x245));
    x := [Store(SB, S11, va, 0x245)];
    forall s: State
      ensures Updates(x, s, {}, {G.Parity} * update) && Exec(x, s).ctx.parityValue == (s.Get(va) & 0xff) as bv8
    {
      hide Exec, State.Get, WriteContext;
      StoreContext(SB, va, 0x245, s);
      ParityByte(s.ctx, s.Get(va));
    }
  }

  // ---- carry and overflow ---------------------------------------------------------------------------------------

  datatype Operand = None | Some(reg: Reg)

  /** The evaluator entry to register, if any. */
  datatype Entry = Same | Entry(offset: bv12)

  function Wide(e: bv12): bv16 { e as bv16 }

  /** The fields after an update of the carry (or, mirrored, the overflow) state. */
  function CarryFields(c: Context, e: Entry, va: Operand, vb: Operand, s: State): Context {
    var c1 := if e.Entry? then c.(carryOp := Wide(e.offset)) else c;
    var c2 := if va.Some? then c1.(carry0 := s.Get(va.reg)) else c1;
    if vb.Some? then c2.(carry1 := s.Get(vb.reg)) else c2
  }

  function OverflowFields(c: Context, e: Entry, va: Operand, vb: Operand, s: State): Context {
    var c1 := if e.Entry? then c.(overflowOp := Wide(e.offset)) else c;
    var c2 := if va.Some? then c1.(overflow0 := s.Get(va.reg)) else c1;
    if vb.Some? then c2.(overflow1 := s.Get(vb.reg)) else c2
  }

  function EntryWords(e: Entry, temp: Reg, off: bv12): seq<Instr> {
    if e.Entry? then [OpImm(ADDI, temp, Zero, e.offset)] + [Store(SH, S11, temp, off)] else []
  }

  function ValueWords(v: Operand, off: bv12): seq<Instr> {
    if v.Some? then [Store(SD, S11, v.reg, off)] else []
  }

  /** Where the two flags keep their evaluator and operands. */
  datatype Place = Place(op: bv12, first: bv12, second: bv12)
  const CarryPlace: Place := Place(0x242, 0x220, 0x228)
  const OverflowPlace: Place := Place(0x240, 0x210, 0x218)

  function LazyWords(p: Place, e: Entry, va: Operand, vb: Operand, temp: Reg): seq<Instr> {
    EntryWords(e, temp, p.op) + ValueWords(va, p.first) + ValueWords(vb, p.second)
  }

  lemma LazyFlows(p: Place, e: Entry, va: Operand, vb: Operand, temp: Reg)
    ensures AllFlow(LazyWords(p, e, va, vb, temp))
  {
    hide AllFlow;
    EntryFlows(e, temp, p.op);
    ValueFlows(va, p.first);
    ValueFlows(vb, p.second);
    AllFlowAppend(EntryWords(e, temp, p.op), ValueWords(va, p.first));
    AllFlowAppend(EntryWords(e, temp, p.op) + ValueWords(va, p.first), ValueWords(vb, p.second));
  }

  lemma EntryFlows(e: Entry, temp: Reg, off: bv12) ensures AllFlow(EntryWords(e, temp, off)) {}
  lemma ValueFlows(v: Operand, off: bv12) ensures AllFlow(ValueWords(v, off)) {}

  lemma CarryOpField(c: Context, v: bv64)
    ensures WriteContext(c, SH, 0x242, v) == c.(carryOp := Cut16(v))
  {
  }

  lemma OverflowOpField(c: Context, v: bv64)
    ensures WriteContext(c, SH, 0x240, v) == c.(overflowOp := Cut16(v))
  {
  }

  lemma CarryFirst(c: Context, v: bv64) ensures WriteContext(c, SD, 0x220, v) == c.(carry0 := v) {}
  lemma CarrySecond(c: Context, v: bv64) ensures WriteContext(c, SD, 0x228, v) == c.(carry1 := v) {}
  lemma OverflowFirst(c: Context, v: bv64) ensures WriteContext(c, SD, 0x210, v) == c.(overflow0 := v) {}
  lemma OverflowSecond(c: Context, v: bv64) ensures WriteContext(c, SD, 0x218, v) == c.(overflow1 := v) {}

  lemma EntryLoaded(e: bv12)
    requires e < 0x800
    ensures Cut16(Plus(0, Sext12(e))) == Wide(e)
  {
    assert !(0 < e & 0x800);
    assert Plus(0, Sext12(e)) == Sext12(e);
  }

  /** Registering the evaluator. */
  lemma EntryStored(e: Entry, temp: Reg, off: bv12, s: State)
    requires !temp.Zero?
    ensures var t := Exec(EntryWords(e, temp, off), s);
      && Framed(s, t, {temp})
      && t.ctx == if e.Entry? then WriteContext(s.ctx, SH, off, Plus(0, Sext12(e.offset))) else s.ctx
  {
    hide Exec, Sext12, Plus, WriteContext, State.Set, State.Get;
    if e.Entry? {
      var a := [OpImm(ADDI, temp, Zero, e.offset)];
      ExecAppend(a, [Store(SH, S11, temp, off)], s);
      LoadConstant(temp, e.offset, s);
      StoreContext(SH, temp, off, Exec(a, s));
    } else {
      UpdatesNothing(s);
    }
  }

  lemma ValueStored(v: Operand, off: bv12, s: State)
    ensures var t := Exec(ValueWords(v, off), s);
      && Framed(s, t, {})
      && t.ctx == if v.Some? then WriteContext(s.ctx, SD, off, s.Get(v.reg)) else s.ctx
  {
    hide Exec, WriteContext, State.Get;
    if v.Some? {
      StoreContext(SD, v.reg, off, s);
    } else {
      UpdatesNothing(s);
    }
  }

  /** The registers of the operands are not the temporary. */
  predicate Free(e: Entry, va: Operand, vb: Operand, temp: Reg) {
    && !temp.Zero? && (va.Some? ==> va.reg != temp) && (vb.Some? ==> vb.reg != temp) && (e.Entry? ==> e.offset < 0x800)
  }

  /** The fields after the three groups of stores. */
  function Written(c: Context, p: Place, e: Entry, va: Operand, vb: Operand, s: State): Context {
    var c1 := if e.Entry? then WriteContext(c, SH, p.op, Plus(0, Sext12(e.offset))) else c;
    var c2 := if va.Some? then WriteContext(c1, SD, p.first, s.Get(va.reg)) else c1;
    if vb.Some? then WriteContext(c2, SD, p.second, s.Get(vb.reg)) else c2
  }

  lemma LazyStored(p: Place, e: Entry, va: Operand, vb: Operand, temp: Reg, s: State)
    requires Free(e, va, vb, temp)
    ensures var t := Exec(LazyWords(p, e, va, vb, temp), s);
      Framed(s, t, {temp}) && t.ctx == Written(s.ctx, p, e, va, vb, s)
  {
    hide Exec, WriteContext, EntryWords, ValueWords, State.Get, Plus, Sext12;
    var a, b, c := EntryWords(e, temp, p.op), ValueWords(va, p.first), ValueWords(vb, p.second);
    EntryStored(e, temp, p.op, s);
    ExecAppend(a, b, s);
    ValueStored(va, p.first, Exec(a, s));
    ExecAppend(a + b, c, s);
    ValueStored(vb, p.second, Exec(a + b, s));
  }

  lemma CarryWritten(c: Context, e: Entry, va: Operand, vb: Operand, s: State)
    requires e.Entry? ==> e.offset < 0x800
    ensures Written(c, CarryPlace, e, va, vb, s) == CarryFields(c, e, va, vb, s)
  {
    hide WriteContext, Plus, Sext12, Cut16, Wide, State.Get;
    if e.Entry? {
      EntryLoaded(e.offset);
      CarryOpField(c, Plus(0, Sext12(e.offset)));
    }
    var c1 := if e.Entry? then c.(carryOp := Wide(e.offset)) else c;
    if va.Some? {
      CarryFirst(c1, s.Get(va.reg));
    }
    var c2 := if va.Some? then c1.(carry0 := s.Get(va.reg)) else c1;
    if vb.Some? {
      CarrySecond(c2, s.Get(vb.reg));
    }
  }

  lemma OverflowWritten(c: Context, e: Entry, va: Operand, vb: Operand, s: State)
    requires e.Entry? ==> e.offset < 0x800
    ensures Written(c, OverflowPlace, e, va, vb, s) == OverflowFields(c, e, va, vb, s)
  {
    hide WriteContext, Plus, Sext12, Cut16, Wide, State.Get;
    if e.Entry? {
      EntryLoaded(e.offset);
      OverflowOpField(c, Plus(0, Sext12(e.offset)));
    }
    var c1 := if e.Entry? then c.(overflowOp := Wide(e.offset)) else c;
    if va.Some? {
      OverflowFirst(c1, s.Get(va.reg));
    }
    var c2 := if va.Some? then c1.(overflow0 := s.Get(va.reg)) else c1;
    if vb.Some? {
      OverflowSecond(c2, s.Get(vb.reg));
    }
  }

  method EmitLazy(batch: CodeBatch, p: Place, e: Entry, va: Operand, vb: Operand, temp: Reg)
    modifies batch
    ensures batch.code == old(batch.code) + LazyWords(p, e, va, vb, temp)
  {
    if e.Entry? {
      var _ := batch.Add(OpImm(ADDI, temp, Zero, e.offset));
      var _ := batch.Add(Store(SH, S11, temp, p.op));
    }
    if va.Some? {
      var _ := batch.Add(Store(SD, S11, va.reg, p.first));
    }
    if vb.Some? {
      var _ := batch.Add(Store(SD, S11, vb.reg, p.second));
    }
  }

  method UpdateCarry(batch: CodeBatch, update: set<G.Flag>, e: Entry, va: Operand, vb: Operand, temp: Reg)
      returns (ghost x: seq<Instr>)
    requires Free(e, va, vb, temp)
    modifies batch
    ensures batch.code == old(batch.code) + x && AllFlow(x)
    ensures forall s: State :: Framed(s, Exec(x, s), {temp})
    ensures forall s: State :: Exec(x, s).ctx == if G.Carry in update then CarryFields(s.ctx, e, va, vb, s) else s.ctx
  {
    hide LazyWords, Exec, Free, Framed, CarryFields;
    if G.Carry !in update {
      x := [];
      forall s: State ensures Framed(s, Exec(x, s), {temp}) && Exec(x, s).ctx == s.ctx {
        NothingFramed(s, temp);
      }
      return;
    }
    EmitLazy(batch, CarryPlace, e, va, vb, temp);
    x := LazyWords(CarryPlace, e, va, vb, temp);
    LazyFlows(CarryPlace, e, va, vb, temp);
    forall s: State ensures Framed(s, Exec(x, s), {temp}) && Exec(x, s).ctx == CarryFields(s.ctx, e, va, vb, s) {
      LazyStored(CarryPlace, e, va, vb, temp, s);
      EntrySmall(e, va, vb, temp);
      CarryWritten(s.ctx, e, va, vb, s);
    }
  }

  lemma EntrySmall(e: Entry, va: Operand, vb: Operand, temp: Reg)
    requires Free(e, va, vb, temp)
    ensures e.Entry? ==> e.offset < 0x800
  {
  }

  lemma NothingFramed(s: State, temp: Reg)
    ensures Framed(s, Exec([], s), {temp}) && Exec([], s).ctx == s.ctx
  {
    hide State.Get, Step;
  }

  method UpdateOverflow(batch: CodeBatch, update: set<G.Flag>, e: Entry, va: Operand, vb: Operand, temp: Reg)
      returns (ghost x: seq<Instr>)
    requires Free(e, va, vb, temp)
    modifies batch
    ensures batch.code == old(batch.code) + x && AllFlow(x)
    ensures forall s: State :: Framed(s, Exec(x, s), {temp})
    ensures forall s: State ::
      Exec(x, s).ctx == if G.Overflow in update then OverflowFields(s.ctx, e, va, vb, s) else s.ctx
  {
    hide LazyWords, Exec, Free, Framed, OverflowFields;
    if G.Overflow !in update {
      x := [];
      forall s: State ensures Framed(s, Exec(x, s), {temp}) && Exec(x, s).ctx == s.ctx {
        NothingFramed(s, temp);
      }
      return;
    }
    EmitLazy(batch, OverflowPlace, e, va, vb, temp);
    x := LazyWords(OverflowPlace, e, va, vb, temp);
    LazyFlows(OverflowPlace, e, va, vb, temp);
    forall s: State ensures Framed(s, Exec(x, s), {temp}) && Exec(x, s).ctx == OverflowFields(s.ctx, e, va, vb, s) {
      LazyStored(OverflowPlace, e, va, vb, temp, s);
      EntrySmall(e, va, vb, temp);
      OverflowWritten(s.ctx, e, va, vb, s);
    }
  }

  lemma CarryTouches(c: Context, e: Entry, va: Operand, vb: Operand, s: State)
    ensures Touches(c, CarryFields(c, e, va, vb, s), {G.Carry})
  {
    hide State.Get, Wide;
  }

  lemma OverflowTouches(c: Context, e: Entry, va: Operand, vb: Operand, s: State)
    ensures Touches(c, OverflowFields(c, e, va, vb, s), {G.Overflow})
  {
    hide State.Get, Wide;
  }
}
