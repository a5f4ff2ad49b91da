/** The x86 decoder in 64-bit mode (fadec.cpp), over an arbitrary opcode table. */
module Decoder {

  datatype Option<T> = None | Some(value: T)

  type Bytes = seq<bv8>

  const MaxLength: nat := 15
  const Word64: nat := 0x1_0000_0000_0000_0000
  const NoRegister: nat := 0x3f
  const Ip: nat := 0x10

  // ---- the table ----------------------------------------------------------------------------------------------

  datatype Kind = KNone | KInstr | KTable256 | KTable8 | KTable72 | KTablePrefix | KTableVex | KOther

  datatype Entry = Entry(kind: Kind, table: nat)

  /** The two-bit fields select operands; a field of zero means there is none. */
  datatype Desc = Desc(
    typ: nat, indices: bv8, sizes: bv8, immediate: bv8,
    size8: bool, def64: bool, width: bool, fixedSize: nat, lock: bool, vsib: bool, regTypes: nat
  ) {
    predicate HasModRM() { 0 < indices & 3 }
    predicate HasModReg() { 0 < indices & 0xc }
    predicate HasVexReg() { 0 < indices & 0x30 }
    predicate HasImplicit() { 0 < indices & 0xc0 }
    function ModRMIndex(): nat { Two(indices) }
    function ModRegIndex(): nat { Two(indices >> 2) }
    function VexRegIndex(): nat { Two(indices >> 4) }
    function ImplicitIndex(): nat { Two(indices >> 6) }
    function ImmControl(): bv8 { (immediate >> 4) & 7 }
    function ImmIndex(): nat { Two(immediate) }
    predicate ImmByte() { 0 < immediate & 0x80 }
  }

  function Two(x: bv8): (n: nat)
    ensures n < 4
  {
    (((x & 3) ^ 3) as bv2) as nat
  }

  datatype Table =
    Table(root: nat, entries: (nat, nat) -> Entry, descs: nat -> Desc, retImm: nat, enter: nat, movabs: nat)

  // ---- the result ----------------------------------------------------------------------------------------------

  datatype OperandKind = NoOperand | RegOperand | ImmOperand | MemOperand

  datatype Operand = Operand(kind: OperandKind, size: nat, reg: nat, regType: nat)

  datatype Repeat = NoRepeat | Rep | RepNz

  datatype Instruction = Instruction(
    typ: nat, lock: bool, repeat: Repeat, rex: bool, operandSize: nat, addressSize: nat, segment: nat,
    scale: nat, index: nat, disp: int, imm: int, operands: seq<Operand>, size: nat
  )

  // ---- prefixes -------------------------------------------------------------------------------------------------

  datatype Prefixes = Prefixes(
    lock: bool, repeat: Repeat, opsz: bool, addrsz: bool, rex: bool, b: bool, x: bool, r: bool, w: bool, vexl: bool,
      vex: bool,
    mandatory: nat, segment: nat, vexOperand: nat, escape: int
  )

  const NoPrefixes: Prefixes :=
    Prefixes(false, NoRepeat, false, false, false, false, false, false, false, false, false, 0, NoRegister, 0, -1)

  /** The segment register a prefix names. */
  function SegmentOf(byte: bv8): Option<nat> {
    if byte == 0x26 then Some(0) else if byte == 0x2e then Some(1) else if byte == 0x3e then Some(3)
    else if byte == 0x64 then Some(4) else if byte == 0x65 then Some(5) else None
  }

  function RepeatOf(byte: bv8): Option<Repeat> {
    if byte == 0xf3 then Some(Rep) else if byte == 0xf2 then Some(RepNz) else None
  }

  predicate Legacy(byte: bv8) {
    SegmentOf(byte).Some? || RepeatOf(byte).Some? || byte == 0x67 || byte == 0xf0 || byte == 0x66
  }

  function AddLegacy(p: Prefixes, byte: bv8): Prefixes {
    if SegmentOf(byte).Some? then AddSegment(p, SegmentOf(byte).value)
    else if RepeatOf(byte).Some? then AddRepeat(p, RepeatOf(byte).value)
    else AddFlag(p, byte)
  }

  function AddSegment(p: Prefixes, segment: nat): Prefixes { p.(segment := segment) }

  function AddRepeat(p: Prefixes, repeat: Repeat): Prefixes {
    p.(repeat := repeat, mandatory := if repeat == Rep then 2 else 3)
  }

  function AddFlag(p: Prefixes, byte: bv8): Prefixes {
    if byte == 0x67 then p.(addrsz := true) else if byte == 0xf0 then p.(lock := true) else p.(opsz := true)
  }

  predicate IsRex(byte: bv8) { byte & 0xf0 == 0x40 }

  function AddRex(p: Prefixes, byte: bv8): Prefixes {
    p.(rex := true, b := p.b || 0 < byte & 1, x := p.x || 0 < byte & 2, r := p.r || 0 < byte & 4,
      w := p.w || 0 < byte & 8)
  }

  predicate IsVex(byte: bv8) { byte == 0xc4 || byte == 0xc5 }

  /** The part of a VEX prefix that both lengths share: the last byte. */
  function VexTail(p: Prefixes, byte: bv8): Prefixes {
    p.(vexl := 0 < byte & 4, mandatory := (byte & 3) as nat, vexOperand := (((byte & 0x78) >> 3) ^ 0xf) as nat)
  }

  /** In 64-bit mode the third byte of the register extension is never taken over. */
  function AddVex3(p: Prefixes, first: bv8, second: bv8): Prefixes {
    VexTail(p.(vex := true, r := p.r || !(0 < first & 0x80), x := p.x || !(0 < first & 0x40),
      escape := (first & 0x1f) as nat,
      w := p.w || 0 < second & 0x80), second)
  }

  function AddVex2(p: Prefixes, first: bv8): Prefixes {
    VexTail(p.(vex := true, r := p.r || !(0 < first & 0x80), escape := 1), first)
  }

  /** The prefixes from an offset on, and where they end; none if a VEX prefix is cut short. */
  function ScanPrefixes(b: Bytes, off: nat, p: Prefixes): Option<(Prefixes, nat)>
    requires off <= |b|
    decreases |b| - off
  {
    if off == |b| then Some((p, off))
    else if Legacy(b[off]) then ScanPrefixes(b, off + 1, AddLegacy(p, b[off]))
    else if IsRex(b[off]) then Some((AddRex(p, b[off]), off + 1))
    else if IsVex(b[off]) then
      if off + 1 >= |b| then None
      else if b[off] == 0xc5 then Some((AddVex2(p, b[off + 1]), off + 2))
      else if off + 2 >= |b| then None
      else Some((AddVex3(p, b[off + 1], b[off + 2]), off + 3))
    else Some((p, off))
  }

  /** Without a repeat prefix, 66h is offered as mandatory prefix. */
  function Offered(p: Prefixes): Prefixes { if p.mandatory == 0 && p.opsz then p.(mandatory := 1) else p }

  /** The loop of decode_prefixes. */
  method DecodePrefixes(b: Bytes) returns (r: Option<(Prefixes, nat)>)
    ensures r == match ScanPrefixes(b, 0, NoPrefixes) case None => None case Some(q) => Some((Offered(q.0), q.1))
  {
    var off, p := 0, NoPrefixes;
    while off < |b|
      invariant 0 <= off <= |b|
      invariant ScanPrefixes(b, 0, NoPrefixes) == ScanPrefixes(b, off, p)
    {
      var prefix := b[off];
      if Legacy(prefix) {
        p := AddLegacy(p, prefix);
        off := off + 1;
      } else if IsRex(prefix) {
        return Some((Offered(AddRex(p, prefix)), off + 1));
      } else if IsVex(prefix) {
        if off + 1 >= |b| {
          return None;
        }
        if prefix == 0xc5 {
          return Some((Offered(AddVex2(p, b[off + 1])), off + 2));
        }
        if off + 2 >= |b| {
          return None;
        }
        return Some((Offered(AddVex3(p, b[off + 1], b[off + 2])), off + 3));
      } else {
        break;
      }
    }
    r := Some((Offered(p), off));
  }

  // ---- the walk through the table ----------------------------------------------------------------------------------

  /** Where the walk has got to. */
  datatype Place = Place(kind: Kind, table: nat, off: nat)

  function Follow(t: Table, table: nat, index: nat, off: nat): Place {
    var e := t.entries(table, index);
    Place(e.kind, e.table, off)
  }

  function WalkOpcode(t: Table, b: Bytes, q: Place): Place
    requires q.off <= |b|
    decreases |b| - q.off
  {
    if q.kind == KTable256 && q.off < |b| then WalkOpcode(t, b, Follow(t, q.table, b[q.off] as nat, q.off + 1)) else q
  }

  /** After VEX the opcode is a single byte of the map that the prefix names. */
  function VexOpcode(t: Table, b: Bytes, off: nat, escape: int): Option<Place>
    requires off <= |b|
  {
    if escape == 1 || escape == 2 || escape == 3 then
      var q := Follow(t, t.root, 0x0f, off);
      var p := if escape == 2 then Follow(t, q.table, 0x38, off) else if escape == 3 then Follow(t, q.table, 0x3a, off)
        else q;
      Some(if off < |b| then Follow(t, p.table, b[off] as nat, off + 1) else p)
    else None
  }

  function Opcode(t: Table, b: Bytes, off: nat, escape: int): Option<Place>
    requires off <= |b|
  {
    if escape < 0 then Some(WalkOpcode(t, b, Place(KTable256, t.root, off))) else VexOpcode(t, b, off, escape)
  }

  function RegField(byte: bv8): (n: nat)
    ensures n < 8
  {
    (((byte >> 3) & 7) as bv3) as nat
  }

  /** A register form of the byte: an index from 8 to 71. */
  function HighIndex(byte: bv8): nat { (byte - 0xb8) as nat }

  /** Opcode extensions in the ModRM byte, which is consumed here only if a register form has an entry of its own. */
  function Extension(t: Table, b: Bytes, q: Place): Place {
    if (q.kind == KTable8 || q.kind == KTable72) && q.off < |b| then
      var byte := b[q.off];
      if q.kind == KTable72 && byte & 0xc0 == 0xc0 && t.entries(q.table, HighIndex(byte)).kind != KNone then
        Follow(t, q.table, HighIndex(byte), q.off + 1)
      else Follow(t, q.table, RegField(byte), q.off)
    else q
  }

  /** Extensions by mandatory prefix and by VEX.W and VEX.L. */
  function Resolve(t: Table, q: Place, index: nat, vexIndex: nat): Place {
    var p := if q.kind == KTablePrefix then Follow(t, q.table, index, q.off) else q;
    if p.kind == KTableVex then Follow(t, p.table, vexIndex, p.off) else p
  }

  function PrefixIndex(p: Prefixes): nat { if p.vex && p.mandatory < 4 then p.mandatory + 4 else p.mandatory }

  function VexIndex(p: Prefixes): nat { (if p.w then 1 else 0) + (if p.vexl then 2 else 0) }

  /** A mandatory prefix used as extension has no further effect. */
  function Consumed(p: Prefixes, q: Place): Prefixes {
    if q.kind == KTablePrefix then p.(opsz := false, repeat := NoRepeat) else p
  }

  // ---- operands -------------------------------------------------------------------------------------------

  /** k bytes, lowest first. */
  function LoadLE(b: Bytes, off: nat, k: nat): nat
    requires off + k <= |b|
  {
    if k == 0 then 0 else LoadLE(b, off, k - 1) + b[off + k - 1] as nat * Pow256(k - 1)
  }

  function Pow256(k: nat): nat { if k == 0 then 1 else 256 * Pow256(k - 1) }

  function SignExtended(v: nat, k: nat): int { if 2 * v < Pow256(k) then v else v - Pow256(k) }

  function Wrapped(v: int): nat { v % Word64 }

  datatype Memory = Memory(scale: nat, index: nat, base: nat, disp: int)

  /** A ModRM byte with its SIB byte and displacement. */
  datatype ModRM = ModRM(reg: nat, rm: Option<nat>, mem: Memory, size: nat)

  function Mod(byte: bv8): nat { ((byte & 0xc0) >> 6) as nat }
  function Rm(byte: bv8): nat { (byte & 7) as nat }

  function Extra(flag: bool): nat { if flag then 8 else 0 }

  function DecodeModRM(b: Bytes, off: nat, p: Prefixes, vsib: bool): Option<ModRM>
    requires off <= |b|
  {
    if off >= |b| then None
    else
      var mod, rm, reg := Mod(b[off]), Rm(b[off]), RegField(b[off]) + Extra(p.r);
      if mod == 3 then Some(ModRM(reg, Some(rm + Extra(p.b)), Memory(0, 0, 0, 0), 1))
      else if rm == 4 then
        if off + 1 >= |b| then None
        else
          var sib := b[off + 1];
          DecodeMemory(b, off + 2, p, vsib, mod, rm, reg, Mod(sib), RegField(sib) + Extra(p.x), Rm(sib), 2)
      else DecodeMemory(b, off + 1, p, vsib, mod, rm, reg, 0, 4, rm, 1)
  }

  function DecodeMemory(b: Bytes, off: nat, p: Prefixes, vsib: bool, mod: nat, rm: nat, reg: nat, scale: nat, idx: nat,
        base: nat, used: nat): Option<ModRM>
    requires off <= |b|
  {
    var index := if !vsib && idx == 4 then NoRegister else idx;
    var baseReg := if mod == 0 && rm == 5 then Ip else if mod == 0 && base == 5 then NoRegister else base + Extra(p.b);
    var k := if mod == 1 then 1 else if mod == 2 || (mod == 0 && base == 5) then 4 else 0;
    if off + k > |b| then None
    else Some(ModRM(reg, None, Memory(scale, index, baseReg, Wrapped(SignExtended(LoadLE(b, off, k), k))), used + k))
  }

  // ---- sizes ----------------------------------------------------------------------------------------------

  function OpSize(d: Desc, p: Prefixes): nat {
    if d.size8 then 1 else if p.w then 8 else if p.opsz then 2 else if d.def64 then 8 else 4
  }

  function AddrSize(p: Prefixes): nat { if p.addrsz then 4 else 8 }

  function Shifted1(n: nat): nat { if n == 0 then 1 else 2 * Shifted1(n - 1) }

  function OperandSize(d: Desc, p: Prefixes, i: nat): nat
    requires i < 4
  {
    var code := if i == 0 then d.sizes & 3 else if i == 1 then (d.sizes >> 2) & 3 else if i == 2 then (d.sizes >> 4) & 3
      else (d.sizes >> 6) & 3;
    if code == 0 then 0 else if code == 1 then Shifted1(d.fixedSize) % 256 else if code == 2 then OpSize(d, p)
      else if p.vexl then 32 else 16
  }

  function ImmSize(t: Table, d: Desc, p: Prefixes): nat {
    if d.ImmByte() then 1
    else if d.typ == t.retImm then 2
    else if d.typ == t.enter then 3
    else if d.ImmControl() == 4 then 4
    else if p.opsz then 2
    else if p.w && d.typ == t.movabs then 8
    else 4
  }

  // ---- the instruction ------------------------------------------------------------------------------------

  /** What has been filled in so far, and how many bytes have been used. */
  datatype Partial = Partial(i: Instruction, off: nat)

  function Begin(t: Table, d: Desc, p: Prefixes): Instruction {
    Instruction(d.typ, p.lock, p.repeat, p.rex, if d.width then OpSize(d, p) else 0, AddrSize(p), p.segment, 0, 0, 0, 0,
      [Operand(NoOperand, OperandSize(d, p, 0), 0, 0), Operand(NoOperand, OperandSize(d, p, 1), 0, 0),
        Operand(NoOperand, OperandSize(d, p, 2), 0, 0), Operand(NoOperand, OperandSize(d, p, 3), 0, 0)], 0)
  }

  function SetOperand(i: Instruction, k: nat, kind: OperandKind, reg: nat): Instruction
    requires k < 4 && |i.operands| == 4
  {
    i.(operands := i.operands[k := i.operands[k].(kind := kind, reg := reg)])
  }

  function Implicit(d: Desc, i: Instruction): (r: Instruction)
    requires |i.operands| == 4
    ensures |r.operands| == 4
  {
    if d.HasImplicit() then SetOperand(i, d.ImplicitIndex(), RegOperand, 0) else i
  }

  /** The operands that the ModRM byte, the opcode byte and the VEX prefix encode. */
  function Registers(d: Desc, p: Prefixes, b: Bytes, off: nat, i: Instruction): (r: Option<Partial>)
    requires 0 < off <= |b| && |i.operands| == 4
    ensures r.Some? ==> |r.value.i.operands| == 4 && off <= r.value.off <= |b|
  {
    if d.HasModRM() then
      match DecodeModRM(b, off, p, d.vsib)
      case None => None
      case Some(m) =>
        var j := if d.HasModReg() then SetOperand(i, d.ModRegIndex(), RegOperand, m.reg) else i;
        var k := if m.rm.Some? then SetOperand(j, d.ModRMIndex(), RegOperand, m.rm.value)
          else SetOperand(j, d.ModRMIndex(), MemOperand, m.mem.base).(scale := m.mem.scale, index := m.mem.index,
            disp := m.mem.disp);
        ModRMFits(b, off, p, d.vsib);
        Some(Partial(VexRegister(d, p, k), off + m.size))
    else
      var j := if d.HasModReg() then SetOperand(i, d.ModRegIndex(), RegOperand, Rm(b[off - 1]) + Extra(p.b)) else i;
      Some(Partial(VexRegister(d, p, j), off))
  }

  function VexRegister(d: Desc, p: Prefixes, i: Instruction): (r: Instruction)
    requires |i.operands| == 4
    ensures |r.operands| == 4
  {
    if d.HasVexReg() then SetOperand(i, d.VexRegIndex(), RegOperand, p.vexOperand) else i
  }

  lemma ModRMFits(b: Bytes, off: nat, p: Prefixes, vsib: bool)
    requires off <= |b| && DecodeModRM(b, off, p, vsib).Some?
    ensures 0 < DecodeModRM(b, off, p, vsib).value.size && off + DecodeModRM(b, off, p, vsib).value.size <= |b|
  {
  }

  /** The immediate operand; for control 5 the operand's kind is left as it is. */
  function Immediate(t: Table, d: Desc, p: Prefixes, b: Bytes, q: Partial, address: nat): (r: Option<Partial>)
    requires q.off <= |b| && |q.i.operands| == 4
    ensures r.Some? ==> |r.value.i.operands| == 4 && q.off <= r.value.off <= |b|
  {
    var c, k := d.ImmControl(), d.ImmIndex();
    if c == 0 then Some(q)
    else if c == 1 then
      var i := SetOperand(q.i, k, ImmOperand, q.i.operands[k].reg);
      Some(Partial(i.(operands := i.operands[k := i.operands[k].(size := 1)], imm := 1), q.off))
    else if c == 2 then
      if q.off + AddrSize(p) > |b| then None
      else
        var i := SetOperand(q.i, k, MemOperand, NoRegister);
        Some(Partial(i.(operands := i.operands[k := i.operands[k].(size := OpSize(d, p))], index := NoRegister,
          disp := LoadLE(b, q.off, AddrSize(p))), q.off + AddrSize(p)))
    else
      var n := ImmSize(t, d, p);
      if q.off + n > |b| then None
      else
        var v := if n == 3 then LoadLE(b, q.off, 3) else SignExtended(LoadLE(b, q.off, n), n);
        var end := q.off + n;
        var imm := Wrapped(if c == 4 then v + address + end else v);
        var o := q.i.operands[k];
        var sized := if c == 4 then o.(size := 8) else o;
        var operand := if c == 5 then sized.(reg := imm / 16 % 16) else sized.(kind := ImmOperand);
        Some(Partial(q.i.(imm := imm, operands := q.i.operands[k := operand]), end))
  }

  /**
   RIP-relative operands are resolved, and registers get their kind; byte registers from 4 on are high ones
   without REX.
   */
  function Finished(d: Desc, p: Prefixes, o: Operand, k: nat): Operand
    requires k < 4
  {
    if o.kind == MemOperand && o.reg == Ip then TypedRegister(d, p, o.(reg := NoRegister), k)
    else if o.kind != RegOperand then o
    else TypedRegister(d, p, o, k)
  }

  function TypedRegister(d: Desc, p: Prefixes, o: Operand, k: nat): Operand
    requires k < 4
  {
    var x := if k == 0 then d.regTypes % 16 else if k == 1 then d.regTypes / 16 % 16
      else if k == 2 then d.regTypes / 256 % 16 else d.regTypes / 4096 % 16;
    o.(regType := if x == 1 && !p.rex && o.size == 1 && o.reg >= 4 then 2 else x)
  }

  predicate RipRelative(o: Operand) { o.kind == MemOperand && o.reg == Ip }

  function Complete(d: Desc, p: Prefixes, q: Partial, address: nat): Option<(Instruction, nat)>
    requires |q.i.operands| == 4
  {
    var os := q.i.operands;
    if p.lock && (!d.lock || os[0].kind != MemOperand) then None
    else
      var disp := if RipRelative(os[0]) || RipRelative(os[1]) || RipRelative(os[2]) || RipRelative(os[3])
        then Wrapped(q.i.disp + address + q.off) else q.i.disp;
      Some((q.i.(operands := [Finished(d, p, os[0], 0), Finished(d, p, os[1], 1), Finished(d, p, os[2], 2),
        Finished(d, p, os[3], 3)],
        disp := disp, size := q.off), q.off))
  }

  /** Everything behind the opcode. */
  function Build(t: Table, d: Desc, p: Prefixes, b: Bytes, off: nat, address: nat): Option<(Instruction, nat)>
    requires 0 < off <= |b|
  {
    match Registers(d, p, b, off, Implicit(d, Begin(t, d, p)))
    case None => None
    case Some(q) =>
      match Immediate(t, d, p, b, q, address)
      case None => None
      case Some(r) => Complete(d, p, r, address)
  }

  /** The bytes after the prefixes. */
  function DecodeOpcode(t: Table, p: Prefixes, b: Bytes, off: nat, address: nat): Option<(Instruction, nat)>
    requires off < |b|
  {
    match Opcode(t, b, off, p.escape)
    case None => None
    case Some(o) =>
      OpcodeMoves(t, b, off, p.escape);
      var e := Extension(t, b, o);
      var q := Resolve(t, e, PrefixIndex(p), VexIndex(p));
      if q.kind != KInstr then None else Build(t, t.descs(q.table), Consumed(p, e), b, q.off, address)
  }

  lemma {:induction false} WalkMoves(t: Table, b: Bytes, q: Place)
    requires q.off <= |b|
    ensures var r := WalkOpcode(t, b, q);
      q.off <= r.off <= |b| && (q.kind == KTable256 && r.kind != KTable256 ==> q.off < r.off)
    decreases |b| - q.off
  {
    if q.kind == KTable256 && q.off < |b| {
      WalkMoves(t, b, Follow(t, q.table, b[q.off] as nat, q.off + 1));
    }
  }

  lemma OpcodeMoves(t: Table, b: Bytes, off: nat, escape: int)
    requires off < |b|
    ensures var r := Opcode(t, b, off, escape); r.Some? ==> off <= r.value.off <= |b|
    ensures var r := Opcode(t, b, off, escape); r.Some? && r.value.kind != KTable256 ==> off < r.value.off
  {
    WalkMoves(t, b, Place(KTable256, t.root, off));
  }

  /** At most fifteen bytes are looked at. */
  function Window(b: Bytes): (w: Bytes)
    ensures |w| <= MaxLength && w <= b
  {
    if |b| > MaxLength then b[..MaxLength] else b
  }

  function DecodeWindow(t: Table, b: Bytes, address: nat): Option<(Instruction, nat)> {
    match ScanPrefixes(b, 0, NoPrefixes)
    case None => None
    case Some(q) => if q.1 >= |b| then None else DecodeOpcode(t, Offered(q.0), b, q.1, address)
  }

  /** decode: the instruction and its length, or nothing. */
  function Decode(t: Table, b: Bytes, address: nat): Option<(Instruction, nat)> { DecodeWindow(t, Window(b), address) }

  /** decode, with its loop over the opcode bytes. */
  method DecodeInstruction(t: Table, buffer: Bytes, address: nat) returns (r: Option<(Instruction, nat)>)
    ensures r == Decode(t, buffer, address)
  {
    var b := Window(buffer);
    var start := DecodePrefixes(b);
    if start.None? || start.value.1 >= |b| {
      return None;
    }
    var p, off := start.value.0, start.value.1;
    var q := Place(KTable256, t.root, off);
    if p.escape < 0 {
      while q.kind == KTable256 && q.off < |b|
        invariant off <= q.off <= |b| && WalkOpcode(t, b, q) == WalkOpcode(t, b, Place(KTable256, t.root, off))
        decreases |b| - q.off
      {
        q := Follow(t, q.table, b[q.off] as nat, q.off + 1);
      }
    } else {
      var v := VexOpcode(t, b, off, p.escape);
      if v.None? {
        return None;
      }
      q := v.value;
    }
    OpcodeMoves(t, b, off, p.escape);
    var e := Extension(t, b, q);
    var f := Resolve(t, e, PrefixIndex(p), VexIndex(p));
    r := if f.kind != KInstr then None else Build(t, t.descs(f.table), Consumed(p, e), b, f.off, address);
  }

  // ---- the decoder is self-delimiting ---------------------------------------------------------------------

  /** The two byte strings begin with the same n bytes. */
  predicate Agree(b: Bytes, c: Bytes, n: nat) { n <= |b| && n <= |c| && b[..n] == c[..n] }

  lemma AgreeLess(b: Bytes, c: Bytes, n: nat, m: nat)
    requires Agree(b, c, n) && m <= n
    ensures Agree(b, c, m) && forall i :: 0 <= i < m ==> b[i] == c[i]
  {
    forall i | 0 <= i < m ensures b[i] == c[i] {
      assert b[..n][i] == c[..n][i];
    }
  }

  lemma {:induction false} ScanMoves(b: Bytes, off: nat, p: Prefixes)
    requires off <= |b|
    ensures var r := ScanPrefixes(b, off, p); r.Some? ==> off <= r.value.1 <= |b|
    decreases |b| - off
  {
    hide Legacy, AddLegacy, IsRex, AddRex, AddVex2, AddVex3;
    if off < |b| && Legacy(b[off]) {
      ScanMoves(b, off + 1, AddLegacy(p, b[off]));
    }
  }

  lemma {:induction false} ScanAgrees(b: Bytes, c: Bytes, off: nat, p: Prefixes)
    requires off <= |b| && ScanPrefixes(b, off, p).Some?
    requires ScanPrefixes(b, off, p).value.1 < |b| && Agree(b, c, ScanPrefixes(b, off, p).value.1 + 1)
    ensures off <= |c| && ScanPrefixes(c, off, p) == ScanPrefixes(b, off, p)
    decreases |b| - off
  {
    hide Legacy, AddLegacy, IsRex, AddRex, AddVex2, AddVex3;
    var n := ScanPrefixes(b, off, p).value.1;
    ScanMoves(b, off, p);
    AgreeLess(b, c, n + 1, n + 1);
    if Legacy(b[off]) {
      ScanAgrees(b, c, off + 1, AddLegacy(p, b[off]));
    }
  }

  lemma {:induction false} WalkAgrees(t: Table, b: Bytes, c: Bytes, q: Place)
    requires q.off <= |b| && WalkOpcode(t, b, q).kind != KTable256 && Agree(b, c, WalkOpcode(t, b, q).off)
    ensures q.off <= |c| && WalkOpcode(t, c, q) == WalkOpcode(t, b, q)
    decreases |b| - q.off
  {
    WalkMoves(t, b, q);
    AgreeLess(b, c, WalkOpcode(t, b, q).off, WalkOpcode(t, b, q).off);
    if q.kind == KTable256 && q.off < |b| {
      var next := Follow(t, q.table, b[q.off] as nat, q.off + 1);
      WalkMoves(t, b, next);
      WalkAgrees(t, b, c, next);
    }
  }

  lemma OpcodeAgrees(t: Table, b: Bytes, c: Bytes, off: nat, escape: int)
    requires off < |b| && Opcode(t, b, off, escape).Some?
    requires var o := Opcode(t, b, off, escape).value; o.kind != KTable256 && Agree(b, c, o.off)
    ensures off < |c| && Opcode(t, c, off, escape) == Opcode(t, b, off, escape)
  {
    hide WalkOpcode;
    var o := Opcode(t, b, off, escape).value;
    OpcodeMoves(t, b, off, escape);
    AgreeLess(b, c, o.off, o.off);
    if escape < 0 {
      WalkAgrees(t, b, c, Place(KTable256, t.root, off));
    }
  }

  lemma {:induction false} LoadAgrees(b: Bytes, c: Bytes, off: nat, k: nat)
    requires off + k <= |b| && Agree(b, c, off + k)
    ensures LoadLE(c, off, k) == LoadLE(b, off, k)
    decreases k
  {
    if k > 0 {
      AgreeLess(b, c, off + k, off + k);
      AgreeLess(b, c, off + k, off + k - 1);
      LoadAgrees(b, c, off, k - 1);
    }
  }

  lemma MemoryAgrees(b: Bytes, c: Bytes, off: nat, p: Prefixes, vsib: bool, mod: nat, rm: nat, reg: nat, scale: nat,
        idx: nat, base: nat, used: nat)
    requires off <= |b| && DecodeMemory(b, off, p, vsib, mod, rm, reg, scale, idx, base, used).Some?
    requires var m := DecodeMemory(b, off, p, vsib, mod, rm, reg, scale, idx, base, used).value;
      used <= m.size && Agree(b, c, off + (m.size - used))
    ensures off <= |c|
    ensures DecodeMemory(c, off, p, vsib, mod, rm, reg, scale, idx, base, used)
      == DecodeMemory(b, off, p, vsib, mod, rm, reg, scale, idx, base, used)
  {
    hide LoadLE, SignExtended, Wrapped;
    var k := if mod == 1 then 1 else if mod == 2 || (mod == 0 && base == 5) then 4 else 0;
    LoadAgrees(b, c, off, k);
  }

  lemma ModRMAgrees(b: Bytes, c: Bytes, off: nat, p: Prefixes, vsib: bool)
    requires off <= |b| && DecodeModRM(b, off, p, vsib).Some?
    requires Agree(b, c, off + DecodeModRM(b, off, p, vsib).value.size)
    ensures off <= |c| && DecodeModRM(c, off, p, vsib) == DecodeModRM(b, off, p, vsib)
  {
    hide LoadLE, SignExtended, Wrapped, Mod, Rm, RegField, Extra;
    var m := DecodeModRM(b, off, p, vsib).value;
    ModRMFits(b, off, p, vsib);
    AgreeLess(b, c, off + m.size, off + m.size);
    var mod, rm, reg := Mod(b[off]), Rm(b[off]), RegField(b[off]) + Extra(p.r);
    if mod != 3 {
      if rm == 4 {
        var sib := b[off + 1];
        MemoryUses(b, off + 2, p, vsib, mod, rm, reg, Mod(sib), RegField(sib) + Extra(p.x), Rm(sib), 2);
        MemoryAgrees(b, c, off + 2, p, vsib, mod, rm, reg, Mod(sib), RegField(sib) + Extra(p.x), Rm(sib), 2);
      } else {
        MemoryUses(b, off + 1, p, vsib, mod, rm, reg, 0, 4, rm, 1);
        MemoryAgrees(b, c, off + 1, p, vsib, mod, rm, reg, 0, 4, rm, 1);
      }
    }
  }

  lemma MemoryUses(b: Bytes, off: nat, p: Prefixes, vsib: bool, mod: nat, rm: nat, reg: nat, scale: nat, idx: nat,
        base: nat, used: nat)
    requires off <= |b| && DecodeMemory(b, off, p, vsib, mod, rm, reg, scale, idx, base, used).Some?
    ensures used <= DecodeMemory(b, off, p, vsib, mod, rm, reg, scale, idx, base, used).value.size
  {
    hide LoadLE, SignExtended, Wrapped;
  }

  lemma RegistersAgree(d: Desc, p: Prefixes, b: Bytes, c: Bytes, off: nat, i: Instruction)
    requires 0 < off <= |b| && |i.operands| == 4 && Registers(d, p, b, off, i).Some?
    requires Agree(b, c, Registers(d, p, b, off, i).value.off)
    ensures off <= |c| && Registers(d, p, c, off, i) == Registers(d, p, b, off, i)
    ensures d.HasModRM() ==> off < Registers(d, p, b, off, i).value.off
  {
    hide DecodeModRM, SetOperand, VexRegister, Rm, Desc.HasModRM, Desc.HasModReg, Desc.ModRMIndex, Desc.ModRegIndex;
    var q := Registers(d, p, b, off, i).value;
    AgreeLess(b, c, q.off, off);
    if d.HasModRM() {
      ModRMFits(b, off, p, d.vsib);
      ModRMAgrees(b, c, off, p, d.vsib);
    }
  }

  lemma ImmediateAgrees(t: Table, d: Desc, p: Prefixes, b: Bytes, c: Bytes, q: Partial, address: nat)
    requires q.off <= |b| && |q.i.operands| == 4 && Immediate(t, d, p, b, q, address).Some?
    requires Agree(b, c, Immediate(t, d, p, b, q, address).value.off)
    ensures q.off <= |c| && Immediate(t, d, p, c, q, address) == Immediate(t, d, p, b, q, address)
  {
    hide LoadLE, SignExtended, Wrapped, SetOperand, ImmSize, AddrSize, OpSize, Desc.ImmControl, Desc.ImmIndex;
    var r, control := Immediate(t, d, p, b, q, address).value, d.ImmControl();
    AgreeLess(b, c, r.off, q.off);
    if control == 2 {
      LoadAgrees(b, c, q.off, AddrSize(p));
    } else if control != 0 && control != 1 {
      LoadAgrees(b, c, q.off, ImmSize(t, d, p));
    }
  }

  lemma BuildAgrees(t: Table, d: Desc, p: Prefixes, b: Bytes, c: Bytes, off: nat, address: nat)
    requires 0 < off <= |b| && Build(t, d, p, b, off, address).Some?
    requires Agree(b, c, Build(t, d, p, b, off, address).value.1)
    ensures off <= |c| && Build(t, d, p, c, off, address) == Build(t, d, p, b, off, address)
    ensures off <= Build(t, d, p, b, off, address).value.1 <= |b|
    ensures d.HasModRM() ==> off < Build(t, d, p, b, off, address).value.1
  {
    hide Begin, Implicit, Registers, Immediate, Complete, Desc.HasModRM;
    var n := Build(t, d, p, b, off, address).value.1;
    Filled(t, d, p);
    var i := Implicit(d, Begin(t, d, p));
    RegistersFit(d, p, b, off, i);
    var q := Registers(d, p, b, off, i).value;
    ImmediateFits(t, d, p, b, q, address);
    var r := Immediate(t, d, p, b, q, address).value;
    CompleteOffset(d, p, r, address);
    AgreeLess(b, c, n, q.off);
    RegistersAgree(d, p, b, c, off, i);
    ImmediateAgrees(t, d, p, b, c, q, address);
  }

  lemma Filled(t: Table, d: Desc, p: Prefixes)
    ensures |Begin(t, d, p).operands| == 4 && |Implicit(d, Begin(t, d, p)).operands| == 4
  {
  }

  lemma RegistersFit(d: Desc, p: Prefixes, b: Bytes, off: nat, i: Instruction)
    requires 0 < off <= |b| && |i.operands| == 4
    ensures var r := Registers(d, p, b, off, i); r.Some? ==> |r.value.i.operands| == 4 && off <= r.value.off <= |b|
  {
  }

  lemma ImmediateFits(t: Table, d: Desc, p: Prefixes, b: Bytes, q: Partial, address: nat)
    requires q.off <= |b| && |q.i.operands| == 4
    ensures var r := Immediate(t, d, p, b, q, address);
      r.Some? ==> |r.value.i.operands| == 4 && q.off <= r.value.off <= |b|
  {
  }

  lemma CompleteOffset(d: Desc, p: Prefixes, q: Partial, address: nat)
    requires |q.i.operands| == 4 && Complete(d, p, q, address).Some?
    ensures Complete(d, p, q, address).value.1 == q.off == Complete(d, p, q, address).value.0.size
  {
  }

  /** The instruction takes bytes behind its opcode: a ModRM operand, or an immediate that is not implied. */
  predicate ReadsOn(d: Desc) { d.HasModRM() || d.ImmControl() > 1 }

  predicate Peeks(o: Place) { o.kind == KTable8 || o.kind == KTable72 }

  /**
   A byte that was looked at to choose an opcode extension belongs to the instruction: a
   register form took it, or the instruction reads on.
   */
  predicate CoveredAt(t: Table, p: Prefixes, b: Bytes, off: nat)
    requires off < |b|
  {
    match Opcode(t, b, off, p.escape)
    case None => true
    case Some(o) =>
      var e := Extension(t, b, o);
      Peeks(o) ==> o.off < e.off || ReadsOn(t.descs(Resolve(t, e, PrefixIndex(p), VexIndex(p)).table))
  }

  predicate CoveredIn(t: Table, w: Bytes) {
    match ScanPrefixes(w, 0, NoPrefixes)
    case None => true
    case Some(q) => q.1 < |w| ==> CoveredAt(t, Offered(q.0), w, q.1)
  }

  predicate Covered(t: Table, b: Bytes) { CoveredIn(t, Window(b)) }

  /** Read off the table: instructions reached through the reg field of a ModRM byte read on. */
  ghost predicate ReadsPeeked(t: Table) {
    forall table: nat, index: nat, field: nat, off: nat, x: nat, y: nat
      {:trigger Resolve(t, Follow(t, t.entries(table, index).table, field, off), x, y)} ::
      (t.entries(table, index).kind == KTable8 || t.entries(table, index).kind == KTable72) && field < 8 ==>
        var q := Resolve(t, Follow(t, t.entries(table, index).table, field, off), x, y);
        q.kind == KInstr ==> ReadsOn(t.descs(q.table))
  }

  lemma {:induction false} WalkEntry(t: Table, b: Bytes, q: Place) returns (table: nat, index: nat)
    requires q.off <= |b| && q.kind == KTable256 && WalkOpcode(t, b, q).kind != KTable256
    ensures var r := WalkOpcode(t, b, q); r == Follow(t, table, index, r.off)
    decreases |b| - q.off
  {
    var next := Follow(t, q.table, b[q.off] as nat, q.off + 1);
    if next.kind == KTable256 {
      table, index := WalkEntry(t, b, next);
    } else {
      table, index := q.table, b[q.off] as nat;
    }
  }

  lemma OpcodeEntry(t: Table, b: Bytes, off: nat, escape: int) returns (table: nat, index: nat)
    requires off < |b| && Opcode(t, b, off, escape).Some? && Opcode(t, b, off, escape).value.kind != KTable256
    ensures var r := Opcode(t, b, off, escape).value; r == Follow(t, table, index, r.off)
  {
    if escape < 0 {
      table, index := WalkEntry(t, b, Place(KTable256, t.root, off));
    } else {
      var q := Follow(t, t.root, 0x0f, off);
      var p := if escape == 2 then Follow(t, q.table, 0x38, off) else if escape == 3 then Follow(t, q.table, 0x3a, off)
        else q;
      table, index := p.table, b[off] as nat;
    }
  }

  lemma ExtensionFits(t: Table, b: Bytes, o: Place, x: nat, y: nat)
    requires o.off <= |b|
    ensures var e := Extension(t, b, o); o.off <= e.off <= |b| && Resolve(t, e, x, y).off == e.off
    ensures Peeks(o) && Resolve(t, Extension(t, b, o), x, y).kind == KInstr ==> o.off < |b|
  {
    hide RegField, HighIndex;
  }

  lemma EntryReads(t: Table, table: nat, index: nat, field: nat, off: nat, x: nat, y: nat)
    requires ReadsPeeked(t) && field < 8
    requires t.entries(table, index).kind == KTable8 || t.entries(table, index).kind == KTable72
    ensures var q := Resolve(t, Follow(t, t.entries(table, index).table, field, off), x, y);
      q.kind == KInstr ==> ReadsOn(t.descs(q.table))
  {
    hide ReadsOn;
    var q := Resolve(t, Follow(t, t.entries(table, index).table, field, off), x, y);
  }

  /** A table whose instructions read on covers whatever is decoded. */
  lemma TableCovers(t: Table, p: Prefixes, b: Bytes, off: nat, address: nat)
    requires ReadsPeeked(t) && off < |b| && DecodeOpcode(t, p, b, off, address).Some?
    ensures CoveredAt(t, p, b, off)
  {
    hide ReadsPeeked, RegField, HighIndex, ReadsOn, Opcode, Resolve, Build, Consumed, PrefixIndex, VexIndex;
    var o := Opcode(t, b, off, p.escape).value;
    var x, y := PrefixIndex(p), VexIndex(p);
    if Peeks(o) {
      OpcodeMoves(t, b, off, p.escape);
      ExtensionFits(t, b, o, x, y);
      var table, index := OpcodeEntry(t, b, off, p.escape);
      FieldSmall(b[o.off]);
      EntryReads(t, table, index, RegField(b[o.off]), o.off, x, y);
    }
  }

  lemma FieldSmall(byte: bv8)
    ensures RegField(byte) < 8
  {
  }

  lemma ExtensionAgrees(t: Table, b: Bytes, c: Bytes, o: Place)
    requires o.off <= |b| && o.off <= |c|
    requires o.kind == KTable8 || o.kind == KTable72 ==> o.off < |b| && o.off < |c| && b[o.off] == c[o.off]
    ensures Extension(t, c, o) == Extension(t, b, o)
  {
    hide RegField, HighIndex;
  }

  lemma RanOut(t: Table, b: Bytes, o: Place, x: nat, y: nat)
    requires o.kind == KTable256
    ensures Resolve(t, Extension(t, b, o), x, y).kind == KTable256
  {
    hide RegField, HighIndex;
  }

  /** How far the instruction reaches, and whether it reaches beyond its opcode. */
  lemma BuildUses(t: Table, d: Desc, p: Prefixes, b: Bytes, off: nat, address: nat)
    requires 0 < off <= |b| && Build(t, d, p, b, off, address).Some?
    ensures off <= Build(t, d, p, b, off, address).value.1 <= |b|
    ensures off < Build(t, d, p, b, off, address).value.1 <==> ReadsOn(d)
  {
    hide Begin, Implicit, Registers, Immediate, Complete, Desc.HasModRM, Desc.ImmControl;
    Filled(t, d, p);
    var i := Implicit(d, Begin(t, d, p));
    RegistersFit(d, p, b, off, i);
    RegistersUse(d, p, b, off, i);
    var q := Registers(d, p, b, off, i).value;
    ImmediateFits(t, d, p, b, q, address);
    ImmediateUses(t, d, p, b, q, address);
    CompleteOffset(d, p, Immediate(t, d, p, b, q, address).value, address);
  }

  lemma RegistersUse(d: Desc, p: Prefixes, b: Bytes, off: nat, i: Instruction)
    requires 0 < off <= |b| && |i.operands| == 4 && Registers(d, p, b, off, i).Some?
    ensures off < Registers(d, p, b, off, i).value.off <==> d.HasModRM()
  {
    hide DecodeModRM, SetOperand, VexRegister, Rm, Desc.HasModRM, Desc.HasModReg, Desc.ModRMIndex, Desc.ModRegIndex;
    if d.HasModRM() {
      ModRMFits(b, off, p, d.vsib);
    }
  }

  lemma ImmediateUses(t: Table, d: Desc, p: Prefixes, b: Bytes, q: Partial, address: nat)
    requires q.off <= |b| && |q.i.operands| == 4 && Immediate(t, d, p, b, q, address).Some?
    ensures q.off < Immediate(t, d, p, b, q, address).value.off <==> d.ImmControl() > 1
  {
    hide LoadLE, SignExtended, Wrapped, SetOperand, OpSize, Desc.ImmIndex;
    ImmediateKinds(d);
  }

  lemma ImmediateKinds(d: Desc)
    ensures d.ImmControl() > 1 <==> d.ImmControl() != 0 && d.ImmControl() != 1
  {
  }

  /** The bytes that decide an opcode are part of the instruction, but for one that may only be looked at. */
  lemma OpcodeFits(t: Table, p: Prefixes, b: Bytes, off: nat, address: nat)
    requires off < |b| && DecodeOpcode(t, p, b, off, address).Some?
    ensures var o, n := Opcode(t, b, off, p.escape).value, DecodeOpcode(t, p, b, off, address).value.1;
      && off < o.off <= n <= |b| && o.kind != KTable256
      && (CoveredAt(t, p, b, off) <==> (Peeks(o) ==> o.off < n))
  {
    hide Opcode, Extension, Resolve, Build, Consumed, PrefixIndex, VexIndex, ReadsOn;
    var o := Opcode(t, b, off, p.escape).value;
    var x, y := PrefixIndex(p), VexIndex(p);
    OpcodeMoves(t, b, off, p.escape);
    var e := Extension(t, b, o);
    var q := Resolve(t, e, x, y);
    if o.kind == KTable256 {
      RanOut(t, b, o, x, y);
    }
    ExtensionFits(t, b, o, x, y);
    BuildUses(t, t.descs(q.table), Consumed(p, e), b, q.off, address);
  }

  lemma DecodeOpcodeAgrees(t: Table, p: Prefixes, b: Bytes, c: Bytes, off: nat, address: nat)
    requires off < |b| && DecodeOpcode(t, p, b, off, address).Some? && CoveredAt(t, p, b, off)
    requires Agree(b, c, DecodeOpcode(t, p, b, off, address).value.1)
    ensures off < |c| && DecodeOpcode(t, p, c, off, address) == DecodeOpcode(t, p, b, off, address)
  {
    hide CoveredAt, Opcode, Extension, Resolve, Build, Consumed, PrefixIndex, VexIndex;
    var n := DecodeOpcode(t, p, b, off, address).value.1;
    var o := Opcode(t, b, off, p.escape).value;
    var x, y := PrefixIndex(p), VexIndex(p);
    OpcodeFits(t, p, b, off, address);
    ExtensionFits(t, b, o, x, y);
    var e := Extension(t, b, o);
    var q := Resolve(t, e, x, y);
    AgreeLess(b, c, n, n);
    AgreeLess(b, c, n, o.off);
    OpcodeAgrees(t, b, c, off, p.escape);
    ExtensionAgrees(t, b, c, o);
    OpcodeMoves(t, c, off, p.escape);
    BuildAgrees(t, t.descs(q.table), Consumed(p, e), b, c, q.off, address);
  }

  /** Cut off in front of a byte that is only looked at, nothing is decoded. */
  lemma CutOff(t: Table, p: Prefixes, b: Bytes, off: nat, address: nat)
    requires off < |b| && DecodeOpcode(t, p, b, off, address).Some? && !CoveredAt(t, p, b, off)
    ensures var n := DecodeOpcode(t, p, b, off, address).value.1;
      off < n <= |b| && DecodeOpcode(t, p, b[..n], off, address).None?
  {
    hide CoveredAt, Opcode, Build, Consumed, PrefixIndex, VexIndex, RegField, HighIndex;
    var n := DecodeOpcode(t, p, b, off, address).value.1;
    OpcodeFits(t, p, b, off, address);
    OpcodeAgrees(t, b, b[..n], off, p.escape);
  }

  lemma WindowFits(t: Table, b: Bytes, address: nat)
    requires DecodeWindow(t, b, address).Some?
    ensures ScanPrefixes(b, 0, NoPrefixes).value.1 < DecodeWindow(t, b, address).value.1
    ensures 1 <= DecodeWindow(t, b, address).value.1 <= |b|
  {
    hide ScanPrefixes, DecodeOpcode, Opcode, CoveredAt, Offered;
    var q := ScanPrefixes(b, 0, NoPrefixes).value;
    OpcodeFits(t, Offered(q.0), b, q.1, address);
  }

  lemma WindowAgrees(t: Table, b: Bytes, c: Bytes, address: nat)
    requires DecodeWindow(t, b, address).Some? && CoveredIn(t, b) && Agree(b, c, DecodeWindow(t, b, address).value.1)
    ensures DecodeWindow(t, c, address) == DecodeWindow(t, b, address)
  {
    hide ScanPrefixes, DecodeOpcode, CoveredAt, Offered;
    var q := ScanPrefixes(b, 0, NoPrefixes).value;
    var n := DecodeWindow(t, b, address).value.1;
    WindowFits(t, b, address);
    DecodeOpcodeAgrees(t, Offered(q.0), b, c, q.1, address);
    AgreeLess(b, c, n, q.1 + 1);
    ScanAgrees(b, c, 0, NoPrefixes);
  }

  lemma WindowCutOff(t: Table, b: Bytes, address: nat)
    requires DecodeWindow(t, b, address).Some? && !CoveredIn(t, b)
    ensures DecodeWindow(t, b, address).value.1 <= |b|
    ensures DecodeWindow(t, b[..DecodeWindow(t, b, address).value.1], address).None?
  {
    hide ScanPrefixes, DecodeOpcode, CoveredAt, Offered;
    var q := ScanPrefixes(b, 0, NoPrefixes).value;
    var n := DecodeWindow(t, b, address).value.1;
    WindowFits(t, b, address);
    CutOff(t, Offered(q.0), b, q.1, address);
    assert Agree(b, b[..n], q.1 + 1);
    ScanAgrees(b, b[..n], 0, NoPrefixes);
  }

  /** Whatever bytes begin with these decode to the same instruction of the same length. */
  ghost predicate Delimited(t: Table, b: Bytes, address: nat)
    requires Decode(t, b, address).Some?
  {
    forall c: Bytes :: Agree(b, c, Decode(t, b, address).value.1) ==> Decode(t, c, address) == Decode(t, b, address)
  }

  lemma CoveredDelimited(t: Table, b: Bytes, address: nat)
    requires Decode(t, b, address).Some? && Covered(t, b)
    ensures Delimited(t, b, address)
  {
    hide DecodeWindow, CoveredIn;
    forall c: Bytes | Agree(b, c, Decode(t, b, address).value.1)
      ensures Decode(t, c, address) == Decode(t, b, address)
    {
      WindowFits(t, Window(b), address);
      assert Agree(Window(b), Window(c), Decode(t, b, address).value.1);
      WindowAgrees(t, Window(b), Window(c), address);
    }
  }

  /**
   For every table and all bytes: a decoded instruction has between 1 and 15 bytes, all of
   them given, and those alone decide what is decoded, exactly if they cover the byte that
   was looked at to choose an opcode extension.
   */
  lemma DelimitedExact(t: Table, b: Bytes, address: nat)
    requires Decode(t, b, address).Some?
    ensures var n := Decode(t, b, address).value.1;
      1 <= n <= |b| && n <= MaxLength && n == Decode(t, b, address).value.0.size
    ensures Delimited(t, b, address) <==> Covered(t, b)
  {
    hide DecodeWindow, CoveredIn;
    var w, n := Window(b), Decode(t, b, address).value.1;
    WindowFits(t, w, address);
    SizeIsLength(t, w, address);
    if Covered(t, b) {
      CoveredDelimited(t, b, address);
    } else {
      WindowCutOff(t, w, address);
      assert Agree(b, w[..n], n) && Window(w[..n]) == w[..n];
    }
  }

  /** With a table whose instructions read on, every decoded instruction is delimited. */
  lemma SelfDelimiting(t: Table, b: Bytes, address: nat)
    requires ReadsPeeked(t) && Decode(t, b, address).Some?
    ensures Delimited(t, b, address)
  {
    hide ReadsPeeked, ScanPrefixes, DecodeOpcode, CoveredAt, Offered, Delimited;
    var w := Window(b);
    var q := ScanPrefixes(w, 0, NoPrefixes).value;
    TableCovers(t, Offered(q.0), w, q.1, address);
    DelimitedExact(t, b, address);
  }

  lemma SizeIsLength(t: Table, b: Bytes, address: nat)
    requires DecodeWindow(t, b, address).Some?
    ensures DecodeWindow(t, b, address).value.0.size == DecodeWindow(t, b, address).value.1
  {
    hide Begin, Implicit, Registers, Immediate, ScanPrefixes, Opcode, Extension, Resolve, Consumed, Offered;
  }

  // ---- the condition on the table is needed ---------------------------------------------------------------

  const BareDesc: Desc := Desc(7, 0, 0, 0, false, false, false, 0, false, false, 0)

  /** A table whose only opcode selects by a reg field an instruction without ModRM operand. */
  const Peeking: Table := Table(0,
    (table: nat, index: nat) => if table == 0 then Entry(KTable8, 1) else if index == 0 then Entry(KInstr, 2)
      else Entry(KNone, 0),
    (at: nat) => BareDesc, 1, 2, 3)

  lemma PeekedWalk(b: Bytes)
    requires |b| == 2 && b[0] == 0
    ensures Opcode(Peeking, b, 0, -1) == Some(Place(KTable8, 1, 1))
  {
    assert WalkOpcode(Peeking, b, Place(KTable8, 1, 1)) == Place(KTable8, 1, 1);
  }

  lemma PeekedScan(b: Bytes)
    requires |b| == 2 && b[0] == 0
    ensures ScanPrefixes(b, 0, NoPrefixes) == Some((NoPrefixes, 0))
  {
  }

  lemma PeekedField()
    ensures RegField(0) == 0 && RegField(8) == 1
  {
  }

  lemma PeekedBuild(b: Bytes)
    requires |b| == 2
    ensures var r := Build(Peeking, BareDesc, NoPrefixes, b, 1, 0); r.Some? && r.value.1 == 1
  {
    hide OperandSize, OpSize;
  }

  /** Without it, an instruction of length one can depend on the byte behind it. */
  lemma NotDelimited()
    ensures var r := Decode(Peeking, [0, 0], 0);
      r.Some? && r.value.1 == 1 && Agree([0, 0], [0, 8], 1) && Decode(Peeking, [0, 8], 0).None?
    ensures !Delimited(Peeking, [0, 0], 0) && !Covered(Peeking, [0, 0])
  {
    hide Opcode, ScanPrefixes, RegField, Build, Covered;
    PeekedWalk([0, 0]);
    PeekedWalk([0, 8]);
    PeekedScan([0, 0]);
    PeekedScan([0, 8]);
    PeekedField();
    PeekedBuild([0, 0]);
    assert Agree([0, 0], [0, 8], 1);
    DelimitedExact(Peeking, [0, 0], 0);
  }

  // ---- which prefixes count -------------------------------------------------------------------------------

  function AddAll(p: Prefixes, bs: Bytes): Prefixes {
    if bs == [] then p else AddLegacy(AddAll(p, bs[..|bs| - 1]), bs[|bs| - 1])
  }

  predicate AllLegacy(bs: Bytes) { forall i :: 0 <= i < |bs| ==> Legacy(bs[i]) }

  lemma {:induction false} ScanLegacy(b: Bytes, k: nat)
    requires k <= |b| && AllLegacy(b[..k])
    ensures ScanPrefixes(b, 0, NoPrefixes) == ScanPrefixes(b, k, AddAll(NoPrefixes, b[..k]))
    decreases k
  {
    hide Legacy, AddLegacy;
    if k > 0 {
      assert b[..k][..k - 1] == b[..k - 1] && b[..k][k - 1] == b[k - 1];
      var front := b[..k - 1];
      forall i | 0 <= i < |front| ensures Legacy(front[i]) {
        assert front[i] == b[..k][i];
      }
      ScanLegacy(b, k - 1);
    }
  }

  /** The segment and repeat prefixes nearest to the opcode. */
  function LastSegment(bs: Bytes): nat {
    if bs == [] then NoRegister
    else if SegmentOf(bs[|bs| - 1]).Some? then SegmentOf(bs[|bs| - 1]).value else LastSegment(bs[..|bs| - 1])
  }

  function LastRepeat(bs: Bytes): Repeat {
    if bs == [] then NoRepeat
    else if RepeatOf(bs[|bs| - 1]).Some? then RepeatOf(bs[|bs| - 1]).value else LastRepeat(bs[..|bs| - 1])
  }

  lemma OneKind(byte: bv8)
    ensures SegmentOf(byte).Some? ==> RepeatOf(byte).None? && byte != 0x66 && byte != 0x67 && byte != 0xf0
    ensures RepeatOf(byte).Some? ==> byte != 0x66 && byte != 0x67 && byte != 0xf0
  {
  }

  /** Of several segment or repeat prefixes the last one counts; the others count wherever they stand. */
  predicate Counted(p: Prefixes, bs: Bytes) {
    && p.segment == LastSegment(bs) && p.repeat == LastRepeat(bs)
    && (p.opsz <==> 0x66 in bs) && (p.addrsz <==> 0x67 in bs) && (p.lock <==> 0xf0 in bs)
  }

  lemma {:induction false} LastWins(bs: Bytes)
    requires AllLegacy(bs)
    ensures Counted(AddAll(NoPrefixes, bs), bs)
  {
    hide SegmentOf, RepeatOf;
    if bs != [] {
      var front, last := bs[..|bs| - 1], bs[|bs| - 1];
      LastWins(front);
      OneKind(last);
      assert bs == front + [last];
      assert Legacy(bs[|bs| - 1]);
      assert forall x: bv8 :: x in bs <==> x in front || x == last;
    }
  }

  /** The run of prefixes ends at the first byte that is none, or with a REX prefix. */
  lemma PrefixRun(b: Bytes, k: nat)
    requires k < |b| && AllLegacy(b[..k]) && !Legacy(b[k]) && !IsVex(b[k])
    ensures var r := ScanPrefixes(b, 0, NoPrefixes);
      && r.Some? && r.value.1 == (if IsRex(b[k]) then k + 1 else k)
      && Counted(r.value.0, b[..k]) && r.value.0.rex == IsRex(b[k]) && !r.value.0.vex
  {
    hide Legacy, AddLegacy, IsRex, IsVex, LastSegment, LastRepeat, AddAll;
    ScanLegacy(b, k);
    LastWins(b[..k]);
    NoRexYet(b[..k]);
  }

  function VexLength(byte: bv8): nat { if byte == 0xc5 then 2 else 3 }

  lemma VexCounted(p: Prefixes, bs: Bytes, x: bv8, y: bv8)
    requires Counted(p, bs) && !p.rex
    ensures var q := AddVex2(p, x); Counted(q, bs) && q.vex && !q.rex && q.escape == 1
    ensures var q := AddVex3(p, x, y); Counted(q, bs) && q.vex && !q.rex && q.escape == (x & 0x1f) as nat
  {
    hide LastSegment, LastRepeat;
  }

  lemma NoVexIsRexOrLegacy(byte: bv8)
    requires IsVex(byte)
    ensures !Legacy(byte) && !IsRex(byte)
  {
  }

  /** Or it ends with a VEX prefix of two or three bytes, which must be complete. */
  lemma VexRun(b: Bytes, k: nat)
    requires k < |b| && AllLegacy(b[..k]) && IsVex(b[k])
    ensures var r := ScanPrefixes(b, 0, NoPrefixes);
      && (r.Some? <==> k + VexLength(b[k]) <= |b|)
      && (r.Some? ==> r.value.1 == k + VexLength(b[k]) && Counted(r.value.0, b[..k]) && r.value.0.vex && !r.value.0.rex)
  {
    hide Legacy, AddLegacy, IsRex, AddVex2, AddVex3, Counted, AddAll;
    ScanLegacy(b, k);
    LastWins(b[..k]);
    NoRexYet(b[..k]);
    NoVexIsRexOrLegacy(b[k]);
    if k + VexLength(b[k]) <= |b| {
      var p := AddAll(NoPrefixes, b[..k]);
      VexCounted(p, b[..k], b[k + 1], if b[k] == 0xc5 then 0 else b[k + 2]);
    }
  }

  /** No prefix byte but REX and VEX sets these. */
  lemma {:induction false} NoRexYet(bs: Bytes)
    ensures !AddAll(NoPrefixes, bs).rex && !AddAll(NoPrefixes, bs).vex
  {
    hide AddLegacy;
    if bs != [] {
      NoRexYet(bs[..|bs| - 1]);
      RexKept(AddAll(NoPrefixes, bs[..|bs| - 1]), bs[|bs| - 1]);
    }
  }

  lemma RexKept(p: Prefixes, byte: bv8)
    ensures AddLegacy(p, byte).rex == p.rex && AddLegacy(p, byte).vex == p.vex
  {
    hide SegmentOf, RepeatOf, AddFlag, AddSegment, AddRepeat;
    FlagRex(p, byte);
    NamedRex(p, SegmentOf(byte), RepeatOf(byte));
  }

  lemma NamedRex(p: Prefixes, s: Option<nat>, r: Option<Repeat>)
    ensures s.Some? ==> AddSegment(p, s.value).rex == p.rex && AddSegment(p, s.value).vex == p.vex
    ensures r.Some? ==> AddRepeat(p, r.value).rex == p.rex && AddRepeat(p, r.value).vex == p.vex
  {
  }

  lemma FlagRex(p: Prefixes, byte: bv8)
    ensures AddFlag(p, byte).rex == p.rex && AddFlag(p, byte).vex == p.vex
  {
  }
}
