/**
 Instructions put together from their fields (sections 2.1 to 2.3 of the Intel SDM, Volume 2),
 and what the decoder makes of them.  Bytes are numbers here, and fields are put together by
 addition; the decoder takes them apart again by masks and shifts.
 */
module Format {
  import opened Decoder

  function Numbers(b: Bytes): (ns: seq<int>)
    ensures |ns| == |b| && forall i :: 0 <= i < |b| ==> ns[i] == b[i] as int
  {
    seq(|b|, i requires 0 <= i < |b| => b[i] as int)
  }

  // ---- fields ------------------------------------------------------------------------------------------------

  /** What may stand between the legacy prefixes and the opcode: nothing, a REX or a VEX prefix. */
  datatype Lead =
    | Plain
    | Rex(w: bool, r: bool, x: bool, b: bool)
    | Vex2(r: bool, reg: nat, l: bool, pp: nat)
    | Vex3(r: bool, x: bool, b: bool, escape: nat, w: bool, reg: nat, l: bool, pp: nat)

  /** The operands a ModRM byte names: two registers, or a register and memory without or with a SIB byte. */
  datatype RM =
    | NoRM
    | Direct(reg: nat, rm: nat)
    | Based(reg: nat, mod: nat, rm: nat, disp: seq<int>)
    | Indexed(reg: nat, mod: nat, scale: nat, index: nat, base: nat, disp: seq<int>)

  /** `taken` is a ModRM byte that chooses an opcode by all its bits; `imm` holds an immediate or an address. */
  datatype Form = Form(legacy: seq<int>, lead: Lead, opcode: seq<int>, taken: seq<int>, rm: RM, imm: seq<int>)

  function Weighted(f: bool, weight: int): int { if f then weight else 0 }

  function LeadBytes(l: Lead): seq<int> {
    match l
    case Plain => []
    case Rex(w, r, x, b) => [0x40 + Weighted(w, 8) + Weighted(r, 4) + Weighted(x, 2) + Weighted(b, 1)]
    case Vex2(r, reg, l, pp) => [0xc5, Weighted(!r, 128) + VexByte(reg, l, pp)]
    case Vex3(r, x, b, escape, w, reg, l, pp) =>
      [0xc4, Weighted(!r, 128) + Weighted(!x, 64) + Weighted(!b, 32) + escape, Weighted(w, 128) + VexByte(reg, l, pp)]
  }

  /** The register number is stored inverted. */
  function VexByte(reg: nat, l: bool, pp: nat): int { 8 * (15 - reg) + Weighted(l, 4) + pp }

  function RMBytes(m: RM): seq<int> {
    match m
    case NoRM => []
    case Direct(reg, rm) => [64 * 3 + 8 * reg + rm]
    case Based(reg, mod, rm, disp) => [64 * mod + 8 * reg + rm] + disp
    case Indexed(reg, mod, scale, index, base, disp) =>
      [64 * mod + 8 * reg + 4, 64 * scale + 8 * index + base] + disp
  }

  function BytesOf(x: Form): seq<int> { x.legacy + LeadBytes(x.lead) + x.opcode + x.taken + RMBytes(x.rm) + x.imm }

  const LegacyBytes: set<int> := {0x26, 0x2e, 0x3e, 0x64, 0x65, 0x66, 0x67, 0xf0, 0xf2, 0xf3}

  predicate AreBytes(ns: seq<int>) { forall n <- ns :: 0 <= n < 256 }

  /** Bytes that cannot begin an opcode, because they are prefixes. */
  predicate IsPrefix(n: int) { n in LegacyBytes || 0x40 <= n < 0x50 || n == 0xc4 || n == 0xc5 }

  predicate ValidLead(l: Lead) {
    && (l.Vex2? || l.Vex3? ==> l.reg < 16 && l.pp < 4)
    && (l.Vex3? ==> 1 <= l.escape <= 3)
  }

  function DispSize(mod: nat, base: nat): nat {
    if mod == 1 then 1 else if mod == 2 || (mod == 0 && base == 5) then 4 else 0
  }

  predicate ValidRM(m: RM) {
    match m
    case NoRM => true
    case Direct(reg, rm) => reg < 8 && rm < 8
    case Based(reg, mod, rm, disp) => reg < 8 && mod < 3 && rm < 8 && rm != 4 && |disp| == DispSize(mod, rm)
    case Indexed(reg, mod, scale, index, base, disp) =>
      reg < 8 && mod < 3 && scale < 4 && index < 8 && base < 8 && |disp| == DispSize(mod, base)
  }

  predicate ValidForm(x: Form) {
    && AreBytes(BytesOf(x)) && ValidLead(x.lead) && ValidRM(x.rm)
    && (forall n <- x.legacy :: n in LegacyBytes)
    && x.opcode != [] && (x.lead.Plain? ==> !IsPrefix(x.opcode[0]))
    && (x.lead.Vex2? || x.lead.Vex3? ==> |x.opcode| == 1)
  }

  // ---- what the prefixes say -----------------------------------------------------------------------------------

  predicate IsVexLead(l: Lead) { l.Vex2? || l.Vex3? }

  predicate W(l: Lead) { (l.Rex? || l.Vex3?) && l.w }
  predicate R(l: Lead) { !l.Plain? && l.r }
  predicate X(l: Lead) { (l.Rex? || l.Vex3?) && l.x }

  /** VEX.B is not taken over. */
  predicate B(l: Lead) { l.Rex? && l.b }

  predicate L(l: Lead) { IsVexLead(l) && l.l }

  function SegmentNumber(n: int): Option<nat> {
    match n
    case 0x26 => Some(0)
    case 0x2e => Some(1)
    case 0x3e => Some(3)
    case 0x64 => Some(4)
    case 0x65 => Some(5)
    case _ => None
  }

  /** Of several segment prefixes the last one counts, and so of F2h and F3h. */
  function LastSegmentIn(ns: seq<int>): nat {
    if ns == [] then NoRegister
    else
      var n := SegmentNumber(ns[|ns| - 1]);
      if n.Some? then n.value else LastSegmentIn(ns[..|ns| - 1])
  }

  function LastRepeatIn(ns: seq<int>): Repeat {
    if ns == [] then NoRepeat
    else if ns[|ns| - 1] == 0xf3 then Rep else if ns[|ns| - 1] == 0xf2 then RepNz else LastRepeatIn(ns[..|ns| - 1])
  }

  /** The mandatory prefix on offer: none, 66h, F3h or F2h. */
  function Mandatory(x: Form): nat {
    var m := if IsVexLead(x.lead) then x.lead.pp
      else match LastRepeatIn(x.legacy) case NoRepeat => 0 case Rep => 2 case RepNz => 3;
    if m == 0 && 0x66 in x.legacy then 1 else m
  }

  // ---- which instruction it is -----------------------------------------------------------------------------------

  /** All opcode bytes but the last lead to further tables of 256 entries. */
  predicate Leads(t: Table, table: nat, opcode: seq<int>)
    decreases |opcode|
  {
    opcode != [] && opcode[0] >= 0 &&
    var e := t.entries(table, opcode[0]);
    if |opcode| == 1 then e.kind != KTable256 else e.kind == KTable256 && Leads(t, e.table, opcode[1..])
  }

  function LedTo(t: Table, table: nat, opcode: seq<int>): Entry
    requires Leads(t, table, opcode)
    decreases |opcode|
  {
    var e := t.entries(table, opcode[0]);
    if |opcode| == 1 then e else LedTo(t, e.table, opcode[1..])
  }

  /** A VEX prefix stands for the escapes 0F, 0F 38 or 0F 3A. */
  function EscapeTable(t: Table, escape: nat): nat {
    var first := t.entries(t.root, 0x0f).table;
    if escape == 2 then t.entries(first, 0x38).table else if escape == 3 then t.entries(first, 0x3a).table else first
  }

  predicate HasOpcode(t: Table, x: Form) { x.opcode != [] && (IsVexLead(x.lead) || Leads(t, t.root, x.opcode)) }

  function OpcodeOf(t: Table, x: Form): Entry
    requires ValidForm(x) && HasOpcode(t, x)
  {
    if IsVexLead(x.lead) then
      assert x.opcode[0] in BytesOf(x);
      t.entries(EscapeTable(t, if x.lead.Vex3? then x.lead.escape else 1), x.opcode[0])
    else LedTo(t, t.root, x.opcode)
  }

  predicate IsGroup(e: Entry) { e.kind == KTable8 || e.kind == KTable72 }

  /** A register form with an entry of its own: the entries behind the first eight. */
  predicate OwnEntry(t: Table, e: Entry, n: int) {
    e.kind == KTable72 && n >= 0xc0 && t.entries(e.table, 8 + (n - 0xc0)).kind != KNone
  }

  /** A group entry is chosen by the ModRM byte: by all of it, or by its reg field. */
  function Chosen(t: Table, e: Entry, n: int): Entry
    requires 0 <= n
  {
    if !IsGroup(e) then e
    else if OwnEntry(t, e, n) then t.entries(e.table, 8 + (n - 0xc0)) else t.entries(e.table, n / 8 % 8)
  }

  function ByPrefix(t: Table, x: Form, e: Entry): Entry {
    if e.kind == KTablePrefix then t.entries(e.table, Mandatory(x) + if IsVexLead(x.lead) then 4 else 0) else e
  }

  function ByVex(t: Table, x: Form, e: Entry): Entry {
    if e.kind == KTableVex then t.entries(e.table, (if W(x.lead) then 1 else 0) + (if L(x.lead) then 2 else 0)) else e
  }

  /** Where the bytes that select the instruction end; a ModRM byte may be looked at there. */
  function OpcodeEnd(x: Form): nat { |x.legacy| + |LeadBytes(x.lead)| + |x.opcode| }

  /** The entry before mandatory prefix and VEX bits are considered; n is the byte behind the opcode. */
  function Group(t: Table, x: Form, n: int): Entry
    requires ValidForm(x) && HasOpcode(t, x) && 0 <= n
  {
    Chosen(t, OpcodeOf(t, x), n)
  }

  function Final(t: Table, x: Form, n: int): Entry
    requires ValidForm(x) && HasOpcode(t, x) && 0 <= n
  {
    ByVex(t, x, ByPrefix(t, x, Group(t, x, n)))
  }

  // ---- what it does ------------------------------------------------------------------------------------------

  /** A descriptor's fields as numbers; operand fields name operand 3 - v, and zero names none. */
  function RmField(d: Desc): int { d.indices as int % 4 }
  function RegFieldOf(d: Desc): int { d.indices as int / 4 % 4 }
  function VexField(d: Desc): int { d.indices as int / 16 % 4 }
  function ImplicitField(d: Desc): int { d.indices as int / 64 % 4 }
  function SizeField(d: Desc, k: nat): int
    requires k < 4
  {
    d.sizes as int / (if k == 0 then 1 else if k == 1 then 4 else if k == 2 then 16 else 64) % 4
  }
  function Control(d: Desc): int { d.immediate as int / 16 % 8 }
  predicate OneByte(d: Desc) { d.immediate as int >= 128 }
  function TypeField(d: Desc, k: nat): int
    requires k < 4
  {
    d.regTypes / (if k == 0 then 1 else if k == 1 then 16 else if k == 2 then 256 else 4096) % 16
  }

  predicate Names(field: int, k: nat) { field != 0 && k == 3 - field }

  /** The immediate is operand 3 - v, zero included. */
  predicate ImmIs(d: Desc, k: nat) { Control(d) != 0 && k == 3 - d.immediate as int % 4 }

  /** Whether 66h still makes the operands 16 bits wide: not if it has chosen the opcode. */
  predicate Small(x: Form, group: Entry) { 0x66 in x.legacy && group.kind != KTablePrefix }

  function Width(d: Desc, x: Form, group: Entry): nat {
    if d.size8 then 1 else if W(x.lead) then 8 else if Small(x, group) then 2 else if d.def64 then 8 else 4
  }

  function AddressWidth(x: Form): nat { if 0x67 in x.legacy then 4 else 8 }

  function Power2(n: nat): nat { if n == 0 then 1 else 2 * Power2(n - 1) }

  function SizeOf(d: Desc, x: Form, group: Entry, k: nat): nat
    requires k < 4
  {
    if ImmIs(d, k) && Control(d) == 1 then 1
    else if ImmIs(d, k) && Control(d) == 2 then Width(d, x, group)
    else if ImmIs(d, k) && Control(d) == 4 then 8
    else
      var s := SizeField(d, k);
      if s == 0 then 0 else if s == 1 then Power2(d.fixedSize) % 256 else if s == 2 then Width(d, x, group)
      else if L(x.lead) then 32 else 16
  }

  /** How many bytes of immediate there are. */
  function ImmLength(t: Table, d: Desc, x: Form, group: Entry): nat {
    if Control(d) <= 1 then 0
    else if Control(d) == 2 then AddressWidth(x)
    else if OneByte(d) then 1
    else if d.typ == t.retImm then 2
    else if d.typ == t.enter then 3
    else if Control(d) == 4 then 4
    else if Small(x, group) then 2
    else if W(x.lead) && d.typ == t.movabs then 8
    else 4
  }

  /** The lowest byte first. */
  function Little(ns: seq<int>): int { if ns == [] then 0 else ns[0] + 256 * Little(ns[1..]) }

  function Power256(n: nat): nat { if n == 0 then 1 else 256 * Power256(n - 1) }

  /** With the sign of its highest byte, modulo 2^64. */
  function Extended(ns: seq<int>): nat {
    (if ns != [] && ns[|ns| - 1] >= 128 then Little(ns) - Power256(|ns|) else Little(ns)) % Word64
  }

  function ImmValue(d: Desc, x: Form, address: nat): nat {
    if Control(d) == 0 || Control(d) == 2 then 0
    else if Control(d) == 1 then 1
    else
      var v := if |x.imm| == 3 then Little(x.imm) % Word64 else Extended(x.imm);
      if Control(d) == 4 then (v + address + |BytesOf(x)|) % Word64 else v
  }

  predicate IsMemory(m: RM) { m.Based? || m.Indexed? }

  /** The base register of the memory operand: none and the instruction pointer have their own numbers. */
  function BaseOf(x: Form): nat
    requires IsMemory(x.rm)
  {
    var base := if x.rm.Based? then x.rm.rm else x.rm.base;
    if x.rm.mod == 0 && base == 5 then (if x.rm.Based? then Ip else NoRegister)
    else base + if B(x.lead) then 8 else 0
  }

  /** Index 4 is none, but vectors of indices have it. */
  function IndexOf(d: Desc, x: Form): nat
    requires IsMemory(x.rm)
  {
    var index := if x.rm.Based? then 4 else x.rm.index + if X(x.lead) then 8 else 0;
    if index == 4 && !d.vsib then NoRegister else index
  }

  /** An operand before its register has a kind: of what names it, the immediate comes first, and so on. */
  function RawKind(d: Desc, x: Form, k: nat): OperandKind {
    if ImmIs(d, k) && Control(d) == 2 then MemOperand
    else if ImmIs(d, k) && Control(d) != 5 then ImmOperand
    else if Names(VexField(d), k) then RegOperand
    else if !x.rm.NoRM? && Names(RmField(d), k) then if IsMemory(x.rm) then MemOperand else RegOperand
    else if Names(RegFieldOf(d), k) || Names(ImplicitField(d), k) then RegOperand
    else NoOperand
  }

  /** The register number, where there is one: of the VEX prefix, of the ModRM byte or of the opcode's last byte. */
  function RawReg(d: Desc, x: Form, address: nat, k: nat): int {
    if ImmIs(d, k) && Control(d) == 2 then NoRegister
    else if ImmIs(d, k) && Control(d) == 5 then ImmValue(d, x, address) / 16 % 16
    else if Names(VexField(d), k) then if IsVexLead(x.lead) then x.lead.reg else 0
    else if !x.rm.NoRM? && Names(RmField(d), k) then
      if IsMemory(x.rm) then BaseOf(x) else x.rm.rm + if B(x.lead) then 8 else 0
    else if Names(RegFieldOf(d), k) then
      if x.rm.NoRM? then LastByte(x) % 8 + (if B(x.lead) then 8 else 0) else x.rm.reg + if R(x.lead) then 8 else 0
    else 0
  }

  function LastByte(x: Form): int {
    if x.taken != [] then x.taken[|x.taken| - 1] else if x.opcode != [] then x.opcode[|x.opcode| - 1] else 0
  }

  predicate AtIp(d: Desc, x: Form, address: nat, k: nat) {
    RawKind(d, x, k) == MemOperand && RawReg(d, x, address, k) == Ip
  }

  function OperandOf(d: Desc, x: Form, group: Entry, address: nat, k: nat): Operand
    requires k < 4
  {
    var kind, size, ip := RawKind(d, x, k), SizeOf(d, x, group, k), AtIp(d, x, address, k);
    var reg := if ip then NoRegister else RawReg(d, x, address, k);
    var regType := if !ip && kind != RegOperand then 0
      else if TypeField(d, k) == 1 && !x.lead.Rex? && size == 1 && reg >= 4 then 2 else TypeField(d, k);
    Operand(kind, size, reg, regType)
  }

  /** A displacement relative to the instruction pointer is made absolute. */
  function DispOf(d: Desc, x: Form, address: nat): int {
    var v := if Control(d) == 2 then Little(x.imm)
      else if IsMemory(x.rm) then Extended(x.rm.disp) else 0;
    if AtIp(d, x, address, 0) || AtIp(d, x, address, 1) || AtIp(d, x, address, 2) || AtIp(d, x, address, 3)
      then (v + address + |BytesOf(x)|) % Word64 else v
  }

  /** The instruction that the fields denote, under the descriptor that they select. */
  function Denoted(d: Desc, x: Form, group: Entry, address: nat): Instruction {
    Instruction(
      d.typ, 0xf0 in x.legacy, if group.kind == KTablePrefix then NoRepeat else LastRepeatIn(x.legacy), x.lead.Rex?,
      if d.width then Width(d, x, group) else 0, AddressWidth(x), LastSegmentIn(x.legacy),
      if x.rm.Indexed? then x.rm.scale else 0,
      if Control(d) == 2 then NoRegister else if IsMemory(x.rm) then IndexOf(d, x) else 0,
      DispOf(d, x, address), ImmValue(d, x, address),
      [OperandOf(d, x, group, address, 0), OperandOf(d, x, group, address, 1), OperandOf(d, x, group, address, 2),
        OperandOf(d, x, group, address, 3)], |BytesOf(x)|)
  }

  /** The byte behind the opcode, if there is one. */
  function Behind(w: seq<int>, x: Form): int { if OpcodeEnd(x) < |w| then w[OpcodeEnd(x)] else 0 }

  /** The bytes begin with the form's, and the form's opcode leads to an instruction of the table. */
  predicate Selects(t: Table, w: seq<int>, x: Form) {
    && ValidForm(x) && BytesOf(x) <= w && HasOpcode(t, x)
    && var n := Behind(w, x);
    n >= 0 &&
    var e := OpcodeOf(t, x);
    && (IsGroup(e) ==> OpcodeEnd(x) < |w|)
    && x.taken == (if OwnEntry(t, e, n) then [n] else [])
    && Final(t, x, n).kind == KInstr
  }

  function DescOf(t: Table, w: seq<int>, x: Form): Desc
    requires Selects(t, w, x)
  {
    t.descs(Final(t, x, Behind(w, x)).table)
  }

  function GroupOf(t: Table, w: seq<int>, x: Form): Entry
    requires Selects(t, w, x)
  {
    Group(t, x, Behind(w, x))
  }

  /** The operands are those of the descriptor.  LOCK is allowed on memory destinations only. */
  predicate Encodes(t: Table, w: seq<int>, x: Form) {
    && Selects(t, w, x)
    && var d := DescOf(t, w, x);
    && (x.rm.NoRM? <==> RmField(d) == 0)
    && |x.imm| == ImmLength(t, d, x, GroupOf(t, w, x))
    && (0xf0 in x.legacy ==> d.lock && RawKind(d, x, 0) == MemOperand)
  }

  /** What those bytes decode to, at that address. */
  function Meaning(t: Table, w: seq<int>, x: Form, address: nat): Instruction
    requires Encodes(t, w, x)
  {
    Denoted(DescOf(t, w, x), x, GroupOf(t, w, x), address)
  }
}
