/** Whatever the decoder decodes is put together from fields, so that it decodes exactly that. */
module Reassembly {
  import opened Decoder
  import opened Format
  import opened Formatted

  // ---- prefixes ------------------------------------------------------------------------------------------

  /** Where the legacy prefixes end. */
  lemma {:induction false} LegacyEnd(b: Bytes, off: nat) returns (k: nat)
    requires off <= |b|
    ensures off <= k <= |b| && AllLegacy(b[off..k]) && (k < |b| ==> !Legacy(b[k]))
    decreases |b| - off
  {
    hide Legacy;
    k := off;
    if off < |b| && Legacy(b[off]) {
      k := LegacyEnd(b, off + 1);
      forall i | 0 <= i < k - off ensures Legacy(b[off..k][i]) {
        assert i > 0 ==> b[off..k][i] == b[off + 1..k][i - 1];
      }
    }
  }

  function RexOf(n: int): Lead { Rex(n / 8 % 2 == 1, n / 4 % 2 == 1, n / 2 % 2 == 1, n % 2 == 1) }

  lemma RexBytes(n: int)
    requires 0x40 <= n < 0x50
    ensures LeadBytes(RexOf(n)) == [n]
  {
  }

  function Vex2Of(n: int): Lead
    requires 0 <= n < 256
  {
    Vex2(n < 128, 15 - n / 8 % 16, n / 4 % 2 == 1, n % 4)
  }

  lemma Vex2Bytes(n: int)
    requires 0 <= n < 256
    ensures LeadBytes(Vex2Of(n)) == [0xc5, n] && ValidLead(Vex2Of(n))
  {
  }

  function Vex3Of(m: int, n: int): Lead
    requires 0 <= m < 256 && 0 <= n < 256
  {
    Vex3(m < 128, m / 64 % 2 == 0, m / 32 % 2 == 0, m % 32, n >= 128, 15 - n / 8 % 16, n / 4 % 2 == 1, n % 4)
  }

  lemma VexFirst(m: int)
    requires 0 <= m < 256
    ensures Weighted(!(m < 128), 128) + Weighted(!(m / 64 % 2 == 0), 64) + Weighted(!(m / 32 % 2 == 0), 32) + m % 32
      == m
  {
    assert m == 128 * (m / 128) + 64 * (m / 64 % 2) + 32 * (m / 32 % 2) + m % 32;
  }

  lemma VexSecond(n: int)
    requires 0 <= n < 256
    ensures Weighted(n >= 128, 128) + VexByte(15 - n / 8 % 16, n / 4 % 2 == 1, n % 4) == n
  {
    assert n == 128 * (n / 128) + 8 * (n / 8 % 16) + 4 * (n / 4 % 2) + n % 4;
  }

  lemma Vex3Bytes(m: int, n: int)
    requires 0 <= m < 256 && 0 <= n < 256
    ensures LeadBytes(Vex3Of(m, n)) == [0xc4, m, n]
  {
    hide Weighted, VexByte;
    VexFirst(m);
    VexSecond(n);
  }

  /** The prefixes of the bytes, as fields. */
  ghost predicate Front(b: Bytes, legacy: seq<int>, lead: Lead, q: Prefixes, end: nat) {
    && (forall n <- legacy :: n in LegacyBytes) && end == |legacy| + |LeadBytes(lead)| < |b|
    && legacy + LeadBytes(lead) == Numbers(b)[..end]
    && (lead.Plain? ==> !IsPrefix(b[end] as int) && q.escape == -1)
    && (lead.Rex? ==> q.escape == -1)
    && (lead.Vex2? ==> lead.reg < 16 && lead.pp < 4 && q.escape == 1)
    && (lead.Vex3? ==> lead.reg < 16 && lead.pp < 4 && q.escape == lead.escape)
  }

  lemma LegacyNumbers(b: Bytes, k: nat)
    requires k <= |b| && AllLegacy(b[..k])
    ensures forall n <- Numbers(b)[..k] :: n in LegacyBytes
    ensures AddAll(NoPrefixes, b[..k]).escape == -1
  {
    hide Legacy, AddAll, LastRepeatIn, LastSegmentIn;
    NumbersOf(b, 0, k);
    LegacyRead(b[..k]);
    var ns := Numbers(b)[..k];
    forall n | n in ns ensures n in LegacyBytes {
      var i :| 0 <= i < |ns| && ns[i] == n;
      LegacyIs(b[..k][i]);
    }
  }

  lemma FrontFound(b: Bytes) returns (legacy: seq<int>, lead: Lead)
    requires var r := ScanPrefixes(b, 0, NoPrefixes); r.Some? && r.value.1 < |b|
    ensures var r := ScanPrefixes(b, 0, NoPrefixes).value; Front(b, legacy, lead, r.0, r.1)
  {
    hide Legacy, AddLegacy, AddRex, AddVex2, AddVex3, AddAll, IsRex, LeadBytes, LegacyBytes;
    var k := LegacyEnd(b, 0);
    assert b[0..k] == b[..k];
    ScanLegacy(b, k);
    LegacyNumbers(b, k);
    legacy := Numbers(b)[..k];
    ScanHere(b, k);
    LegacyIs(b[k]);
    PrefixIs(b[k]);
    var n := b[k] as int;
    if IsRex(b[k]) {
      lead := RexOf(n);
      RexBytes(n);
      RexEscape(AddAll(NoPrefixes, b[..k]), b[k]);
      assert Numbers(b)[..k + 1] == legacy + [n];
    } else if b[k] == 0xc5 {
      lead := Vex2Of(b[k + 1] as int);
      Vex2Bytes(b[k + 1] as int);
      assert Numbers(b)[..k + 2] == legacy + [0xc5, b[k + 1] as int];
      VexEscape(AddAll(NoPrefixes, b[..k]), b[k + 1], 0);
    } else if b[k] == 0xc4 {
      lead := Vex3Of(b[k + 1] as int, b[k + 2] as int);
      Vex3Bytes(b[k + 1] as int, b[k + 2] as int);
      assert Numbers(b)[..k + 3] == legacy + [0xc4, b[k + 1] as int, b[k + 2] as int];
      VexEscape(AddAll(NoPrefixes, b[..k]), b[k + 1], b[k + 2]);
    } else {
      lead := Plain;
      assert LeadBytes(Plain) == [] by { PlainBytes(); }
      assert Numbers(b)[..k] == legacy + [];
    }
  }

  lemma PlainBytes()
    ensures LeadBytes(Plain) == []
  {
  }

  lemma ScanHere(b: Bytes, k: nat)
    requires k <= |b| && (k < |b| ==> !Legacy(b[k])) && ScanPrefixes(b, 0, NoPrefixes).Some?
    requires ScanPrefixes(b, 0, NoPrefixes) == ScanPrefixes(b, k, AddAll(NoPrefixes, b[..k]))
    requires ScanPrefixes(b, 0, NoPrefixes).value.1 < |b|
    ensures k < |b|
    ensures var r, p := ScanPrefixes(b, 0, NoPrefixes), AddAll(NoPrefixes, b[..k]);
      if IsRex(b[k]) then r == Some((AddRex(p, b[k]), k + 1))
      else if b[k] == 0xc5 then k + 1 < |b| && r == Some((AddVex2(p, b[k + 1]), k + 2))
      else if b[k] == 0xc4 then k + 2 < |b| && r == Some((AddVex3(p, b[k + 1], b[k + 2]), k + 3))
      else r == Some((p, k))
  {
    hide Legacy, AddLegacy, AddRex, AddVex2, AddVex3, AddAll, IsRex;
  }

  lemma RexEscape(p: Prefixes, byte: bv8)
    ensures AddRex(p, byte).escape == p.escape
  {
  }

  lemma VexEscape(p: Prefixes, first: bv8, second: bv8)
    ensures AddVex2(p, first).escape == 1 && AddVex3(p, first, second).escape == first as int % 32
  {
    EscapeBits(first);
  }

  // ---- the opcode ------------------------------------------------------------------------------------------

  lemma {:induction false} WalkFound(t: Table, b: Bytes, q: Place)
    requires q.off < |b| && q.kind == KTable256 && WalkOpcode(t, b, q).kind != KTable256
    ensures var r := WalkOpcode(t, b, q);
      && q.off < r.off <= |b|
      && var ops := Numbers(b)[q.off..r.off];
      Leads(t, q.table, ops) && LedTo(t, q.table, ops) == Entry(r.kind, r.table)
    decreases |b| - q.off
  {
    var next := Follow(t, q.table, b[q.off] as nat, q.off + 1);
    var r := WalkOpcode(t, b, q);
    WalkMoves(t, b, q);
    var ops := Numbers(b)[q.off..r.off];
    assert ops[0] == b[q.off] as int;
    if next.kind == KTable256 {
      WalkMoves(t, b, next);
      WalkFound(t, b, next);
      assert ops[1..] == Numbers(b)[next.off..r.off];
    } else {
      assert |ops| == 1;
    }
  }

  lemma NumbersAreBytes(b: Bytes, ns: seq<int>)
    requires ns <= Numbers(b)
    ensures AreBytes(ns)
  {
    forall n | n in ns ensures 0 <= n < 256 {
      var i :| 0 <= i < |ns| && ns[i] == n;
      assert Numbers(b)[i] == n;
    }
  }

  /** A form without operands that selects the instruction. */
  function Bare(legacy: seq<int>, lead: Lead, opcode: seq<int>, taken: seq<int>): Form {
    Form(legacy, lead, opcode, taken, NoRM, [])
  }

  lemma BareBytes(b: Bytes, legacy: seq<int>, lead: Lead, q: Prefixes, l: nat, o: nat, u: nat)
    requires Front(b, legacy, lead, q, l) && l <= o <= u <= |b|
    ensures var x := Bare(legacy, lead, Numbers(b)[l..o], Numbers(b)[o..u]);
      && BytesOf(x) == Numbers(b)[..u] && BytesOf(x) <= Numbers(b) && AreBytes(BytesOf(x)) && OpcodeEnd(x) == o
  {
    hide LeadBytes;
    var w := Numbers(b);
    var x := Bare(legacy, lead, w[l..o], w[o..u]);
    assert RMBytes(NoRM) == [];
    assert BytesOf(x) == w[..l] + w[l..o] + w[o..u];
    assert w[..l] + w[l..o] + w[o..u] == w[..u];
    NumbersAreBytes(b, BytesOf(x));
  }

  lemma VexOpcodeFound(t: Table, b: Bytes, off: nat, escape: int)
    requires off < |b| && escape >= 0 && Opcode(t, b, off, escape).Some?
    ensures 1 <= escape <= 3
    ensures var n := b[off] as int; var e := t.entries(EscapeTable(t, escape), n);
      Opcode(t, b, off, escape) == Some(Place(e.kind, e.table, off + 1)) && Numbers(b)[off..off + 1] == [n]
  {
  }

  lemma PlainOpcodeFound(t: Table, b: Bytes, off: nat, escape: int)
    requires off < |b| && escape < 0 && Opcode(t, b, off, escape).Some?
    requires Opcode(t, b, off, escape).value.kind != KTable256
    ensures var o := Opcode(t, b, off, escape).value;
      && off < o.off <= |b|
      && var ops := Numbers(b)[off..o.off];
      Leads(t, t.root, ops) && LedTo(t, t.root, ops) == Entry(o.kind, o.table)
  {
    hide WalkOpcode;
    WalkFound(t, b, Place(KTable256, t.root, off));
  }

  /** The entry that the opcode bytes lead to. */
  lemma OpcodeFound(t: Table, b: Bytes, legacy: seq<int>, lead: Lead, q: Prefixes, l: nat, u: nat)
    requires Front(b, legacy, lead, q, l) && Opcode(t, b, l, q.escape).Some?
    requires var o := Opcode(t, b, l, q.escape).value;
      l <= o.off <= u <= |b| && (q.escape < 0 ==> o.kind != KTable256)
    ensures var o := Opcode(t, b, l, q.escape).value;
      var x := Bare(legacy, lead, Numbers(b)[l..o.off], Numbers(b)[o.off..u]);
      ValidForm(x) && HasOpcode(t, x) && Format.OpcodeOf(t, x) == Entry(o.kind, o.table)
    ensures ValidLead(lead)
  {
    hide LeadBytes, Opcode, Leads, LedTo, EscapeTable, Numbers, LegacyBytes;
    var o := Opcode(t, b, l, q.escape).value;
    BareBytes(b, legacy, lead, q, l, o.off, u);
    if q.escape >= 0 {
      VexOpcodeFound(t, b, l, q.escape);
    } else {
      PlainOpcodeFound(t, b, l, q.escape);
    }
    FirstNumber(b, l, o.off);
  }

  lemma FirstNumber(b: Bytes, l: nat, o: nat)
    requires l < o <= |b|
    ensures Numbers(b)[l..o][0] == b[l] as int
  {
  }

  lemma OfferedEscape(q: Prefixes)
    ensures Offered(q).escape == q.escape
  {
  }

  /** Where the decoder gets an instruction, a form selects it. */
  lemma SelectionFound(t: Table, b: Bytes, address: nat) returns (x: Form)
    requires |b| <= MaxLength && DecodeWindow(t, b, address).Some?
    ensures Selects(t, Numbers(b), x) && x.rm.NoRM? && x.imm == []
  {
    hide ScanPrefixes, Opcode, Extension, Resolve, Build, Consumed, Front, Offered, Numbers, ValidForm, HasOpcode;
    hide Format.OpcodeOf, Chosen, OwnEntry, ByPrefix, ByVex, PrefixesOf, PrefixIndex, VexIndex, BytesOf;
    var legacy, lead := FrontFound(b);
    var q, l := ScanPrefixes(b, 0, NoPrefixes).value.0, ScanPrefixes(b, 0, NoPrefixes).value.1;
    OfferedEscape(q);
    var p := Offered(q);
    var o := Opcode(t, b, l, p.escape).value;
    OpcodeMoves(t, b, l, p.escape);
    var i, j := PrefixIndex(p), VexIndex(p);
    if o.kind == KTable256 {
      RanOut(t, b, o, i, j);
    }
    ExtensionFits(t, b, o, i, j);
    var e := Extension(t, b, o);
    x := Bare(legacy, lead, Numbers(b)[l..o.off], Numbers(b)[o.off..e.off]);
    BareBytes(b, legacy, lead, q, l, o.off, e.off);
    OpcodeFound(t, b, legacy, lead, q, l, e.off);
    var n := Behind(Numbers(b), x);
    BehindIs(b, x);
    PrefixesRead(b, x);
    ChosenRead(t, b, Entry(o.kind, o.table), o.off, n);
    TakenIs(b, o.off, e.off);
    ResolveRead(t, x, Group(t, x, n), e.off);
  }

  lemma BehindIs(b: Bytes, x: Form)
    ensures Behind(Numbers(b), x) >= 0
    ensures OpcodeEnd(x) < |b| ==> Behind(Numbers(b), x) == b[OpcodeEnd(x)] as int
  {
    hide LeadBytes;
  }

  lemma TakenIs(b: Bytes, o: nat, u: nat)
    requires o <= u <= |b|
    ensures u == o ==> Numbers(b)[o..u] == []
    ensures u == o + 1 ==> Numbers(b)[o..u] == [b[o] as int]
  {
  }

  // ---- operands ---------------------------------------------------------------------------------------------

  /** The fields of the ModRM byte, of the SIB byte behind it, and the displacement. */
  function RMFound(b: Bytes, off: nat): RM
    requires off < |b|
  {
    var mod, reg, rm := Mod(b[off]), RegField(b[off]), Rm(b[off]);
    if mod == 3 then Direct(reg, rm)
    else if rm == 4 && off + 1 < |b| then
      var base := Rm(b[off + 1]);
      Indexed(reg, mod, Mod(b[off + 1]), RegField(b[off + 1]), base, Disp(b, off + 2, DispSize(mod, base)))
    else Based(reg, mod, rm, Disp(b, off + 1, DispSize(mod, rm)))
  }

  function Disp(b: Bytes, off: nat, k: nat): seq<int> { if off + k <= |b| then Numbers(b)[off..off + k] else [] }

  lemma FieldsOfByte(byte: bv8)
    ensures var n := byte as int; n == 64 * Mod(byte) + 8 * RegField(byte) + Rm(byte)
    ensures Mod(byte) < 4 && RegField(byte) < 8 && Rm(byte) < 8
  {
    hide Mod, RegField, Rm;
    ModIs(byte);
    RegFieldIs(byte);
    RmIs(byte);
  }

  lemma DispThere(b: Bytes, off: nat, p: Prefixes, vsib: bool, mod: nat, rm: nat, reg: nat, scale: nat, idx: nat,
        base: nat, used: nat)
    requires off <= |b| && DecodeMemory(b, off, p, vsib, mod, rm, reg, scale, idx, base, used).Some?
    ensures off + DispSize(mod, base) <= |b|
  {
    hide LoadLE, SignExtended, Wrapped;
  }

  lemma DirectThere(b: Bytes, off: nat)
    requires off < |b| && Mod(b[off]) == 3
    ensures var m := RMFound(b, off); ValidRM(m) && !m.NoRM? && RMHere(b, off, m)
  {
    hide Mod, RegField, Rm, Numbers, Disp;
    FieldsOfByte(b[off]);
    OneThere(b, off);
  }

  lemma BasedThere(b: Bytes, off: nat, k: nat)
    requires off < |b| && Mod(b[off]) < 3 && Rm(b[off]) != 4 && k == DispSize(Mod(b[off]), Rm(b[off]))
    requires off + 1 + k <= |b|
    ensures var m := RMFound(b, off); ValidRM(m) && !m.NoRM? && RMHere(b, off, m)
  {
    hide Mod, RegField, Rm, Numbers, DispSize;
    FieldsOfByte(b[off]);
    OneMore(b, off, k);
  }

  lemma IndexedFound(b: Bytes, off: nat, k: nat)
    requires off + 1 < |b| && Mod(b[off]) < 3 && Rm(b[off]) == 4 && k == DispSize(Mod(b[off]), Rm(b[off + 1]))
    requires off + 2 + k <= |b|
    ensures RMFound(b, off) == Indexed(RegField(b[off]), Mod(b[off]), Mod(b[off + 1]), RegField(b[off + 1]),
      Rm(b[off + 1]), Numbers(b)[off + 2..off + 2 + k])
  {
    hide Mod, RegField, Rm, Numbers, DispSize;
  }

  lemma IndexedBytes(m: RM)
    requires m.Indexed?
    ensures RMBytes(m) == [64 * m.mod + 8 * m.reg + 4, 64 * m.scale + 8 * m.index + m.base] + m.disp
  {
  }

  lemma IndexedHere(b: Bytes, off: nat, m: RM)
    requires m.Indexed? && m.reg < 8 && m.mod < 3 && m.scale < 4 && m.index < 8 && m.base < 8
    requires |m.disp| == DispSize(m.mod, m.base) && off + 2 + |m.disp| <= |b|
    requires Numbers(b)[off..off + 2 + |m.disp|]
      == [64 * m.mod + 8 * m.reg + 4, 64 * m.scale + 8 * m.index + m.base] + m.disp
    ensures ValidRM(m) && !m.NoRM? && RMHere(b, off, m)
  {
    hide RMBytes, Numbers, DispSize;
    IndexedBytes(m);
  }

  lemma IndexedThere(b: Bytes, off: nat, k: nat)
    requires off + 1 < |b| && Mod(b[off]) < 3 && Rm(b[off]) == 4 && k == DispSize(Mod(b[off]), Rm(b[off + 1]))
    requires off + 2 + k <= |b|
    ensures var m := RMFound(b, off); ValidRM(m) && !m.NoRM? && RMHere(b, off, m)
  {
    hide Mod, RegField, Rm, Numbers, DispSize, RMFound, RMBytes, ValidRM, RMHere;
    FieldsOfByte(b[off]);
    FieldsOfByte(b[off + 1]);
    IndexedFound(b, off, k);
    TwoThere(b, off, k);
    IndexedHere(b, off, RMFound(b, off));
  }

  lemma RMThere(b: Bytes, off: nat, p: Prefixes, vsib: bool)
    requires off <= |b| && DecodeModRM(b, off, p, vsib).Some?
    ensures off < |b| && var m := RMFound(b, off); ValidRM(m) && !m.NoRM? && RMHere(b, off, m)
  {
    hide DecodeMemory, Mod, RegField, Rm, Numbers, RMFound, RMHere, ValidRM, DispSize;
    var mod, reg, rm := Mod(b[off]), RegField(b[off]), Rm(b[off]);
    FieldsOfByte(b[off]);
    if mod == 3 {
      DirectThere(b, off);
    } else if rm == 4 {
      var sib := b[off + 1];
      DispThere(b, off + 2, p, vsib, mod, 4, reg + Extra(p.r), Mod(sib), RegField(sib) + Extra(p.x), Rm(sib), 2);
      IndexedThere(b, off, DispSize(mod, Rm(sib)));
    } else {
      DispThere(b, off + 1, p, vsib, mod, rm, reg + Extra(p.r), 0, 4, rm, 1);
      BasedThere(b, off, DispSize(mod, rm));
    }
  }

  lemma OneThere(b: Bytes, off: nat)
    requires off < |b|
    ensures Numbers(b)[off..off + 1] == [b[off] as int]
  {
  }

  lemma OneMore(b: Bytes, off: nat, k: nat)
    requires off + 1 + k <= |b|
    ensures Numbers(b)[off..off + 1 + k] == [b[off] as int] + Numbers(b)[off + 1..off + 1 + k]
  {
  }

  lemma TwoThere(b: Bytes, off: nat, k: nat)
    requires off + 2 + k <= |b|
    ensures Numbers(b)[off..off + 2 + k] == [b[off] as int, b[off + 1] as int] + Numbers(b)[off + 2..off + 2 + k]
  {
  }

  // ---- the whole form -----------------------------------------------------------------------------------------

  /** What selects the instruction does not depend on its operands. */
  lemma SameSelection(t: Table, b: Bytes, x: Form, y: Form)
    requires Selects(t, Numbers(b), x) && y.legacy == x.legacy && y.lead == x.lead && y.opcode == x.opcode
    requires y.taken == x.taken && ValidRM(y.rm) && BytesOf(y) <= Numbers(b)
    ensures Selects(t, Numbers(b), y)
    ensures DescOf(t, Numbers(b), y) == DescOf(t, Numbers(b), x)
    ensures GroupOf(t, Numbers(b), y) == GroupOf(t, Numbers(b), x)
    ensures Remaining(y, GroupOf(t, Numbers(b), y)) == Remaining(x, GroupOf(t, Numbers(b), x))
    ensures OpcodeEnd(y) == OpcodeEnd(x) && LastByte(y) == LastByte(x)
  {
    hide LeadBytes, BytesOf, Numbers, ValidRM, AreBytes, Leads, LedTo, EscapeTable, LegacyBytes, LastRepeatIn;
    hide LastSegmentIn, Consumed;
    NumbersAreBytes(b, BytesOf(y));
  }

  /** Bytes that follow the form's belong to the form with one field more. */
  lemma Appended(b: Bytes, ns: seq<int>, more: seq<int>)
    requires ns <= Numbers(b) && |ns| + |more| <= |b| && Numbers(b)[|ns|..|ns| + |more|] == more
    ensures ns + more <= Numbers(b)
  {
    assert Numbers(b)[..|ns|] == ns;
    assert Numbers(b)[..|ns| + |more|] == ns + more;
  }

  /** The form so far, and what the decoder does with the rest. */
  ghost predicate Begun(t: Table, b: Bytes, x: Form, address: nat) {
    && |b| <= MaxLength && Selects(t, Numbers(b), x) && x.imm == []
    && var d, g, off := DescOf(t, Numbers(b), x), GroupOf(t, Numbers(b), x), OpcodeEnd(x) + |x.taken|;
    && 0 < off <= |b| && Build(t, d, Remaining(x, g), b, off, address).Some?
  }

  lemma SelectionBegun(t: Table, b: Bytes, x: Form, address: nat)
    requires |b| <= MaxLength && DecodeWindow(t, b, address).Some?
    requires Selects(t, Numbers(b), x) && x.imm == []
    ensures Begun(t, b, x, address)
  {
    hide DecodeWindow, Build, Remaining, Selects, DescOf, GroupOf, Numbers, LeadBytes;
    SelectionRead(t, b, x, address);
    RemainingIs(x, GroupOf(t, Numbers(b), x), OpcodeEnd(x) + |x.taken|);
  }

  lemma SelectsBytes(t: Table, w: seq<int>, x: Form)
    requires Selects(t, w, x)
    ensures BytesOf(x) <= w && x.opcode != [] && ValidRM(x.rm)
  {
    hide Final, HasOpcode, OwnEntry, Format.OpcodeOf, BytesOf;
  }

  lemma BuildParts(t: Table, d: Desc, p: Prefixes, b: Bytes, off: nat, address: nat)
    requires 0 < off <= |b| && Build(t, d, p, b, off, address).Some?
    ensures |Begin(t, d, p).operands| == 4
    ensures var r := Registers(d, p, b, off, Implicit(d, Begin(t, d, p)));
      && r.Some?
      && var i := Immediate(t, d, p, b, r.value, address);
      i.Some? && Complete(d, p, i.value, address).Some?
    ensures RmField(d) != 0 ==> DecodeModRM(b, off, p, d.vsib).Some?
  {
    hide Begin, Implicit, Immediate, Complete, DecodeModRM, SetOperand, VexRegister, Desc.HasModRM, RmField;
    Filled(t, d, p);
    HasModRMIs(d);
  }

  lemma ThreeEnds(a: seq<int>, b: seq<int>, c: seq<int>)
    ensures a + [] + [] == a && a + b + [] == a + b && a + b + c == a + b + [] + c && a + c + [] == a + [] + [] + c
  {
  }

  /** What stands in front of the operands. */
  function BeforeRM(x: Form): seq<int> { x.legacy + LeadBytes(x.lead) + x.opcode + x.taken }

  lemma BytesParts(x: Form)
    ensures BytesOf(x) == BeforeRM(x) + RMBytes(x.rm) + x.imm && |BeforeRM(x)| == OpcodeEnd(x) + |x.taken|
  {
    hide LeadBytes, RMBytes;
  }

  lemma MoreBytes(x: Form, m: RM, imm: seq<int>)
    requires x.imm == []
    ensures x.rm.NoRM? ==> BytesOf(x.(rm := m)) == BytesOf(x) + RMBytes(m)
    ensures BytesOf(x.(imm := imm)) == BytesOf(x) + imm
    ensures |BytesOf(x)| == OpcodeEnd(x) + |x.taken| + |RMBytes(x.rm)|
  {
    hide LeadBytes, RMBytes, BytesOf;
    BytesParts(x);
    BytesParts(x.(rm := m));
    BytesParts(x.(imm := imm));
    assert BeforeRM(x.(rm := m)) == BeforeRM(x) == BeforeRM(x.(imm := imm));
    ThreeEnds(BeforeRM(x), RMBytes(x.rm), imm);
    ThreeEnds(BeforeRM(x), RMBytes(m), RMBytes(m));
    if x.rm.NoRM? {
      NoBytes(x.rm);
    }
  }

  /** The form with the operands of its ModRM byte. */
  lemma OperandsFound(t: Table, b: Bytes, x: Form, address: nat) returns (y: Form)
    requires Begun(t, b, x, address) && x.rm.NoRM?
    ensures Begun(t, b, y, address)
    ensures OperandsHere(b, OpcodeEnd(y) + |y.taken|, DescOf(t, Numbers(b), y), y)
  {
    hide Selects, DescOf, GroupOf, Numbers, LeadBytes, BytesOf, Build, Remaining, RmField, ValidRM, RMFound, LastByte;
    hide RMBytes;
    var w := Numbers(b);
    var d, g, off := DescOf(t, w, x), GroupOf(t, w, x), OpcodeEnd(x) + |x.taken|;
    SelectsBytes(t, w, x);
    LastByteRead(b, x);
    MoreBytes(x, x.rm, []);
    assert RMBytes(x.rm) == [] by { NoBytes(x.rm); }
    BuildParts(t, d, Remaining(x, g), b, off, address);
    y := x;
    if RmField(d) != 0 {
      RMThere(b, off, Remaining(x, g), d.vsib);
      var m := RMFound(b, off);
      y := x.(rm := m);
      MoreBytes(x, m, []);
      Appended(b, BytesOf(x), RMBytes(m));
      SameSelection(t, b, x, y);
    } else {
      NoSlice(w, off);
    }
  }

  lemma NoSlice(w: seq<int>, off: nat)
    requires off <= |w|
    ensures w[off..off] == []
  {
  }

  lemma SameRemaining(x: Form, g: Entry, imm: seq<int>)
    ensures Remaining(x.(imm := imm), g) == Remaining(x, g)
  {
    hide LastRepeatIn, LastSegmentIn;
  }

  lemma SameLength(t: Table, d: Desc, x: Form, g: Entry, imm: seq<int>)
    ensures ImmLength(t, d, x.(imm := imm), g) == ImmLength(t, d, x, g)
  {
    hide Control, OneByte;
  }

  lemma SameOperand(d: Desc, x: Form, g: Entry, imm: seq<int>, k: nat)
    requires k < 4
    ensures NamedOperand(d, x.(imm := imm), g, k) == NamedOperand(d, x, g, k)
  {
    hide Names, VexField, RmField, RegFieldOf, ImplicitField, SizeField, Power2;
    NamedNat(d, x, k);
    NamedNat(d, x.(imm := imm), k);
  }

  /** The instruction before its immediate does not depend on it. */
  lemma SameParts(t: Table, d: Desc, x: Form, g: Entry, imm: seq<int>)
    ensures NamedParts(t, d, x.(imm := imm), g) == NamedParts(t, d, x, g)
    ensures ImmLength(t, d, x.(imm := imm), g) == ImmLength(t, d, x, g)
    ensures Remaining(x.(imm := imm), g) == Remaining(x, g)
  {
    hide Remaining, ImmLength, NamedOperand, Begin, Format.Extended;
    SameRemaining(x, g, imm);
    SameLength(t, d, x, g, imm);
    SameOperand(d, x, g, imm, 0);
    SameOperand(d, x, g, imm, 1);
    SameOperand(d, x, g, imm, 2);
    SameOperand(d, x, g, imm, 3);
  }

  lemma ImmFits(t: Table, b: Bytes, d: Desc, x: Form, g: Entry, off: nat, address: nat)
    requires off <= |b|
    requires Immediate(t, d, Remaining(x, g), b, Partial(NamedParts(t, d, x, g), off), address).Some?
    ensures off + ImmLength(t, d, x, g) <= |b|
  {
    hide Remaining, NamedParts, ImmSize, Control, Desc.ImmControl, Desc.ImmIndex, LoadLE, SignExtended, Wrapped;
    hide OpSize, AddrSize, Width, AddressWidth, Small, OneByte;
    WidthRead(t, d, x, g);
    ImmediateIs(d);
    ControlSmall(d.ImmControl());
  }

  lemma NamedRead(t: Table, b: Bytes, d: Desc, x: Form, g: Entry, off: nat)
    requires OperandsHere(b, off, d, x)
    ensures Registers(d, Remaining(x, g), b, off, Implicit(d, Begin(t, d, Remaining(x, g))))
      == Some(Partial(NamedParts(t, d, x, g), off + |RMBytes(x.rm)|))
  {
    hide Remaining, Registers, Implicit, Begin, NamedParts, OperandsHere;
    if x.rm.NoRM? {
      NoModRMRead(t, b, d, x, g, off);
    } else {
      ModRMBytesRead(t, b, d, x, g, off);
    }
  }

  lemma ImmRead(t: Table, b: Bytes, d: Desc, x: Form, g: Entry, off: nat, address: nat)
    requires ImmHere(t, b, off, d, x, g)
    ensures Immediate(t, d, Remaining(x, g), b, Partial(NamedParts(t, d, x, g), off), address)
      == Some(Partial(WithImm(t, d, x, g, address), |BytesOf(x)|))
  {
    hide Remaining, Immediate, NamedParts, WithImm, ImmHere, Control;
    if Control(d) <= 1 {
      SimpleImmRead(t, b, d, x, g, off, address);
    } else if Control(d) == 2 {
      AddressImmRead(t, b, d, x, g, off, address);
    } else {
      NumberImmRead(t, b, d, x, g, off, address);
    }
  }

  lemma LockHolds(t: Table, d: Desc, x: Form, g: Entry, address: nat)
    requires Complete(d, Remaining(x, g), Partial(WithImm(t, d, x, g, address), |BytesOf(x)|), address).Some?
    ensures 0xf0 in x.legacy ==> d.lock && RawKind(d, x, 0) == MemOperand
  {
    hide Remaining, NamedParts, BytesOf, RawOperand, ImmValue, Control, Little;
    RemainingIs(x, g, 0);
    FirstKind(d, x, g, address);
  }

  /** The form with its immediate encodes the instruction. */
  lemma ImmediateFound(t: Table, b: Bytes, x: Form, address: nat) returns (y: Form)
    requires Begun(t, b, x, address)
    requires OperandsHere(b, OpcodeEnd(x) + |x.taken|, DescOf(t, Numbers(b), x), x)
    ensures Encodes(t, Numbers(b), y)
  {
    hide Selects, DescOf, GroupOf, Numbers, LeadBytes, BytesOf, Build, Remaining, RmField, ValidRM, LastByte;
    hide RMBytes, Registers, Implicit, Begin, NamedParts, Immediate, Complete, WithImm, ImmLength, RawKind;
    var w := Numbers(b);
    var d, g, off := DescOf(t, w, x), GroupOf(t, w, x), OpcodeEnd(x) + |x.taken|;
    var end := off + |RMBytes(x.rm)|;
    SelectsBytes(t, w, x);
    BuildParts(t, d, Remaining(x, g), b, off, address);
    NamedRead(t, b, d, x, g, off);
    ImmFits(t, b, d, x, g, end, address);
    var imm := w[end..end + ImmLength(t, d, x, g)];
    y := x.(imm := imm);
    MoreBytes(x, x.rm, imm);
    Appended(b, BytesOf(x), imm);
    SameSelection(t, b, x, y);
    SameParts(t, d, x, g, imm);
    ImmRead(t, b, d, y, g, end, address);
    LockHolds(t, d, y, g, address);
  }

  /** Whatever is decoded is put together from fields. */
  lemma FormFound(t: Table, b: Bytes, address: nat) returns (x: Form)
    requires Decode(t, b, address).Some?
    ensures Encodes(t, Numbers(Window(b)), x)
  {
    hide DecodeWindow, Selects, Begun, Encodes, OperandsHere;
    var w := Window(b);
    x := SelectionFound(t, w, address);
    SelectionBegun(t, w, x, address);
    x := OperandsFound(t, w, x, address);
    x := ImmediateFound(t, w, x, address);
  }

  /**
   Exactly what the decoder decodes, for every table, all bytes and any address: what the
   fields denote from which the bytes are put together.
   */
  lemma DecodedExact(t: Table, b: Bytes, address: nat, i: Instruction, n: nat)
    ensures Decode(t, b, address) == Some((i, n)) <==>
      exists x :: Encodes(t, Numbers(Window(b)), x) && i == Meaning(t, Numbers(Window(b)), x, address)
        && n == |BytesOf(x)|
  {
    hide DecodeWindow, Encodes, Meaning, BytesOf;
    if Decode(t, b, address).Some? {
      var x := FormFound(t, b, address);
      EncodedReads(t, b, x, address);
    }
    forall x | Encodes(t, Numbers(Window(b)), x)
      ensures Decode(t, b, address) == Some((Meaning(t, Numbers(Window(b)), x, address), |BytesOf(x)|))
    {
      EncodedReads(t, b, x, address);
    }
  }

  // ---- the B bit of VEX -----------------------------------------------------------------------------------------

  /** The form with the B bit of its VEX prefix flipped. */
  function Flipped(x: Form): Form
    requires x.lead.Vex3?
  {
    x.(lead := x.lead.(b := !x.lead.b))
  }

  lemma FlippedLead(x: Form)
    requires x.lead.Vex3?
    ensures var l, m := x.lead, Flipped(x).lead;
      && W(m) == W(l) && R(m) == R(l) && X(m) == X(l) && B(m) == B(l) && L(m) == L(l) && IsVexLead(m) && IsVexLead(l)
      && |LeadBytes(m)| == |LeadBytes(l)|
    ensures |BytesOf(Flipped(x))| == |BytesOf(x)| && OpcodeEnd(Flipped(x)) == OpcodeEnd(x)
    ensures Mandatory(Flipped(x)) == Mandatory(x)
  {
    hide LastRepeatIn, RMBytes;
  }

  lemma FlippedImm(d: Desc, x: Form, group: Entry, address: nat)
    requires x.lead.Vex3?
    ensures ImmValue(d, Flipped(x), address) == ImmValue(d, x, address)
    ensures Width(d, Flipped(x), group) == Width(d, x, group)
  {
    hide BytesOf, Control, Little, Format.Extended, W;
    FlippedLead(x);
  }

  lemma FlippedOperand(d: Desc, x: Form, group: Entry, address: nat, k: nat)
    requires x.lead.Vex3? && k < 4
    ensures OperandOf(d, Flipped(x), group, address, k) == OperandOf(d, x, group, address, k)
    ensures AtIp(d, Flipped(x), address, k) == AtIp(d, x, address, k)
  {
    hide BytesOf, Control, ImmValue, Width, W, R, X, B, L, LeadBytes, Names, ImmIs, SizeField, TypeField, Power2;
    hide VexField, RmField, RegFieldOf, ImplicitField;
    FlippedLead(x);
    FlippedImm(d, x, group, address);
    FlippedReg(d, x, address, k);
  }

  lemma FlippedReg(d: Desc, x: Form, address: nat, k: nat)
    requires x.lead.Vex3?
    ensures RawReg(d, Flipped(x), address, k) == RawReg(d, x, address, k)
    ensures RawKind(d, Flipped(x), k) == RawKind(d, x, k)
  {
    hide BytesOf, Control, ImmValue, W, R, X, B, L, LeadBytes, Names, ImmIs;
    hide VexField, RmField, RegFieldOf, ImplicitField;
    FlippedLead(x);
    FlippedImm(d, x, Entry(KNone, 0), address);
  }

  lemma FlippedDenoted(d: Desc, x: Form, group: Entry, address: nat)
    requires x.lead.Vex3?
    ensures Denoted(d, Flipped(x), group, address) == Denoted(d, x, group, address)
  {
    hide BytesOf, Control, ImmValue, Width, W, R, X, B, L, LeadBytes, OperandOf, AtIp, LastRepeatIn, LastSegmentIn;
    hide Little, Format.Extended;
    FlippedLead(x);
    FlippedImm(d, x, group, address);
    FlippedOperand(d, x, group, address, 0);
    FlippedOperand(d, x, group, address, 1);
    FlippedOperand(d, x, group, address, 2);
    FlippedOperand(d, x, group, address, 3);
  }

  lemma FlippedSelection(t: Table, v: seq<int>, w: seq<int>, x: Form)
    requires x.lead.Vex3? && Selects(t, v, x) && Selects(t, w, Flipped(x)) && Behind(v, x) == Behind(w, Flipped(x))
    ensures DescOf(t, w, Flipped(x)) == DescOf(t, v, x) && GroupOf(t, w, Flipped(x)) == GroupOf(t, v, x)
  {
    hide BytesOf, W, L, LeadBytes, AreBytes, ValidRM, LastRepeatIn, Mandatory, Behind;
    FlippedLead(x);
  }

  /**
   In 64-bit mode the inverted B bit of a three-byte VEX prefix chooses nothing: with the bit
   flipped and all else alike, the instruction is the same.
   */
  lemma VexBIgnored(t: Table, b: Bytes, c: Bytes, x: Form, address: nat)
    requires x.lead.Vex3? && Encodes(t, Numbers(Window(b)), x) && Encodes(t, Numbers(Window(c)), Flipped(x))
    requires Behind(Numbers(Window(b)), x) == Behind(Numbers(Window(c)), Flipped(x))
    ensures Decode(t, b, address).Some? && Decode(t, c, address) == Decode(t, b, address)
  {
    hide Selects, Decode, Numbers, Window, Denoted, DescOf, GroupOf, Behind, BytesOf, Flipped;
    EncodedReads(t, b, x, address);
    EncodedReads(t, c, Flipped(x), address);
    FlippedSelection(t, Numbers(Window(b)), Numbers(Window(c)), x);
    FlippedDenoted(DescOf(t, Numbers(Window(b)), x), x, GroupOf(t, Numbers(Window(b)), x), address);
    FlippedLead(x);
  }
}
