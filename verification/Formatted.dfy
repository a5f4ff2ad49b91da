/** The decoder reads exactly what Format puts together. */
module Formatted {
  import A = Arithmetic
  import opened Decoder
  import opened Format

  // ---- bytes as numbers -----------------------------------------------------------------------------------

  lemma ModIs(b: bv8)
    ensures Mod(b) == b as int / 64
  {
  }

  lemma RegFieldIs(b: bv8)
    ensures RegField(b) == b as int / 8 % 8
  {
  }

  lemma RmIs(b: bv8)
    ensures Rm(b) == b as int % 8
  {
  }

  lemma LegacyIs(b: bv8)
    ensures Legacy(b) <==> b as int in LegacyBytes
    ensures SegmentOf(b) == SegmentNumber(b as int)
    ensures (RepeatOf(b) == Some(Rep) <==> b as int == 0xf3) && (RepeatOf(b) == Some(RepNz) <==> b as int == 0xf2)
    ensures RepeatOf(b) != Some(NoRepeat)
    ensures (b == 0x66 <==> b as int == 0x66) && (b == 0x67 <==> b as int == 0x67) && (b == 0xf0 <==> b as int == 0xf0)
  {
  }

  lemma PrefixIs(b: bv8)
    ensures (IsRex(b) <==> 0x40 <= b as int < 0x50)
    ensures (b == 0xc4 <==> b as int == 0xc4) && (b == 0xc5 <==> b as int == 0xc5)
  {
  }

  // One bit or field a lemma: the solver sees one mask at a time.

  lemma Bit0(b: bv8)
    ensures 0 < b & 1 <==> b as int % 2 == 1
  {
  }

  lemma Bit1(b: bv8)
    ensures 0 < b & 2 <==> b as int / 2 % 2 == 1
  {
  }

  lemma Bit2(b: bv8)
    ensures 0 < b & 4 <==> b as int / 4 % 2 == 1
  {
  }

  lemma Bit3(b: bv8)
    ensures 0 < b & 8 <==> b as int / 8 % 2 == 1
  {
  }

  lemma Bit6(b: bv8)
    ensures 0 < b & 0x40 <==> b as int / 64 % 2 == 1
  {
  }

  lemma Bit7(b: bv8)
    ensures 0 < b & 0x80 <==> b as int >= 128
  {
  }

  lemma MandatoryBits(b: bv8)
    ensures (b & 3) as nat == b as int % 4
  {
  }

  lemma VexRegBits(b: bv8)
    ensures (((b & 0x78) >> 3) ^ 0xf) as nat == 15 - b as int / 8 % 16
  {
  }

  lemma EscapeBits(b: bv8)
    ensures (b & 0x1f) as nat == b as int % 32
  {
  }

  lemma HighIs(b: bv8)
    requires b as int >= 0xc0
    ensures HighIndex(b) == b as int - 0xb8
  {
  }

  lemma RegisterForm(b: bv8)
    ensures b & 0xc0 == 0xc0 <==> b as int >= 0xc0
  {
  }

  lemma TwoIs(b: bv8)
    ensures Two(b) == 3 - b as int % 4
  {
  }

  lemma Field0(b: bv8)
    ensures 0 < b & 3 <==> b as int % 4 != 0
  {
  }

  lemma Field2(b: bv8)
    ensures 0 < b & 0xc <==> b as int / 4 % 4 != 0
  {
  }

  lemma Field4(b: bv8)
    ensures 0 < b & 0x30 <==> b as int / 16 % 4 != 0
  {
  }

  lemma Field6(b: bv8)
    ensures 0 < b & 0xc0 <==> b as int / 64 % 4 != 0
  {
  }

  lemma Down2(b: bv8)
    ensures (b >> 2) as int == b as int / 4
  {
  }

  lemma Down4(b: bv8)
    ensures (b >> 4) as int == b as int / 16
  {
  }

  lemma Down6(b: bv8)
    ensures (b >> 6) as int == b as int / 64
  {
  }

  lemma Low3Is(b: bv8)
    ensures (b & 7) as int == b as int % 8
  {
  }

  lemma HasModRMIs(d: Desc)
    ensures d.HasModRM() <==> RmField(d) != 0
    ensures d.ModRMIndex() == 3 - RmField(d)
  {
    Field0(d.indices);
    TwoIs(d.indices);
  }

  lemma HasModRegIs(d: Desc)
    ensures d.HasModReg() <==> RegFieldOf(d) != 0
    ensures d.ModRegIndex() == 3 - RegFieldOf(d)
  {
    hide Two;
    Field2(d.indices);
    TwoIs(d.indices >> 2);
    Down2(d.indices);
  }

  lemma HasVexRegIs(d: Desc)
    ensures d.HasVexReg() <==> VexField(d) != 0
    ensures d.VexRegIndex() == 3 - VexField(d)
  {
    hide Two;
    Field4(d.indices);
    TwoIs(d.indices >> 4);
    Down4(d.indices);
  }

  lemma HasImplicitIs(d: Desc)
    ensures d.HasImplicit() <==> ImplicitField(d) != 0
    ensures d.ImplicitIndex() == 3 - ImplicitField(d)
  {
    hide Two;
    Field6(d.indices);
    TwoIs(d.indices >> 6);
    Down6(d.indices);
  }

  lemma ImmediateIs(d: Desc)
    ensures d.ImmIndex() == 3 - d.immediate as int % 4
    ensures d.ImmControl() as int == Control(d) && (d.ImmByte() <==> OneByte(d))
  {
    hide Two;
    TwoIs(d.immediate);
    Low3Is(d.immediate >> 4);
    Down4(d.immediate);
    Bit7(d.immediate);
  }

  // The two-bit code of an operand's size.

  function CodeOf(b: bv8): bv8 { b & 3 }

  lemma CodeIs(b: bv8)
    ensures CodeOf(b) as int == b as int % 4
  {
  }

  lemma SizeCode(d: Desc, k: nat)
    requires k < 4
    ensures var c := if k == 0 then CodeOf(d.sizes) else if k == 1 then CodeOf(d.sizes >> 2)
        else if k == 2 then CodeOf(d.sizes >> 4) else CodeOf(d.sizes >> 6);
      c as int == SizeField(d, k)
  {
    hide CodeOf;
    if k == 0 {
      CodeIs(d.sizes);
    } else if k == 1 {
      CodeIs(d.sizes >> 2);
      Down2(d.sizes);
    } else if k == 2 {
      CodeIs(d.sizes >> 4);
      Down4(d.sizes);
    } else {
      CodeIs(d.sizes >> 6);
      Down6(d.sizes);
    }
  }

  // ---- prefixes ------------------------------------------------------------------------------------------

  lemma NumbersOf(b: Bytes, i: nat, j: nat)
    requires i <= j <= |b|
    ensures Numbers(b[i..j]) == Numbers(b)[i..j]
  {
  }

  function RepeatNumber(r: Repeat): nat { match r case NoRepeat => 0 case Rep => 2 case RepNz => 3 }

  function AfterLegacy(ns: seq<int>): Prefixes {
    Prefixes(0xf0 in ns, LastRepeatIn(ns), 0x66 in ns, 0x67 in ns, false, false, false, false, false, false, false,
      RepeatNumber(LastRepeatIn(ns)), LastSegmentIn(ns), 0, -1)
  }

  lemma LegacyAdded(p: Prefixes, byte: bv8)
    requires Legacy(byte)
    ensures var n := byte as int; var q := AddLegacy(p, byte); var s := SegmentNumber(n);
      q == p.(
        segment := if s.Some? then s.value else p.segment,
        repeat := if n == 0xf3 then Rep else if n == 0xf2 then RepNz else p.repeat,
        mandatory := if n == 0xf3 then 2 else if n == 0xf2 then 3 else p.mandatory,
        lock := p.lock || n == 0xf0, opsz := p.opsz || n == 0x66, addrsz := p.addrsz || n == 0x67)
  {
    hide SegmentOf, RepeatOf, Legacy, AddSegment, AddRepeat, AddFlag;
    LegacyIs(byte);
    if SegmentOf(byte).Some? {
      SegmentAdded(p, SegmentOf(byte).value);
    } else if RepeatOf(byte).Some? {
      RepeatAdded(p, RepeatOf(byte).value);
    } else {
      FlagAdded(p, byte);
    }
  }

  lemma SegmentAdded(p: Prefixes, s: nat)
    ensures AddSegment(p, s) == p.(segment := s)
  {
  }

  lemma RepeatAdded(p: Prefixes, r: Repeat)
    ensures AddRepeat(p, r) == p.(repeat := r, mandatory := if r == Rep then 2 else 3)
  {
  }

  lemma FlagAdded(p: Prefixes, byte: bv8)
    requires byte as int == 0x66 || byte as int == 0x67 || byte as int == 0xf0
    ensures var n := byte as int;
      AddFlag(p, byte) == p.(lock := p.lock || n == 0xf0, opsz := p.opsz || n == 0x66, addrsz := p.addrsz || n == 0x67)
  {
    LegacyIs(byte);
  }

  lemma LastOf(front: seq<int>, n: int)
    ensures var s := SegmentNumber(n);
      LastSegmentIn(front + [n]) == if s.Some? then s.value else LastSegmentIn(front)
    ensures LastRepeatIn(front + [n]) == if n == 0xf3 then Rep else if n == 0xf2 then RepNz else LastRepeatIn(front)
    ensures forall m :: m in front + [n] <==> m in front || m == n
  {
    var ns := front + [n];
    assert ns[..|ns| - 1] == front;
  }

  lemma {:induction false} LegacyRead(bs: Bytes)
    requires AllLegacy(bs)
    ensures AddAll(NoPrefixes, bs) == AfterLegacy(Numbers(bs))
    decreases |bs|
  {
    hide Legacy, AddLegacy, LastSegmentIn, LastRepeatIn, SegmentNumber;
    if bs == [] {
      NoLegacy();
    } else {
      var front, last := bs[..|bs| - 1], bs[|bs| - 1];
      forall i | 0 <= i < |front| ensures Legacy(front[i]) {
        assert front[i] == bs[i];
      }
      LegacyRead(front);
      LegacyAdded(AddAll(NoPrefixes, front), last);
      NumbersOf(bs, 0, |bs| - 1);
      LastOf(Numbers(front), last as int);
      assert Numbers(bs) == Numbers(front) + [last as int];
    }
  }

  lemma NoLegacy()
    ensures AfterLegacy([]) == NoPrefixes
  {
  }

  /** What the prefixes of the form amount to. */
  function PrefixesOf(x: Form): Prefixes {
    Prefixes(0xf0 in x.legacy, LastRepeatIn(x.legacy), 0x66 in x.legacy, 0x67 in x.legacy, x.lead.Rex?, B(x.lead),
      X(x.lead), R(x.lead), W(x.lead), L(x.lead), IsVexLead(x.lead), Mandatory(x), LastSegmentIn(x.legacy),
      if IsVexLead(x.lead) then x.lead.reg else 0,
      if x.lead.Vex2? then 1 else if x.lead.Vex3? then x.lead.escape else -1)
  }

  lemma RexAdded(p: Prefixes, byte: bv8, l: Lead)
    requires l.Rex? && [byte as int] == LeadBytes(l) && !p.b && !p.x && !p.r && !p.w
    ensures IsRex(byte) && AddRex(p, byte) == p.(rex := true, b := l.b, x := l.x, r := l.r, w := l.w)
  {
    hide IsRex;
    var n := byte as int;
    assert n == 0x40 + Weighted(l.w, 8) + Weighted(l.r, 4) + Weighted(l.x, 2) + Weighted(l.b, 1);
    Bit0(byte);
    Bit1(byte);
    Bit2(byte);
    Bit3(byte);
    PrefixIs(byte);
  }

  lemma VexTailIs(p: Prefixes, byte: bv8, high: bool, reg: nat, l: bool, pp: nat)
    requires reg < 16 && pp < 4 && byte as int == Weighted(high, 128) + VexByte(reg, l, pp)
    ensures VexTail(p, byte) == p.(vexl := l, mandatory := pp, vexOperand := reg)
    ensures 0 < byte & 0x80 <==> high
  {
    Bit2(byte);
    Bit7(byte);
    MandatoryBits(byte);
    VexRegBits(byte);
  }

  lemma Vex2Added(p: Prefixes, byte: bv8, l: Lead)
    requires l.Vex2? && ValidLead(l) && byte as int == LeadBytes(l)[1] && !p.r
    ensures AddVex2(p, byte)
      == p.(vex := true, r := l.r, escape := 1, vexl := l.l, mandatory := l.pp, vexOperand := l.reg)
  {
    hide VexTail;
    VexTailIs(p.(vex := true, r := l.r, escape := 1), byte, !l.r, l.reg, l.l, l.pp);
  }

  lemma Vex3First(byte: bv8, l: Lead)
    requires l.Vex3? && ValidLead(l) && byte as int == LeadBytes(l)[1]
    ensures !(0 < byte & 0x80) == l.r && !(0 < byte & 0x40) == l.x && (byte & 0x1f) as nat == l.escape
  {
    var n := byte as int;
    assert n == Weighted(!l.r, 128) + Weighted(!l.x, 64) + Weighted(!l.b, 32) + l.escape;
    Bit6(byte);
    Bit7(byte);
    EscapeBits(byte);
  }

  lemma Vex3Added(p: Prefixes, first: bv8, second: bv8, l: Lead)
    requires l.Vex3? && ValidLead(l) && first as int == LeadBytes(l)[1] && second as int == LeadBytes(l)[2]
    requires !p.r && !p.x && !p.w
    ensures AddVex3(p, first, second) == p.(vex := true, r := l.r, x := l.x, escape := l.escape, w := l.w,
      vexl := l.l, mandatory := l.pp, vexOperand := l.reg)
  {
    hide VexTail, LeadBytes, AddVex3, Weighted, VexByte;
    Vex3First(first, l);
    Vex3Second(l);
    VexTailIs(p.(vex := true, r := l.r, x := l.x, escape := l.escape, w := l.w), second, l.w, l.reg, l.l, l.pp);
    Vex3Taken(p, first, second, l.r, l.x, l.escape, l.w);
  }

  lemma Vex3Taken(p: Prefixes, first: bv8, second: bv8, r: bool, x: bool, escape: nat, w: bool)
    requires !p.r && !p.x && !p.w
    requires !(0 < first & 0x80) == r && !(0 < first & 0x40) == x && (first & 0x1f) as nat == escape
    requires 0 < second & 0x80 <==> w
    ensures AddVex3(p, first, second) == VexTail(p.(vex := true, r := r, x := x, escape := escape, w := w), second)
  {
    hide VexTail;
  }

  lemma Vex3Second(l: Lead)
    requires l.Vex3?
    ensures |LeadBytes(l)| == 3 && LeadBytes(l)[2] == Weighted(l.w, 128) + VexByte(l.reg, l.l, l.pp)
  {
  }

  lemma Middle(w: seq<int>, front: seq<int>, v: seq<int>, rest: seq<int>)
    requires front + v + rest <= w
    ensures |front| + |v| + |rest| <= |w| && w[|front|..|front| + |v|] == v
  {
    var y := front + v + rest;
    assert w[..|y|] == y;
    assert y[|front|..|front| + |v|] == v;
    assert w[|front|..|front| + |v|] == w[..|y|][|front|..|front| + |v|];
  }

  /** Where the fields of a form stand in bytes that begin with it. */
  lemma PartsOf(w: seq<int>, x: Form)
    requires BytesOf(x) <= w
    ensures var k := |x.legacy|; var l := k + |LeadBytes(x.lead)|; var o := l + |x.opcode|; var u := o + |x.taken|;
        var m := u + |RMBytes(x.rm)|; var n := m + |x.imm|;
      && n == |BytesOf(x)| <= |w|
      && w[..k] == x.legacy && w[k..l] == LeadBytes(x.lead) && w[l..o] == x.opcode && w[o..u] == x.taken
      && w[u..m] == RMBytes(x.rm) && w[m..n] == x.imm
  {
    hide LeadBytes, RMBytes;
    SixParts(w, x.legacy, LeadBytes(x.lead), x.opcode, x.taken, RMBytes(x.rm), x.imm);
  }

  lemma SixParts(w: seq<int>, a: seq<int>, b: seq<int>, c: seq<int>, d: seq<int>, e: seq<int>, f: seq<int>)
    requires a + b + c + d + e + f <= w
    ensures var k := |a|; var l := k + |b|; var o := l + |c|; var u := o + |d|; var m := u + |e|; var n := m + |f|;
      && n <= |w| && w[..k] == a && w[k..l] == b && w[l..o] == c && w[o..u] == d && w[u..m] == e && w[m..n] == f
  {
    ThreeParts(w, a, b, c, d + e + f);
    ThreeParts(w, a + b + c, d, e, f);
    assert a + b + c + d + e + f == a + b + c + (d + e + f);
    Middle(w, a + b + c + d + e, f, []);
    assert a + b + c + d + e + f == (a + b + c + d + e) + f + [];
  }

  lemma ThreeParts(w: seq<int>, a: seq<int>, b: seq<int>, c: seq<int>, rest: seq<int>)
    requires a + b + c + rest <= w
    ensures var k := |a|; var l := k + |b|; var o := l + |c|;
      o + |rest| <= |w| && w[..k] == a && w[k..l] == b && w[l..o] == c
  {
    assert a + b + c + rest == [] + a + (b + c + rest) && a + b + c + rest == a + b + (c + rest);
    Middle(w, [], a, b + c + rest);
    Middle(w, a, b, c + rest);
    Middle(w, a + b, c, rest);
  }

  lemma LegacyOf(b: Bytes, x: Form)
    requires ValidForm(x) && |x.legacy| <= |b| && Numbers(b)[..|x.legacy|] == x.legacy
    ensures AllLegacy(b[..|x.legacy|])
    ensures AddAll(NoPrefixes, b[..|x.legacy|]) == AfterLegacy(x.legacy)
  {
    hide Legacy, AddAll, AfterLegacy;
    var bs := b[..|x.legacy|];
    NumbersOf(b, 0, |x.legacy|);
    forall i | 0 <= i < |bs| ensures Legacy(bs[i]) {
      LegacyIs(bs[i]);
      assert Numbers(bs)[i] == x.legacy[i] && x.legacy[i] in x.legacy;
    }
    LegacyRead(bs);
  }

  /** What stands behind the legacy prefixes. */
  lemma LeadRead(b: Bytes, x: Form)
    requires ValidForm(x) && BytesOf(x) <= Numbers(b)
    ensures var k := |x.legacy|; var l := k + |LeadBytes(x.lead)|;
      && l < |b| && !Legacy(b[k])
      && (x.lead.Plain? ==> !IsRex(b[k]) && !IsVex(b[k]))
      && (x.lead.Rex? ==> [b[k] as int] == LeadBytes(x.lead))
      && (x.lead.Vex2? ==> b[k] == 0xc5 && !IsRex(b[k]) && b[k + 1] as int == LeadBytes(x.lead)[1])
      && (x.lead.Vex3? ==>
        && b[k] == 0xc4 && !IsRex(b[k]) && b[k + 1] as int == LeadBytes(x.lead)[1]
        && b[k + 2] as int == LeadBytes(x.lead)[2])
  {
    hide Legacy, IsRex, BytesOf, AreBytes, ValidRM, LeadBytes;
    var w, k := Numbers(b), |x.legacy|;
    var l := k + |LeadBytes(x.lead)|;
    PartsOf(w, x);
    LeadStart(x.lead);
    LegacyIs(b[k]);
    PrefixIs(b[k]);
    var lead := w[k..l];
    if x.lead.Plain? {
      assert w[k] == w[l..l + |x.opcode|][0];
    } else {
      assert w[k] == lead[0];
      assert |lead| > 1 ==> w[k + 1] == lead[1];
      assert |lead| > 2 ==> w[k + 2] == lead[2];
    }
  }

  lemma LeadStart(l: Lead)
    ensures |LeadBytes(l)| == match l case Plain => 0 case Rex(_, _, _, _) => 1 case Vex2(_, _, _, _) => 2
      case Vex3(_, _, _, _, _, _, _, _) => 3
    ensures l.Rex? ==> 0x40 <= LeadBytes(l)[0] < 0x50
    ensures l.Vex2? ==> LeadBytes(l)[0] == 0xc5
    ensures l.Vex3? ==> LeadBytes(l)[0] == 0xc4
  {
  }

  /** The scan through the prefixes ends behind the form's, and finds what they amount to. */
  lemma PrefixesRead(b: Bytes, x: Form)
    requires ValidForm(x) && BytesOf(x) <= Numbers(b)
    ensures var r := ScanPrefixes(b, 0, NoPrefixes);
      r.Some? && r.value.1 == |x.legacy| + |LeadBytes(x.lead)| < |b| && Offered(r.value.0) == PrefixesOf(x)
  {
    hide Legacy, AddRex, AddVex2, AddVex3, AllLegacy, AddAll, IsRex, LastRepeatIn, LastSegmentIn, LeadBytes, BytesOf;
    hide AfterLegacy, PrefixesOf, Offered, AreBytes, ValidRM;
    var k := |x.legacy|;
    PartsOf(Numbers(b), x);
    LegacyOf(b, x);
    ScanLegacy(b, k);
    LeadRead(b, x);
    LeadStart(x.lead);
    var p := AfterLegacy(x.legacy);
    LeadTaken(x);
    match x.lead
    case Plain =>
    case Rex(_, _, _, _) => RexAdded(p, b[k], x.lead);
    case Vex2(_, _, _, _) => Vex2Added(p, b[k + 1], x.lead);
    case Vex3(_, _, _, _, _, _, _, _) => Vex3Added(p, b[k + 1], b[k + 2], x.lead);
  }

  /** The prefixes with what the lead adds, mandatory prefix included. */
  lemma LeadTaken(x: Form)
    ensures var p := AfterLegacy(x.legacy);
      && !p.b && !p.x && !p.r && !p.w
      && var l := x.lead;
      var q := match l
        case Plain => p
        case Rex(_, _, _, _) => p.(rex := true, b := l.b, x := l.x, r := l.r, w := l.w)
        case Vex2(_, _, _, _) =>
          p.(vex := true, r := l.r, escape := 1, vexl := l.l, mandatory := l.pp, vexOperand := l.reg)
        case Vex3(_, _, _, _, _, _, _, _) => p.(vex := true, r := l.r, x := l.x, escape := l.escape, w := l.w,
          vexl := l.l, mandatory := l.pp, vexOperand := l.reg);
      Offered(q) == PrefixesOf(x)
  {
    hide LastRepeatIn, LastSegmentIn;
  }

  // ---- the opcode ------------------------------------------------------------------------------------------

  lemma {:induction false} WalkRead(t: Table, b: Bytes, table: nat, off: nat, opcode: seq<int>)
    requires Leads(t, table, opcode) && off + |opcode| <= |b| && Numbers(b)[off..off + |opcode|] == opcode
    ensures var e := LedTo(t, table, opcode);
      WalkOpcode(t, b, Place(KTable256, table, off)) == Place(e.kind, e.table, off + |opcode|)
    decreases |opcode|
  {
    var e := t.entries(table, opcode[0]);
    assert b[off] as int == Numbers(b)[off..off + |opcode|][0];
    if |opcode| > 1 {
      assert Numbers(b)[off + 1..off + 1 + |opcode[1..]|] == Numbers(b)[off..off + |opcode|][1..];
      WalkRead(t, b, e.table, off + 1, opcode[1..]);
    }
  }

  lemma OpcodeRead(t: Table, b: Bytes, x: Form)
    requires ValidForm(x) && HasOpcode(t, x) && BytesOf(x) <= Numbers(b)
    ensures var e := Format.OpcodeOf(t, x); var off := |x.legacy| + |LeadBytes(x.lead)|;
      off < |b| && Opcode(t, b, off, PrefixesOf(x).escape) == Some(Place(e.kind, e.table, OpcodeEnd(x)))
  {
    hide LeadBytes, WalkOpcode, AreBytes, ValidRM, BytesOf, Numbers, Leads, LedTo, Mandatory, LastRepeatIn;
    hide LastSegmentIn;
    PartsOf(Numbers(b), x);
    var off := |x.legacy| + |LeadBytes(x.lead)|;
    if IsVexLead(x.lead) {
      NumberAt(b, off, x.opcode, 0);
    } else {
      WalkRead(t, b, t.root, off, x.opcode);
    }
  }

  lemma ChosenRead(t: Table, b: Bytes, e: Entry, off: nat, n: int)
    requires off <= |b| && (IsGroup(e) ==> off < |b| && n == b[off] as int) && 0 <= n
    ensures var g := Chosen(t, e, n);
      Extension(t, b, Place(e.kind, e.table, off)) == Place(g.kind, g.table, if OwnEntry(t, e, n) then off + 1 else off)
  {
    hide RegField, HighIndex;
    if IsGroup(e) {
      RegisterForm(b[off]);
      RegFieldIs(b[off]);
      if n >= 0xc0 {
        HighIs(b[off]);
      }
    }
  }

  lemma ResolveRead(t: Table, x: Form, g: Entry, off: nat)
    requires ValidLead(x.lead)
    ensures var p := PrefixesOf(x); var f := ByVex(t, x, ByPrefix(t, x, g));
      Resolve(t, Place(g.kind, g.table, off), PrefixIndex(p), VexIndex(p)) == Place(f.kind, f.table, off)
  {
    hide LastRepeatIn, LastSegmentIn;
  }

  /** The decoder comes to the form's descriptor, and goes on behind its opcode. */
  lemma SelectionRead(t: Table, b: Bytes, x: Form, address: nat)
    requires |b| <= MaxLength && Selects(t, Numbers(b), x)
    ensures var g, off := GroupOf(t, Numbers(b), x), OpcodeEnd(x) + |x.taken|;
      && 0 < off <= |b|
      && DecodeWindow(t, b, address) == Build(t, DescOf(t, Numbers(b), x),
        Consumed(PrefixesOf(x), Place(g.kind, g.table, off)), b, off, address)
  {
    hide ScanPrefixes, Opcode, Extension, Resolve, Build, Consumed, PrefixesOf, LeadBytes, AreBytes, BytesOf;
    hide Chosen, OwnEntry, ByPrefix, ByVex, HasOpcode, ValidRM, PrefixIndex, VexIndex;
    hide Format.OpcodeOf, Numbers, Mandatory;
    var n, e := Behind(Numbers(b), x), Format.OpcodeOf(t, x);
    PartsOf(Numbers(b), x);
    PrefixesRead(b, x);
    OpcodeRead(t, b, x);
    ChosenRead(t, b, e, OpcodeEnd(x), n);
    ResolveRead(t, x, GroupOf(t, Numbers(b), x), OpcodeEnd(x) + |x.taken|);
  }

  // ---- numbers of several bytes ------------------------------------------------------------------------------

  lemma {:induction false} LittleLast(ns: seq<int>)
    requires ns != []
    ensures Little(ns) == Little(ns[..|ns| - 1]) + ns[|ns| - 1] * Power256(|ns| - 1)
    decreases |ns|
  {
    if |ns| > 1 {
      var rest := ns[1..];
      LittleLast(rest);
      assert rest[..|rest| - 1] == ns[..|ns| - 1][1..];
      Spread256(ns[0], Little(rest[..|rest| - 1]), ns[|ns| - 1], Power256(|ns| - 2));
    } else {
      assert ns[..0] == [] && ns[1..] == [];
    }
  }

  lemma Spread256(a: int, l: int, n: int, q: int)
    ensures a + 256 * (l + n * q) == (a + 256 * l) + n * (256 * q)
  {
  }

  lemma {:induction false} PowersAgree(k: nat)
    ensures Pow256(k) == Power256(k) && Power256(k) > 0
    decreases k
  {
    if k > 0 {
      PowersAgree(k - 1);
    }
  }

  lemma {:induction false} LoadRead(b: Bytes, off: nat, k: nat)
    requires off + k <= |b|
    ensures LoadLE(b, off, k) == Little(Numbers(b)[off..off + k])
    decreases k
  {
    var ns := Numbers(b)[off..off + k];
    if k > 0 {
      LoadRead(b, off, k - 1);
      PowersAgree(k - 1);
      LittleLast(ns);
      assert ns[..k - 1] == Numbers(b)[off..off + k - 1];
      assert ns[k - 1] == b[off + k - 1] as int;
    }
  }

  lemma {:induction false} LittleSmall(ns: seq<int>)
    requires AreBytes(ns)
    ensures 0 <= Little(ns) < Power256(|ns|)
    decreases |ns|
  {
    if ns != [] {
      assert ns[0] in ns;
      var rest := ns[1..];
      forall n | n in rest ensures 0 <= n < 256 {
        assert n in ns;
      }
      LittleSmall(rest);
    }
  }

  lemma FrontBytes(ns: seq<int>, k: nat)
    requires AreBytes(ns) && k <= |ns|
    ensures AreBytes(ns[..k])
  {
    var front := ns[..k];
    forall n | n in front ensures 0 <= n < 256 {
      assert n in ns;
    }
  }

  /** The number is negative exactly if its highest byte is at least 128. */
  lemma TopByte(ns: seq<int>)
    requires AreBytes(ns) && ns != []
    ensures 2 * Little(ns) < Power256(|ns|) <==> ns[|ns| - 1] < 128
  {
    var n, q := ns[|ns| - 1], Power256(|ns| - 1);
    LittleLast(ns);
    FrontBytes(ns, |ns| - 1);
    LittleSmall(ns[..|ns| - 1]);
    if n < 128 {
      Below128(n, q);
    } else {
      Above128(n, q);
    }
  }

  lemma Below128(n: int, q: int)
    requires n < 128 && 0 < q
    ensures n * q + q <= 128 * q
  {
    assert (n + 1) * q <= 128 * q;
  }

  lemma Above128(n: int, q: int)
    requires n >= 128 && 0 < q
    ensures n * q >= 128 * q
  {
  }

  lemma ExtendedRead(b: Bytes, off: nat, k: nat)
    requires off + k <= |b|
    ensures Wrapped(SignExtended(LoadLE(b, off, k), k)) == Extended(Numbers(b)[off..off + k])
  {
    var ns := Numbers(b)[off..off + k];
    LoadRead(b, off, k);
    PowersAgree(k);
    if ns != [] {
      forall n | n in ns ensures 0 <= n < 256 {
      }
      TopByte(ns);
    }
  }

  // ---- the ModRM byte -----------------------------------------------------------------------------------------

  function Extra8(f: bool): nat { if f then 8 else 0 }

  /** The memory operand that the ModRM and SIB bytes name. */
  function MemoryOf(m: RM, p: Prefixes, vsib: bool): Memory
    requires IsMemory(m) && ValidRM(m)
  {
    var base := if m.Based? then m.rm else m.base;
    var index := if m.Based? then 4 else m.index + Extra8(p.x);
    Memory(if m.Based? then 0 else m.scale, if index == 4 && !vsib then NoRegister else index,
      if m.mod == 0 && base == 5 then (if m.Based? then Ip else NoRegister) else base + Extra8(p.b), Extended(m.disp))
  }

  lemma DispRead(b: Bytes, off: nat, p: Prefixes, vsib: bool, m: RM, used: nat)
    requires IsMemory(m) && ValidRM(m) && off + |m.disp| <= |b| && Numbers(b)[off..off + |m.disp|] == m.disp
    ensures var rm := if m.Based? then m.rm else 4;
      DecodeMemory(b, off, p, vsib, m.mod, rm, m.reg + Extra8(p.r), if m.Based? then 0 else m.scale,
        if m.Based? then 4 else m.index + Extra8(p.x), if m.Based? then m.rm else m.base, used)
      == Some(ModRM(m.reg + Extra8(p.r), None, MemoryOf(m, p, vsib), used + |m.disp|))
  {
    hide LoadLE, SignExtended, Wrapped, Format.Extended;
    ExtendedRead(b, off, |m.disp|);
  }

  /** A byte put together from fields of two, three and three bits. */
  lemma ByteFields(byte: bv8, mod: nat, reg: nat, rm: nat)
    requires byte as int == 64 * mod + 8 * reg + rm && mod < 4 && reg < 8 && rm < 8
    ensures Mod(byte) == mod && RegField(byte) == reg && Rm(byte) == rm
  {
    hide Mod, RegField, Rm;
    ModIs(byte);
    RegFieldIs(byte);
    RmIs(byte);
  }

  lemma NumberAt(b: Bytes, off: nat, y: seq<int>, k: nat)
    requires off + |y| <= |b| && Numbers(b)[off..off + |y|] == y && k < |y|
    ensures b[off + k] as int == y[k] && Numbers(b)[off + k..off + |y|] == y[k..]
  {
    assert Numbers(b)[off..off + |y|][k] == Numbers(b)[off + k];
  }

  predicate RMHere(b: Bytes, off: nat, m: RM) {
    off + |RMBytes(m)| <= |b| && Numbers(b)[off..off + |RMBytes(m)|] == RMBytes(m)
  }

  lemma BasedParts(m: RM)
    requires ValidRM(m) && m.Based?
    ensures |RMBytes(m)| == 1 + |m.disp| && RMBytes(m)[0] == 64 * m.mod + 8 * m.reg + m.rm && RMBytes(m)[1..] == m.disp
  {
  }

  lemma IndexedParts(m: RM)
    requires ValidRM(m) && m.Indexed?
    ensures |RMBytes(m)| == 2 + |m.disp| && RMBytes(m)[0] == 64 * m.mod + 8 * m.reg + 4
    ensures RMBytes(m)[1] == 64 * m.scale + 8 * m.index + m.base && RMBytes(m)[2..] == m.disp
  {
  }

  lemma RestAt(b: Bytes, off: nat, m: RM, k: nat)
    requires RMHere(b, off, m) && k <= |RMBytes(m)|
    ensures Numbers(b)[off + k..off + |RMBytes(m)|] == RMBytes(m)[k..]
  {
    hide RMBytes, Numbers;
    assert Numbers(b)[off..off + |RMBytes(m)|][k..] == Numbers(b)[off + k..off + |RMBytes(m)|];
  }

  lemma BasedRead(b: Bytes, off: nat, p: Prefixes, vsib: bool, m: RM)
    requires ValidRM(m) && m.Based? && RMHere(b, off, m)
    ensures DecodeModRM(b, off, p, vsib)
      == Some(ModRM(m.reg + Extra8(p.r), None, MemoryOf(m, p, vsib), |RMBytes(m)|))
  {
    hide DecodeMemory, MemoryOf, RegField, Mod, Rm, Numbers, RMBytes;
    BasedParts(m);
    NumberAt(b, off, RMBytes(m), 0);
    ByteFields(b[off], m.mod, m.reg, m.rm);
    RestAt(b, off, m, 1);
    DispRead(b, off + 1, p, vsib, m, 1);
  }

  lemma IndexedRead(b: Bytes, off: nat, p: Prefixes, vsib: bool, m: RM)
    requires ValidRM(m) && m.Indexed? && RMHere(b, off, m)
    ensures DecodeModRM(b, off, p, vsib)
      == Some(ModRM(m.reg + Extra8(p.r), None, MemoryOf(m, p, vsib), |RMBytes(m)|))
  {
    hide DecodeMemory, MemoryOf, RegField, Mod, Rm, Numbers, RMBytes;
    IndexedParts(m);
    NumberAt(b, off, RMBytes(m), 0);
    NumberAt(b, off, RMBytes(m), 1);
    ByteFields(b[off], m.mod, m.reg, 4);
    ByteFields(b[off + 1], m.scale, m.index, m.base);
    RestAt(b, off, m, 2);
    DispRead(b, off + 2, p, vsib, m, 2);
  }

  lemma RMRead(b: Bytes, off: nat, p: Prefixes, vsib: bool, m: RM)
    requires ValidRM(m) && !m.NoRM? && RMHere(b, off, m)
    ensures DecodeModRM(b, off, p, vsib) == Some(ModRM(m.reg + Extra8(p.r),
      if m.Direct? then Some(m.rm + Extra8(p.b)) else None,
      if m.Direct? then Memory(0, 0, 0, 0) else MemoryOf(m, p, vsib), |RMBytes(m)|))
  {
    hide DecodeMemory, MemoryOf, RegField, Mod, Rm;
    match m
    case Direct(reg, rm) =>
      NumberAt(b, off, RMBytes(m), 0);
      ByteFields(b[off], 3, reg, rm);
    case Based(_, _, _, _) => BasedRead(b, off, p, vsib, m);
    case Indexed(_, _, _, _, _, _) => IndexedRead(b, off, p, vsib, m);
  }

  // ---- operands -----------------------------------------------------------------------------------------------

  /** The prefixes that are left for the operands. */
  function Remaining(x: Form, group: Entry): Prefixes { Consumed(PrefixesOf(x), Place(group.kind, group.table, 0)) }

  lemma RemainingIs(x: Form, group: Entry, off: nat)
    ensures var p := Consumed(PrefixesOf(x), Place(group.kind, group.table, off));
      && p == Remaining(x, group)
      && p.r == R(x.lead) && p.b == B(x.lead) && p.x == X(x.lead) && p.w == W(x.lead) && p.vexl == L(x.lead)
      && p.rex == x.lead.Rex? && p.opsz == Small(x, group) && p.addrsz == (0x67 in x.legacy)
      && p.lock == (0xf0 in x.legacy) && p.segment == LastSegmentIn(x.legacy)
      && p.repeat == (if group.kind == KTablePrefix then NoRepeat else LastRepeatIn(x.legacy))
      && p.vexOperand == (if IsVexLead(x.lead) then x.lead.reg else 0)
  {
    hide LastRepeatIn, LastSegmentIn, Mandatory;
  }

  lemma {:induction false} PowersOfTwo(n: nat)
    ensures Shifted1(n) == Power2(n)
    decreases n
  {
    if n > 0 {
      PowersOfTwo(n - 1);
    }
  }

  /** The size a descriptor gives an operand that is no immediate. */
  function PlainSize(d: Desc, x: Form, group: Entry, k: nat): nat
    requires k < 4
  {
    var s := SizeField(d, k);
    if s == 0 then 0 else if s == 1 then Power2(d.fixedSize) % 256 else if s == 2 then Width(d, x, group)
    else if L(x.lead) then 32 else 16
  }

  lemma SmallCode(c: bv8)
    ensures (c == 0 <==> c as int == 0) && (c == 1 <==> c as int == 1) && (c == 2 <==> c as int == 2)
  {
  }

  lemma SizeRead(d: Desc, x: Form, group: Entry, k: nat)
    requires k < 4
    ensures OperandSize(d, Remaining(x, group), k) == PlainSize(d, x, group, k)
  {
    hide Consumed, PrefixesOf, SizeField, CodeOf;
    RemainingIs(x, group, 0);
    SizeCode(d, k);
    PowersOfTwo(d.fixedSize);
    var c := if k == 0 then CodeOf(d.sizes) else if k == 1 then CodeOf(d.sizes >> 2)
      else if k == 2 then CodeOf(d.sizes >> 4) else CodeOf(d.sizes >> 6);
    SmallCode(c);
    CodeUsed(d, Remaining(x, group), k, c);
  }

  lemma CodeUsed(d: Desc, p: Prefixes, k: nat, code: bv8)
    requires k < 4
    requires code == if k == 0 then CodeOf(d.sizes) else if k == 1 then CodeOf(d.sizes >> 2)
      else if k == 2 then CodeOf(d.sizes >> 4) else CodeOf(d.sizes >> 6)
    ensures OperandSize(d, p, k) == if code == 0 then 0 else if code == 1 then Shifted1(d.fixedSize) % 256
      else if code == 2 then OpSize(d, p) else if p.vexl then 32 else 16
  {
    hide OpSize, Shifted1;
  }

  /** Overwrites the operand that a field names. */
  function Put(os: seq<Operand>, field: int, kind: OperandKind, reg: nat): (r: seq<Operand>)
    requires |os| == 4 && 0 <= field < 4
    ensures |r| == 4
    ensures forall k :: 0 <= k < 4 ==> r[k] == if Names(field, k) then os[k].(kind := kind, reg := reg) else os[k]
  {
    if field == 0 then os else os[3 - field := os[3 - field].(kind := kind, reg := reg)]
  }

  lemma FieldsSmall(d: Desc)
    ensures 0 <= RmField(d) < 4 && 0 <= RegFieldOf(d) < 4 && 0 <= VexField(d) < 4 && 0 <= ImplicitField(d) < 4
  {
  }

  lemma ImplicitPut(d: Desc, i: Instruction)
    requires |i.operands| == 4
    ensures 0 <= ImplicitField(d) < 4
    ensures Implicit(d, i) == i.(operands := Put(i.operands, ImplicitField(d), RegOperand, 0))
  {
    hide Desc.HasImplicit, Desc.ImplicitIndex, ImplicitField;
    HasImplicitIs(d);
    FieldsSmall(d);
  }

  lemma VexPut(d: Desc, p: Prefixes, i: Instruction)
    requires |i.operands| == 4
    ensures 0 <= VexField(d) < 4
    ensures VexRegister(d, p, i) == i.(operands := Put(i.operands, VexField(d), RegOperand, p.vexOperand))
  {
    hide Desc.HasVexReg, Desc.VexRegIndex, VexField;
    HasVexRegIs(d);
    FieldsSmall(d);
  }

  /** The operands that registers and the ModRM byte name, before the immediate. */
  function NamedKind(d: Desc, x: Form, k: nat): OperandKind {
    if Names(VexField(d), k) then RegOperand
    else if !x.rm.NoRM? && Names(RmField(d), k) then if IsMemory(x.rm) then MemOperand else RegOperand
    else if Names(RegFieldOf(d), k) || Names(ImplicitField(d), k) then RegOperand
    else NoOperand
  }

  function NamedReg(d: Desc, x: Form, k: nat): int {
    if Names(VexField(d), k) then if IsVexLead(x.lead) then x.lead.reg else 0
    else if !x.rm.NoRM? && Names(RmField(d), k) then
      if IsMemory(x.rm) then BaseOf(x) else x.rm.rm + if B(x.lead) then 8 else 0
    else if Names(RegFieldOf(d), k) then
      if x.rm.NoRM? then LastByte(x) % 8 + (if B(x.lead) then 8 else 0) else x.rm.reg + if R(x.lead) then 8 else 0
    else 0
  }

  lemma NamedNat(d: Desc, x: Form, k: nat)
    ensures NamedReg(d, x, k) >= 0
  {
  }

  function NamedOperand(d: Desc, x: Form, group: Entry, k: nat): Operand
    requires k < 4
  {
    NamedNat(d, x, k);
    Operand(NamedKind(d, x, k), PlainSize(d, x, group, k), NamedReg(d, x, k), 0)
  }

  function FourOperands(d: Desc, x: Form, group: Entry): (os: seq<Operand>)
    ensures |os| == 4 && forall k :: 0 <= k < 4 ==> os[k] == NamedOperand(d, x, group, k)
  {
    [NamedOperand(d, x, group, 0), NamedOperand(d, x, group, 1), NamedOperand(d, x, group, 2),
      NamedOperand(d, x, group, 3)]
  }

  /** The instruction before its immediate is read. */
  function NamedParts(t: Table, d: Desc, x: Form, group: Entry): Instruction {
    Begin(t, d, Remaining(x, group)).(
      scale := if x.rm.Indexed? then x.rm.scale else 0, index := if IsMemory(x.rm) then IndexOf(d, x) else 0,
      disp := if IsMemory(x.rm) then Format.Extended(x.rm.disp) else 0, operands := FourOperands(d, x, group))
  }

  /** Overwriting in turn, the last one counts. */
  lemma AllPut(d: Desc, x: Form, group: Entry, os: seq<Operand>, implicit: seq<Operand>, reg: seq<Operand>,
        rm: seq<Operand>, all: seq<Operand>, r: nat, m: nat, v: nat)
    requires |os| == 4 && forall k :: 0 <= k < 4 ==> os[k] == Operand(NoOperand, PlainSize(d, x, group, k), 0, 0)
    requires 0 <= ImplicitField(d) < 4 && 0 <= RegFieldOf(d) < 4 && 0 <= RmField(d) < 4 && 0 <= VexField(d) < 4
    requires implicit == Put(os, ImplicitField(d), RegOperand, 0)
    requires reg == Put(implicit, RegFieldOf(d), RegOperand, r)
    requires rm == if x.rm.NoRM? then reg
      else Put(reg, RmField(d), if IsMemory(x.rm) then MemOperand else RegOperand, m)
    requires all == Put(rm, VexField(d), RegOperand, v)
    requires v == if IsVexLead(x.lead) then x.lead.reg else 0
    requires r == if x.rm.NoRM? then LastByte(x) % 8 + (if B(x.lead) then 8 else 0)
      else x.rm.reg + if R(x.lead) then 8 else 0
    requires !x.rm.NoRM? ==> m == if IsMemory(x.rm) then BaseOf(x) else x.rm.rm + if B(x.lead) then 8 else 0
    ensures all == FourOperands(d, x, group)
  {
    hide Put, PlainSize, BaseOf, LastByte, VexField, RmField, RegFieldOf, ImplicitField;
    forall k: nat | k < 4 ensures all[k] == NamedOperand(d, x, group, k) {
      NamedNat(d, x, k);
    }
  }

  lemma BeginRead(t: Table, d: Desc, x: Form, group: Entry)
    ensures var os := Begin(t, d, Remaining(x, group)).operands;
      |os| == 4 && forall k :: 0 <= k < 4 ==> os[k] == Operand(NoOperand, PlainSize(d, x, group, k), 0, 0)
  {
    hide Remaining, PlainSize, OperandSize;
    forall k: nat | k < 4 ensures OperandSize(d, Remaining(x, group), k) == PlainSize(d, x, group, k) {
      SizeRead(d, x, group, k);
    }
  }

  lemma ModRegPut(d: Desc, i: Instruction, reg: nat)
    requires |i.operands| == 4
    ensures 0 <= RegFieldOf(d) < 4
    ensures (if d.HasModReg() then SetOperand(i, d.ModRegIndex(), RegOperand, reg) else i)
      == i.(operands := Put(i.operands, RegFieldOf(d), RegOperand, reg))
  {
    hide Desc.HasModReg, Desc.ModRegIndex, RegFieldOf;
    HasModRegIs(d);
    FieldsSmall(d);
  }

  lemma ModRMPut(d: Desc, i: Instruction, kind: OperandKind, reg: nat)
    requires |i.operands| == 4 && RmField(d) != 0
    ensures 0 <= RmField(d) < 4
    ensures SetOperand(i, d.ModRMIndex(), kind, reg) == i.(operands := Put(i.operands, RmField(d), kind, reg))
  {
    hide Desc.HasModRM, Desc.ModRMIndex, RmField;
    HasModRMIs(d);
    FieldsSmall(d);
  }

  /** The bytes behind the opcode: the ModRM operand's. */
  predicate OperandsHere(b: Bytes, off: nat, d: Desc, x: Form) {
    && ValidRM(x.rm) && (x.rm.NoRM? <==> RmField(d) == 0)
    && RMHere(b, off, x.rm) && 0 < off && b[off - 1] as int == LastByte(x)
  }

  lemma NoModRMRead(t: Table, b: Bytes, d: Desc, x: Form, group: Entry, off: nat)
    requires OperandsHere(b, off, d, x) && x.rm.NoRM?
    ensures var i := Implicit(d, Begin(t, d, Remaining(x, group)));
      Registers(d, Remaining(x, group), b, off, i) == Some(Partial(NamedParts(t, d, x, group), off))
  {
    hide Begin, Implicit, VexRegister, Put, Rm, Desc.HasModRM, Desc.HasModReg, Desc.ModRegIndex, Remaining;
    hide RmField, RegFieldOf, VexField, ImplicitField, FourOperands;
    var p, i0 := Remaining(x, group), Begin(t, d, Remaining(x, group));
    RemainingIs(x, group, 0);
    BeginRead(t, d, x, group);
    HasModRMIs(d);
    ImplicitPut(d, i0);
    var i1 := Implicit(d, i0);
    RmIs(b[off - 1]);
    var r := Rm(b[off - 1]) + Extra(p.b);
    ModRegPut(d, i1, r);
    var i2 := i1.(operands := Put(i1.operands, RegFieldOf(d), RegOperand, r));
    VexPut(d, p, i2);
    FieldsSmall(d);
    AllPut(d, x, group, i0.operands, i1.operands, i2.operands, i2.operands, VexRegister(d, p, i2).operands, r, 0,
      p.vexOperand);
    BeginParts(t, d, p);
  }

  lemma BeginParts(t: Table, d: Desc, p: Prefixes)
    ensures var i := Begin(t, d, p); i.scale == 0 && i.index == 0 && i.disp == 0 && i.imm == 0
  {
    hide OperandSize;
  }

  /** Enters the register or memory operand of a ModRM byte. */
  function WithRM(d: Desc, i: Instruction, m: ModRM): Instruction
    requires |i.operands| == 4 && RmField(d) != 0
  {
    ModRMPut(d, i, RegOperand, 0);
    if m.rm.Some? then i.(operands := Put(i.operands, RmField(d), RegOperand, m.rm.value))
    else i.(operands := Put(i.operands, RmField(d), MemOperand, m.mem.base), scale := m.mem.scale, index := m.mem.index,
      disp := m.mem.disp)
  }

  lemma RegistersTake(d: Desc, p: Prefixes, b: Bytes, off: nat, i: Instruction, m: ModRM)
    requires 0 < off <= |b| && |i.operands| == 4 && RmField(d) != 0 && DecodeModRM(b, off, p, d.vsib) == Some(m)
    ensures 0 <= RegFieldOf(d) < 4
    ensures var j := i.(operands := Put(i.operands, RegFieldOf(d), RegOperand, m.reg));
      Registers(d, p, b, off, i) == Some(Partial(VexRegister(d, p, WithRM(d, j, m)), off + m.size))
  {
    hide DecodeModRM, VexRegister, Put, RmField, RegFieldOf, Desc.HasModRM, Desc.HasModReg, Desc.ModRMIndex;
    hide Desc.ModRegIndex;
    HasModRMIs(d);
    ModRegPut(d, i, m.reg);
    var j := i.(operands := Put(i.operands, RegFieldOf(d), RegOperand, m.reg));
    ModRMPut(d, j, RegOperand, if m.rm.Some? then m.rm.value else 0);
    ModRMPut(d, j, MemOperand, m.mem.base);
  }

  /** The operand that the ModRM bytes of the form name. */
  function RMOf(d: Desc, x: Form, p: Prefixes): ModRM
    requires ValidRM(x.rm) && !x.rm.NoRM?
  {
    ModRM(x.rm.reg + Extra8(p.r), if x.rm.Direct? then Some(x.rm.rm + Extra8(p.b)) else None,
      if x.rm.Direct? then Memory(0, 0, 0, 0) else MemoryOf(x.rm, p, d.vsib), |RMBytes(x.rm)|)
  }

  lemma WithRMIs(d: Desc, x: Form, group: Entry, i: Instruction)
    requires ValidRM(x.rm) && !x.rm.NoRM? && |i.operands| == 4 && RmField(d) != 0
    requires i.scale == 0 && i.index == 0 && i.disp == 0
    ensures 0 <= RmField(d) < 4
    ensures WithRM(d, i, RMOf(d, x, Remaining(x, group))) == i.(
      scale := if x.rm.Indexed? then x.rm.scale else 0, index := if IsMemory(x.rm) then IndexOf(d, x) else 0,
      disp := if IsMemory(x.rm) then Format.Extended(x.rm.disp) else 0,
      operands := Put(i.operands, RmField(d), if IsMemory(x.rm) then MemOperand else RegOperand,
        if IsMemory(x.rm) then BaseOf(x) else x.rm.rm + if B(x.lead) then 8 else 0))
  {
    hide Remaining, Put, RmField, Format.Extended, RMBytes;
    FieldsSmall(d);
    RemainingIs(x, group, 0);
  }

  lemma ModRMBytesRead(t: Table, b: Bytes, d: Desc, x: Form, group: Entry, off: nat)
    requires OperandsHere(b, off, d, x) && !x.rm.NoRM?
    ensures var i := Implicit(d, Begin(t, d, Remaining(x, group)));
      Registers(d, Remaining(x, group), b, off, i)
        == Some(Partial(NamedParts(t, d, x, group), off + |RMBytes(x.rm)|))
  {
    hide Begin, Implicit, VexRegister, Put, DecodeModRM, Registers, Remaining, WithRM, MemoryOf, IndexOf, BaseOf;
    hide RmField, RegFieldOf, VexField, ImplicitField, FourOperands, RMBytes, B, R, Format.Extended, ValidRM;
    var p, i0 := Remaining(x, group), Begin(t, d, Remaining(x, group));
    RemainingIs(x, group, 0);
    BeginRead(t, d, x, group);
    BeginParts(t, d, p);
    FieldsSmall(d);
    ImplicitPut(d, i0);
    var i1 := Implicit(d, i0);
    RMRead(b, off, p, d.vsib, x.rm);
    var m := RMOf(d, x, p);
    RegistersTake(d, p, b, off, i1, m);
    var i2 := i1.(operands := Put(i1.operands, RegFieldOf(d), RegOperand, m.reg));
    WithRMIs(d, x, group, i2);
    var i3 := WithRM(d, i2, m);
    VexPut(d, p, i3);
    AllPut(d, x, group, i0.operands, i1.operands, i2.operands, i3.operands, VexRegister(d, p, i3).operands, m.reg,
      if IsMemory(x.rm) then BaseOf(x) else x.rm.rm + if B(x.lead) then 8 else 0, p.vexOperand);
  }

  // ---- the immediate ----------------------------------------------------------------------------------------

  lemma RawNat(d: Desc, x: Form, address: nat, k: nat)
    ensures RawReg(d, x, address, k) >= 0
  {
    hide ImmValue, BaseOf;
  }

  /** An operand before its register has a kind. */
  function RawOperand(d: Desc, x: Form, group: Entry, address: nat, k: nat): Operand
    requires k < 4
  {
    RawNat(d, x, address, k);
    Operand(RawKind(d, x, k), SizeOf(d, x, group, k), RawReg(d, x, address, k), 0)
  }

  function RawOperands(d: Desc, x: Form, group: Entry, address: nat): (os: seq<Operand>)
    ensures |os| == 4 && forall k :: 0 <= k < 4 ==> os[k] == RawOperand(d, x, group, address, k)
  {
    [RawOperand(d, x, group, address, 0), RawOperand(d, x, group, address, 1), RawOperand(d, x, group, address, 2),
      RawOperand(d, x, group, address, 3)]
  }

  /** The instruction with its immediate. */
  function WithImm(t: Table, d: Desc, x: Form, group: Entry, address: nat): Instruction {
    var i := NamedParts(t, d, x, group);
    i.(imm := ImmValue(d, x, address), index := if Control(d) == 2 then NoRegister else i.index,
      disp := if Control(d) == 2 then Little(x.imm) else i.disp, operands := RawOperands(d, x, group, address))
  }

  lemma WidthRead(t: Table, d: Desc, x: Form, group: Entry)
    ensures var p := Remaining(x, group); OpSize(d, p) == Width(d, x, group) && AddrSize(p) == AddressWidth(x)
    ensures Control(d) > 2 ==> ImmSize(t, d, Remaining(x, group)) == ImmLength(t, d, x, group)
  {
    hide Remaining, Desc.ImmByte, Desc.ImmControl, OneByte, Control;
    RemainingIs(x, group, 0);
    ImmediateIs(d);
    ControlSmall(d.ImmControl());
  }

  lemma ControlSmall(c: bv8)
    ensures (c == 0 <==> c as int == 0) && (c == 1 <==> c as int == 1) && (c == 2 <==> c as int == 2)
    ensures (c == 4 <==> c as int == 4) && (c == 5 <==> c as int == 5)
  {
  }

  /** The operand that the immediate names is overwritten, and no other. */
  lemma ImmPut(d: Desc, x: Form, group: Entry, address: nat, o: Operand, k: nat)
    requires k < 4 && ImmIs(d, k)
    requires var was := NamedOperand(d, x, group, k); var c := Control(d);
      o == if c == 1 then was.(kind := ImmOperand, size := 1)
        else if c == 2 then was.(kind := MemOperand, reg := NoRegister, size := Width(d, x, group))
        else if c == 4 then was.(kind := ImmOperand, size := 8)
        else if c == 5 then was.(reg := ImmValue(d, x, address) / 16 % 16) else was.(kind := ImmOperand)
    ensures FourOperands(d, x, group)[k := o] == RawOperands(d, x, group, address)
  {
    hide Width, ImmValue, BaseOf, LastByte, VexField, RmField, RegFieldOf, ImplicitField, Control, SizeField, Names;
    forall j: nat | j < 4 ensures FourOperands(d, x, group)[k := o][j] == RawOperand(d, x, group, address, j) {
      RawNat(d, x, address, j);
      NamedNat(d, x, j);
    }
  }

  lemma NoImm(d: Desc, x: Form, group: Entry, address: nat)
    requires Control(d) == 0
    ensures FourOperands(d, x, group) == RawOperands(d, x, group, address)
  {
    hide Width, BaseOf, LastByte, VexField, RmField, RegFieldOf, ImplicitField, Control, SizeField, Names;
    forall j: nat | j < 4 ensures NamedOperand(d, x, group, j) == RawOperand(d, x, group, address, j) {
      RawNat(d, x, address, j);
      NamedNat(d, x, j);
    }
  }

  /** The immediate stands behind the operands, and is the last of the form. */
  predicate ImmHere(t: Table, b: Bytes, off: nat, d: Desc, x: Form, group: Entry) {
    && |x.imm| == ImmLength(t, d, x, group) && off + |x.imm| == |BytesOf(x)| <= |b|
    && Numbers(b)[off..off + |x.imm|] == x.imm
  }

  lemma ImmPlace(d: Desc)
    ensures 0 <= 3 - d.immediate as int % 4 < 4
    ensures Control(d) != 0 ==> ImmIs(d, 3 - d.immediate as int % 4)
  {
  }

  /** No immediate, or the constant one. */
  lemma SimpleImmRead(t: Table, b: Bytes, d: Desc, x: Form, group: Entry, off: nat, address: nat)
    requires ImmHere(t, b, off, d, x, group) && Control(d) <= 1
    ensures Immediate(t, d, Remaining(x, group), b, Partial(NamedParts(t, d, x, group), off), address)
      == Some(Partial(WithImm(t, d, x, group, address), |BytesOf(x)|))
  {
    hide Remaining, Desc.ImmControl, Desc.ImmIndex, FourOperands, RawOperands, LoadLE, Begin, Width, BytesOf, Control;
    hide IndexOf, Format.Extended, AddressWidth, Numbers;
    var p, k := Remaining(x, group), d.ImmIndex();
    RemainingIs(x, group, 0);
    ImmediateIs(d);
    ControlSmall(d.ImmControl());
    ImmPlace(d);
    WidthRead(t, d, x, group);
    BeginParts(t, d, p);
    var was := FourOperands(d, x, group)[k];
    if Control(d) == 0 {
      NoImm(d, x, group, address);
    } else {
      var o := was.(kind := ImmOperand, size := 1);
      ImmPut(d, x, group, address, o, k);
      var i := SetOperand(NamedParts(t, d, x, group), k, ImmOperand, was.reg);
      assert i.operands[k := i.operands[k].(size := 1)] == FourOperands(d, x, group)[k := o];
    }
  }

  lemma AddressImmRead(t: Table, b: Bytes, d: Desc, x: Form, group: Entry, off: nat, address: nat)
    requires ImmHere(t, b, off, d, x, group) && Control(d) == 2
    ensures Immediate(t, d, Remaining(x, group), b, Partial(NamedParts(t, d, x, group), off), address)
      == Some(Partial(WithImm(t, d, x, group, address), |BytesOf(x)|))
  {
    hide Remaining, Desc.ImmControl, Desc.ImmIndex, FourOperands, RawOperands, LoadLE, Begin, Width, BytesOf, Control;
    hide IndexOf, Format.Extended, AddressWidth, Numbers, OpSize, AddrSize;
    var p, k := Remaining(x, group), d.ImmIndex();
    ImmediateIs(d);
    ControlSmall(d.ImmControl());
    ImmPlace(d);
    WidthRead(t, d, x, group);
    BeginParts(t, d, p);
    LoadRead(b, off, |x.imm|);
    var was := FourOperands(d, x, group)[k];
    var o := was.(kind := MemOperand, reg := NoRegister, size := Width(d, x, group));
    ImmPut(d, x, group, address, o, k);
    var i := SetOperand(NamedParts(t, d, x, group), k, MemOperand, NoRegister);
    assert i.operands[k := i.operands[k].(size := OpSize(d, p))] == FourOperands(d, x, group)[k := o];
  }

  lemma RelativeValue(b: Bytes, d: Desc, x: Form, off: nat, address: nat)
    requires Control(d) == 4 && off + |x.imm| == |BytesOf(x)| <= |b| && Numbers(b)[off..off + |x.imm|] == x.imm
    ensures var n := |x.imm|; var v := if n == 3 then LoadLE(b, off, 3) else SignExtended(LoadLE(b, off, n), n);
      Wrapped(v + address + (off + n)) == ImmValue(d, x, address)
  {
    hide LoadLE, BytesOf, Control, Format.Extended, Numbers, SignExtended, Little, Wrapped;
    LoadRead(b, off, |x.imm|);
    ExtendedRead(b, off, |x.imm|);
    var n := |x.imm|;
    var v := if n == 3 then LoadLE(b, off, 3) else SignExtended(LoadLE(b, off, n), n);
    WrappedSum(v, address + (off + n));
    WrappedLow(v);
  }

  lemma WrappedSum(v: int, a: nat)
    ensures Wrapped(v + a) == (Wrapped(v) + a) % Word64
  {
    var q, r := v / Word64, v % Word64;
    var s := r + a;
    assert v == Word64 * q + r;
    A.Unique(v + a, Word64, q + s / Word64, s % Word64);
  }

  lemma WrappedLow(v: int) ensures Wrapped(v) == v % Word64 {}

  lemma RelativeImmRead(t: Table, b: Bytes, d: Desc, x: Form, group: Entry, off: nat, address: nat)
    requires ImmHere(t, b, off, d, x, group) && Control(d) == 4
    ensures Immediate(t, d, Remaining(x, group), b, Partial(NamedParts(t, d, x, group), off), address)
      == Some(Partial(WithImm(t, d, x, group, address), |BytesOf(x)|))
  {
    hide Remaining, Desc.ImmControl, Desc.ImmIndex, FourOperands, RawOperands, LoadLE, Begin, Width, BytesOf, Control;
    hide IndexOf, Format.Extended, AddressWidth, Numbers, SignExtended, ImmSize, Little, Wrapped, ImmValue;
    var p, k := Remaining(x, group), d.ImmIndex();
    ImmediateIs(d);
    ControlSmall(d.ImmControl());
    ImmPlace(d);
    WidthRead(t, d, x, group);
    RelativeValue(b, d, x, off, address);
    var was := FourOperands(d, x, group)[k];
    ImmPut(d, x, group, address, was.(kind := ImmOperand, size := 8), k);
  }

  lemma NibbleImmRead(t: Table, b: Bytes, d: Desc, x: Form, group: Entry, off: nat, address: nat)
    requires ImmHere(t, b, off, d, x, group) && Control(d) == 5
    ensures Immediate(t, d, Remaining(x, group), b, Partial(NamedParts(t, d, x, group), off), address)
      == Some(Partial(WithImm(t, d, x, group, address), |BytesOf(x)|))
  {
    hide Remaining, Desc.ImmControl, Desc.ImmIndex, FourOperands, RawOperands, LoadLE, Begin, Width, BytesOf, Control;
    hide IndexOf, Format.Extended, AddressWidth, Numbers, SignExtended, ImmSize, Little;
    var p, k := Remaining(x, group), d.ImmIndex();
    ImmediateIs(d);
    ControlSmall(d.ImmControl());
    ImmPlace(d);
    WidthRead(t, d, x, group);
    LoadRead(b, off, |x.imm|);
    ExtendedRead(b, off, |x.imm|);
    var was := FourOperands(d, x, group)[k];
    ImmPut(d, x, group, address, was.(reg := ImmValue(d, x, address) / 16 % 16), k);
  }

  lemma PlainImmRead(t: Table, b: Bytes, d: Desc, x: Form, group: Entry, off: nat, address: nat)
    requires ImmHere(t, b, off, d, x, group) && Control(d) > 2 && Control(d) != 4 && Control(d) != 5
    ensures Immediate(t, d, Remaining(x, group), b, Partial(NamedParts(t, d, x, group), off), address)
      == Some(Partial(WithImm(t, d, x, group, address), |BytesOf(x)|))
  {
    hide Remaining, Desc.ImmControl, Desc.ImmIndex, FourOperands, RawOperands, LoadLE, Begin, Width, BytesOf, Control;
    hide IndexOf, Format.Extended, AddressWidth, Numbers, SignExtended, ImmSize, Little;
    var p, k := Remaining(x, group), d.ImmIndex();
    ImmediateIs(d);
    ControlSmall(d.ImmControl());
    ImmPlace(d);
    WidthRead(t, d, x, group);
    LoadRead(b, off, |x.imm|);
    ExtendedRead(b, off, |x.imm|);
    var was := FourOperands(d, x, group)[k];
    ImmPut(d, x, group, address, was.(kind := ImmOperand), k);
  }

  lemma NumberImmRead(t: Table, b: Bytes, d: Desc, x: Form, group: Entry, off: nat, address: nat)
    requires ImmHere(t, b, off, d, x, group) && Control(d) > 2
    ensures Immediate(t, d, Remaining(x, group), b, Partial(NamedParts(t, d, x, group), off), address)
      == Some(Partial(WithImm(t, d, x, group, address), |BytesOf(x)|))
  {
    hide *;
    if Control(d) == 4 {
      RelativeImmRead(t, b, d, x, group, off, address);
    } else if Control(d) == 5 {
      NibbleImmRead(t, b, d, x, group, off, address);
    } else {
      PlainImmRead(t, b, d, x, group, off, address);
    }
  }

  // ---- the whole instruction ----------------------------------------------------------------------------------

  lemma FinishedIs(d: Desc, x: Form, group: Entry, address: nat, k: nat)
    requires k < 4
    ensures Finished(d, Remaining(x, group), RawOperand(d, x, group, address, k), k)
      == OperandOf(d, x, group, address, k)
    ensures RipRelative(RawOperand(d, x, group, address, k)) <==> AtIp(d, x, address, k)
  {
    hide Remaining, RawKind, RawReg, SizeOf;
    RemainingIs(x, group, 0);
    RawNat(d, x, address, k);
  }

  lemma CompleteRead(t: Table, d: Desc, x: Form, group: Entry, address: nat)
    requires 0xf0 in x.legacy ==> d.lock && RawKind(d, x, 0) == MemOperand
    ensures Complete(d, Remaining(x, group), Partial(WithImm(t, d, x, group, address), |BytesOf(x)|), address)
      == Some((Denoted(d, x, group, address), |BytesOf(x)|))
  {
    hide Remaining, RawOperand, Finished, OperandOf, RipRelative, AtIp, BytesOf, ImmValue, Width, AddressWidth;
    hide IndexOf, Format.Extended, Little, Control, LastSegmentIn, LastRepeatIn, Begin, LegacyBytes;
    var p := Remaining(x, group);
    RemainingIs(x, group, 0);
    WidthRead(t, d, x, group);
    FinishedIs(d, x, group, address, 0);
    FinishedIs(d, x, group, address, 1);
    FinishedIs(d, x, group, address, 2);
    FinishedIs(d, x, group, address, 3);
    FirstKind(d, x, group, address);
    BegunIs(t, d, p);
  }

  lemma FirstKind(d: Desc, x: Form, group: Entry, address: nat)
    ensures RawOperand(d, x, group, address, 0).kind == RawKind(d, x, 0)
  {
  }

  lemma BegunIs(t: Table, d: Desc, p: Prefixes)
    ensures var i := Begin(t, d, p);
      && i.typ == d.typ && i.lock == p.lock && i.repeat == p.repeat && i.rex == p.rex
      && i.operandSize == (if d.width then OpSize(d, p) else 0) && i.addressSize == AddrSize(p)
      && i.segment == p.segment && i.scale == 0 && i.index == 0 && i.disp == 0 && i.imm == 0
  {
    hide OperandSize;
  }

  /** Everything that is put together from fields decodes to what the fields denote. */
  lemma EncodedReads(t: Table, b: Bytes, x: Form, address: nat)
    requires Encodes(t, Numbers(Window(b)), x)
    ensures Decode(t, b, address) == Some((Meaning(t, Numbers(Window(b)), x, address), |BytesOf(x)|))
  {
    hide DecodeWindow, ImmLength, Denoted, Build, Remaining, BytesOf, GroupOf, DescOf, Selects, RmField;
    var w := Window(b);
    var g, d, off := GroupOf(t, Numbers(w), x), DescOf(t, Numbers(w), x), OpcodeEnd(x) + |x.taken|;
    SelectionRead(t, w, x, address);
    RemainingIs(x, g, off);
    BehindOpcode(t, w, x);
    BuildRead(t, w, d, x, g, off, address);
  }

  lemma EncodesParts(t: Table, w: seq<int>, x: Form)
    requires Encodes(t, w, x)
    ensures BytesOf(x) <= w && x.opcode != [] && ValidRM(x.rm)
  {
    hide Final, Group, HasOpcode, OwnEntry, Format.OpcodeOf, BytesOf, RawKind, ImmLength;
  }

  /** The byte in front of the operands. */
  lemma LastByteRead(b: Bytes, x: Form)
    requires BytesOf(x) <= Numbers(b) && x.opcode != []
    ensures var off := OpcodeEnd(x) + |x.taken|; 0 < off <= |b| && b[off - 1] as int == LastByte(x)
  {
    hide LeadBytes, RMBytes, Numbers, BytesOf;
    PartsOf(Numbers(b), x);
    if x.taken != [] {
      NumberAt(b, OpcodeEnd(x), x.taken, |x.taken| - 1);
    } else {
      NumberAt(b, OpcodeEnd(x) - |x.opcode|, x.opcode, |x.opcode| - 1);
    }
  }

  /** What the decoder finds behind the opcode. */
  lemma BehindOpcode(t: Table, b: Bytes, x: Form)
    requires Encodes(t, Numbers(b), x)
    ensures var d, g, off := DescOf(t, Numbers(b), x), GroupOf(t, Numbers(b), x), OpcodeEnd(x) + |x.taken|;
      OperandsHere(b, off, d, x) && ImmHere(t, b, off + |RMBytes(x.rm)|, d, x, g)
  {
    hide ImmLength, DescOf, GroupOf, Selects, RmField, RMBytes, LeadBytes, Numbers, BytesOf, ValidRM, LastByte;
    EncodesParts(t, Numbers(b), x);
    PartsOf(Numbers(b), x);
    LastByteRead(b, x);
  }

  lemma BuildRead(t: Table, b: Bytes, d: Desc, x: Form, g: Entry, off: nat, address: nat)
    requires OperandsHere(b, off, d, x) && ImmHere(t, b, off + |RMBytes(x.rm)|, d, x, g) && off <= |b|
    requires 0xf0 in x.legacy ==> d.lock && RawKind(d, x, 0) == MemOperand
    ensures Build(t, d, Remaining(x, g), b, off, address) == Some((Denoted(d, x, g, address), |BytesOf(x)|))
  {
    hide Remaining, Registers, Implicit, Begin, Immediate, Complete, NamedParts, WithImm, OperandsHere, ImmHere;
    hide Denoted, RMBytes, BytesOf, RawKind, Control;
    if x.rm.NoRM? {
      NoModRMRead(t, b, d, x, g, off);
      assert RMBytes(x.rm) == [] by { NoBytes(x.rm); }
    } else {
      ModRMBytesRead(t, b, d, x, g, off);
    }
    var end := off + |RMBytes(x.rm)|;
    if Control(d) <= 1 {
      SimpleImmRead(t, b, d, x, g, end, address);
    } else if Control(d) == 2 {
      AddressImmRead(t, b, d, x, g, end, address);
    } else {
      NumberImmRead(t, b, d, x, g, end, address);
    }
    CompleteRead(t, d, x, g, address);
  }

  lemma NoBytes(m: RM)
    requires m.NoRM?
    ensures RMBytes(m) == []
  {
  }
}
