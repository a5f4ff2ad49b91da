/** From host addresses back to guest addresses (debugger.cpp). */
module HostToGuest {
  import opened StaticLists
  import opened CodeCache
  import opened CodeStores

  /** A finished block and the end of its code. */
  datatype Known = Known(t: Translated, riscvEnd: Cell) {
    /** Under the debugger every guest instruction has at least one word: the call of the debugger. */
    predicate Valid() {
      && t.Valid() && t.entry.count > 0 && (forall i :: 0 <= i < |t.insts| ==> 4 <= t.insts[i].riscv)
      && riscvEnd == HostAt(t.entry, t.insts, |t.insts|)
    }

    /** The host address lies in the block's code. */
    predicate Covers(a: Cell) {
      t.entry.riscvStart.Some? && t.entry.riscvStart.value.chunk == a.chunk
        && t.entry.riscvStart.value.index <= a.index < riscvEnd.index
    }
  }

  /** The host address lies in the words of instruction i. */
  predicate InInstruction(k: Known, i: nat, a: Cell)
    requires k.Valid() && i < |k.t.insts|
  {
    HostAt(k.t.entry, k.t.insts, i).chunk == a.chunk
    && HostAt(k.t.entry, k.t.insts, i).index <= a.index < HostAt(k.t.entry, k.t.insts, i + 1).index
  }

  predicate AllKnown(blocks: seq<Known>) { forall i :: 0 <= i < |blocks| ==> blocks[i].Valid() }

  /** No two blocks share host code. */
  ghost predicate HostApart(blocks: seq<Known>)
    requires AllKnown(blocks)
  {
    forall i, j, a: Cell ::
      0 <= i < |blocks| && 0 <= j < |blocks| && blocks[i].Covers(a) && blocks[j].Covers(a) ==> i == j
  }

  lemma {:induction false} HostGrows(k: Known, i: nat, j: nat)
    requires k.Valid() && i <= j <= |k.t.insts|
    ensures HostAt(k.t.entry, k.t.insts, i).index + (j - i) <= HostAt(k.t.entry, k.t.insts, j).index
    decreases j
  {
    if i < j {
      HostGrows(k, i, j - 1);
      OneWord(k, j - 1);
    }
  }

  lemma OneWord(k: Known, i: nat)
    requires k.Valid() && i < |k.t.insts|
    ensures HostAt(k.t.entry, k.t.insts, i).index + 1 <= HostAt(k.t.entry, k.t.insts, i + 1).index
    ensures HostAt(k.t.entry, k.t.insts, i + 1) == Advance(HostAt(k.t.entry, k.t.insts, i), k.t.insts[i].riscv)
  {
    hide TotalX86, TotalRiscV;
    Prefix(k.t.insts, i);
    WholeWords(k.t.insts[..i]);
  }

  lemma InsideCovered(k: Known, i: nat, a: Cell)
    requires k.Valid() && i < |k.t.insts| && InInstruction(k, i, a)
    ensures k.Covers(a)
  {
    assert k.t.insts[..0] == [];
    HostGrows(k, 0, i);
    HostGrows(k, i + 1, |k.t.insts|);
  }

  /** The words of different instructions do not overlap. */
  lemma OneInstruction(k: Known, i: nat, j: nat, a: Cell)
    requires k.Valid() && i < |k.t.insts| && j < |k.t.insts| && InInstruction(k, i, a) && InInstruction(k, j, a)
    ensures i == j
  {
    if i < j {
      HostGrows(k, i + 1, j);
    } else if j < i {
      HostGrows(k, j + 1, i);
    }
  }

  predicate SortedByStart(blocks: seq<Known>) {
    forall i, j :: 0 <= i < j < |blocks| ==> blocks[i].t.entry.x86Start <= blocks[j].t.entry.x86Start
  }

  function KnownOf(t: Translated): (k: Known)
    requires t.Valid() && t.entry.count > 0
  {
    Known(t, HostAt(t.entry, t.insts, |t.insts|))
  }

  /** Where the block's code ends. */
  method EndOfCode(t: Translated) returns (end: Cell)
    requires t.Valid() && t.entry.count > 0
    ensures end == HostAt(t.entry, t.insts, |t.insts|)
  {
    hide TotalRiscV;
    end := t.entry.riscvStart.value;
    assert t.insts[..0] == [] && TotalRiscV([]) == 0 by { NoWords(); }
    var i := 0;
    while i < t.entry.count
      invariant 0 <= i <= t.entry.count && end == HostAt(t.entry, t.insts, i)
    {
      Prefix(t.insts, i);
      WholeWords(t.insts[..i]);
      end := Advance(end, t.insts[i].riscv);
      i := i + 1;
    }
  }

  lemma NoWords()
    ensures TotalRiscV([]) == 0
  {
  }

  function With(blocks: seq<Known>, b: Known, i: nat): (bs: seq<Known>)
    requires i <= |blocks|
    ensures |bs| == |blocks| + 1
    ensures forall j :: 0 <= j < |bs| ==> bs[j] == if j < i then blocks[j] else if j == i then b else blocks[j - 1]
    ensures multiset(bs) == multiset(blocks) + multiset{b}
  {
    assert blocks == blocks[..i] + blocks[i..];
    blocks[..i] + [b] + blocks[i..]
  }

  lemma EnteredSorted(blocks: seq<Known>, b: Known, i: nat)
    requires SortedByStart(blocks) && i <= |blocks|
    requires forall j :: 0 <= j < i ==> blocks[j].t.entry.x86Start <= b.t.entry.x86Start
    requires i < |blocks| ==> b.t.entry.x86Start < blocks[i].t.entry.x86Start
    ensures SortedByStart(With(blocks, b, i))
  {
  }

  lemma EnteredApart(blocks: seq<Known>, b: Known, i: nat)
    requires AllKnown(blocks) && HostApart(blocks) && b.Valid() && i <= |blocks|
    requires forall j, a: Cell :: 0 <= j < |blocks| && blocks[j].Covers(a) ==> !b.Covers(a)
    ensures AllKnown(With(blocks, b, i)) && HostApart(With(blocks, b, i))
  {
    hide Known.Valid, Known.Covers;
    var bs := With(blocks, b, i);
    assert AllKnown(bs);
    forall x, y, a: Cell | 0 <= x < |bs| && 0 <= y < |bs| && bs[x].Covers(a) && bs[y].Covers(a) ensures x == y {
      var u, v := if x < i then x else x - 1, if y < i then y else y - 1;
      assert x != i ==> bs[x] == blocks[u];
      assert y != i ==> bs[y] == blocks[v];
    }
  }

  class Debugger {
    /** Ascending by guest address. */
    var blocks: seq<Known>
    /** The block resolved last; any block will do. */
    var current: Option<nat>
    var currentIndex: nat

    ghost predicate Valid()
      reads this
    {
      && AllKnown(blocks) && HostApart(blocks) && SortedByStart(blocks)
      && if current.None? then currentIndex == |blocks| + 1 else current.value == currentIndex < |blocks|
    }

    constructor ()
      ensures Valid() && blocks == []
    {
      blocks, current, currentIndex := [], None, 1;
    }

    /** Enters a finished block. */
    method EndBlock(t: Translated)
      requires Valid() && t.Valid() && t.entry.count > 0 && forall i :: 0 <= i < |t.insts| ==> 4 <= t.insts[i].riscv
      requires forall i, a: Cell :: 0 <= i < |blocks| && blocks[i].Covers(a) ==> !KnownOf(t).Covers(a)
      modifies this
      ensures Valid() && multiset(blocks) == multiset(old(blocks)) + multiset{KnownOf(t)}
    {
      hide Known.Covers, HostAt, GuestAt;
      var riscvEnd := EndOfCode(t);
      var b := Known(t, riscvEnd);
      var n, i := |blocks|, 0;
      while i < n && !(blocks[i].t.entry.x86Start > t.entry.x86Start)
        invariant 0 <= i <= n
        invariant forall j :: 0 <= j < i ==> blocks[j].t.entry.x86Start <= t.entry.x86Start
      {
        i := i + 1;
      }
      assert b == KnownOf(t);
      EnteredSorted(blocks, b, i);
      EnteredApart(blocks, b, i);
      assert blocks[..i] + [b] + blocks[i..] == With(blocks, b, i);
      blocks := blocks[..i] + [b] + blocks[i..];
      if i < n && i >= currentIndex {
        currentIndex := currentIndex + 1;
      }
      if currentIndex != |blocks| {
        current := Some(currentIndex);
      } else {
        currentIndex := |blocks| + 1;
      }
    }

    /** The guest instruction whose words the host address lies in; 0 outside all blocks. */
    method ResolveBlock(address: Cell) returns (guest: nat)
      requires Valid()
      modifies this`current, this`currentIndex
      ensures Valid()
      ensures forall k, i ::
        0 <= k < |blocks| && 0 <= i < |blocks[k].t.insts| && InInstruction(blocks[k], i, address) ==>
        guest == GuestAt(blocks[k].t.entry, blocks[k].t.insts, i)
      ensures (forall k :: 0 <= k < |blocks| ==> !blocks[k].Covers(address)) ==> guest == 0
    {
      hide HostAt, GuestAt;
      if current.Some? && !blocks[current.value].Covers(address) {
        current := None;
        currentIndex := |blocks| + 1;
      }
      if current.None? {
        var i := 0;
        while i < |blocks|
          invariant 0 <= i <= |blocks|
          invariant current.None? && currentIndex == |blocks| + 1
          invariant forall k :: 0 <= k < i ==> !blocks[k].Covers(address)
        {
          if blocks[i].Covers(address) {
            current := Some(i);
            currentIndex := i;
            break;
          }
          i := i + 1;
        }
        if current.None? {
          forall k, i | 0 <= k < |blocks| && 0 <= i < |blocks[k].t.insts| && InInstruction(blocks[k], i, address)
            ensures false
          {
            InsideCovered(blocks[k], i, address);
          }
          return 0;
        }
      }
      guest := ResolveIn(blocks[current.value], address);
      forall k, i | 0 <= k < |blocks| && 0 <= i < |blocks[k].t.insts| && InInstruction(blocks[k], i, address)
        ensures guest == GuestAt(blocks[k].t.entry, blocks[k].t.insts, i)
      {
        InsideCovered(blocks[k], i, address);
      }
    }
  }

  /** The scan through the instructions of a block. */
  method ResolveIn(k: Known, address: Cell) returns (guest: nat)
    requires k.Valid() && k.Covers(address)
    ensures forall i ::
      0 <= i < |k.t.insts| && InInstruction(k, i, address) ==> guest == GuestAt(k.t.entry, k.t.insts, i)
  {
    hide TotalX86, TotalRiscV;
    var b, s := k.t.entry, k.t.insts;
    var riscvCounter, x86Counter := b.riscvStart.value, b.x86Start;
    assert s[..0] == [] && riscvCounter == HostAt(b, s, 0) && x86Counter == GuestAt(b, s, 0) by { Empty(k); }
    var i := 0;
    while i < b.count
      invariant 0 <= i <= b.count
      invariant riscvCounter == HostAt(b, s, i) && x86Counter == GuestAt(b, s, i)
      invariant i > 0 ==> HostAt(b, s, i - 1).index < address.index
    {
      if riscvCounter.index == address.index {
        FoundAt(k, i, address);
        return x86Counter;
      } else if riscvCounter.index > address.index {
        Before(k, i);
        FoundAt(k, i - 1, address);
        return x86Counter - s[i - 1].x86;
      }
      Prefix(s, i);
      OneWord(k, i);
      riscvCounter := Advance(riscvCounter, s[i].riscv);
      x86Counter := x86Counter + s[i].x86;
      i := i + 1;
    }
    Before(k, i);
    FoundAt(k, i - 1, address);
    guest := x86Counter - s[b.count - 1].x86;
  }

  lemma Empty(k: Known)
    requires k.Valid()
    ensures k.t.insts[..0] == [] && k.t.entry.riscvStart.value == HostAt(k.t.entry, k.t.insts, 0)
    ensures k.t.entry.x86Start == GuestAt(k.t.entry, k.t.insts, 0)
  {
    assert k.t.insts[..0] == [];
  }

  lemma Before(k: Known, i: nat)
    requires k.Valid() && 0 < i <= |k.t.insts|
    ensures GuestAt(k.t.entry, k.t.insts, i) == GuestAt(k.t.entry, k.t.insts, i - 1) + k.t.insts[i - 1].x86
  {
    Prefix(k.t.insts, i - 1);
  }

  lemma FoundAt(k: Known, i: nat, a: Cell)
    requires k.Valid() && i < |k.t.insts| && k.Covers(a)
    requires HostAt(k.t.entry, k.t.insts, i).index <= a.index < HostAt(k.t.entry, k.t.insts, i + 1).index
      || HostAt(k.t.entry, k.t.insts, i).index == a.index
    ensures forall j :: 0 <= j < |k.t.insts| && InInstruction(k, j, a) ==> j == i
  {
    OneWord(k, i);
    forall j | 0 <= j < |k.t.insts| && InInstruction(k, j, a) ensures j == i {
      OneInstruction(k, i, j, a);
    }
  }

  function Entries(blocks: seq<Known>): (ts: seq<Translated>)
    ensures |ts| == |blocks| && forall i :: 0 <= i < |ts| ==> ts[i] == blocks[i].t
  {
    seq(|blocks|, i requires 0 <= i < |blocks| => blocks[i].t)
  }

  /** A host address that a lookup of the guest address finds resolves to that guest address. */
  lemma FoundResolves(blocks: seq<Known>, a: nat) returns (k: nat, i: nat)
    requires AllKnown(blocks) && AllApart(Entries(blocks)) && Scan(Entries(blocks), a).Found?
    ensures k < |blocks| && i < |blocks[k].t.insts| && GuestAt(blocks[k].t.entry, blocks[k].t.insts, i) == a
    ensures InInstruction(blocks[k], i, Scan(Entries(blocks), a).host)
  {
    hide Scan, GuestAt, HostAt;
    k, i := FoundInstruction(Entries(blocks), a);
    OneWord(blocks[k], i);
  }

  /** Blocks whose words the store keeps apart share no host code. */
  lemma StoredApart(code: Code, sizes: SizeList, b: BlockEntry, c: BlockEntry, a: Cell)
    requires Stored(code, sizes, b) && Stored(code, sizes, c) && b.count > 0 && c.count > 0
    requires WordsApart(code, sizes, b, c)
    requires KnownOf(Translated(b, InstsOf(code, sizes, b))).Covers(a)
    ensures !KnownOf(Translated(c, InstsOf(code, sizes, c))).Covers(a)
  {
    var s, t := InstsOf(code, sizes, b), InstsOf(code, sizes, c);
    assert s[..|s|] == s && t[..|t|] == t;
  }
}
