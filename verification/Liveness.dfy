/**
 Flag prediction (codegen.cpp).  The analysis decides which flags may still be read;
 the block translation then drops every flag store nobody reads.  The main results are
 that the analysis over-approximates liveness, and that the backward pass keeps every store
 a live flag needs; Elision runs programs with the dropped stores and with all of them.
 */
module Liveness {
  import opened Guest

  // ---- liveness, independently of the analysis ---------------------------------------

  /** Some path of at most n steps from `a` reads `f` before overwriting it. */
  ghost predicate LiveWithin(p: Program, f: Flag, a: nat, n: nat)
    decreases n
  {
    a in p.code &&
    var i := p.code[a];
    f in i.require ||
    (n > 0 && f !in i.update && exists b :: p.Succ(a, b) && LiveWithin(p, f, b, n - 1))
  }

  ghost predicate Live(p: Program, f: Flag, a: nat) {
    exists n: nat :: LiveWithin(p, f, a, n)
  }

  /** Some path of at most n steps from `a` reaches an instruction that reads `f`. */
  ghost predicate ReadWithin(p: Program, f: Flag, a: nat, n: nat)
    decreases n
  {
    a in p.code && (f in p.code[a].require || (n > 0 && exists b :: p.Succ(a, b) && ReadWithin(p, f, b, n - 1)))
  }

  /**
   Some path of at most n steps and `depth` control transfers leaves `f` alone until it
   arrives somewhere the analysis cannot see further.
   */
  ghost predicate EscapesWithin(p: Program, f: Flag, a: nat, depth: nat, n: nat)
    decreases n
  {
    depth == 0 || a !in p.code ||
    (var i := p.code[a];
    f !in i.update &&
    ((i.eob && i.flow == 0) || (i.flow != 0 && i.branch == 0) ||
     (n > 0 && exists b :: p.Succ(a, b) && EscapesWithin(p, f, b, if i.flow == 0 then depth else depth - 1, n - 1))))
  }

  lemma LiveStep(p: Program, f: Flag, a: nat, b: nat)
    requires p.Succ(a, b) && f !in p.code[a].update && Live(p, f, b)
    ensures Live(p, f, a)
  {
    var n: nat :| LiveWithin(p, f, b, n);
    assert LiveWithin(p, f, a, n + 1);
  }

  lemma LiveCases(p: Program, f: Flag, a: nat) returns (b: nat)
    requires Live(p, f, a)
    ensures a in p.code
    ensures f in p.code[a].require || (f !in p.code[a].update && p.Succ(a, b) && Live(p, f, b))
  {
    var n: nat :| LiveWithin(p, f, a, n);
    b := 0;
    if f !in p.code[a].require {
      b :| p.Succ(a, b) && LiveWithin(p, f, b, n - 1);
    }
  }

  // ---- the recursive analysis ----------------------------------------------------------

  function Requirements(p: Program, unclear: set<Flag>, a: nat, depth: nat): set<Flag>
    requires p.Valid()
    decreases depth, 1, 0
  {
    if depth == 0 then unclear else Scan(p, unclear, {}, a, depth)
  }

  /** The analysis from the middle of a straight line on, with the flags already known to be needed. */
  function Scan(p: Program, unclear: set<Flag>, must: set<Flag>, a: nat, depth: nat): set<Flag>
    requires p.Valid() && depth > 0
    decreases depth, 0, p.BytesLeft(a)
  {
    if a !in p.code then unclear + must
    else
      var i := p.code[a];
      var next := a + i.size;
      var must' := must + i.require;
      if i.flow != 0 then
        if i.branch == 0 then must' + unclear
        else if i.flow == 1 then must' + Requirements(p, unclear - i.update, i.branch, depth - 1)
        else must' + Requirements(p, unclear - i.update, i.branch, depth - 1)
                   + Requirements(p, unclear - i.update, next, depth - 1)
      else
        var unclear' := unclear - (i.update + must');
        if unclear' == {} then must'
        else if i.eob then unclear' + must'
        else Scan(p, unclear', must', next, depth)
  }

  method RecursiveFlagRequirements(p: Program, unclear0: set<Flag>, addr0: nat, depth: nat) returns (r: set<Flag>)
    requires p.Valid()
    ensures r == Requirements(p, unclear0, addr0, depth)
    decreases depth
  {
    if depth == 0 {
      return unclear0;
    }
    var unclear, mustUpdate := unclear0, {};
    var addr: nat := addr0;
    while true
      invariant Requirements(p, unclear0, addr0, depth) == Scan(p, unclear, mustUpdate, addr, depth)
      decreases p.BytesLeft(addr)
    {
      if addr !in p.code {
        return unclear + mustUpdate;
      }
      var inst := p.code[addr];
      addr := addr + inst.size;
      mustUpdate := mustUpdate + inst.require;
      if inst.flow == 1 {
        if inst.branch != 0 {
          r := RecursiveFlagRequirements(p, unclear - inst.update, inst.branch, depth - 1);
          return mustUpdate + r;
        }
        return mustUpdate + unclear;
      } else if inst.flow == 2 {
        var unclearBranch := unclear - inst.update;
        if inst.branch != 0 {
          r := RecursiveFlagRequirements(p, unclearBranch, inst.branch, depth - 1);
          var s := RecursiveFlagRequirements(p, unclearBranch, addr, depth - 1);
          return mustUpdate + r + s;
        }
        return mustUpdate + unclear;
      }
      unclear := unclear - (inst.update + mustUpdate);
      if unclear == {} {
        return mustUpdate;
      }
      if inst.eob {
        break;
      }
    }
    return unclear + mustUpdate;
  }

  /** Soundness: a flag in question that some path reads before overwriting it is in the result. */
  lemma {:induction false} RequirementsSound(p: Program, f: Flag, unclear: set<Flag>, a: nat, depth: nat)
    requires p.Valid() && f in unclear && Live(p, f, a)
    ensures f in Requirements(p, unclear, a, depth)
    decreases depth, 1, 0
  {
    if depth > 0 {
      ScanSound(p, f, unclear, {}, a, depth);
    }
  }

  lemma {:induction false} ScanSound(p: Program, f: Flag, unclear: set<Flag>, must: set<Flag>, a: nat, depth: nat)
    requires p.Valid() && depth > 0
    requires f in must || (f in unclear && Live(p, f, a))
    ensures f in Scan(p, unclear, must, a, depth)
    decreases depth, 0, p.BytesLeft(a)
  {
    if a in p.code {
      var i := p.code[a];
      if f in must + i.require {
        if i.flow == 0 && !i.eob {
          ScanSound(p, f, unclear - (i.update + (must + i.require)), must + i.require, a + i.size, depth);
        }
      } else {
        var b := LiveCases(p, f, a);
        if i.flow == 0 && !i.eob {
          ScanSound(p, f, unclear - (i.update + (must + i.require)), must + i.require, b, depth);
        } else if i.flow != 0 && i.branch != 0 {
          RequirementsSound(p, f, unclear - i.update, b, depth - 1);
        }
      }
    }
  }

  /**
   Precision: a flag is only asked for when some reachable instruction reads it, or when
   it was in question and a path leaves it alone up to a point the analysis cannot pass.
   */
  lemma {:induction false} RequirementsPrecise(p: Program, f: Flag, unclear: set<Flag>, a: nat, depth: nat)
      returns (n: nat)
    requires p.Valid() && f in Requirements(p, unclear, a, depth)
    ensures ReadWithin(p, f, a, n) || (f in unclear && EscapesWithin(p, f, a, depth, n))
    decreases depth, 1, 0
  {
    n := 0;
    if depth > 0 {
      n := ScanPrecise(p, f, unclear, {}, a, depth);
    }
  }

  lemma {:induction false} ScanPrecise(p: Program, f: Flag, unclear: set<Flag>, must: set<Flag>, a: nat, depth: nat)
      returns (n: nat)
    requires p.Valid() && depth > 0
    requires f in Scan(p, unclear, must, a, depth) && f !in must
    ensures ReadWithin(p, f, a, n) || (f in unclear && EscapesWithin(p, f, a, depth, n))
    decreases depth, 0, p.BytesLeft(a)
  {
    n := 0;
    if a in p.code && f !in p.code[a].require {
      var i := p.code[a];
      var b := a + i.size;
      if i.flow == 0 && !i.eob {
        if unclear - (i.update + (must + i.require)) != {} {
          n := ScanPrecise(p, f, unclear - (i.update + (must + i.require)), must + i.require, b, depth);
          n := n + 1;
        }
      } else if i.flow != 0 && i.branch != 0 {
        if f in Requirements(p, unclear - i.update, i.branch, depth - 1) {
          b := i.branch;
        }
        n := RequirementsPrecise(p, f, unclear - i.update, b, depth - 1);
        n := n + 1;
      }
      assert n > 0 ==> p.Succ(a, b);
    }
  }

  // ---- the backward pass over one block -------------------------------------------------

  function Following(addrs: seq<nat>, k: nat, end: nat): nat {
    if k + 1 < |addrs| then addrs[k + 1] else end
  }

  /** `addrs` are the consecutive instructions of a block and `end` the address behind the last one. */
  ghost predicate Block(p: Program, addrs: seq<nat>, end: nat) {
    && addrs != []
    && (forall k :: 0 <= k < |addrs| ==> addrs[k] in p.code)
    && (forall k {:trigger Following(addrs, k, end)} :: 0 <= k < |addrs| ==>
          addrs[k] + p.code[addrs[k]].size == Following(addrs, k, end))
    && (forall k :: 0 <= k < |addrs| - 1 ==> !p.code[addrs[k]].eob)
  }

  /** Update set given to the last instruction, and the flags demanded from the ones before it. */
  function LastDemand(p: Program, last: nat, end: nat, falls: bool, depth: nat): (set<Flag>, set<Flag>)
    requires p.Valid() && last in p.code
  {
    var i := p.code[last];
    if i.branch != 0 then
      var open := AllFlags - i.update;
      var need := Requirements(p, open, i.branch, depth) + i.require +
                  if i.flow == 2 then Requirements(p, open, end, depth) else {};
      (need, need)
    else if falls then
      var need := Requirements(p, AllFlags, end, depth);
      (need, need)
    else
      (i.update, AllFlags)
  }

  /** What an instruction other than the last one asks of its predecessors. */
  function DemandBefore(p: Program, a: nat, required: set<Flag>, depth: nat): set<Flag>
    requires p.Valid() && a in p.code
  {
    var i := p.code[a];
    var rest := required - i.update * required + i.require;
    if i.flow == 0 then rest
    else if i.branch == 0 then AllFlags
    else rest + Requirements(p, AllFlags - i.update * rest, i.branch, depth)
  }

  /** The flags demanded right before the k-th instruction of a block. */
  ghost function DemandAt(p: Program, addrs: seq<nat>, end: nat, falls: bool, depth: nat, k: nat): set<Flag>
    requires p.Valid() && Block(p, addrs, end) && k < |addrs|
    decreases |addrs| - k
  {
    if k == |addrs| - 1 then LastDemand(p, addrs[k], end, falls, depth).1
    else DemandBefore(p, addrs[k], DemandAt(p, addrs, end, falls, depth, k + 1), depth)
  }

  /** The update set of the k-th instruction; `falls` says that the block runs into a translated one. */
  ghost function Kept(p: Program, addrs: seq<nat>, end: nat, falls: bool, depth: nat, k: nat): set<Flag>
    requires p.Valid() && Block(p, addrs, end) && k < |addrs|
  {
    if k == |addrs| - 1 then LastDemand(p, addrs[k], end, falls, depth).0
    else p.code[addrs[k]].update * DemandAt(p, addrs, end, falls, depth, k + 1)
  }

  class Instruction {
    const address: nat
    const inst: Inst
    var update: set<Flag>

    constructor (address: nat, inst: Inst)
      ensures this.address == address && this.inst == inst && update == inst.update
    {
      this.address, this.inst, this.update := address, inst, inst.update;
    }

    method SetUpdate(flags: set<Flag>)
      modifies this
      ensures update == flags
    {
      update := flags;
    }
  }

  function Addresses(instructions: seq<Instruction>): seq<nat> {
    seq(|instructions|, k requires 0 <= k < |instructions| => instructions[k].address)
  }

  /** As the decoder leaves it: every update still in place. */
  ghost predicate Decoded(p: Program, i: Instruction)
    reads i
  {
    i.address in p.code && i.inst == p.code[i.address] && i.update == i.inst.update
  }

  ghost predicate Distinct(instructions: seq<Instruction>) {
    forall j, k :: 0 <= j < k < |instructions| ==> instructions[j] != instructions[k]
  }

  /** The last instruction of the block: its update set, and the demand on the ones before it. */
  method AssignLast(p: Program, last: Instruction, end: nat, falls: bool, depth: nat) returns (required: set<Flag>)
    requires p.Valid() && Decoded(p, last)
    modifies last
    ensures (last.update, required) == LastDemand(p, last.address, end, falls, depth)
  {
    required := AllFlags;
    if last.inst.branch != 0 {
      required := required - last.update;
      if last.inst.flow == 1 {
        required := RecursiveFlagRequirements(p, required, last.inst.branch, depth);
      } else {
        var fall := RecursiveFlagRequirements(p, required, end, depth);
        var taken := RecursiveFlagRequirements(p, required, last.inst.branch, depth);
        required := fall + taken;
      }
      required := required + last.inst.require;
      assert required == LastDemand(p, last.address, end, falls, depth).1;
      last.SetUpdate(required);
    } else if falls {
      required := RecursiveFlagRequirements(p, required, end, depth);
      last.SetUpdate(required);
    }
  }

  /** One step of the backward walk. */
  method AssignEarlier(p: Program, inst: Instruction, required0: set<Flag>, depth: nat, ghost addrs: seq<nat>,
        ghost end: nat, ghost falls: bool, ghost k: nat)
    returns (required: set<Flag>)
    requires p.Valid() && Decoded(p, inst) && Block(p, addrs, end)
    requires k + 1 < |addrs| && inst.address == addrs[k] && required0 == DemandAt(p, addrs, end, falls, depth, k + 1)
    modifies inst
    ensures inst.update == Kept(p, addrs, end, falls, depth, k)
    ensures required == DemandAt(p, addrs, end, falls, depth, k)
  {
    var needUpdate := inst.update * required0;
    required := required0 - needUpdate;
    required := required + inst.inst.require;
    if inst.inst.flow != 0 {
      if inst.inst.branch != 0 {
        var r := RecursiveFlagRequirements(p, AllFlags - inst.update * required, inst.inst.branch, depth);
        required := required + r;
      } else {
        required := AllFlags;
      }
    }
    inst.SetUpdate(needUpdate);
  }

  method AssignUpdates(p: Program, instructions: seq<Instruction>, end: nat, falls: bool, depth: nat)
    requires p.Valid() && Distinct(instructions) && Block(p, Addresses(instructions), end)
    requires forall k :: 0 <= k < |instructions| ==> Decoded(p, instructions[k])
    modifies instructions
    ensures forall k :: 0 <= k < |instructions| ==>
              instructions[k].update == Kept(p, Addresses(instructions), end, falls, depth, k)
  {
    ghost var addrs := Addresses(instructions);
    var k := |instructions| - 1;
    var required := AssignLast(p, instructions[k], end, falls, depth);
    assert addrs[k] == instructions[k].address;
    while k > 0
      invariant 0 <= k < |instructions|
      invariant forall j :: 0 <= j < k ==> Decoded(p, instructions[j])
      invariant forall j :: k <= j < |instructions| ==> instructions[j].update == Kept(p, addrs, end, falls, depth, j)
      invariant required == DemandAt(p, addrs, end, falls, depth, k)
    {
      k := k - 1;
      required := AssignEarlier(p, instructions[k], required, depth, addrs, end, falls, k);
    }
  }

  // ---- what a kept set must satisfy -------------------------------------------------------

  /** Every store the emitter drops is unobservable, and it adds none of its own. */
  ghost predicate KeepOk(p: Program, a: nat, kept: set<Flag>)
    requires a in p.code
  {
    && kept * p.code[a].emits <= p.code[a].update
    && forall f, b :: f in p.code[a].update - kept && p.Succ(a, b) ==> !Live(p, f, b)
  }

  ghost predicate CoversLive(p: Program, a: nat, required: set<Flag>) {
    forall f :: Live(p, f, a) ==> f in required
  }

  /** No instruction from the j-th on updates the flag, the last one not counted. */
  ghost predicate Undisturbed(p: Program, addrs: seq<nat>, f: Flag, j: nat)
    requires forall k :: 0 <= k < |addrs| ==> addrs[k] in p.code
  {
    forall k :: j <= k < |addrs| - 1 ==> f !in p.code[addrs[k]].update
  }

  /** A flag that the last instruction of a falling block reads and the pass does not demand there. */
  predicate Forgotten(p: Program, last: nat, end: nat, depth: nat, f: Flag)
    requires p.Valid() && last in p.code
  {
    f in p.code[last].require && f !in Requirements(p, AllFlags, end, depth)
  }

  /**
   A block that simply runs into the next one must not end in an instruction that emits
   stores it does not declare; and a forgotten flag must be demanded for some other reason
   behind the instruction that stores it.
   */
  ghost predicate FallThroughOk(p: Program, addrs: seq<nat>, end: nat, depth: nat)
    requires p.Valid() && Block(p, addrs, end)
  {
    var last := addrs[|addrs| - 1];
    && Requirements(p, AllFlags, end, depth) * p.code[last].emits <= p.code[last].update
    && forall j, f {:trigger Forgotten(p, last, end, depth, f), addrs[j]} ::
      0 <= j < |addrs| - 1 && Forgotten(p, last, end, depth, f) ==>
      f in p.code[addrs[j]].update && Undisturbed(p, addrs, f, j + 1) ==>
        f in DemandAt(p, addrs, end, true, depth, j + 1)
  }

  /** The block ends in a control transfer or runs into a translated block. */
  predicate Falls(p: Program, addrs: seq<nat>, falls: bool)
    requires addrs != [] && addrs[|addrs| - 1] in p.code
  {
    falls && p.code[addrs[|addrs| - 1]].branch == 0
  }

  ghost predicate EndsWell(p: Program, addrs: seq<nat>, end: nat, falls: bool, depth: nat)
    requires p.Valid() && Block(p, addrs, end)
  {
    var last := p.code[addrs[|addrs| - 1]];
    && (last.eob || last.branch != 0 || falls)
    && (Falls(p, addrs, falls) ==> !last.eob && last.flow == 0 && FallThroughOk(p, addrs, end, depth))
  }

  lemma AllFlagsComplete(f: Flag)
    ensures f in AllFlags
  {
  }

  lemma DemandBeforeCovers(p: Program, a: nat, f: Flag, required: set<Flag>, depth: nat)
    requires p.Valid() && a in p.code && !p.code[a].eob && Live(p, f, a)
    requires f !in p.code[a].update && Live(p, f, a + p.code[a].size) ==> f in required
    ensures f in DemandBefore(p, a, required, depth)
  {
    var i := p.code[a];
    var b := LiveCases(p, f, a);
    AllFlagsComplete(f);
    if f !in i.require && i.flow == 2 && b == i.branch && i.branch != 0 {
      RequirementsSound(p, f, AllFlags - i.update * (required - i.update * required + i.require), b, depth);
    }
  }

  lemma BranchDemand(p: Program, last: nat, end: nat, falls: bool, depth: nat)
    requires p.Valid() && last in p.code && end == last + p.code[last].size
    requires p.code[last].branch != 0
    ensures CoversLive(p, last, LastDemand(p, last, end, falls, depth).1)
    ensures KeepOk(p, last, LastDemand(p, last, end, falls, depth).0)
  {
    var i := p.code[last];
    forall f | Live(p, f, last) ensures f in LastDemand(p, last, end, falls, depth).1 {
      var b := LiveCases(p, f, last);
      if f !in i.require {
        AllFlagsComplete(f);
        RequirementsSound(p, f, AllFlags - i.update, b, depth);
      }
    }
  }

  lemma PlainEndDemand(p: Program, last: nat, end: nat, depth: nat)
    requires p.Valid() && last in p.code && p.code[last].eob && p.code[last].branch == 0
    ensures CoversLive(p, last, LastDemand(p, last, end, false, depth).1)
    ensures KeepOk(p, last, LastDemand(p, last, end, false, depth).0)
  {
    forall f ensures f in AllFlags {
      AllFlagsComplete(f);
    }
  }

  /** What the last instruction of a falling block asks for: all but the forgotten flags. */
  lemma FallingDemand(p: Program, last: nat, end: nat, depth: nat)
    requires p.Valid() && last in p.code && end == last + p.code[last].size
    requires !p.code[last].eob && p.code[last].flow == 0
    ensures forall f ::
      Live(p, f, last) ==> f in LastDemand(p, last, end, true, depth).1 || Forgotten(p, last, end, depth, f)
    ensures KeepOk(p, last, LastDemand(p, last, end, true, depth).0)
      <==> Requirements(p, AllFlags, end, depth) * p.code[last].emits <= p.code[last].update
  {
    forall f | Live(p, f, end) ensures f in Requirements(p, AllFlags, end, depth) {
      AllFlagsComplete(f);
      RequirementsSound(p, f, AllFlags, end, depth);
    }
    forall f | Live(p, f, last)
      ensures f in LastDemand(p, last, end, true, depth).1 || Forgotten(p, last, end, depth, f)
    {
      var b := LiveCases(p, f, last);
    }
  }

  /** Live flags are demanded, except forgotten ones that nothing stores before the last instruction. */
  ghost predicate Demanded(p: Program, addrs: seq<nat>, end: nat, falls: bool, depth: nat, k: nat, f: Flag)
    requires p.Valid() && Block(p, addrs, end) && k < |addrs|
  {
    f in DemandAt(p, addrs, end, falls, depth, k) ||
    (Falls(p, addrs, falls) && Forgotten(p, addrs[|addrs| - 1], end, depth, f) && Undisturbed(p, addrs, f, k))
  }

  ghost predicate EndKnown(p: Program, addrs: seq<nat>, falls: bool)
    requires addrs != [] && addrs[|addrs| - 1] in p.code
  {
    var last := p.code[addrs[|addrs| - 1]];
    (last.eob || last.branch != 0 || falls) && (Falls(p, addrs, falls) ==> !last.eob && last.flow == 0)
  }

  lemma {:induction false} DemandAtCovers(p: Program, addrs: seq<nat>, end: nat, falls: bool, depth: nat, k: nat,
        f: Flag)
    requires p.Valid() && Block(p, addrs, end) && k < |addrs| && EndKnown(p, addrs, falls)
    requires Live(p, f, addrs[k])
    ensures Demanded(p, addrs, end, falls, depth, k, f)
    decreases |addrs| - k
  {
    assert addrs[k] + p.code[addrs[k]].size == Following(addrs, k, end);
    if k == |addrs| - 1 {
      if p.code[addrs[k]].branch != 0 {
        BranchDemand(p, addrs[k], end, falls, depth);
      } else if falls {
        FallingDemand(p, addrs[k], end, depth);
      } else {
        PlainEndDemand(p, addrs[k], end, depth);
      }
    } else {
      var required := DemandAt(p, addrs, end, falls, depth, k + 1);
      if f in p.code[addrs[k]].update || !Live(p, f, addrs[k + 1]) || f in required {
        DemandBeforeCovers(p, addrs[k], f, required, depth);
      } else {
        DemandAtCovers(p, addrs, end, falls, depth, k + 1, f);
      }
    }
  }

  lemma EarlierKeepOk(p: Program, addrs: seq<nat>, end: nat, falls: bool, depth: nat, k: nat)
    requires p.Valid() && Block(p, addrs, end) && k < |addrs| - 1 && EndsWell(p, addrs, end, falls, depth)
    ensures KeepOk(p, addrs[k], Kept(p, addrs, end, falls, depth, k))
  {
    var i := p.code[addrs[k]];
    assert addrs[k] + i.size == Following(addrs, k, end);
    forall f, b | f in i.update - Kept(p, addrs, end, falls, depth, k) && p.Succ(addrs[k], b) ensures !Live(p, f, b) {
      assert i.Valid() && i.flow == 0 && b == addrs[k + 1];
      if Live(p, f, b) {
        DemandAtCovers(p, addrs, end, falls, depth, k + 1, f);
      }
    }
  }

  /** The backward pass keeps, for every instruction of the block, every store that can be observed. */
  lemma BlockKeepsWhatIsRead(p: Program, addrs: seq<nat>, end: nat, falls: bool, depth: nat)
    requires p.Valid() && Block(p, addrs, end) && EndsWell(p, addrs, end, falls, depth)
    ensures forall k :: 0 <= k < |addrs| ==> KeepOk(p, addrs[k], Kept(p, addrs, end, falls, depth, k))
  {
    forall k | 0 <= k < |addrs| ensures KeepOk(p, addrs[k], Kept(p, addrs, end, falls, depth, k)) {
      assert addrs[k] + p.code[addrs[k]].size == Following(addrs, k, end);
      if k < |addrs| - 1 {
        EarlierKeepOk(p, addrs, end, falls, depth, k);
      } else if p.code[addrs[k]].branch != 0 {
        BranchDemand(p, addrs[k], end, falls, depth);
      } else if falls {
        FallingDemand(p, addrs[k], end, depth);
      } else {
        PlainEndDemand(p, addrs[k], end, depth);
      }
    }
  }

  // ---- exactly when a block may fall through into the next one -------------------------------

  lemma {:induction false} ReadAtTheEnd(p: Program, addrs: seq<nat>, end: nat, f: Flag, j: nat)
    requires p.Valid() && Block(p, addrs, end) && j < |addrs|
    requires f in p.code[addrs[|addrs| - 1]].require && Undisturbed(p, addrs, f, j)
    ensures Live(p, f, addrs[j])
    decreases |addrs| - j
  {
    if j == |addrs| - 1 {
      assert LiveWithin(p, f, addrs[j], 0);
    } else {
      ReadAtTheEnd(p, addrs, end, f, j + 1);
      assert addrs[j] + p.code[addrs[j]].size == Following(addrs, j, end);
      assert p.code[addrs[j]].Valid();
      LiveStep(p, f, addrs[j], addrs[j + 1]);
    }
  }

  /**
   A block that falls through keeps every store that can be observed, exactly when
   `FallThroughOk` holds: the pass does not add the requirements of the last instruction,
   so a flag it reads must be demanded for another reason.
   */
  lemma FallThroughExact(p: Program, addrs: seq<nat>, end: nat, depth: nat)
    requires p.Valid() && Block(p, addrs, end)
    requires p.code[addrs[|addrs| - 1]].flow == 0 && !p.code[addrs[|addrs| - 1]].eob
    ensures FallThroughOk(p, addrs, end, depth) <==>
      forall k :: 0 <= k < |addrs| ==> KeepOk(p, addrs[k], Kept(p, addrs, end, true, depth, k))
  {
    var n := |addrs| - 1;
    var last := addrs[n];
    assert last + p.code[last].size == Following(addrs, n, end);
    assert p.code[last].Valid();
    FallingDemand(p, last, end, depth);
    if FallThroughOk(p, addrs, end, depth) {
      BlockKeepsWhatIsRead(p, addrs, end, true, depth);
    }
    if forall k :: 0 <= k < |addrs| ==> KeepOk(p, addrs[k], Kept(p, addrs, end, true, depth, k)) {
      assert KeepOk(p, addrs[n], Kept(p, addrs, end, true, depth, n));
      forall j, f | 0 <= j < n && Forgotten(p, last, end, depth, f) && f in p.code[addrs[j]].update
        && Undisturbed(p, addrs, f, j + 1)
        ensures f in DemandAt(p, addrs, end, true, depth, j + 1)
      {
        ReadAtTheEnd(p, addrs, end, f, j + 1);
        assert KeepOk(p, addrs[j], Kept(p, addrs, end, true, depth, j));
        assert addrs[j] + p.code[addrs[j]].size == Following(addrs, j, end);
        assert p.code[addrs[j]].Valid();
        assert p.Succ(addrs[j], addrs[j + 1]);
      }
    }
  }

  /** A block `stc; adc` that runs into an instruction overwriting every flag. */
  function LostCarry(): Program {
    Program(map[
      16 := Inst(1, {Carry}, {Carry}, {}, {Carry}, 0, 0, false),
      17 := Inst(2, AllFlags, AllFlags, {Carry}, AllFlags, 0, 0, false),
      19 := Inst(2, AllFlags, AllFlags, {}, AllFlags, 0, 0, false),
      21 := Inst(1, {}, {}, {}, {}, 1, 0, true)], 22)
  }

  /** On that block the pass drops the carry store although the very next instruction reads it. */
  lemma FallThroughLosesCarry(depth: nat)
    requires depth > 0
    ensures LostCarry().Valid() && Block(LostCarry(), [16, 17], 19)
    ensures Kept(LostCarry(), [16, 17], 19, true, depth, 0) == {}
    ensures !KeepOk(LostCarry(), 16, Kept(LostCarry(), [16, 17], 19, true, depth, 0))
    ensures !FallThroughOk(LostCarry(), [16, 17], 19, depth)
  {
    var p := LostCarry();
    assert Scan(p, AllFlags, {}, 19, depth) == {};
    assert LastDemand(p, 17, 19, true, depth) == ({}, {});
    assert Following([16, 17], 0, 19) == 17 && Following([16, 17], 1, 19) == 19;
    assert LiveWithin(p, Carry, 17, 0);
    assert p.Succ(16, 17) && Carry in p.code[16].update - {};
    FallThroughExact(p, [16, 17], 19, depth);
    assert [16, 17][0] == 16;
  }
}
