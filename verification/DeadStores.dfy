/**
 Exactly which flags the analysis asks for, and exactly which updates the backward pass keeps
 (codegen.cpp): what is needed is kept, as Liveness shows, and what is dead is dropped.
 */
module DeadStores {
  import opened Guest
  import opened Liveness

  // ---- the scan ------------------------------------------------------------------------------

  /** Flags that are no longer in question behind the instruction: overwritten, or already known to be needed. */
  function Settled(i: Inst): set<Flag> { i.update + if i.flow == 0 then i.require else {} }

  /** The flags still in question behind the instructions of the path. */
  function Open(p: Program, unclear: set<Flag>, path: seq<nat>): set<Flag> {
    set f | f in unclear && forall a <- path :: a in p.code ==> f !in Settled(p.code[a])
  }

  function Transfers(p: Program, path: seq<nat>): nat {
    if path == [] then 0
    else (if path[0] in p.code && p.code[path[0]].flow != 0 then 1 else 0) + Transfers(p, path[1..])
  }

  /** It is known where control goes: straight on, or to a branch's target. */
  predicate Known(i: Inst) { if i.flow == 0 then !i.eob else i.branch != 0 }

  /** Behind the instructions of `front`, the scan looks at the one at `a` and goes on to `b`. */
  ghost predicate Onward(p: Program, unclear: set<Flag>, depth: nat, front: seq<nat>, a: nat, b: nat) {
    && a in p.code && Known(p.code[a]) && p.Succ(a, b) && Transfers(p, front) < depth
    && (p.code[a].flow == 0 ==> Open(p, unclear, front + [a]) != {})
  }

  /** The scan gets along the path: over at most `depth` transfers, and straight on while a flag is in question. */
  ghost predicate Scanned(p: Program, unclear: set<Flag>, depth: nat, path: seq<nat>) {
    path != [] && forall k :: 0 <= k < |path| - 1 ==> Onward(p, unclear, depth, path[..k], path[k], path[k + 1])
  }

  /** The flag is asked for where the path ends: it is read there, or in question and nothing more is known of it. */
  predicate Asked(p: Program, f: Flag, unclear: set<Flag>, depth: nat, front: seq<nat>, a: nat) {
    var open := Open(p, unclear, front);
    if Transfers(p, front) == depth || a !in p.code then f in open
    else
      f in p.code[a].require || (!Known(p.code[a]) && f in open - p.code[a].update)
  }

  // ---- one step ------------------------------------------------------------------------------

  function Deeper(i: Inst, depth: nat): nat { if i.flow == 0 || depth == 0 then depth else depth - 1 }

  lemma OpenNext(p: Program, unclear: set<Flag>, a: nat, path: seq<nat>)
    requires a in p.code
    ensures Open(p, unclear, [a] + path) == Open(p, unclear - Settled(p.code[a]), path)
  {
    var x, y := Open(p, unclear, [a] + path), Open(p, unclear - Settled(p.code[a]), path);
    assert a in [a] + path;
    assert forall b <- path :: b in [a] + path;
    forall f ensures f in x <==> f in y {
    }
  }

  lemma TransfersNext(p: Program, a: nat, path: seq<nat>)
    requires a in p.code
    ensures Transfers(p, [a] + path) == (if p.code[a].flow != 0 then 1 else 0) + Transfers(p, path)
  {
    assert ([a] + path)[1..] == path;
  }

  lemma OnwardNext(p: Program, unclear: set<Flag>, depth: nat, a: nat, front: seq<nat>, x: nat, y: nat)
    requires a in p.code && depth > 0
    ensures Onward(p, unclear, depth, [a] + front, x, y)
      <==> Onward(p, unclear - Settled(p.code[a]), Deeper(p.code[a], depth), front, x, y)
  {
    hide Open, Transfers, Settled;
    OpenNext(p, unclear, a, front + [x]);
    assert [a] + (front + [x]) == [a] + front + [x];
    TransfersNext(p, a, front);
  }

  lemma AskedNext(p: Program, f: Flag, unclear: set<Flag>, depth: nat, a: nat, front: seq<nat>, x: nat)
    requires a in p.code && depth > 0
    ensures Asked(p, f, unclear, depth, [a] + front, x)
      <==> Asked(p, f, unclear - Settled(p.code[a]), Deeper(p.code[a], depth), front, x)
  {
    hide Open, Transfers, Settled;
    OpenNext(p, unclear, a, front);
    TransfersNext(p, a, front);
  }

  /** A path of the scan is its first step and a path of the scan from there. */
  lemma ScannedNext(p: Program, unclear: set<Flag>, depth: nat, a: nat, rest: seq<nat>)
    requires a in p.code && depth > 0 && rest != []
    ensures Scanned(p, unclear, depth, [a] + rest) <==>
      && Onward(p, unclear, depth, [], a, rest[0])
      && Scanned(p, unclear - Settled(p.code[a]), Deeper(p.code[a], depth), rest)
  {
    hide Onward, Settled;
    var path := [a] + rest;
    forall k | 0 <= k < |rest| - 1
      ensures Onward(p, unclear, depth, path[..k + 1], path[k + 1], path[k + 2])
        <==> Onward(p, unclear - Settled(p.code[a]), Deeper(p.code[a], depth), rest[..k], rest[k], rest[k + 1])
    {
      assert path[..k + 1] == [a] + rest[..k];
      OnwardNext(p, unclear, depth, a, rest[..k], rest[k], rest[k + 1]);
    }
    if Scanned(p, unclear, depth, path) {
      assert path[..0] == [];
      assert Onward(p, unclear, depth, path[..0], path[0], path[1]);
      forall k | 0 <= k < |rest| - 1
        ensures Onward(p, unclear - Settled(p.code[a]), Deeper(p.code[a], depth), rest[..k], rest[k], rest[k + 1])
      {
        assert Onward(p, unclear, depth, path[..k + 1], path[k + 1], path[k + 1 + 1]);
      }
    }
    if Onward(p, unclear, depth, [], a, rest[0])
      && Scanned(p, unclear - Settled(p.code[a]), Deeper(p.code[a], depth), rest)
    {
      forall k | 0 <= k < |path| - 1 ensures Onward(p, unclear, depth, path[..k], path[k], path[k + 1]) {
        if k == 0 {
          assert path[..0] == [];
        } else {
          assert Onward(p, unclear - Settled(p.code[a]), Deeper(p.code[a], depth), rest[..k - 1], rest[k - 1], rest[k]);
          assert path[..k - 1 + 1] == path[..k];
        }
      }
    }
  }

  /** Some path of the scan from `a` ends where the flag is asked for. */
  ghost predicate Found(p: Program, f: Flag, unclear: set<Flag>, a: nat, depth: nat, path: seq<nat>) {
    && Scanned(p, unclear, depth, path) && path[0] == a
    && Asked(p, f, unclear, depth, path[..|path| - 1], path[|path| - 1])
  }

  lemma FoundNext(p: Program, f: Flag, unclear: set<Flag>, depth: nat, a: nat, rest: seq<nat>)
    requires a in p.code && depth > 0 && rest != []
    ensures Found(p, f, unclear, a, depth, [a] + rest) <==>
      && Onward(p, unclear, depth, [], a, rest[0])
      && Found(p, f, unclear - Settled(p.code[a]), rest[0], Deeper(p.code[a], depth), rest)
  {
    hide Scanned, Onward, Asked, Settled;
    ScannedNext(p, unclear, depth, a, rest);
    AskedNext(p, f, unclear, depth, a, rest[..|rest| - 1], rest[|rest| - 1]);
    assert ([a] + rest)[..|rest|] == [a] + rest[..|rest| - 1];
  }

  lemma FoundHere(p: Program, f: Flag, unclear: set<Flag>, a: nat, depth: nat)
    ensures Found(p, f, unclear, a, depth, [a]) <==> Asked(p, f, unclear, depth, [], a)
  {
    hide Asked;
    assert [a][..0] == [];
  }

  lemma FirstStep(p: Program, unclear: set<Flag>, depth: nat, a: nat, b: nat)
    requires a in p.code && depth > 0
    ensures Onward(p, unclear, depth, [], a, b)
      <==> Known(p.code[a]) && p.Succ(a, b) && (p.code[a].flow == 0 ==> unclear - Settled(p.code[a]) != {})
  {
    hide Settled;
    OpenNext(p, unclear, a, []);
    assert [] + [a] == [a] + [];
    assert Open(p, unclear - Settled(p.code[a]), []) == unclear - Settled(p.code[a]);
  }

  lemma FirstAsk(p: Program, f: Flag, unclear: set<Flag>, a: nat, depth: nat)
    requires depth > 0
    ensures Asked(p, f, unclear, depth, [], a) <==>
      if a in p.code
        then f in p.code[a].require || (!Known(p.code[a]) && f in unclear - p.code[a].update) else f in unclear
  {
    assert Open(p, unclear, []) == unclear;
  }

  // ---- exactly what is asked for -------------------------------------------------------------

  lemma {:induction false} RequirementsFind(p: Program, f: Flag, unclear: set<Flag>, a: nat, depth: nat)
      returns (path: seq<nat>)
    requires p.Valid() && f in Requirements(p, unclear, a, depth)
    ensures Found(p, f, unclear, a, depth, path)
    decreases depth, 1, 0
  {
    if depth == 0 {
      path := [a];
      FoundHere(p, f, unclear, a, depth);
    } else {
      path := ScanFinds(p, f, unclear, {}, a, depth);
    }
  }

  lemma {:induction false} ScanFinds(p: Program, f: Flag, unclear: set<Flag>, must: set<Flag>, a: nat, depth: nat)
      returns (path: seq<nat>)
    requires p.Valid() && depth > 0 && unclear !! must
    requires f in Scan(p, unclear, must, a, depth) && f !in must
    ensures Found(p, f, unclear, a, depth, path)
    decreases depth, 0, p.BytesLeft(a)
  {
    hide Found, Asked, Onward;
    path := [a];
    FoundHere(p, f, unclear, a, depth);
    FirstAsk(p, f, unclear, a, depth);
    if !Asked(p, f, unclear, depth, [], a) {
      var i := p.code[a];
      assert i.Valid();
      var rest;
      if i.flow == 0 {
        rest := ScanFinds(p, f, unclear - (i.update + (must + i.require)), must + i.require, a + i.size, depth);
        FoundStart(p, f, unclear - (i.update + (must + i.require)), a + i.size, depth, rest);
        assert unclear - (i.update + (must + i.require)) == unclear - Settled(i);
      } else {
        var b := if f in Requirements(p, unclear - i.update, i.branch, depth - 1) then i.branch else a + i.size;
        rest := RequirementsFind(p, f, unclear - i.update, b, depth - 1);
        FoundStart(p, f, unclear - i.update, b, depth - 1, rest);
        assert unclear - i.update == unclear - Settled(i);
      }
      path := [a] + rest;
      FirstStep(p, unclear, depth, a, rest[0]);
      FoundNext(p, f, unclear, depth, a, rest);
    }
  }

  lemma {:induction false} RequirementsAsk(p: Program, f: Flag, unclear: set<Flag>, a: nat, depth: nat,
        path: seq<nat>)
    requires p.Valid() && Found(p, f, unclear, a, depth, path)
    ensures f in Requirements(p, unclear, a, depth)
    decreases |path|, 1
  {
    hide Scanned, Asked, Open, Transfers;
    if depth == 0 {
      NoDepth(p, f, unclear, a, path);
    } else {
      ScanAsks(p, f, unclear, {}, a, depth, path);
    }
  }

  lemma NoDepth(p: Program, f: Flag, unclear: set<Flag>, a: nat, path: seq<nat>)
    requires Found(p, f, unclear, a, 0, path)
    ensures f in unclear
  {
    if |path| > 1 {
      NotDeeper(p, unclear, path[..0], path[0], path[1]);
    }
  }

  lemma NotDeeper(p: Program, unclear: set<Flag>, front: seq<nat>, a: nat, b: nat)
    ensures !Onward(p, unclear, 0, front, a, b)
  {
  }

  lemma {:induction false} ScanAsks(p: Program, f: Flag, unclear: set<Flag>, must: set<Flag>, a: nat, depth: nat,
        path: seq<nat>)
    requires p.Valid() && depth > 0 && unclear !! must && Found(p, f, unclear, a, depth, path)
    ensures f in Scan(p, unclear, must, a, depth)
    decreases |path|, 0
  {
    hide Found, Scanned;
    assert path != [] && path[0] == a by { FoundStart(p, f, unclear, a, depth, path); }
    if |path| == 1 {
      assert path == [a];
      FoundHere(p, f, unclear, a, depth);
      AskedScan(p, f, unclear, must, a, depth);
    } else {
      var rest := path[1..];
      assert path == [a] + rest;
      FoundDecoded(p, f, unclear, a, depth, path);
      var i := p.code[a];
      assert i.Valid();
      FoundNext(p, f, unclear, depth, a, rest);
      FirstStep(p, unclear, depth, a, rest[0]);
      if i.flow == 0 {
        assert unclear - (i.update + (must + i.require)) == unclear - Settled(i);
        ScanAsks(p, f, unclear - Settled(i), must + i.require, rest[0], depth, rest);
      } else {
        assert unclear - i.update == unclear - Settled(i);
        RequirementsAsk(p, f, unclear - Settled(i), rest[0], depth - 1, rest);
      }
    }
  }

  lemma FoundStart(p: Program, f: Flag, unclear: set<Flag>, a: nat, depth: nat, path: seq<nat>)
    requires Found(p, f, unclear, a, depth, path)
    ensures path != [] && path[0] == a
  {
  }

  lemma FoundDecoded(p: Program, f: Flag, unclear: set<Flag>, a: nat, depth: nat, path: seq<nat>)
    requires Found(p, f, unclear, a, depth, path) && |path| > 1
    ensures a in p.code
  {
    assert Onward(p, unclear, depth, path[..0], path[0], path[1]);
  }

  lemma {:induction false} AskedScan(p: Program, f: Flag, unclear: set<Flag>, must: set<Flag>, a: nat, depth: nat)
    requires p.Valid() && depth > 0 && unclear !! must && Asked(p, f, unclear, depth, [], a)
    ensures f in Scan(p, unclear, must, a, depth)
  {
    if a in p.code {
      assert p.code[a].Valid();
      if f in p.code[a].require && p.code[a].flow == 0 {
        MustStays(p, f, unclear - (p.code[a].update + (must + p.code[a].require)), must + p.code[a].require,
          a + p.code[a].size, depth);
      }
    }
  }

  lemma {:induction false} MustStays(p: Program, f: Flag, unclear: set<Flag>, must: set<Flag>, a: nat, depth: nat)
    requires p.Valid() && depth > 0 && f in must
    ensures f in Scan(p, unclear, must, a, depth)
    decreases p.BytesLeft(a)
  {
    if a in p.code && p.code[a].flow == 0 {
      assert p.code[a].Valid();
      MustStays(p, f, unclear - (p.code[a].update + (must + p.code[a].require)), must + p.code[a].require,
        a + p.code[a].size, depth);
    }
  }

  /**
   Exactly which flags the analysis asks for: those that some path of the scan ends up asking
   for, be it that they are read there, be it that they are in question and nothing more is known.
   */
  lemma RequirementsExact(p: Program, f: Flag, unclear: set<Flag>, a: nat, depth: nat)
    requires p.Valid()
    ensures f in Requirements(p, unclear, a, depth) <==> exists path :: Found(p, f, unclear, a, depth, path)
  {
    hide Found;
    if f in Requirements(p, unclear, a, depth) {
      var path := RequirementsFind(p, f, unclear, a, depth);
    }
    if path :| Found(p, f, unclear, a, depth, path) {
      RequirementsAsk(p, f, unclear, a, depth, path);
    }
  }

  // ---- exactly what is kept ------------------------------------------------------------------

  /**
   Instruction j of the block needs the flag before it: it reads it, control may leave the block
   there to where the analysis asks for it, or the block ends there and nothing more is known.
   The requirements of a last instruction that runs into a translated block are not asked for.
   */
  predicate Needs(p: Program, addrs: seq<nat>, end: nat, falls: bool, depth: nat, j: nat, f: Flag)
    requires p.Valid() && j < |addrs| && addrs[j] in p.code
  {
    var i := p.code[addrs[j]];
    if i.branch != 0 then
      || f in i.require || f in Requirements(p, AllFlags, i.branch, depth)
      || (j == |addrs| - 1 && i.flow == 2 && f in Requirements(p, AllFlags, end, depth))
    else if j == |addrs| - 1 then falls ==> f in Requirements(p, AllFlags, end, depth)
    else f in i.require || i.flow != 0
  }

  /** No instruction from x to y updates the flag. */
  predicate Quiet(p: Program, addrs: seq<nat>, f: Flag, x: nat, y: nat)
    requires y <= |addrs|
  {
    forall i :: x <= i < y ==> addrs[i] in p.code && f !in p.code[addrs[i]].update
  }

  ghost predicate NeededFrom(p: Program, addrs: seq<nat>, end: nat, falls: bool, depth: nat, k: nat, f: Flag)
    requires p.Valid() && Block(p, addrs, end)
  {
    exists j :: k <= j < |addrs| && Quiet(p, addrs, f, k, j) && Needs(p, addrs, end, falls, depth, j, f)
  }

  lemma LastNeeds(p: Program, addrs: seq<nat>, end: nat, falls: bool, depth: nat, f: Flag)
    requires p.Valid() && Block(p, addrs, end)
    ensures var k := |addrs| - 1;
      f in LastDemand(p, addrs[k], end, falls, depth).1 <==> Needs(p, addrs, end, falls, depth, k, f)
  {
    hide Requirements;
    var i := p.code[addrs[|addrs| - 1]];
    assert i.Valid();
    AllFlagsComplete(f);
    assert i.branch != 0 ==> AllFlags - i.update == AllFlags;
  }

  lemma EarlierNeeds(p: Program, addrs: seq<nat>, end: nat, falls: bool, depth: nat, k: nat, f: Flag,
        required: set<Flag>)
    requires p.Valid() && Block(p, addrs, end) && k < |addrs| - 1
    ensures f in DemandBefore(p, addrs[k], required, depth)
      <==> Needs(p, addrs, end, falls, depth, k, f) || (f in required && f !in p.code[addrs[k]].update)
  {
    hide Requirements;
    var i := p.code[addrs[k]];
    assert i.Valid();
    AllFlagsComplete(f);
    assert i.branch != 0 ==> AllFlags - i.update * (required - i.update * required + i.require) == AllFlags;
  }

  lemma {:induction false} DemandExact(p: Program, addrs: seq<nat>, end: nat, falls: bool, depth: nat, k: nat, f: Flag)
    requires p.Valid() && Block(p, addrs, end) && k < |addrs|
    ensures f in DemandAt(p, addrs, end, falls, depth, k) <==> NeededFrom(p, addrs, end, falls, depth, k, f)
    decreases |addrs| - k
  {
    hide Needs, LastDemand, DemandBefore;
    if k == |addrs| - 1 {
      LastNeeds(p, addrs, end, falls, depth, f);
      assert Quiet(p, addrs, f, k, k);
    } else {
      var required := DemandAt(p, addrs, end, falls, depth, k + 1);
      DemandExact(p, addrs, end, falls, depth, k + 1, f);
      EarlierNeeds(p, addrs, end, falls, depth, k, f, required);
      NeededNext(p, addrs, end, falls, depth, k, f);
    }
  }

  lemma NeededNext(p: Program, addrs: seq<nat>, end: nat, falls: bool, depth: nat, k: nat, f: Flag)
    requires p.Valid() && Block(p, addrs, end) && k < |addrs| - 1
    ensures NeededFrom(p, addrs, end, falls, depth, k, f) <==>
      || Needs(p, addrs, end, falls, depth, k, f)
      || (f !in p.code[addrs[k]].update && NeededFrom(p, addrs, end, falls, depth, k + 1, f))
  {
    hide Needs;
    if Needs(p, addrs, end, falls, depth, k, f) {
      assert Quiet(p, addrs, f, k, k);
    }
    if f !in p.code[addrs[k]].update && NeededFrom(p, addrs, end, falls, depth, k + 1, f) {
      var j :| k + 1 <= j < |addrs| && Quiet(p, addrs, f, k + 1, j) && Needs(p, addrs, end, falls, depth, j, f);
      assert Quiet(p, addrs, f, k, j);
    }
    if NeededFrom(p, addrs, end, falls, depth, k, f) {
      var j :| k <= j < |addrs| && Quiet(p, addrs, f, k, j) && Needs(p, addrs, end, falls, depth, j, f);
      if j > k {
        assert Quiet(p, addrs, f, k + 1, j);
      }
    }
  }

  /**
   Exactly which updates the backward pass keeps, for every block: those of which some later
   instruction of it needs the flag, with none between them that updates it.
   */
  lemma KeptExact(p: Program, addrs: seq<nat>, end: nat, falls: bool, depth: nat, k: nat, f: Flag)
    requires p.Valid() && Block(p, addrs, end) && k + 1 < |addrs|
    ensures f in Kept(p, addrs, end, falls, depth, k) <==>
      && f in p.code[addrs[k]].update
      && exists j :: k < j < |addrs| && Quiet(p, addrs, f, k + 1, j) && Needs(p, addrs, end, falls, depth, j, f)
  {
    hide Needs;
    DemandExact(p, addrs, end, falls, depth, k + 1, f);
  }

  /** The last instruction is asked for what is needed behind it, or else keeps all its updates. */
  lemma LastKeptExact(p: Program, addrs: seq<nat>, end: nat, falls: bool, depth: nat, f: Flag)
    requires p.Valid() && Block(p, addrs, end)
    ensures var k := |addrs| - 1; var i := p.code[addrs[k]];
      f in Kept(p, addrs, end, falls, depth, k) <==>
        if i.branch != 0 || falls then Needs(p, addrs, end, falls, depth, k, f) else f in i.update
  {
    hide Requirements, Needs;
    LastNeeds(p, addrs, end, falls, depth, f);
  }

  /** An update is dead if a later one overwrites the flag before it is read or control leaves. */
  predicate Dead(p: Program, addrs: seq<nat>, k: nat, j: nat, f: Flag) {
    && k < j < |addrs| - 1
    && (forall i :: k < i <= j ==> addrs[i] in p.code && f !in p.code[addrs[i]].require && p.code[addrs[i]].flow == 0)
    && f in p.code[addrs[j]].update
  }

  /** Dead updates are dropped, at every depth of the analysis. */
  lemma DeadDropped(p: Program, addrs: seq<nat>, end: nat, falls: bool, depth: nat, k: nat, j: nat, f: Flag)
    requires p.Valid() && Block(p, addrs, end) && Dead(p, addrs, k, j, f)
    ensures f !in Kept(p, addrs, end, falls, depth, k)
  {
    hide Kept, Requirements;
    KeptExact(p, addrs, end, falls, depth, k, f);
    forall m | k < m < |addrs| ensures !(Quiet(p, addrs, f, k + 1, m) && Needs(p, addrs, end, falls, depth, m, f)) {
      assert p.code[addrs[m]].Valid();
    }
  }
}
