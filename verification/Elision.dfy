/**
 Running a program with and without the flag stores that the backward pass drops
 (codegen.cpp).  The pass takes every declared update for an overwriting; here the flags
 that an execution really overwrites decide, and the main result says exactly when the two
 runs cannot be told apart.
 */
module Elision {
  import opened Guest
  import opened Liveness

  // ---- what may be read ---------------------------------------------------------------------

  /** Some path of at most n steps from `a` reads `f` before an instruction that is sure to overwrite it. */
  ghost predicate MayReadWithin(p: Program, f: Flag, a: nat, n: nat)
    decreases n
  {
    a in p.code &&
    var i := p.code[a];
    f in i.require ||
    (n > 0 && f !in i.sure && exists b :: p.Succ(a, b) && MayReadWithin(p, f, b, n - 1))
  }

  ghost predicate MayRead(p: Program, f: Flag, a: nat) {
    exists n: nat :: MayReadWithin(p, f, a, n)
  }

  lemma MayReadStep(p: Program, f: Flag, a: nat, b: nat)
    requires p.Succ(a, b) && f !in p.code[a].sure && MayRead(p, f, b)
    ensures MayRead(p, f, a)
  {
    var n: nat :| MayReadWithin(p, f, b, n);
    assert MayReadWithin(p, f, a, n + 1);
  }

  /** An instruction that declares the update of a flag and may leave it alone. */
  predicate Unsure(p: Program, a: nat, f: Flag) { a in p.code && f in p.code[a].update - p.code[a].sure }

  predicate AllSure(p: Program) { forall a <- p.code :: p.code[a].sure == p.code[a].update }

  /** Without such instructions, the flags that may be read are the live ones. */
  lemma {:induction false} SureIsLive(p: Program, f: Flag, a: nat, n: nat)
    requires AllSure(p) && MayReadWithin(p, f, a, n)
    ensures LiveWithin(p, f, a, n)
    decreases n
  {
    if f !in p.code[a].require {
      var b :| p.Succ(a, b) && MayReadWithin(p, f, b, n - 1);
      SureIsLive(p, f, b, n - 1);
    }
  }

  // ---- running ------------------------------------------------------------------------------

  type Flags = map<Flag, bool>

  /** What one execution does: new data, where control goes, the value each flag would get, and which it overwrites. */
  datatype Effect<D> = Effect(data: D, pc: nat, flags: Flags, wrote: set<Flag>)

  datatype Machine<!D> = Machine(next: (nat, D, Flags) -> Effect<D>)

  datatype Config<D> = Config(pc: nat, data: D, flags: Flags)

  /** Control follows the decoded successors, and what is sure to be overwritten is. */
  ghost predicate Obeys<D(!new)>(p: Program, m: Machine<D>) {
    forall a, d, v {:trigger m.next(a, d, v)} :: a in p.code ==>
      var e := m.next(a, d, v);
      p.Succ(a, e.pc) && AllFlags <= e.flags.Keys && p.code[a].sure <= e.wrote
  }

  /** The values of the flags that an instruction requires. */
  function Seen(i: Inst, flags: Flags): Flags { map f | f in i.require && f in flags :: flags[f] }

  /** The flags after an execution, if of those it overwrites only the ones in `writes` are stored. */
  function Stored(flags: Flags, values: Flags, stores: set<Flag>): (r: Flags)
    requires AllFlags <= values.Keys
    ensures forall f :: f in AllFlags && (f in stores || f in flags) ==> f in r
  {
    map f | f in AllFlags && (f in stores || f in flags) :: if f in stores then values[f] else flags[f]
  }

  /** The instruction at `pc` sees only the flags it requires and stores only those in `writes`. */
  function Step<D>(p: Program, m: Machine<D>, writes: set<Flag>, c: Config<D>): Config<D>
    requires c.pc in p.code && AllFlags <= m.next(c.pc, c.data, Seen(p.code[c.pc], c.flags)).flags.Keys
  {
    var e := m.next(c.pc, c.data, Seen(p.code[c.pc], c.flags));
    Config(e.pc, e.data, Stored(c.flags, e.flags, writes * e.wrote))
  }

  /** The stores translated code performs: the assigned update set, as far as the emitter implements it. */
  function Stores(p: Program, kept: map<nat, set<Flag>>, a: nat): set<Flag>
    requires a in p.code
  {
    if a in kept then kept[a] * p.code[a].emits else p.code[a].update
  }

  ghost function Run<D(!new)>(p: Program, m: Machine<D>, kept: map<nat, set<Flag>>, c: Config<D>, n: nat): Config<D>
    requires Obeys(p, m)
    decreases n
  {
    if n == 0 || c.pc !in p.code then c
    else Run(p, m, kept, Step(p, m, Stores(p, kept, c.pc), c), n - 1)
  }

  /** Same place, same data, and the same value in every flag that may still be read. */
  ghost predicate Agree<D>(p: Program, c: Config<D>, d: Config<D>) {
    && c.pc == d.pc && c.data == d.data
    && forall f :: MayRead(p, f, c.pc) ==> f in c.flags && f in d.flags && c.flags[f] == d.flags[f]
  }

  /** Of the flags that may be read behind the instruction, just those it declares are stored. */
  ghost predicate SafeStores(p: Program, a: nat, kept: set<Flag>)
    requires a in p.code
  {
    forall f, b :: p.Succ(a, b) && MayRead(p, f, b) ==> (f in p.code[a].update <==> f in kept * p.code[a].emits)
  }

  ghost predicate AllSafe(p: Program, kept: map<nat, set<Flag>>) {
    forall a :: a in kept && a in p.code ==> SafeStores(p, a, kept[a])
  }

  lemma SeenAgrees<D(!new)>(p: Program, c: Config<D>, d: Config<D>)
    requires Agree(p, c, d) && c.pc in p.code
    ensures Seen(p.code[c.pc], c.flags) == Seen(p.code[c.pc], d.flags)
  {
    forall f | f in p.code[c.pc].require ensures MayRead(p, f, c.pc) {
      assert MayReadWithin(p, f, c.pc, 0);
    }
  }

  lemma StepAgrees<D(!new)>(p: Program, m: Machine<D>, kept: map<nat, set<Flag>>, c: Config<D>, d: Config<D>)
    requires p.Valid() && Obeys(p, m) && Agree(p, c, d) && c.pc in p.code
    requires c.pc in kept ==> SafeStores(p, c.pc, kept[c.pc])
    ensures Agree(p, Step(p, m, p.code[c.pc].update, c), Step(p, m, Stores(p, kept, c.pc), d))
  {
    var a, i := c.pc, p.code[c.pc];
    SeenAgrees(p, c, d);
    var e := m.next(a, c.data, Seen(i, c.flags));
    assert i.Valid();
    var c', d' := Step(p, m, i.update, c), Step(p, m, Stores(p, kept, a), d);
    forall f | MayRead(p, f, c'.pc) ensures f in c'.flags && f in d'.flags && c'.flags[f] == d'.flags[f] {
      AllFlagsComplete(f);
      assert f in i.update <==> f in Stores(p, kept, a);
      if f !in i.update * e.wrote {
        MayReadStep(p, f, a, c'.pc);
      }
    }
  }

  /** Two runs that agree go on agreeing when one of them drops stores that are safe to drop. */
  lemma {:induction false} SafelyElided<D(!new)>(p: Program, m: Machine<D>, kept: map<nat, set<Flag>>,
        c: Config<D>, d: Config<D>, n: nat)
    requires p.Valid() && Obeys(p, m) && Agree(p, c, d) && AllSafe(p, kept)
    ensures Agree(p, Run(p, m, map[], c, n), Run(p, m, kept, d, n))
    decreases n
  {
    if n > 0 && c.pc in p.code {
      StepAgrees(p, m, kept, c, d);
      SafelyElided(p, m, kept, Step(p, m, p.code[c.pc].update, c), Step(p, m, Stores(p, kept, c.pc), d), n - 1);
    }
  }

  // ---- a run that tells ------------------------------------------------------------------------

  /** A path along which the flag is not sure to be overwritten, up to an instruction that reads it. */
  ghost predicate Leads(p: Program, f: Flag, path: seq<nat>) {
    && path != [] && (forall i :: 0 <= i < |path| ==> path[i] in p.code)
    && (forall i :: 0 <= i < |path| - 1 ==> f !in p.code[path[i]].sure && p.Succ(path[i], path[i + 1]))
    && f in p.code[path[|path| - 1]].require
  }

  lemma {:induction false} PathOf(p: Program, f: Flag, a: nat, n: nat) returns (path: seq<nat>)
    requires MayReadWithin(p, f, a, n)
    ensures Leads(p, f, path) && path[0] == a
    decreases n
  {
    if f in p.code[a].require {
      path := [a];
    } else {
      var b :| p.Succ(a, b) && MayReadWithin(p, f, b, n - 1);
      var rest := PathOf(p, f, b, n - 1);
      path := [a] + rest;
    }
  }

  /** Every instruction has a successor. */
  function AnySucc(p: Program, a: nat): nat
    requires a in p.code
  {
    var i := p.code[a];
    if i.flow == 0 then a + i.size else i.branch
  }

  lemma AnySuccIs(p: Program, a: nat)
    requires a in p.code
    ensures p.Succ(a, AnySucc(p, a))
  {
  }

  function Uniform(v: bool): Flags { map f | f in AllFlags :: v }

  /**
   A machine that follows `a` and then the path, its data counting the steps.  It sets the
   flags in the first step, overwrites no more than it must in the others, and at the end
   of the path its data shows what it sees.
   */
  function Follower(p: Program, f: Flag, a: nat, path: seq<nat>): Machine<int> {
    Machine((pc: nat, d: int, v: Flags) =>
      if pc !in p.code then Effect(0, 0, Uniform(true), AllFlags)
      else if d == 0 && pc == a && path != [] then Effect(1, path[0], Uniform(true), AllFlags)
      else if 0 < d < |path| && pc == path[d - 1] then Effect(d + 1, path[d], Uniform(true), p.code[pc].sure)
      else Effect(if f in v && v[f] then 1 else 0, AnySucc(p, pc), Uniform(true), AllFlags))
  }

  lemma FollowerObeys(p: Program, f: Flag, a: nat, path: seq<nat>)
    requires Leads(p, f, path) && p.Succ(a, path[0])
    ensures Obeys(p, Follower(p, f, a, path))
  {
    var m := Follower(p, f, a, path);
    forall x, d, v | x in p.code
      ensures var e := m.next(x, d, v); p.Succ(x, e.pc) && AllFlags <= e.flags.Keys && p.code[x].sure <= e.wrote
    {
      AnySuccIs(p, x);
      forall g: Flag ensures g in AllFlags {
        AllFlagsComplete(g);
      }
    }
  }

  /** Two configurations that differ in the flag, on the way. */
  ghost predicate Apart(c: Config<int>, d: Config<int>, path: seq<nat>, f: Flag, k: nat)
    requires k < |path|
  {
    && c.pc == d.pc == path[k] && c.data == d.data == k + 1
    && f in c.flags && f in d.flags && c.flags[f] != d.flags[f]
  }

  lemma StaysApart(p: Program, f: Flag, a: nat, path: seq<nat>, kept: map<nat, set<Flag>>, c: Config<int>,
        d: Config<int>, k: nat)
    requires Leads(p, f, path) && k + 1 < |path| && Apart(c, d, path, f, k)
    ensures var m := Follower(p, f, a, path);
      Apart(Step(p, m, p.code[path[k]].update, c), Step(p, m, Stores(p, kept, path[k]), d), path, f, k + 1)
  {
    AllFlagsComplete(f);
    assert path[k] in p.code && f !in p.code[path[k]].sure;
  }

  lemma {:induction false} TellsApart(p: Program, f: Flag, a: nat, path: seq<nat>, kept: map<nat, set<Flag>>,
        c: Config<int>, d: Config<int>, k: nat)
    requires Leads(p, f, path) && p.Succ(a, path[0]) && k < |path| && Apart(c, d, path, f, k)
    requires Obeys(p, Follower(p, f, a, path))
    ensures var m := Follower(p, f, a, path);
      Run(p, m, map[], c, |path| - k).data != Run(p, m, kept, d, |path| - k).data
    decreases |path| - k
  {
    var m := Follower(p, f, a, path);
    var x, y := Step(p, m, p.code[path[k]].update, c), Step(p, m, Stores(p, kept, path[k]), d);
    if k + 1 < |path| {
      StaysApart(p, f, a, path, kept, c, d, k);
      TellsApart(p, f, a, path, kept, x, y, k + 1);
    } else {
      assert Seen(p.code[path[k]], c.flags)[f] == c.flags[f] && Seen(p.code[path[k]], d.flags)[f] == d.flags[f];
      assert x.data != y.data;
      assert Run(p, m, map[], x, 0) == x && Run(p, m, kept, y, 0) == y;
    }
  }

  /** Both runs are at the same place with the same data, whatever the program computes and from wherever it runs. */
  ghost predicate Preserved(p: Program, kept: map<nat, set<Flag>>) {
    forall m: Machine<int>, c: Config<int>, n: nat {:trigger Run(p, m, kept, c, n)} ::
      Obeys(p, m) && AllFlags <= c.flags.Keys ==>
        var x, y := Run(p, m, map[], c, n), Run(p, m, kept, c, n);
        x.pc == y.pc && x.data == y.data
  }

  lemma UnsafeTells(p: Program, kept: map<nat, set<Flag>>, a: nat, f: Flag, b: nat)
    requires p.Valid() && a in kept && a in p.code && p.Succ(a, b) && MayRead(p, f, b)
    requires f in p.code[a].update <==> f !in kept[a] * p.code[a].emits
    ensures !Preserved(p, kept)
  {
    var l: nat :| MayReadWithin(p, f, b, l);
    var path := PathOf(p, f, b, l);
    var m, c := Follower(p, f, a, path), Config(a, 0, Uniform(false));
    FollowerObeys(p, f, a, path);
    AllFlagsComplete(f);
    var x, y := Step(p, m, p.code[a].update, c), Step(p, m, Stores(p, kept, a), c);
    assert Apart(x, y, path, f, 0);
    TellsApart(p, f, a, path, kept, x, y, 0);
    assert Run(p, m, map[], c, |path| + 1) == Run(p, m, map[], x, |path|);
    assert Run(p, m, kept, c, |path| + 1) == Run(p, m, kept, y, |path|);
    assert AllFlags <= c.flags.Keys;
  }

  /**
   Which stores may be dropped: for every program and every choice of stores, the two runs
   can never be told apart exactly if every instruction is safe.
   */
  lemma ElisionExact(p: Program, kept: map<nat, set<Flag>>)
    requires p.Valid()
    ensures Preserved(p, kept) <==> AllSafe(p, kept)
  {
    if AllSafe(p, kept) {
      forall m: Machine<int>, c: Config<int>, n: nat | Obeys(p, m) && AllFlags <= c.flags.Keys
        ensures Agree(p, Run(p, m, map[], c, n), Run(p, m, kept, c, n))
      {
        SelfAgrees(p, c);
        SafelyElided(p, m, kept, c, c, n);
      }
    } else {
      var a :| a in kept && a in p.code && !SafeStores(p, a, kept[a]);
      var f, b :| p.Succ(a, b) && MayRead(p, f, b) && !(f in p.code[a].update <==> f in kept[a] * p.code[a].emits);
      UnsafeTells(p, kept, a, f, b);
    }
  }

  lemma SelfAgrees<D(!new)>(p: Program, c: Config<D>)
    requires AllFlags <= c.flags.Keys
    ensures Agree(p, c, c)
  {
    forall f | MayRead(p, f, c.pc) ensures f in c.flags {
      AllFlagsComplete(f);
    }
  }

  // ---- the pass and the run ---------------------------------------------------------------------

  /** A translated block: its instructions, the address behind it, and whether it runs into a translated one. */
  datatype BasicBlock = BasicBlock(addrs: seq<nat>, end: nat, falls: bool)

  ghost predicate WellEnded(p: Program, b: BasicBlock, depth: nat)
    requires p.Valid()
  {
    Block(p, b.addrs, b.end) && EndsWell(p, b.addrs, b.end, b.falls, depth)
  }

  /** The backward pass over this block gives the instruction at `a` these updates. */
  ghost predicate AssignedIn(p: Program, b: BasicBlock, depth: nat, a: nat, updates: set<Flag>)
    requires p.Valid()
  {
    WellEnded(p, b, depth)
    && exists k :: 0 <= k < |b.addrs| && b.addrs[k] == a && updates == Kept(p, b.addrs, b.end, b.falls, depth, k)
  }

  /** The kept sets are those that the backward pass assigns to the instructions of these blocks. */
  ghost predicate Assigned(p: Program, blocks: seq<BasicBlock>, depth: nat, kept: map<nat, set<Flag>>)
    requires p.Valid()
  {
    forall a :: a in kept ==> exists b :: b in blocks && AssignedIn(p, b, depth, a, kept[a])
  }

  lemma AssignedKeepsOk(p: Program, b: BasicBlock, depth: nat, a: nat, updates: set<Flag>)
    requires p.Valid() && AssignedIn(p, b, depth, a, updates)
    ensures a in p.code && KeepOk(p, a, updates)
  {
    BlockKeepsWhatIsRead(p, b.addrs, b.end, b.falls, depth);
  }

  lemma AllKeepOk(p: Program, blocks: seq<BasicBlock>, depth: nat, kept: map<nat, set<Flag>>)
    requires p.Valid() && Assigned(p, blocks, depth, kept)
    ensures forall a :: a in kept ==> a in p.code && KeepOk(p, a, kept[a])
  {
    hide AssignedIn, KeepOk;
    forall a | a in kept ensures a in p.code && KeepOk(p, a, kept[a]) {
      var b :| b in blocks && AssignedIn(p, b, depth, a, kept[a]);
      AssignedKeepsOk(p, b, depth, a, kept[a]);
    }
  }

  /** A dropped update is read behind an instruction that declares to overwrite the flag and may leave it alone. */
  ghost predicate Hidden(p: Program, kept: map<nat, set<Flag>>, a: nat, f: Flag, b: nat) {
    a in kept && a in p.code && f in p.code[a].update - kept[a] && p.Succ(a, b) && MayRead(p, f, b)
  }

  ghost predicate NothingHidden(p: Program, kept: map<nat, set<Flag>>) {
    forall a, f, b :: !Hidden(p, kept, a, f, b)
  }

  /** A path on which no instruction before the last declares an update of the flag. */
  ghost predicate Untouched(p: Program, f: Flag, path: seq<nat>) {
    && path != []
    && forall i :: 0 <= i < |path| - 1 ==>
      path[i] in p.code && f !in p.code[path[i]].update && p.Succ(path[i], path[i + 1])
  }

  /** A flag that may be read and is not live gets past an instruction that may leave it alone. */
  lemma {:induction false} HiddenBehind(p: Program, f: Flag, a: nat, n: nat) returns (path: seq<nat>)
    requires MayReadWithin(p, f, a, n) && !Live(p, f, a)
    ensures Untouched(p, f, path) && path[0] == a
    ensures var x := path[|path| - 1]; Unsure(p, x, f) && MayRead(p, f, x)
    decreases n
  {
    assert !LiveWithin(p, f, a, 0);
    var b :| p.Succ(a, b) && MayReadWithin(p, f, b, n - 1);
    if f in p.code[a].update {
      assert MayReadWithin(p, f, a, n);
      path := [a];
    } else {
      if Live(p, f, b) {
        LiveStep(p, f, a, b);
      }
      var rest := HiddenBehind(p, f, b, n - 1);
      path := [a] + rest;
      assert path[|path| - 1] == rest[|rest| - 1];
    }
  }

  lemma SafeUnlessHidden(p: Program, kept: map<nat, set<Flag>>)
    requires p.Valid() && forall a :: a in kept ==> a in p.code && KeepOk(p, a, kept[a])
    ensures AllSafe(p, kept) <==> NothingHidden(p, kept)
  {
    forall a | a in kept ensures SafeStores(p, a, kept[a]) <==> forall f, b :: !Hidden(p, kept, a, f, b) {
      assert p.code[a].Valid() && KeepOk(p, a, kept[a]);
      if forall f, b :: !Hidden(p, kept, a, f, b) {
        forall f, b | p.Succ(a, b) && MayRead(p, f, b)
          ensures f in p.code[a].update <==> f in kept[a] * p.code[a].emits
        {
          assert !Hidden(p, kept, a, f, b);
        }
      }
      if SafeStores(p, a, kept[a]) {
        forall f, b ensures !Hidden(p, kept, a, f, b) {
          assert Hidden(p, kept, a, f, b) ==> p.Succ(a, b) && MayRead(p, f, b);
        }
      }
    }
    if AllSafe(p, kept) {
      forall a, f, b ensures !Hidden(p, kept, a, f, b) {
        assert a in kept ==> SafeStores(p, a, kept[a]);
      }
    }
  }

  /**
   Exactly when flag elision preserves meaning: translate any blocks of any program, each on
   its own, and store only the flags the backward pass keeps.  The run cannot be told from the
   one that stores every flag exactly if no dropped update is hidden.
   */
  lemma PreservedExact(p: Program, blocks: seq<BasicBlock>, depth: nat, kept: map<nat, set<Flag>>)
    requires p.Valid() && Assigned(p, blocks, depth, kept)
    ensures Preserved(p, kept) <==> NothingHidden(p, kept)
  {
    hide KeepOk, Assigned, Preserved, AllSafe, NothingHidden;
    AllKeepOk(p, blocks, depth, kept);
    SafeUnlessHidden(p, kept);
    ElisionExact(p, kept);
  }

  /**
   Then every run, on whatever data and however long, is at the same instruction with the
   same data, and with the same value in every flag that may still be read.
   */
  lemma PreservesMeaning<D(!new)>(
      p: Program, m: Machine<D>, blocks: seq<BasicBlock>, depth: nat, kept: map<nat, set<Flag>>, c: Config<D>, n: nat)
    requires p.Valid() && Obeys(p, m) && AllFlags <= c.flags.Keys && Assigned(p, blocks, depth, kept)
    requires NothingHidden(p, kept)
    ensures Agree(p, Run(p, m, map[], c, n), Run(p, m, kept, c, n))
  {
    hide KeepOk, Assigned, AllSafe, NothingHidden;
    AllKeepOk(p, blocks, depth, kept);
    SafeUnlessHidden(p, kept);
    SelfAgrees(p, c);
    SafelyElided(p, m, kept, c, c, n);
  }

  /**
   What is hidden is hidden by the next instruction that declares an update of the flag, and
   that one may leave it alone.
   */
  lemma HiddenByUnsure(p: Program, blocks: seq<BasicBlock>, depth: nat, kept: map<nat, set<Flag>>, a: nat, f: Flag,
        b: nat)
      returns (path: seq<nat>)
    requires p.Valid() && Assigned(p, blocks, depth, kept) && Hidden(p, kept, a, f, b)
    ensures Untouched(p, f, path) && path[0] == b
    ensures var x := path[|path| - 1]; Unsure(p, x, f) && MayRead(p, f, x)
  {
    AllKeepOk(p, blocks, depth, kept);
    assert KeepOk(p, a, kept[a]);
    var n: nat :| MayReadWithin(p, f, b, n);
    path := HiddenBehind(p, f, b, n);
  }

  lemma SureReads(p: Program, f: Flag, a: nat)
    requires AllSure(p)
    ensures MayRead(p, f, a) ==> Live(p, f, a)
  {
    if MayRead(p, f, a) {
      var n: nat :| MayReadWithin(p, f, a, n);
      SureIsLive(p, f, a, n);
    }
  }

  /** If every declared update is sure, nothing is hidden. */
  lemma SureHidesNothing(p: Program, blocks: seq<BasicBlock>, depth: nat, kept: map<nat, set<Flag>>)
    requires p.Valid() && Assigned(p, blocks, depth, kept) && AllSure(p)
    ensures NothingHidden(p, kept)
  {
    hide AllSure, Assigned, MayRead, Live;
    AllKeepOk(p, blocks, depth, kept);
    forall a, f, b ensures !Hidden(p, kept, a, f, b) {
      SureReads(p, f, b);
    }
  }

  /** A comparison, `repz cmps`, a jump if zero, and a return. */
  function Repeated(): Program {
    Program(map[
      16 := Inst(2, AllFlags, AllFlags, {}, AllFlags, 0, 0, false),
      18 := Inst(2, AllFlags, {}, {}, AllFlags, 0, 0, false),
      20 := Inst(2, {}, {}, {Zero}, {}, 2, 16, false),
      22 := Inst(1, {}, {}, {}, {}, 1, 0, true)], 23)
  }

  const RepeatedBlock: BasicBlock := BasicBlock([16, 18, 20, 22], 23, false)

  /** The comparison's flags are dropped; with a count of zero the jump reads what was there before. */
  lemma RepeatLosesFlags(depth: nat)
    ensures Repeated().Valid() && WellEnded(Repeated(), RepeatedBlock, depth)
    ensures Assigned(Repeated(), [RepeatedBlock], depth, map[16 := {}])
    ensures !Preserved(Repeated(), map[16 := {}])
  {
    var p, b := Repeated(), RepeatedBlock;
    RepeatedBlocks(depth);
    RepeatedKept(depth);
    assert AssignedIn(p, b, depth, 16, {}) by { assert b.addrs[0] == 16; }
    assert b in [b];
    assert MayReadWithin(p, Zero, 20, 0) && p.Succ(18, 20);
    assert MayReadWithin(p, Zero, 18, 1) && p.Succ(16, 18);
    assert Hidden(p, map[16 := {}], 16, Zero, 18);
    PreservedExact(p, [b], depth, map[16 := {}]);
  }

  lemma RepeatedBlocks(depth: nat)
    ensures Repeated().Valid() && WellEnded(Repeated(), RepeatedBlock, depth)
  {
    var addrs := [16, 18, 20, 22];
    assert Following(addrs, 0, 23) == 18 && Following(addrs, 1, 23) == 20;
    assert Following(addrs, 2, 23) == 22 && Following(addrs, 3, 23) == 23;
  }

  lemma RepeatedKept(depth: nat)
    requires Repeated().Valid() && WellEnded(Repeated(), RepeatedBlock, depth)
    ensures Kept(Repeated(), [16, 18, 20, 22], 23, false, depth, 0) == {}
  {
    hide EndsWell, Requirements, Program.Valid, Block;
    var p, addrs := Repeated(), [16, 18, 20, 22];
    assert DemandAt(p, addrs, 23, false, depth, 3) == AllFlags;
    assert DemandAt(p, addrs, 23, false, depth, 2) == DemandBefore(p, 20, AllFlags, depth);
    assert DemandAt(p, addrs, 23, false, depth, 1)
      == DemandBefore(p, 18, DemandAt(p, addrs, 23, false, depth, 2), depth);
  }
}
