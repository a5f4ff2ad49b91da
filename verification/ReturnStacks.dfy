/**
 Return prediction as a state machine (call.cpp, ret.cpp): a ring of 256 call-table
 entries, and a table that remembers where each return address was translated to.
 */
module ReturnStacks {

  datatype CallEntry = CallEntry(x86: bv64, host: bv64)

  const RingSize: nat := 256

  /** Slot numbers wrap around. */
  datatype Predictor = Predictor(slots: seq<nat>, top: bv8, table: seq<CallEntry>) {
    function Slot(k: bv8): nat { if Number(k) < |slots| then slots[Number(k)] else 0 }

    function Put(i: nat): Predictor { if Number(top) < |slots| then this.(slots := slots[Number(top) := i]) else this }

    /** The entry that a return finds. */
    function Popped(): CallEntry {
      var i := Slot(Prev(top));
      if i < |table| then table[i] else CallEntry(0, 0)
    }
  }

  function Number(k: bv8): nat { k as nat }

  function Next(k: bv8): bv8 { k + 1 }

  function Prev(k: bv8): bv8 { k - 1 }

  /** Where the translation of a guest address is. */
  type Translation = bv64 -> bv64

  /**
   Translating a call makes a table entry; running it pushes that entry; a return pops
   whatever address the guest's stack holds by then.  The return routine need not save the
   translation it finds.
   */
  datatype Event = TranslateCall(returnAddress: bv64) | RunCall(entry: nat) | RunRet(popped: bv64, saves: bool)

  lemma SlotPut(m: Predictor, i: nat, k: bv8)
    requires |m.slots| == RingSize
    ensures m.Put(i).Slot(k) == if k == m.top then i else m.Slot(k)
  {
    hide Number;
    SlotInside(k);
    SlotInside(m.top);
    if Number(k) == Number(m.top) {
      SameNumber(k, m.top);
    }
  }

  lemma SameNumber(k: bv8, j: bv8)
    requires Number(k) == Number(j)
    ensures k == j
  {
    assert (k as nat) as bv8 == k && (j as nat) as bv8 == j;
  }

  lemma SlotInside(k: bv8)
    ensures Number(k) < RingSize
  {
  }

  ghost predicate Valid(m: Predictor, t: Translation) {
    && |m.slots| == RingSize && (forall k: bv8 :: m.Slot(k) < |m.table|)
    && (forall i :: 0 <= i < |m.table| ==> m.table[i].host == 0 || m.table[i].host == t(m.table[i].x86))
  }

  /** Calls that run have been translated. */
  predicate Possible(m: Predictor, e: Event) { e.RunCall? ==> e.entry < |m.table| }

  ghost function After(m: Predictor, e: Event, t: Translation): Predictor
    requires Valid(m, t) && Possible(m, e)
  {
    match e
    case TranslateCall(a) => m.(table := m.table + [CallEntry(a, 0)])
    case RunCall(i) => m.Put(i).(top := Next(m.top))
    case RunRet(a, saves) =>
      var n := m.(top := Prev(m.top));
      var i := m.Slot(Prev(m.top));
      if m.Popped() == CallEntry(a, 0) && saves then n.(table := m.table[i := CallEntry(a, t(a))]) else n
  }

  /** Where a return continues: the guess when it is right, else the looked-up translation. */
  function Destination(m: Predictor, a: bv64, t: Translation): bv64 {
    var e := m.Popped();
    if e.x86 != a then t(a) else if e.host == 0 then t(e.x86) else e.host
  }

  // ---- safety -----------------------------------------------------------------------------------------------

  lemma AfterValid(m: Predictor, e: Event, t: Translation)
    requires Valid(m, t) && Possible(m, e)
    ensures Valid(After(m, e, t), t)
  {
    hide Next, Number;
    match e
    case TranslateCall(_) =>
      assert forall k: bv8 :: After(m, e, t).Slot(k) == m.Slot(k);
    case RunCall(i) =>
      forall k: bv8 ensures After(m, e, t).Slot(k) == if k == m.top then i else m.Slot(k) {
        SlotPut(m, i, k);
      }
    case RunRet(_, _) =>
      assert forall k: bv8 :: After(m, e, t).Slot(k) == m.Slot(k);
  }

  lemma DestinationRight(m: Predictor, a: bv64, t: Translation)
    requires Valid(m, t)
    ensures Destination(m, a, t) == t(a)
  {
    assert m.Slot(Prev(m.top)) < |m.table|;
  }

  ghost predicate AllPossible(m: Predictor, es: seq<Event>, t: Translation)
    requires Valid(m, t)
    decreases |es|
  {
    if es == [] then true
    else if !Possible(m, es[0]) then false
    else AfterValid(m, es[0], t); AllPossible(After(m, es[0], t), es[1..], t)
  }

  /** Where the returns of a run continue. */
  ghost function Destinations(m: Predictor, es: seq<Event>, t: Translation): seq<bv64>
    requires Valid(m, t) && AllPossible(m, es, t)
    decreases |es|
  {
    if es == [] then []
    else
      AfterValid(m, es[0], t);
      (if es[0].RunRet? then [Destination(m, es[0].popped, t)] else []) + Destinations(After(m, es[0], t), es[1..], t)
  }

  /** Where they would continue without prediction. */
  function Unpredicted(es: seq<Event>, t: Translation): seq<bv64> {
    if es == [] then []
    else (if es[0].RunRet? then [t(es[0].popped)] else []) + Unpredicted(es[1..], t)
  }

  /** Whatever the nesting, and whatever the guest did to its stack, prediction never changes where a return goes. */
  lemma {:induction false} PredictionIsSafe(m: Predictor, es: seq<Event>, t: Translation)
    requires Valid(m, t) && AllPossible(m, es, t)
    ensures Destinations(m, es, t) == Unpredicted(es, t)
    decreases |es|
  {
    if es != [] {
      hide Valid, After, Destination;
      AfterValid(m, es[0], t);
      if es[0].RunRet? {
        DestinationRight(m, es[0].popped, t);
      }
      PredictionIsSafe(After(m, es[0], t), es[1..], t);
    }
  }

  /** The machine at its start: all slots at the empty first entry. */
  predicate Start(m: Predictor) {
    m.table == [CallEntry(0, 0)] && |m.slots| == RingSize && forall i :: 0 <= i < RingSize ==> m.slots[i] == 0
  }

  lemma StartValid(m: Predictor, t: Translation)
    requires Start(m)
    ensures Valid(m, t)
  {
  }

  /** From the start on, in every run, every return goes where it would without prediction. */
  lemma RunsAreSafe(m: Predictor, es: seq<Event>, t: Translation)
    requires Start(m)
    ensures Valid(m, t)
    ensures AllPossible(m, es, t) ==> Destinations(m, es, t) == Unpredicted(es, t)
  {
    StartValid(m, t);
    if AllPossible(m, es, t) {
      PredictionIsSafe(m, es, t);
    }
  }

  // ---- the ring is the top of a stack -------------------------------------------------------------------------

  /** The slot written by the call before the last i ones. */
  function Recent(p: bv8, i: nat): bv8 { if i == 0 then Prev(p) else Prev(Recent(p, i - 1)) }

  lemma DownOne(q: bv8)
    ensures Prev(q) as nat == if q as nat == 0 then 255 else q as nat - 1
  {
    assert (q - 1) as nat == if q == 0 then 255 else q as nat - 1;
  }

  lemma {:induction false} RecentIs(p: bv8, i: nat)
    requires i < 256
    ensures Recent(p, i) as nat == if i < p as nat then p as nat - i - 1 else p as nat + 255 - i
  {
    hide Prev;
    if i == 0 {
      DownOne(p);
    } else {
      RecentIs(p, i - 1);
      DownOne(Recent(p, i - 1));
    }
  }

  /** Only 256 calls later is the same slot written again. */
  lemma Elsewhere(p: bv8, i: nat)
    requires i < 255
    ensures Recent(p, i) != p
  {
    RecentIs(p, i);
  }

  lemma {:induction false} AfterCall(p: bv8, i: nat)
    ensures Recent(Next(p), i) == if i == 0 then p else Recent(p, i - 1)
  {
    if i > 0 {
      AfterCall(p, i - 1);
    }
  }

  lemma {:induction false} AfterReturn(p: bv8, i: nat)
    ensures Recent(Prev(p), i) == Recent(p, i + 1)
  {
    hide Prev;
    if i > 0 {
      AfterReturn(p, i - 1);
    }
  }

  /** The top v entries of the ring are those of the unbounded stack. */
  ghost predicate Agrees(m: Predictor, stack: seq<nat>, v: nat) {
    && v <= RingSize && v <= |stack| && |m.slots| == RingSize
    && forall i: nat {:trigger Recent(m.top, i)} :: i < v ==> m.Slot(Recent(m.top, i)) == stack[|stack| - 1 - i]
  }

  /** What call and return do to an unbounded stack of entries. */
  function StackStep(stack: seq<nat>, e: Event): seq<nat> {
    match e
    case TranslateCall(_) => stack
    case RunCall(i) => stack + [i]
    case RunRet(_, _) => if stack == [] then [] else stack[..|stack| - 1]
  }

  /** How many entries of the ring can be relied on. */
  function DepthStep(v: nat, e: Event): nat {
    match e
    case TranslateCall(_) => v
    case RunCall(_) => if v < RingSize then v + 1 else RingSize
    case RunRet(_, _) => if v == 0 then 0 else v - 1
  }

  lemma CallRefines(m: Predictor, stack: seq<nat>, v: nat, x: nat, i: nat)
    requires Agrees(m, stack, v) && i < v + 1 && i < 256
    ensures var n := m.Put(x).(top := Next(m.top)); n.Slot(Recent(n.top, i)) == (stack + [x])[|stack| - i]
  {
    hide Next, Prev, Recent, Number;
    AfterCall(m.top, i);
    SlotPut(m, x, Recent(Next(m.top), i));
    if i > 0 {
      Elsewhere(m.top, i - 1);
    }
  }

  lemma ReturnRefines(m: Predictor, n: Predictor, stack: seq<nat>, v: nat)
    requires Agrees(m, stack, v) && n.slots == m.slots && n.top == Prev(m.top)
    ensures Agrees(n, if stack == [] then [] else stack[..|stack| - 1], if v == 0 then 0 else v - 1)
  {
    hide Next, Prev, Recent;
    forall i: nat {:trigger Recent(n.top, i)} | i < v - 1 ensures n.Slot(Recent(n.top, i)) == stack[|stack| - 2 - i] {
      AfterReturn(m.top, i);
      assert n.Slot(Recent(n.top, i)) == m.Slot(Recent(m.top, i + 1));
    }
  }

  /** Pushing and popping keep the ring the top of the stack; of 257 open calls the oldest is forgotten. */
  lemma RingRefinesStack(m: Predictor, stack: seq<nat>, v: nat, e: Event, t: Translation)
    requires Valid(m, t) && Possible(m, e) && Agrees(m, stack, v)
    ensures Agrees(After(m, e, t), StackStep(stack, e), DepthStep(v, e))
  {
    hide Recent, Prev, Next, Valid, Predictor.Slot;
    match e
    case TranslateCall(_) =>
      forall k: bv8 ensures After(m, e, t).Slot(k) == m.Slot(k) {
        SameSlot(m, After(m, e, t), k);
      }
    case RunCall(x) =>
      var n := After(m, e, t);
      forall i: nat {:trigger Recent(n.top, i)} | i < DepthStep(v, e)
        ensures n.Slot(Recent(n.top, i)) == (stack + [x])[|stack| - i]
      {
        CallRefines(m, stack, v, x, i);
      }
    case RunRet(_, _) => ReturnRefines(m, After(m, e, t), stack, v);
  }

  lemma SameSlot(m: Predictor, n: Predictor, k: bv8)
    requires n.slots == m.slots
    ensures n.Slot(k) == m.Slot(k)
  {
  }

  /** The guess for a return is the right one. */
  predicate Predicted(m: Predictor, a: bv64) { m.Popped().x86 == a }

  lemma TopPredicted(m: Predictor, stack: seq<nat>, v: nat, t: Translation)
    requires Valid(m, t) && Agrees(m, stack, v) && 0 < v
    ensures stack[|stack| - 1] < |m.table| && Predicted(m, m.table[stack[|stack| - 1]].x86)
  {
    assert m.Slot(Recent(m.top, 0)) == stack[|stack| - 1];
  }

  /** The call on top of the stack is the one a return to the address belongs to. */
  predicate TopReturns(m: Predictor, stack: seq<nat>, a: bv64) {
    stack != [] && stack[|stack| - 1] < |m.table| && m.table[stack[|stack| - 1]].x86 == a
  }

  /** Every return goes back behind the latest call not yet returned from, and at most 256 calls are open. */
  ghost predicate WellNested(m: Predictor, stack: seq<nat>, es: seq<Event>, t: Translation)
    requires Valid(m, t)
    decreases |es|
  {
    if es == [] then true
    else
      var e := es[0];
      if !Possible(m, e) || (e.RunRet? && !TopReturns(m, stack, e.popped)) then false
      else
        AfterValid(m, e, t);
        |StackStep(stack, e)| <= RingSize && WellNested(After(m, e, t), StackStep(stack, e), es[1..], t)
  }

  ghost predicate AllPredicted(m: Predictor, es: seq<Event>, t: Translation)
    requires Valid(m, t)
    decreases |es|
  {
    if es == [] then true
    else if !Possible(m, es[0]) then false
    else
      AfterValid(m, es[0], t);
      (es[0].RunRet? ==> Predicted(m, es[0].popped)) && AllPredicted(After(m, es[0], t), es[1..], t)
  }

  /** In a well-nested run at most 256 deep, every return is guessed right. */
  lemma {:induction false} NestedRunsPredicted(m: Predictor, stack: seq<nat>, es: seq<Event>, t: Translation)
    requires Valid(m, t) && |stack| <= RingSize && Agrees(m, stack, |stack|) && WellNested(m, stack, es, t)
    ensures AllPredicted(m, es, t)
    decreases |es|
  {
    hide Valid, After, Agrees, Predicted;
    if es != [] {
      var e := es[0];
      AfterValid(m, e, t);
      RingRefinesStack(m, stack, |stack|, e, t);
      if e.RunRet? {
        TopPredicted(m, stack, |stack|, t);
      }
      NestedRunsPredicted(After(m, e, t), StackStep(stack, e), es[1..], t);
    }
  }

  /** From the start on, with at most 256 calls open, no return is guessed wrong. */
  lemma StartPredicted(m: Predictor, es: seq<Event>, t: Translation)
    requires Start(m)
    ensures Valid(m, t)
    ensures WellNested(m, [], es, t) ==> AllPredicted(m, es, t)
  {
    StartValid(m, t);
    if WellNested(m, [], es, t) {
      NestedRunsPredicted(m, [], es, t);
    }
  }
}
