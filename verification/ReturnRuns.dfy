/**
 Whole runs of emitted calls and returns: the machine refines the return predictor's state
 machine, event by event, and every return goes where it would go without prediction.
 */
module ReturnRuns {
  import opened RiscV
  import opened Machine
  import opened Effects
  import opened Jumps
  import opened ReturnStacks
  import opened ReturnCode

  /**
   What the machine goes through: the code of a call or of a return runs up to where it leaves,
   a call is translated and the call table grows and perhaps moves, or the guest does anything
   that touches neither ring nor table.  The routine that translates a return address may save
   what it found in the table (dispatcher.h).
   */
  datatype Moment =
    | Calling(s: State, code: seq<Instr>, p: nat, x: seq<Instr>, entry: nat, target: bv64, next: State)
    | Returning(s: State, code: seq<Instr>, p: nat, x: seq<Instr>, pop: bv64, o: Machine.Outcome, saves: bool,
        next: State)
    | Translating(s: State, returnAddress: bv64, table: bv64, next: State)
    | Working(s: State, next: State)

  /** The guest address on top of the guest's stack. */
  function TopOf(s: State): bv64 { ReadMem(s.memory, s.Get(SP), 8) }

  function EventOf(mo: Moment): Event
    requires !mo.Working?
  {
    match mo
    case Calling(_, _, _, _, entry, _, _) => RunCall(entry)
    case Returning(s, _, _, _, _, _, saves, _) => RunRet(TopOf(s), saves)
    case Translating(_, returnAddress, _, _) => TranslateCall(returnAddress)
  }

  function Moved(l: Layout, mo: Moment): Layout { if mo.Translating? then l.(table := mo.table) else l }

  ghost function AfterMoment(m: Predictor, mo: Moment, t: Translation): Predictor
    requires Valid(m, t) && (mo.Calling? ==> mo.entry < |m.table|)
  {
    if mo.Working? then m else After(m, EventOf(mo), t)
  }

  /** What runs is code that the emitters above make, and all else keeps ring and table. */
  ghost predicate Happens(mo: Moment, l: Layout, m: Predictor, t: Translation)
    requires Valid(m, t)
  {
    match mo
    case Calling(s, code, p, x, entry, target, next) =>
      && Placed(code, p, x) && CallsEverywhere(x, entry, target) && Callable(s, l, m, entry)
      && Reaches(code, At(p, s), Rerouted(4, next))
    case Returning(s, code, p, x, pop, o, saves, next) =>
      && Placed(code, p, x) && Returns(x, pop) && Reaches(code, At(p, s), o) && !o.At?
      && if saves then o.Rerouted? && o.entry == 12 && Represents(next, l, AfterMoment(m, mo, t)) else next == o.s
    case Translating(_, _, _, next) => Represents(next, Moved(l, mo), AfterMoment(m, mo, t))
    case Working(_, next) => Represents(next, l, m)
  }

  ghost predicate RunOf(mos: seq<Moment>, l: Layout, m: Predictor, t: Translation)
    requires Valid(m, t)
    decreases |mos|
  {
    mos != [] ==>
      && Happens(mos[0], l, m, t) && (|mos| > 1 ==> mos[1].s == mos[0].next)
      && (mos[0].Calling? ==> mos[0].entry < |m.table|)
      && (MomentValid(m, mos[0], t); RunOf(mos[1..], Moved(l, mos[0]), AfterMoment(m, mos[0], t), t))
  }

  lemma MomentValid(m: Predictor, mo: Moment, t: Translation)
    requires Valid(m, t) && (mo.Calling? ==> mo.entry < |m.table|)
    ensures Valid(AfterMoment(m, mo, t), t)
  {
    hide Valid, After;
    if !mo.Working? {
      AfterValid(m, EventOf(mo), t);
    }
  }

  // ---- one moment ---------------------------------------------------------------------------

  /** Code leaves in one way only. */
  lemma OneOutcome(code: seq<Instr>, a: Machine.Outcome, b: Machine.Outcome, c: Machine.Outcome)
    requires Reaches(code, a, b) && Reaches(code, a, c) && !b.At? && !c.At?
    ensures b == c
  {
    var m: nat :| Run(code, a, m) == b;
    var n: nat :| Run(code, a, n) == c;
    if m <= n {
      RunTwice(code, a, m, n - m);
    } else {
      RunTwice(code, a, n, m - n);
    }
  }

  lemma CallsParts(s: State, t: State, l: Layout, m: Predictor, i: nat)
    requires Calls(s, t, l, m, i)
    ensures i < |m.table| && Represents(t, l, Pushed(m, i)) && TopOf(t) == m.table[i].x86
  {
    hide Represents, ReadMem, Below8, State.Get;
  }

  lemma CallMoment(mo: Moment, l: Layout, m: Predictor, t: Translation)
    requires mo.Calling? && Valid(m, t) && Represents(mo.s, l, m) && Happens(mo, l, m, t)
    ensures mo.entry < |m.table| && Represents(mo.next, l, After(m, RunCall(mo.entry), t))
    ensures TopOf(mo.next) == m.table[mo.entry].x86
  {
    hide Reaches, Represents, Placed, Callable, Calls, TopOf, State.Get;
    assert CallsAt(mo.code, mo.p, mo.s, l, m, mo.entry, mo.target);
    var u :| Reaches(mo.code, At(mo.p, mo.s), Rerouted(4, u)) && Calls(mo.s, u, l, m, mo.entry);
    OneOutcome(mo.code, At(mo.p, mo.s), Rerouted(4, u), Rerouted(4, mo.next));
    CallsParts(mo.s, u, l, m, mo.entry);
    assert Pushed(m, mo.entry) == After(m, RunCall(mo.entry), t);
  }

  lemma ReturnMoment(mo: Moment, l: Layout, m: Predictor, t: Translation)
    requires mo.Returning? && Valid(m, t) && Represents(mo.s, l, m) && Happens(mo, l, m, t)
    ensures Continues(mo.o, t) == Destination(m, TopOf(mo.s), t)
    ensures Represents(mo.next, l, AfterMoment(m, mo, t))
  {
    hide Reaches, Represents, Placed, Keeps, Continues, Destination, ReadMem, Valid, State.Get;
    assert ReturnsAt(mo.code, mo.p, mo.s, l, m, mo.pop, t);
    var u :| Returned(mo.code, mo.p, mo.s, l, m, mo.pop, t, u);
    OneOutcome(mo.code, At(mo.p, mo.s), u, mo.o);
  }

  lemma MomentRefines(mo: Moment, l: Layout, m: Predictor, t: Translation)
    requires Valid(m, t) && Represents(mo.s, l, m) && Happens(mo, l, m, t)
    ensures mo.Calling? ==> mo.entry < |m.table|
    ensures Represents(mo.next, Moved(l, mo), AfterMoment(m, mo, t))
    ensures mo.Returning? ==> Continues(mo.o, t) == Destination(m, TopOf(mo.s), t)
  {
    hide Reaches, Represents, Placed, Callable, Valid, After, Continues, Destination, TopOf;
    match mo
    case Calling(_, _, _, _, _, _, _) => CallMoment(mo, l, m, t);
    case Returning(_, _, _, _, _, _, _, _) => ReturnMoment(mo, l, m, t);
    case Translating(_, _, _, _) =>
    case Working(_, _) =>
  }

  // ---- whole runs -----------------------------------------------------------------------------

  function EventsOf(mos: seq<Moment>): seq<Event> {
    if mos == [] then [] else (if mos[0].Working? then [] else [EventOf(mos[0])]) + EventsOf(mos[1..])
  }

  /** Where the returns of the run continue. */
  function Landings(mos: seq<Moment>, t: Translation): seq<bv64> {
    if mos == [] then []
    else (if mos[0].Returning? then [Continues(mos[0].o, t)] else []) + Landings(mos[1..], t)
  }

  ghost function AfterAll(m: Predictor, es: seq<Event>, t: Translation): Predictor
    requires Valid(m, t) && AllPossible(m, es, t)
    decreases |es|
  {
    if es == [] then m
    else AfterValid(m, es[0], t); AfterAll(After(m, es[0], t), es[1..], t)
  }

  function LayoutAfter(l: Layout, mos: seq<Moment>): Layout
    decreases |mos|
  {
    if mos == [] then l else LayoutAfter(Moved(l, mos[0]), mos[1..])
  }

  /** A run of the predictor, event by event. */
  lemma FirstEvent(m: Predictor, e: Event, es: seq<Event>, t: Translation)
    requires Valid(m, t) && Possible(m, e)
    ensures Valid(After(m, e, t), t)
    ensures AllPossible(m, [e] + es, t) <==> AllPossible(After(m, e, t), es, t)
    ensures AllPossible(m, [e] + es, t) ==>
      && AfterAll(m, [e] + es, t) == AfterAll(After(m, e, t), es, t)
      && Destinations(m, [e] + es, t)
         == (if e.RunRet? then [Destination(m, e.popped, t)] else []) + Destinations(After(m, e, t), es, t)
  {
    hide Valid, After, Destination;
    AfterValid(m, e, t);
    assert ([e] + es)[0] == e && ([e] + es)[1..] == es;
  }

  lemma FirstMoment(mos: seq<Moment>, l: Layout, m: Predictor, t: Translation)
    requires mos != [] && Valid(m, t) && RunOf(mos, l, m, t)
    ensures Happens(mos[0], l, m, t) && (mos[0].Calling? ==> mos[0].entry < |m.table|)
    ensures var n := AfterMoment(m, mos[0], t); Valid(n, t) && RunOf(mos[1..], Moved(l, mos[0]), n, t)
    ensures |mos| > 1 ==> mos[1].s == mos[0].next
  {
    hide Valid, Happens, AfterMoment;
    MomentValid(m, mos[0], t);
  }

  /** The events and landings of a run, moment by moment. */
  lemma AddMoment(mo: Moment, mos: seq<Moment>, m: Predictor, t: Translation)
    requires Valid(m, t) && (mo.Calling? ==> mo.entry < |m.table|)
    requires mo.Returning? ==> Continues(mo.o, t) == Destination(m, TopOf(mo.s), t)
    requires var n := AfterMoment(m, mo, t);
      Valid(n, t) && AllPossible(n, EventsOf(mos), t) && Landings(mos, t) == Destinations(n, EventsOf(mos), t)
    ensures var es := EventsOf([mo] + mos);
      && AllPossible(m, es, t) && Landings([mo] + mos, t) == Destinations(m, es, t)
      && AfterAll(m, es, t) == AfterAll(AfterMoment(m, mo, t), EventsOf(mos), t)
  {
    hide Valid, After, Continues, Destination, AllPossible, Destinations, AfterAll, TopOf;
    assert ([mo] + mos)[1..] == mos;
    if mo.Working? {
      assert [] + EventsOf(mos) == EventsOf(mos) && [] + Landings(mos, t) == Landings(mos, t);
    } else {
      FirstEvent(m, EventOf(mo), EventsOf(mos), t);
    }
  }

  lemma {:induction false} RunsFollow(mos: seq<Moment>, l: Layout, m: Predictor, t: Translation)
    requires Valid(m, t) && RunOf(mos, l, m, t) && (mos != [] ==> Represents(mos[0].s, l, m))
    ensures AllPossible(m, EventsOf(mos), t) && Landings(mos, t) == Destinations(m, EventsOf(mos), t)
    ensures mos != [] ==> Represents(mos[|mos| - 1].next, LayoutAfter(l, mos), AfterAll(m, EventsOf(mos), t))
    decreases |mos|
  {
    hide Represents, Happens, Valid, After, Continues, Destination, AllPossible, Destinations, AfterAll, RunOf;
    if mos == [] {
      NoEvents(m, t);
    } else {
      var mo := mos[0];
      FirstMoment(mos, l, m, t);
      MomentRefines(mo, l, m, t);
      RunsFollow(mos[1..], Moved(l, mo), AfterMoment(m, mo, t), t);
      if mos[1..] == [] {
        NoEvents(AfterMoment(m, mo, t), t);
      }
      AddMoment(mo, mos[1..], m, t);
      assert [mo] + mos[1..] == mos;
    }
  }

  lemma NoEvents(m: Predictor, t: Translation)
    requires Valid(m, t)
    ensures AllPossible(m, [], t) && Destinations(m, [], t) == [] && AfterAll(m, [], t) == m
  {
    hide Valid;
  }

  /**
   A machine that represents a valid predictor goes on representing it through every run, and
   its returns land where the predictor's returns do: at the translations of the guest
   addresses that were on top of the guest's stack.
   */
  lemma RunsRefine(mos: seq<Moment>, l: Layout, m: Predictor, t: Translation)
    requires Valid(m, t) && RunOf(mos, l, m, t) && (mos != [] ==> Represents(mos[0].s, l, m))
    ensures AllPossible(m, EventsOf(mos), t)
    ensures mos != [] ==> Represents(mos[|mos| - 1].next, LayoutAfter(l, mos), AfterAll(m, EventsOf(mos), t))
    ensures Landings(mos, t) == Destinations(m, EventsOf(mos), t) == Unpredicted(EventsOf(mos), t)
  {
    hide Represents, RunOf, Valid, AllPossible, Destinations, AfterAll, Landings, EventsOf, Unpredicted;
    RunsFollow(mos, l, m, t);
    PredictionIsSafe(m, EventsOf(mos), t);
  }

  // ---- which return address an entry holds -------------------------------------------------------

  function Addresses(m: Predictor): seq<bv64> { seq(|m.table|, i requires 0 <= i < |m.table| => m.table[i].x86) }

  /** The return addresses of the calls translated, in order. */
  function TranslatedCalls(es: seq<Event>): seq<bv64> {
    if es == [] then []
    else (if es[0].TranslateCall? then [es[0].returnAddress] else []) + TranslatedCalls(es[1..])
  }

  lemma AddressesAfter(m: Predictor, e: Event, t: Translation)
    requires Valid(m, t) && Possible(m, e)
    ensures Addresses(After(m, e, t)) == Addresses(m) + TranslatedCalls([e])
  {
    var n := After(m, e, t);
    assert [e][1..] == [];
    assert forall i :: 0 <= i < |m.table| ==> n.table[i].x86 == m.table[i].x86;
    assert Addresses(n) == Addresses(m) + TranslatedCalls([e]);
  }

  /** Entry i holds the return address of the i-th call that was translated, whatever ran in between. */
  lemma {:induction false} EntriesInOrder(m: Predictor, es: seq<Event>, t: Translation)
    requires Valid(m, t) && AllPossible(m, es, t)
    ensures Addresses(AfterAll(m, es, t)) == Addresses(m) + TranslatedCalls(es)
    decreases |es|
  {
    hide Valid, After, AllPossible, AfterAll, Addresses;
    if es == [] {
      NoEvents(m, t);
      assert Addresses(m) + [] == Addresses(m);
    } else {
      PossibleFirst(m, es, t);
      assert [es[0]] + es[1..] == es && [es[0]][1..] == [];
      FirstEvent(m, es[0], es[1..], t);
      AddressesAfter(m, es[0], t);
      EntriesInOrder(After(m, es[0], t), es[1..], t);
      assert TranslatedCalls(es) == TranslatedCalls([es[0]]) + TranslatedCalls(es[1..]);
    }
  }

  lemma PossibleFirst(m: Predictor, es: seq<Event>, t: Translation)
    requires Valid(m, t) && es != [] && AllPossible(m, es, t)
    ensures Possible(m, es[0])
  {
    hide Valid;
  }
}
