/**
 The guest program as the translator sees it: a finite map from addresses to
 decoded instructions, each with the three facts the flag analysis uses (what it
 updates, what it requires, where control may go next).
 */
module Guest {

  datatype Flag = Carry | Zero | Sign | Overflow | Parity

  const AllFlags: set<Flag> := {Carry, Zero, Sign, Overflow, Parity}

  /**
   `emits` are the flags whose update code the emitter of this instruction contains
   (guarded by the update set at emission time).  For every instruction but `Not` it
   equals `update`; `Not` updates nothing, yet shares the emitter of the unary
   operations, which stores zero, sign and parity when asked to.
   `sure` are the flags that every execution overwrites: a repeated comparison declares all
   flags as its update, yet leaves them alone when the count is zero.
   `branch` is 0 when the target is not known statically.
   */
  datatype Inst = Inst(
    size: nat,
    update: set<Flag>,
    sure: set<Flag>,
    require: set<Flag>,
    emits: set<Flag>,
    flow: nat,
    branch: nat,
    eob: bool
  ) {
    predicate Valid() {
      && 1 <= size <= 15
      && sure <= update <= emits
      && flow <= 2
      && (flow == 0 ==> branch == 0)
      && (flow != 0 ==> emits == {})
      && (flow == 1 ==> eob)
    }
  }

  /** `code` holds the addresses at which an instruction can be decoded; the image ends at `end`. */
  datatype Program = Program(code: map<nat, Inst>, end: nat) {

    predicate Valid() {
      forall a <- code :: code[a].Valid() && a + code[a].size <= end
    }

    function BytesLeft(a: nat): nat {
      if a < end then end - a else 0
    }

    /** Control can pass from the instruction at `a` to address `b`. */
    ghost predicate Succ(a: nat, b: nat) {
      a in code &&
      var i := code[a];
      if i.flow == 0 then i.eob || b == a + i.size
      else if i.branch == 0 then true
      else b == i.branch || (i.flow == 2 && b == a + i.size)
    }
  }
}
