/** The buffer that emitters append to and back-patch (code_batch.cpp). */
module Batches {
  import opened RiscV

  /** Words one guest instruction may be translated to (codestore.h). */
  const MaxRiscVInstructions: nat := 255

  class CodeBatch {
    var code: seq<Instr>

    constructor ()
      ensures code == []
    {
      code := [];
    }

    /** The program stops as soon as the buffer runs over, so nothing is claimed of the code behind that point. */
    predicate Faulted()
      reads this
    {
      |code| > MaxRiscVInstructions
    }

    method Add(inst: Instr) returns (index: nat)
      modifies this
      ensures index == |old(code)| && code == old(code) + [inst]
    {
      index := |code|;
      code := code + [inst];
    }

    method Insert(index: nat, inst: Instr)
      requires index < |code|
      modifies this
      ensures code == old(code)[index := inst]
    {
      code := code[index := inst];
    }

    /** The number of words between two positions. */
    function Offset(start: nat, end: nat): int { end - start }
  }
}
