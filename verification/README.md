# oxtra: verified models of the translator

oxtra runs x86-64 programs on RISC-V by translating them block by block while they run. These Dafny files model
what its translator does and prove that it may:

* **Flag elision** (`Guest`, `Liveness`, `DeadStores`, `Elision`). A path-following, depth-bounded analysis finds the
  flags that may still be read, and a backward pass over each block drops every flag store nobody reads. `DeadStores`
  says exactly which stores are kept. `Elision` runs programs with and without the dropped ones and says exactly when
  the two runs, on whatever data and however long, cannot be told apart.
* **Code emission** (`RiscV`, `Machine`, `Effects` and the modules built on them). The emitters are methods that
  append to a `CodeBatch` and patch it, as the originals do. `Machine` runs the appended words on a 64-bit RISC-V
  machine with wrap-around arithmetic (sections 2.2 to 2.6, 4.2, 4.3 and 6.1 of the RISC-V User-Level ISA v2.2), and
  every emitter's contract says what running them does, from every state and wherever they stand. Carry and overflow
  are kept as operands and an evaluator; `LazyFlags` says what each evaluator answers at each width.
* **The code store** (`StaticLists`, `CodeCache`, `CodeStores`, `Translation`, `HostToGuest`). Sections over chunks of
  memory that may move while they grow, sorted page lists, binary search, the translation of new blocks and how they
  are linked, and the debugger's way back from host to guest. What is answered, and why, is determined by the program,
  the blocks there are and the room the lists have.
* **Return prediction** (`ReturnStacks`, `ReturnCode`, `ReturnRuns`, `GuestMemory`). A ring of 256 call-table entries
  guesses where returns go; first as a state machine over whole runs, then as code on a machine that represents it, and
  last as whole runs of that machine, which refine those of the state machine.
* **Codecs** (`Encoding`, `Listings`, `Decoder`, `Format`, `Formatted`, `Reassembly`, `Numbers`, `Numerals`). RISC-V
  words and their parser, against the tables of the RISC-V standard; x86 instructions, decoded from bytes and put
  together from fields; and the numbers the debugger prints and reads.

`dafny verify dfyconfig.toml` checks everything.

## Model

| member | source | states |
|---|---|---|
| `Liveness.RecursiveFlagRequirements` | src/oxtra/codegen/codegen.cpp:237-299 | the recursive scan terminates for every program, address and depth, and answers the requirements about which the next two rows speak |
| `Liveness.RequirementsSound` | src/oxtra/codegen/codegen.cpp:237-299 | a flag in question that some path reads before overwriting it is in the answer, whatever the program, the address and the depth |
| `Liveness.RequirementsPrecise` | src/oxtra/codegen/codegen.cpp:237-299 | a flag in the answer is read by some reachable instruction, or was in question and stays untouched on some path up to a point the scan cannot pass |
| `DeadStores.RequirementsExact` | src/oxtra/codegen/codegen.cpp:237-299 | the answer contains a flag if and only if the scan follows some path, past no instruction that overwrites the flag, to one that reads it or to a point the scan cannot pass |
| `Liveness.AssignUpdates` | src/oxtra/codegen/codegen.cpp:62-121 | the backward pass over the instruction objects gives each of them exactly the update set of which the next three rows say what is kept, and the rows behind them that nothing needed is dropped |
| `DeadStores.KeptExact` | src/oxtra/codegen/codegen.cpp:62-121 | an instruction that is not the block's last keeps an updated flag if and only if some later one of the block needs the flag, and none between them updates it: by reading it, by transferring control to where it is required, or, for the last one, because it is required behind the block or nothing is known of what is |
| `DeadStores.LastKeptExact` | src/oxtra/codegen/codegen.cpp:62-121 | the block's last instruction keeps what is needed where control goes on, or all its updates where that is not known |
| `DeadStores.DeadDropped` | src/oxtra/codegen/codegen.cpp:62-121 | an update that a later instruction of the block, not its last, makes again is dropped if nothing up to there reads the flag or transfers control |
| `Liveness.BlockKeepsWhatIsRead` | src/oxtra/codegen/codegen.cpp:62-121 | in a block that ends well, a flag update that the pass drops is read on no path from any successor, and the pass makes no instruction store a flag it does not update |
| `Elision.ElisionExact` | src/oxtra/codegen/codegen.cpp:62-121 | for every program and every choice of stores to drop, no run can be told from the one that stores all flags if and only if each instruction stores, of the flags that may be read behind it, just those it declares |
| `Elision.PreservedExact` | src/oxtra/codegen/codegen.cpp:62-121 | for the stores that the backward pass keeps, in any set of blocks that end well: no run can be told from the one that stores all flags if and only if no dropped update may be read behind it |
| `Elision.PreservesMeaning` | src/oxtra/codegen/codegen.cpp:62-121 | then every run, of whatever length on whatever data, is at the same instruction, with the same data and the same value in every flag that may still be read |
| `Elision.HiddenByUnsure` | src/oxtra/codegen/codegen.cpp:62-121 | wherever a dropped update may be read, a path leads from there, past no instruction that declares an update of the flag, to one that declares it and may leave the flag alone |
| `Elision.SureHidesNothing` | src/oxtra/codegen/codegen.cpp:62-121 | if all declared updates are sure, no dropped update may be read behind it, so that elision preserves every run of every such program |
| `Elision.RepeatLosesFlags` | src/oxtra/codegen/instructions/string/repeatable.h:23-26 | a comparison, the same comparison repeated, and a jump that reads the zero flag: at every depth the first one's flags are dropped, and some run can be told from the one that stores all flags |
| `Liveness.FallThroughExact` | src/oxtra/codegen/codegen.cpp:85-121 | a block that runs into the next one keeps every observable store if and only if its last instruction stores nothing it does not declare and every flag it reads, once updated earlier in the block, is demanded for another reason behind its last update |
| `Liveness.FallThroughLosesCarry` | src/oxtra/codegen/codegen.cpp:85-121 | two instructions, the second reading the carry the first one stores, on which the pass drops that store at every depth above zero |
| `Immediates.LoadImmediate` | src/oxtra/codegen/helper.cpp:94-201 | for every 64-bit constant, the appended words are at most eight, leave exactly the constant in the register and change nothing else; the slicing loop terminates |
| `Addresses.LoadAddress` | src/oxtra/codegen/helper.cpp:203-228 | for every address, exactly eight words that leave it in the register and change nothing else, the carries of all five packages included |
| `Relink.AppendEob` | src/oxtra/codegen/helper.cpp:230-233 | a block end of nine words that loads the successor's address and leaves through the static rerouting |
| `Relink.SlotReroutes` | src/oxtra/codegen/helper.cpp:230-233 | wherever such a block end stands in running code, control arrives at the rerouting routine with the successor's address in t3 and everything else unchanged |
| `Relink.UpdateBasicBlock` | src/oxtra/codegen/codegen.cpp:173-200 | linking writes only the nine words of the slot, on the relative and on the absolute path; running the slot from its start then jumps to the target if and only if the distance is not one of the 2048 just below 2^31 |
| `Relink.LinkExact` | src/oxtra/codegen/codegen.cpp:184-194 | running the linked slot from any state jumps to the target exactly for distances outside those 2048, and 2^32 bytes below it exactly for those inside |
| `Relink.LinkMisses` | src/oxtra/codegen/codegen.cpp:184-194 | the slot that starts at 0x10000, linked to 0x8000f800, jumps to 0xffffffff8000f800 and not to its target |
| `Registers.MoveToRegister` | src/oxtra/codegen/helper.cpp:8-56 | for every access width and either form of source: from every state, the appended words leave the value merged into the register at that width and spoil nothing but `temp`, provided the registers are apart and a source said to be clear is clear |
| `Registers.MoveGives` | src/oxtra/codegen/helper.cpp:8-56 | the same of the words themselves: the value is written at the access width (64, 32 zero-extending, 16, low 8, high 8 bits) and the rest of the register is kept |
| `Registers.MergeReads` | src/oxtra/codegen/helper.cpp:8-92 | reading a sub-register gives what was last written to it, and writing the low or the high byte does not disturb the other |
| `MemoryOperands.TranslateMemory` | src/oxtra/codegen/instruction.cpp:118-202 | the returned register holds base + index * 2^scale + displacement, modulo 2^64 or zero-extended from 32 bits, even where the destination is the base or the index; smaller address sizes end the program |
| `MemoryAccess.ReadFromMemory` | src/oxtra/codegen/instruction.cpp:204-264 | the operand is loaded, zero- or sign-extended, from the location of which `AccessExact` says when it is the effective address, and the returned partial address still locates it; address sizes below 4 end the program |
| `MemoryAccess.WriteToMemory` | src/oxtra/codegen/instruction.cpp:266-330 | the register is stored, and nothing else changes but the temporaries: at that same location, or, given a partial address, at the one that it and the operand's displacement name; address sizes below 4 end the program |
| `MemoryAccess.SameLocation` | src/oxtra/codegen/instruction.cpp:204-330 | after anything that leaves the partial address alone, a store through it meets the location the load used |
| `MemoryAccess.AccessExact` | src/oxtra/codegen/instruction.cpp:204-330 | loads and stores meet the effective address if and only if the address has 64 bits, or its displacement does not fit 12 bits, or base, index and displacement add up to less than 2^32 |
| `MemoryAccess.AccessMisses` | src/oxtra/codegen/instruction.cpp:204-330 | with a 32-bit address and 2^32 in the base, the access goes to 2^32 and the effective address is 0 |
| `GuestMemory.ReadBack` | src/oxtra/codegen/instruction.cpp:204-330 | what a store of 1, 2, 4 or 8 bytes wrote, a load of that width from the same address reads back, also where the address wraps around |
| `FlagState.ZeroEvaluated` | src/oxtra/codegen/instruction.cpp:346-349 | the emitted words leave 1 in the register if the stored result is zero, else 0, and change nothing else |
| `FlagState.SignEvaluated` | src/oxtra/codegen/instruction.cpp:351-361 | the emitted words leave the top bit of the stored result at its stored width |
| `FlagState.ParityEvaluated` | src/oxtra/codegen/instruction.cpp:363-380 | folding the stored byte three times and inverting it leaves 1 exactly for an even number of ones |
| `FlagState.CarryEvaluated` | src/oxtra/codegen/instruction.cpp:390-396 | calling the stored evaluator leaves its answer in t4 and spoils t5, t6 and ra alone |
| `FlagState.OverflowEvaluated` | src/oxtra/codegen/instruction.cpp:382-388 | the same for the overflow evaluator |
| `FlagUpdates.UpdateZero` | src/oxtra/codegen/instruction.cpp:411-442 | stores the value, cut to the operand width, if the flag is asked for, and touches no other flag |
| `FlagUpdates.UpdateSign` | src/oxtra/codegen/instruction.cpp:457-470 | stores the value and the position of its top bit if the flag is asked for, and touches no other flag |
| `FlagUpdates.UpdateParity` | src/oxtra/codegen/instruction.cpp:485-491 | stores the low byte if the flag is asked for, and touches no other flag |
| `FlagUpdates.UpdateCarry` | src/oxtra/codegen/instruction.cpp:538-559 | stores the operands and the evaluator if the flag is asked for, and changes nothing else |
| `FlagUpdates.UpdateOverflow` | src/oxtra/codegen/instruction.cpp:493-514 | the same for overflow |
| `LazyFlags.CarryAdded` | src/oxtra/codegen/instructions/arithmetic/flags_carry.inc.s:31-51 | at every width, the evaluator, given the source and the sum, answers whether the destination exceeds what the source leaves of the largest value |
| `LazyFlags.CarryAdced` | src/oxtra/codegen/instructions/arithmetic/flags_carry.inc.s:53-77 | the same of a sum with a carry |
| `LazyFlags.BorrowSubtracted` | src/oxtra/codegen/instructions/arithmetic/flags_carry.inc.s:31-51 | given the difference and what was subtracted from, the same evaluator answers whether more was subtracted than there was |
| `LazyFlags.OverflowAdded` | src/oxtra/codegen/instructions/arithmetic/flags_overflow.inc.s:51-88 | at every width, the evaluator answers whether two operands of one sign have a sum of the other |
| `LazyFlags.OverflowAdced` | src/oxtra/codegen/instructions/arithmetic/flags_overflow.inc.s:134-176 | the same of a sum with a carry |
| `LazyFlags.OverflowSubtracted` | src/oxtra/codegen/instructions/arithmetic/flags_overflow.inc.s:178-215 | the evaluator answers whether the operands have different signs and the difference not that of what was subtracted from |
| `LazyFlags.OverflowConstant` | src/oxtra/codegen/instructions/arithmetic/flags_overflow.inc.s:90-132 | for every constant added, the evaluators for positive and for negative constants, given what was there before and the sum, answer that if and only if the constant has the sign they are for at the operand's width, or is zero there; else they answer the opposite |
| `LazyFlags.OverflowTakenConstant` | src/oxtra/codegen/instructions/arithmetic/flags_overflow.inc.s:90-132 | the same of the evaluators exchanged, for every constant subtracted |
| `EagerFlags.ZeroReads` | src/oxtra/codegen/instruction.cpp:346-442 | the zero flag read from the stored state is that of the value at its width |
| `EagerFlags.SignReads` | src/oxtra/codegen/instruction.cpp:351-470 | the sign flag read from the stored state is the top bit of the value at its width |
| `EagerFlags.ParityReads` | src/oxtra/codegen/instruction.cpp:363-491 | the parity flag read from the stored state is 1 exactly if the low byte has an even number of ones |
| `ArithmeticOps.ExecuteAdc` | src/oxtra/codegen/instructions/arithmetic/adc.cpp:4-40 | the destination becomes destination + source + carry, the carry read before it is overwritten; only carry and overflow state change, as far as asked for, and they then read as `BinaryOperation.FlagsExact` says |
| `ArithmeticOps.SubImmediate` | src/oxtra/codegen/instructions/arithmetic/sub.cpp:15-40 | subtracting any 12-bit constant, the one whose negation does not fit included, carry and overflow likewise |
| `ArithmeticOps.ExecuteRegister` | src/oxtra/codegen/instructions/logic/logic.cpp:5-35 | each of add, adc, sub, and, or and xor computes its function of the two registers, changes carry and overflow state only as far as asked for, and leaves them as `BinaryOperation.FlagsExact` says |
| `ArithmeticOps.ExecuteImmediate` | src/oxtra/codegen/instructions/arithmetic/add.cpp:15-32 | the same with a constant |
| `Narrowing.NarrowCompute` | src/oxtra/codegen/instructions/binary_operation.cpp:10-51 | the low 8, 16 or 32 bits of a result depend on those of the operands alone |
| `BinaryOperation.Generate` | src/oxtra/codegen/instructions/binary_operation.cpp:10-51 | for each of the six operations, every width and every register, high-byte, memory and constant operand: unless an address below 32 bits ends the program, the destination holds the x86 result merged as its width demands, no other guest register and no other byte of memory changes, only the flags asked for are touched, zero, sign and parity then read as those of the result, and carry and overflow as the next row says |
| `BinaryOperation.FlagsExact` | src/oxtra/codegen/instructions/arithmetic/add.cpp:4-32 | the carry read behind the instruction is that of x86 at the operand's width if and only if the operands are not one register of 32 or 64 bits, or the operation is neither add nor adc, or the register's top bit is clear (for adc, equals the carry before); the overflow is that of x86 if and only if the source is not a short constant that is added or subtracted, differs from zero at the operand's width and has another sign there |
| `BinaryOperation.ItselfLosesCarry` | src/oxtra/codegen/instructions/arithmetic/add.cpp:4-13 | 0x80000000 added to itself at 32 bits carries, and the carry reads as clear |
| `BinaryOperation.ExtendedConstant` | src/oxtra/codegen/instructions/arithmetic/add.cpp:15-27 | a short constant that is sign-extended from the operand's width, or from less, is none of these |
| `BinaryOperation.ConstantExact` | src/oxtra/codegen/instruction.cpp:79-88 | the constant used is the one sign-extended to the destination if and only if it fits 12 bits, is at least as wide as the destination, or is not cut short by its own width |
| `BinaryOperation.ConstantMisses` | src/oxtra/codegen/instruction.cpp:79-88 | the constant -0x1000 of 32 bits, beside a destination of 64, is used as 0xfffff000 |
| `Jumps.GenerateJcc` | src/oxtra/codegen/instructions/control-flow/conditional-jumps/jcc.cpp:23-311 | for each of the sixteen conditions, wherever the code stands: it leaves for the target if the condition holds of the flags before it, and else runs to its own end; all back-patched distances are right |
| `Selects.GenerateCmov` | src/oxtra/codegen/instructions/memory/cmov/cmov.cpp:4-225 | for each of the sixteen conditions: the destination takes the source exactly if the condition holds, its upper half being cleared at 32 bits in either case |
| `ByteSets.GenerateSetcc` | src/oxtra/codegen/instructions/logic/setcc/setcc.cpp:21-151 | for each of the sixteen conditions: the low byte becomes 1 if the condition holds and else 0, by the same reading of the condition as the two rows above, and the rest of the register is kept |
| `StringLoops.GenerateString` | src/oxtra/codegen/instructions/string/repeatable.cpp:4-20 | movs, stos and lods: without a prefix one step; with it, for every count and memory, the back-patched loop ends with the memory, rsi, rdi, rax and rcx of that many steps, and a count of zero changes nothing; address sizes below 8 end the program |
| `StringLoops.LoopRepeats` | src/oxtra/codegen/instructions/string/repeatable.cpp:4-20 | any code that does one step is made to repeat it by the three words put around it, wherever the loop stands |
| `CompareLoops.GenerateCmps` | src/oxtra/codegen/instructions/string/repeatable.cpp:22-74 | cmps with no prefix, REPZ or REPNZ: the loop stops where iterating the comparison stops, with the same rsi, rdi and rcx; zero, sign, parity and carry read as those of the last difference, and overflow as that of the opposite one; a count of zero touches nothing, flags included |
| `CompareLoops.LoopCompares` | src/oxtra/codegen/instructions/string/repeatable.cpp:37-63 | the loop around the comparison and any code that stores the flags of the difference behave so wherever they stand |
| `CompareLoops.CompareOverflowExact` | src/oxtra/codegen/instructions/string/repeatable.cpp:65-74 | the overflow of the opposite difference is that of the comparison if and only if the difference is not the most negative value of its width |
| `CompareLoops.CompareMisses` | src/oxtra/codegen/instructions/string/repeatable.cpp:65-74 | comparing the bytes 0 and 0x80 overflows, and the flag reads as clear |
| `StaticLists.StaticList.Add` | src/oxtra/utils/static_list.h:43-77 | a section that ends at the cursor, or a new one, comes back contiguous, holding its old contents and the new elements, even when it moves to a new chunk; no other section that was handed out changes; it fails if and only if the section would exceed a chunk, does not fit what is left while no chunk is to be had, or nothing is added to nothing; what room is left afterwards |
| `StaticLists.TakesFits` | src/oxtra/utils/static_list.h:43-77 | adding the parts of a section one after the other fails if and only if together they exceed a chunk, or are more than what is left while no chunk is to be had |
| `StaticLists.NothingRefused` | src/oxtra/utils/static_list.h:43-77 | nothing is refused, in a list that has never had a chunk, though there is room for it |
| `StaticLists.StaticList.AllocateEntry` | src/oxtra/utils/static_list.h:84-95 | an element nobody had before, while every section handed out keeps its contents; memory is exhausted if and only if nothing is left and no chunk is to be had |
| `CodeCache.ScanAnswers` | src/oxtra/codegen/codestore/codestore.cpp:13-48 | what looking up an address means: the host address of the instruction that starts there; nothing if and only if no block contains it; the end of the program if and only if it lies inside an instruction |
| `CodeCache.GrownIndexed` | src/oxtra/codegen/codestore/codestore.cpp:90-102 | when a block inside the image grows by an instruction, up to the image's end, entering it at the front of the list of the page it now reaches keeps every list sorted and complete |
| `CodeCache.EndListExact` | src/oxtra/codegen/codestore/codestore.cpp:89-102 | the list that line 96 takes exists if and only if the block does not end where the image ends; if it does, it always reaches that line, and the list would be the one behind the last |
| `CodeCache.EndListMissing` | src/oxtra/codegen/codestore/codestore.cpp:89-102 | an instruction from 4094 to 4096 in an image of one page at 0 takes list 1 of one |
| `CodeStores.CodeStore.Find` | src/oxtra/codegen/codestore/codestore.cpp:13-48 | binary search in the page's list and the scan of the block found agree with the lookup over all blocks |
| `CodeStores.CodeStore.GetNextBlock` | src/oxtra/codegen/codestore/codestore.cpp:50-64 | the block with the least start at or above the address, and none if and only if there is none |
| `CodeStores.CodeStore.CreateBlock` | src/oxtra/codegen/codestore/codestore.cpp:66-68 | a new empty block; all others and the invariant of the store are kept |
| `CodeStores.CodeStore.AddInstruction` | src/oxtra/codegen/codestore/codestore.cpp:70-124 | for every instruction up to the image's end: the newest block gains it and its words, even when they move; all other blocks keep theirs, the blocks stay disjoint and the page lists sorted and complete; a gap is refused if and only if the block is not empty and ends elsewhere; the words, or else their number, are refused exactly when their list has no room for them; where nothing else fails, it runs off the page lists if and only if the instruction ends where the image ends |
| `CodeStores.CodeStore.InsertEnd` | src/oxtra/codegen/codestore/codestore.cpp:89-102 | a block that ends in another page than it starts in comes to the front of that page's list, all other lists staying as they are; the list is missing if and only if the block ends where the image ends |
| `Translation.DecodeBlock` | src/oxtra/codegen/codegen.cpp:38-60 | the instructions follow one another from the start, up to the end of the block or to the next known block, and never reach beyond it; decoding fails if and only if the chain from the start, none of it ending a block, reaches bytes that cannot be decoded before the limit, and the lookup is found to have failed if and only if the limit is the start itself |
| `Translation.Translate` | src/oxtra/codegen/codegen.cpp:25-171 | for every address at an instruction boundary, the result is where the store now finds it; what it found before it finds at the same place; blocks stay disjoint and sound, and linked to one another as `FoundTranslates` says; the outcome is the one that `ReplyOnce` says is determined: the program stops for a page that may not be executed, for bytes that cannot be decoded on the way to the end of the new block, for a list without room for its words, or at the end of the page lists, each exactly when this is so and nothing before it; the last, if nothing else stops it, if and only if the guest runs straight on from the address up to where the image ends |
| `Translation.ReplyOnce` | src/oxtra/codegen/codegen.cpp:25-171 | the program, the blocks there are, the room of the two lists and the address determine whether the program stops, and for which reason, or goes on |
| `Translation.FoundTranslates` | src/oxtra/codegen/codegen.cpp:25-171 | whatever the store finds, after any number of translations, are the words of a translation of the instruction at that address; if it does not end its block, the store finds the next instruction right behind those words, or at the host address to which they are linked |
| `Translation.Begin` | src/oxtra/codegen/codegen.cpp:14-23 | the empty store satisfies the invariant for every program that fits the image |
| `HostToGuest.Debugger.EndBlock` | src/oxtra/debugger/debugger.cpp:107-142 | the sorted list of finished blocks gains exactly the new one |
| `HostToGuest.ResolveIn` | src/oxtra/debugger/debugger.cpp:355-373 | a host address among the words of an instruction of the block resolves to that instruction |
| `HostToGuest.Debugger.ResolveBlock` | src/oxtra/debugger/debugger.cpp:337-374 | over all finished blocks, a host address among the words of an instruction resolves to that instruction, and one outside all of them to zero, whatever block was resolved last |
| `HostToGuest.FoundResolves` | src/oxtra/debugger/debugger.cpp:337-374 | the host address found for a guest address lies among the words of the instruction there, so that resolving inverts finding |
| `HostToGuest.StoredApart` | src/oxtra/codegen/codestore/codestore.cpp:70-87 | no host address belongs to two blocks of the store |
| `ReturnStacks.PredictionIsSafe` | src/oxtra/codegen/instructions/control-flow/ret.cpp:4-49 | in every run of calls, returns and translations, however nested and whatever the guest wrote over its stack, every return goes where it would go without prediction |
| `ReturnStacks.RunsAreSafe` | src/oxtra/codegen/instructions/control-flow/ret.cpp:4-49 | the same for every run from the start of the program |
| `ReturnStacks.RingRefinesStack` | src/oxtra/codegen/instructions/control-flow/call.cpp:24-29 | with v entries of the ring in agreement with an unbounded stack, min(v + 1, 256) agree after a call and max(v - 1, 0) after a return |
| `ReturnStacks.NestedRunsPredicted` | src/oxtra/codegen/instructions/control-flow/ret.cpp:18-25 | in a well-nested run with at most 256 calls open, every guess is right |
| `ReturnStacks.StartPredicted` | src/oxtra/codegen/instructions/control-flow/ret.cpp:18-25 | the same for every such run from the start of the program |
| `ReturnCode.GenerateRet` | src/oxtra/codegen/instructions/control-flow/ret.cpp:4-49 | the emitted words, wherever they stand and whatever ring and table hold, take the address from the guest's stack, raise rsp past it and the operand, pop the ring with its pointer wrapped, and leave by the way the guess demands |
| `ReturnCode.EmittedReturns` | src/oxtra/codegen/instructions/control-flow/ret.cpp:4-49 | the words of a return do that for every amount popped, with a constant added or loaded |
| `ReturnCode.ReturnsToPopped` | src/oxtra/codegen/instructions/control-flow/ret.cpp:4-49 | on a machine that represents a valid predictor, those words continue at the translation of the guest address on top of the guest's stack, and the machine then represents the predictor after the return |
| `ReturnCode.GenerateCall` | src/oxtra/codegen/instructions/control-flow/call.cpp:7-44 | the call table gains the return address as its last entry; the emitted words, wherever they stand, push that entry's offset on the ring and its return address on the guest's stack, and leave for the target |
| `ReturnCode.CalledRepresents` | src/oxtra/codegen/instructions/control-flow/call.cpp:23-41 | the machine after a call represents the predictor after the push, and the return address is on top of the guest's stack |
| `ReturnCode.CallMatched` | src/oxtra/codegen/instructions/control-flow/ret.cpp:18-25 | the return behind a call finds the entry that call pushed |
| `ReturnRuns.RunsRefine` | src/oxtra/codegen/instructions/control-flow/ret.cpp:4-49 | in every run of emitted calls and returns, translations and other guest code, the machine goes on representing the predictor of `ReturnStacks`, and its returns continue at the translations of the guest addresses on top of the guest's stack |
| `ReturnRuns.EntriesInOrder` | src/oxtra/codegen/instructions/control-flow/call.cpp:7-41 | whatever ran in between, entry i of the call table holds the return address of the i-th call translated |
| `Encoding.RoundTripExact` | src/oxtra/codegen/encoding/encoding.cpp:9-330 | for every integer and multiply instruction, parsing its word gives the instruction back if and only if its distance, where it has one, is even and fits; which word it is the next three rows say |
| `Listings.EncodedListed` | src/oxtra/codegen/encoding/encoding.cpp:9-330 | the word of every instruction is the one listed in sections 2.2, 2.3 and chapter 19 of the RISC-V User-Level ISA v2.2: opcode, function codes and registers in bits 6..0, 14..12, 31..25, 11..7, 19..15 and 24..20, and each bit of an immediate where its format puts it |
| `Listings.ParsedListed` | src/oxtra/codegen/decoding/decoding.cpp:330-552 | the parser names an instruction if and only if the word is the one listed for it and its distance is even and fits |
| `Listings.OtherListed` | src/oxtra/codegen/decoding/decoding.cpp:330-552 | it names an instruction of another kind if and only if the word is one listed for that |
| `Encoding.EncodingInjective` | src/oxtra/codegen/encoding/encoding.cpp:9-330 | different instructions with distances that fit have different words |
| `Encoding.NamedLegal` | src/oxtra/codegen/decoding/decoding.cpp:93-552 | whatever word the parser names is an instruction whose distance is even and fits |
| `Encoding.BranchRoundTrip` | src/oxtra/codegen/decoding/decoding.cpp:330-552 | the scattered bits of a branch distance come back together, sign included |
| `Encoding.JumpRoundTrip` | src/oxtra/codegen/decoding/decoding.cpp:330-552 | the scattered bits of a jump distance come back together, sign included |
| `Encoding.ExtendedIs` | src/oxtra/codegen/decoding/decoding.cpp:330-552 | the 16-bit immediate the parser shows is the number the machine adds |
| `Decoder.DecodePrefixes` | libs/fadec/src/fadec.cpp:66-214 | the loop over the prefix bytes answers the scan about which the next two rows speak |
| `Decoder.PrefixRun` | libs/fadec/src/fadec.cpp:66-214 | the run of prefixes ends at the first byte that is none or behind a REX prefix; the last segment and the last repeat prefix count, the others count if they occur |
| `Decoder.VexRun` | libs/fadec/src/fadec.cpp:66-214 | or behind a VEX prefix of two or three bytes, if and only if it is complete |
| `Decoder.DecodeInstruction` | libs/fadec/src/fadec.cpp:361-662 | the loop over the opcode tables answers the decoding about which the next rows speak |
| `Reassembly.DecodedExact` | libs/fadec/src/fadec.cpp:361-662 | bytes decode to an instruction and a length if and only if they begin with those of a form, put together from prefixes, opcode, fields of a ModRM and a SIB byte, displacement and immediate, whose meaning is that instruction and whose length is that length: registers with the bits of REX and VEX, scale, index and base, the sign-extended displacement, also relative to the instruction pointer or with no base, and the immediate |
| `Formatted.EncodedReads` | libs/fadec/src/fadec.cpp:361-662 | whatever is put together from fields, with any bytes behind it, decodes to its meaning, with its length |
| `Reassembly.FormFound` | libs/fadec/src/fadec.cpp:361-662 | whatever decodes has been put together from fields |
| `Reassembly.VexBIgnored` | libs/fadec/src/fadec.cpp:159-199 | of two VEX prefixes of three bytes that differ in the bit for the base register, the same is decoded |
| `Decoder.DelimitedExact` | libs/fadec/src/fadec.cpp:361-662 | for every table and all bytes, a decoded instruction has 1 to 15 bytes, all of them given; any bytes that begin with them decode alike if and only if they cover the byte looked at to choose an opcode extension: with its ModRM operand, with an entry that takes the byte, or with an immediate |
| `Decoder.SelfDelimiting` | libs/fadec/src/fadec.cpp:361-662 | for every table whose extended entries read on, this is so of every decoded instruction |
| `Decoder.NotDelimited` | libs/fadec/src/fadec.cpp:361-662 | a table and two byte strings that agree on the decoded length, of which only one decodes; the length does not cover the byte looked at |
| `Numbers.PrintNumber` | src/oxtra/debugger/debugger_print.cpp:6-53 | the loops over the digits print the form about which the round trips below speak |
| `Numerals.PrintedHex` | src/oxtra/debugger/debugger_print.cpp:6-53 | the hexadecimal form of every 64-bit value is 0x and sixteen lower-case digits of that value, whatever padding is asked for |
| `Numerals.PrintedDec` | src/oxtra/debugger/debugger_print.cpp:6-53 | the decimal form is a minus if the top bit is set, the padding, and the digits of the magnitude without leading zeros; padding and digits have the length asked for, or the digits alone if they are longer; zero with no digits asked for has 255 characters of padding |
| `Numbers.ParseNumber` | src/oxtra/debugger/debugger_menu.cpp:457-495 | the loop over the characters reads as the round trips below say, every malformed input included |
| `Numerals.ReadExact` | src/oxtra/debugger/debugger_menu.cpp:457-495 | for every input: a string is read as a number, with a sign and a value, if and only if it is a numeral of that sign, a plus or a minus only where signs are allowed, with at least one digit, of either case behind 0x, whose value modulo 2^64 that is |
| `Numbers.HexRoundTrip` | src/oxtra/debugger/debugger_menu.cpp:457-495 | every 64-bit value is read back from its hexadecimal form |
| `Numbers.DecimalRoundTrip` | src/oxtra/debugger/debugger_menu.cpp:457-495 | sign and magnitude of every 64-bit value, 2^63 included, are read back from its decimal form if and only if it is padded with zeros or not at all |
| `Numbers.DefaultUnpadded` | src/oxtra/debugger/debugger_print.cpp:6-53 | with the default number of digits it is never padded |
| `Numbers.UnsignedRefused` | src/oxtra/debugger/debugger_menu.cpp:457-495 | where no sign is allowed, the decimal form of every value with the top bit set is refused |
| `Numbers.ZeroPadded` | src/oxtra/debugger/debugger_print.cpp:6-53 | zero, printed with no digits asked for, is padded 255 times and not read back |

## Findings

Where the code does not do what its surroundings rely on, the model keeps the code as it is:

* A block that runs into an already translated one starts the backward pass from that block's requirements and never
  adds those of its own last instruction (codegen.cpp:86-89). A flag that this instruction reads can be dropped:
  `Liveness.FallThroughLosesCarry` shows it, `Liveness.FallThroughExact` says exactly when it does not happen.
* Repeated comparisons declare all flags (repeatable.h:25-26) and touch none of them if the count is zero
  (repeatable.cpp:61-62), so that the backward pass drops flags that are read behind them: `Elision.RepeatLosesFlags`
  shows it, `Elision.PreservedExact` says exactly when dropping stores can be noticed, and `Elision.HiddenByUnsure`
  that only such instructions are to blame.
* Constants that do not fit 12 bits are cut to their own width without regard to their sign (instruction.cpp:82-84),
  and binary_operation.cpp:22-26 asks for that. Where the constant is narrower than the destination it can lose its
  sign: `BinaryOperation.ConstantMisses` shows it, `BinaryOperation.ConstantExact` says exactly when.
* `add` and `adc` store the operands of the carry behind the addition (add.cpp:12 and adc.cpp:30-34), and so the sum
  twice if a register of 32 or 64 bits is added to itself. The carry then reads as clear, or as it was:
  `BinaryOperation.ItselfLosesCarry` shows it, `BinaryOperation.FlagsExact` says exactly when that is wrong.
* The sign of a short constant chooses the evaluator of the overflow (add.cpp:16-24, sub.cpp:18-26), which has the
  operand's width. `BinaryOperation.FlagsExact` says for which constants it answers the opposite;
  `BinaryOperation.ExtendedConstant` that constants as the decoder extends them are none of these.
* Comparisons of strings hand the overflow its elements in an order in which it takes the left from the right one
  (repeatable.cpp:74, flags_overflow.inc.s:178-215). `CompareLoops.CompareMisses` shows elements for which the flag is
  wrong, `CompareLoops.CompareOverflowExact` says that it is for exactly one difference of each width.
* The guard of the relative link (codegen.cpp:184) admits distances from 0x7ffff800 to 0x7fffffff, for which the
  rounded upper part does not fit AUIPC; the jump lands 2^32 bytes too low. `Relink.LinkMisses` shows it,
  `Relink.LinkExact` says that it happens for exactly these distances.
* Loads and stores whose displacement fits 12 bits never cut a 32-bit address (instruction.cpp:214-239 and 277-300),
  though `translate_memory` does. `MemoryAccess.AccessMisses` shows it, `MemoryAccess.AccessExact` says exactly when
  it matters.
* `print_number` computes the padding of zero with no digits asked for in eight bits and pads it 255 times
  (`Numbers.ZeroPadded`).
* Decimal forms that are padded with blanks are not read back (`Numbers.DecimalRoundTrip`).
* The decoder looks at the ModRM byte to choose some table entries (fadec.cpp:414-426), and counts it only if something
  in the entry takes it: `Decoder.NotDelimited` shows a table with which two instructions of length one differ in the
  byte behind it, `Decoder.DelimitedExact` says exactly when the length covers what was looked at.
* The decoder takes over the bit of a VEX prefix for the base register only outside 64-bit mode (fadec.cpp:174-175), the
  one mode in which it means something. `Reassembly.VexBIgnored` says that it chooses nothing, `Reassembly.DecodedExact`
  what is decoded instead.
* A `nop` has no words (logic.cpp:17-19), and adding none to a list that has no chunk yet gives null, which is taken
  for a failure (static_list.h:43-77, codestore.cpp:74-79): a program whose first instruction it is ends there.
  `StaticLists.NothingRefused` shows it; `StaticLists.StaticList.Add` says that this is the only list that refuses what
  it has room for.
* A block that ends where the image ends is entered in the list of a page behind the last one (codestore.cpp:89-102).
  `CodeCache.EndListMissing` shows it, `CodeCache.EndListExact` says that it happens for exactly these blocks, and
  `CodeStores.CodeStore.AddInstruction` that adding an instruction meets it if and only if it ends there, and
  `Translation.Translate` that translating an address does if and only if the guest runs straight on up to there.

## Left out

* CodeStores.CodeStore.Find: the page of the address must be one of the image's, as codegen.cpp:27-29 checks first.
* Translation.Translate: what each instruction is translated to is a parameter (`body`, `link`) of which only its size
  and a chosen meaning are known; the emitters above are not composed with it, nor are the flag sets of `Liveness`.
* Translation.FoundTranslates: the meaning of a translation is any predicate of the address, the host address it is
  linked to and its words, that the emitted words satisfy.
* BinaryOperation.Generate: memory operands have no segment override, and are read and written where
  `MemoryAccess.AccessExact` says.
* BinaryOperation.ExtendedConstant: which extension the decoder gives a constant is said by `Reassembly.DecodedExact`;
  the two are not composed.
* DeadStores.KeptExact: an update that only the block's last instruction overwrites is kept where that instruction has
  no known branch and does not run into a known block, for the pass then demands all flags behind it.
* DeadStores.LastKeptExact: likewise.
* StaticLists.StaticList.Add: the system's memory is a number of chunks still to be had for each list.
* Translation.ReplyOnce: where in the lists new words lie is not determined by it.
* GuestMemory.ReadBack: guest bytes, ring and call table are three regions that do not overlap.
* HostToGuest.Debugger.EndBlock: every instruction has at least one word, as it has under the debugger.
* Relink.UpdateBasicBlock: the slot of 17 words that the stepping debugger uses; and the absolute value of the least
  64-bit integer, undefined in C++, is taken to be large.
* ReturnCode.GenerateCall: direct calls; indirect calls and jumps are not modelled. Where the grown call table moves to
  is a step of its own in `ReturnRuns`.
* ReturnCode.ReturnsToPopped: the routines behind the jump table are taken at their word (dispatcher.h:73-88).
* ReturnRuns.RunsRefine: likewise; the steps that translate a call, save a translated return address, or run other guest
  code are those after which the machine represents the predictor after that event. Those of calls and returns are not:
  they are runs of the emitted words.
* Selects.GenerateCmov: the source is a register, not memory.
* ByteSets.GenerateSetcc: the destination is a low byte register, not memory and not a high byte.
* MemoryAccess.ReadFromMemory: segment overrides; likewise MemoryAccess.WriteToMemory.
* Numbers.DecimalRoundTrip: padding with anything but the zeros and blanks that its callers ask for.
* Decoder.DelimitedExact: 64-bit mode only; the contents of the opcode table are a parameter. Likewise
  Reassembly.DecodedExact.
* BinaryOperation.ConstantExact: whether the opcode table has constants narrower than their destination is not part of
  this model.
* Elision.PreservedExact: which declared updates are sure is a parameter of the guest program.
* Encoding.RoundTripExact: the parser's result is an instruction, not the text it prints; floating point is left out.
* `fault_exit` is an out-parameter or an outcome; a batch that overflows its buffer is `Faulted`, and nothing is
  claimed of the code behind that point.
* The assembly of the jump table's routines: their entries are outcomes of running code, and the carry and overflow
  evaluators are functions of the stored operands. Those of inc, dec and neg, and those that call back into the host
  program, are only known to answer 0 or 1.
* Jcxz, cmp, test, neg, not, inc, dec, shifts, rotations, multiplication, division, bit tests, scas, and the moves and
  stack instructions built from the same helpers.
* `DebuggerBatch`, break points, menus and signal handling; ELF loading, page protection, system calls, logging and
  argument parsing.
* Block entries are indices, and host addresses a chunk and a position in it; the order of chunks in memory is not
  modelled.
* JALR clears the lowest bit of its target; all targets here are addresses of words.
