# The AngelScript compiler back end, modelled and verified

This project models the last stages of the AngelScript compiler that is vendored under
`3rdParty/angelscript`, and proves that they do what they are for. `dafny verify dfyconfig.toml`
checks everything.

## What is modelled

**The byte code assembler and optimizer** (`asCByteCode`, `as_bytecode.cpp`).

- `Op`, `Tables`, `Instructions`, `CodeLists`, `Layout`: the opcodes, the size and stack-effect tables for
  both pointer sizes, the instruction record, label search, positions and sizes.
- `Machine`: what a list of instructions means. The 32-bit integer instructions that the rewrites name, the
  tests, the jumps, pushes and global accesses are concrete, and so are all instructions on addresses, object
  pointers and handles that they name: variables have addresses, an address on the stack or in the register is
  read and written through, handles are counted, VAR leaves an offset that GETREF resolves, and a null pointer
  raises an exception. A jump and a SUSPEND leave all values alone. Every other instruction is an unspecified
  step that reads the variables the optimizer takes it to read, and the value register if the interpreter
  does, writes at most its first operand, and may raise an exception. Theorems hold for every choice of these
  steps, and all are about this one machine.
- `Liveness`: `IsTempVarRead`, proved exact. `Windows` and `Blocks`: the simulation argument behind all
  rewrites, over arbitrary flow graphs with loops, for runs that return, end, leave or raise an exception.
  `Discipline`, `DisciplineKept`, `AddressesKept`: what the optimizer takes for granted about its lists, and
  that its rewrites keep it. `UnusedValues`, `Postponement`, `JumpFusion`, `GlobalAccess`, `Addresses`,
  `AddressRules`: each rewrite preserves every run. `PlainLists`, `LocalMeaning`: so does the optimizer as a
  whole. `Directives`: no rewrite touches a cue, label or directive, or loses the release of an object.
- `LinkedCode`: the doubly linked list of instructions; each edit of the links is shown to be the edit of a
  sequence, on which everything else works.
- `Skeletons`, `DepthKept`, `Peephole`, `UnusedKept`, `SequencesKept`, `Sequences`, `ByteCodes`: the
  optimizer itself. Each method is proved to make exactly the specified edit; each edit keeps sizes, stack
  effects and the stack depth at every label, jump and return, and keeps a complete list complete; and the
  main loop ends.
- `StackDepth`, `PostProcessing`: the stack depth of every reachable instruction and the removal of the rest.
- `Assembling`, `Emitters`, `Linking`, `Words`, `Programs`, `Finalizing`: the final passes down to 32-bit
  words with relative jumps, the machine that runs those words, and the proof that they run as the
  labelled list does. `MissedEntries`: what the passes do to jump tables of a shape that the compiler does
  not make.
- `StackUse`: no run has more words on its operand stack than `largestStackUsed`. `LineCues`, `LineNumbers`: no
  instruction loses its LINE or its SUSPEND, and from any word of it the line and section are found again.
  `TryBlocks`: an exception in an instruction is caught by the innermost try block around it.
- `Compiling`: the local optimizer and the final passes together, from a complete list to its words.
  `Example`: a program that meets all that is asked for there.
- `Scopes`, `LiveObjects`: the table of scopes and object variables, and what an exception destroys.

**Whole-program analyses of the builder** (`asCBuilder`, `as_builder.cpp`).

- `ClassOrder`: the inheritance relation stays free of cycles, and the rotate-to-end loop sorts classes.
- `Containment`: the check that no class contains itself by value is sound and complete.
- `VirtualTables`: slots keep their index down a hierarchy and hold the most derived implementation;
  interface chunks are where they are looked for.
- `GarbageFlags`: a class that is not garbage collected is in no circle of references.
- `GlobalVariables`: global variables are compiled up to the least fixpoint.

**Supports.** `DynamicArray` (`asCArray`), `ConfigGroups` (`asCConfigGroup`), `ArgumentSplit` (the argument
loops of the System V AMD64 calling convention, section 3.2.3 of its processor supplement).

## Where the code does not do what it should

- A constant that is both operands of one instruction (`SetV4 t, c; ADDi d, t, t`) is folded although the
  instruction still reads it: `FoldOfRepeatedOperandFails` gives such a list, `ArithFoldExact` and
  `CompareFoldExact` say exactly when folding is right. Each turn is right unless it meets such a pair; the
  whole-optimizer theorem asks for a list in which no constant can come to meet such a user
  (`PlainLists.NoConflict`), which can be read off the list before it is optimized and stays true.
- Exceptions can be lost. A division whose result is not used is removed together with its exception, and
  RDSPtr in front of PopPtr together with its null check (`NullReadLost`). All rewrites uphold what a list
  does where it raises no exception; on lists where neither can happen (`LocalMeaning.AllStrict`: no
  instruction that only writes a variable raises an exception, and there is no RDSPtr or no PopPtr) they keep
  the exceptions too.
- The rule for a handle that is stored in a temporary and copied does not look at the variable that is
  released. If that is a third one, its release is lost: `OtherReleaseLost` says so of every such sequence,
  `StoredHandlePreserves` that the rule is right of all others.
- The last case of the VAR rules is not an alternative of the others, so it can apply to what they leave;
  `OptimizeVAR` models this. It then drops a GETREF that would have resolved an address once more, so it
  only upholds the list (`ResolvedTwiceUpholds`). The rule "PSF, ChkRefS, RDSPtr" can never be reached,
  because the rule before it already takes every ChkRefS; it is therefore absent.
- `IsTempRegUsed` does not know the 64-bit increments (INCi64, DECi64), which read the value register, nor
  six instructions that set it (CpyVtoR8, CmpPtr, CMPi64, CMPu64, CALLINTF, CallPtr). To miss one that sets
  it is harmless; that an increment is missed is harmless on disciplined lists.
- The look into a final class that decides whether a handle to it can close a circle ignores function
  pointers: `DelegateMissed` gives classes, and `ClearedInCircle` says that a cleared class can be in a
  circle if and only if it reaches a class with a function pointer.

## Hypotheses of the main theorems

- The discipline of a list (`Discipline.Disciplined`), which `IsTempVarRead` and `IsTempRegUsed` build on: no
  temporary is read behind a SUSPEND before it is written; behind a SUSPEND, jump or label the value register
  is set before it is used as an operand; and what it holds behind a conditional jump, or behind an access
  through it by WRTV4, RDR4, LdGRdR4, INCi or DECi, is neither returned, in a function that returns its value
  there, nor used as the address of a 64-bit increment. The compiler provides this by setting the register
  right before each use of it, as in comparisons (`as_compiler.cpp:15618-15645`) and calls
  (`as_compiler.cpp:16295-16317`); every instruction that sets it counts, known to `IsTempRegUsed` or not. The discipline is a property of the
  list alone, it stays true through every turn, and `FusionOfKeptRegisterFails` shows what happens without it.
- `OptimizerPreserves` (`PlainLists.Fit`): a disciplined list whose constants are 32 bits. A variable that is both
  operands of one calculation or comparison is not written by CpyVtoV4, nor by SetV4 if it is a temporary or
  takes the result of that calculation. A temporary into which values are written is not reached by address, but
  every variable is that LDV or RefCpyV names, or that PSF or VAR names in a list which follows addresses with
  RDSPtr, ChkRefS, GETOBJREF or REFCPY; LDG, LdGRdR4 and PGA name globals. STOREOBJ, RefCpyV and AllocMem write no
  temporary, so the rule for a stored handle, which has its own theorem, does not apply. RefCpyV and REFCPY
  are not used for types that are owned by value.
- The same (`PlainLists.WellBehaved`): other instructions that only write a variable have no other effect than an
  exception; float addition and multiplication commute; an offset added to a pointer that is not null does
  not give null.
- Unspecified steps, such as calls, do not reach the variables of the frame through addresses. After an exception
  `Machine` stops; the state outside the frame at that point is kept.
- `Finalize` and `Assemble`: reachable jumps have a label, reachable conditional jumps a successor, some
  consistent labelling with stack depths exists, jump tables are whole, sizes are as emitted, operands fit
  their fields and the program is shorter than 2^31 words.
- The same two: once unreachable code is gone, no jump table has an entry before its last one that leads to a
  label with nothing but jumps to it in between (`Assembling.SafeTable`). `Optimize` would delete such an
  entry and shift the others (`UnsafeTableMissed`), so the condition is exact. The compiler never makes such
  a table: `as_compiler.cpp:4330` gives each case a label of its own, and `as_compiler.cpp:4447-4458` ends each
  range with a case, so the last two entries differ, which is enough (`DifferentEndsSafe`).
- `OptimizeAndAssemble`: all of the above, for a list that ends in RET and whose jump tables end in two
  different labels. The compiler also applies the local optimizer to parts of a function before they are put
  together; that is covered by `OptimizerPreserves` alone, since labels may then be missing. `RequirementsMet`
  gives a program that meets these requirements, with a loop and an increment through an address,
  `SmallStrict` shows that it can lose no exception, and `SmallTurns` that the optimizer changes it.
- `NeverMore`: calls and the other unspecified steps change the height of the stack by what they are counted for,
  and no reached instruction takes more from it than is there.
- `ClearedInCircle`: types that are not compiled now and not garbage collected never lead to a class that is.
- `CompileGlobalVariables`: having more variables compiled never makes one fail.
- `ValidateAll`: existing shared classes contain by value only such classes and not themselves, having passed
  the check before.

## Model

| member | source | states |
|---|---|---|
| CodeLists.TargetIsNearest | 3rdParty/angelscript/source/as_bytecode.cpp:1835-1885 | a jump leads to the nearest label of its number behind it or, failing that, the nearest before it, and nowhere only if there is no such label |
| Liveness.IsTempVarRead | 3rdParty/angelscript/source/as_bytecode.cpp:1257-1345 | the work-list search ends on every flow graph, loops included, and answers yes exactly if some path from the next instruction reads the variable before an overwrite, a RET or a SUSPEND |
| Liveness.Scan | 3rdParty/angelscript/source/as_bytecode.cpp:1270-1340 | following one path collects every place the search still has to visit and finds a read exactly if the path comes to one first |
| Liveness.LiveUnfold | 3rdParty/angelscript/source/as_bytecode.cpp:1257-1345 | a live variable that is not read here is live at some successor |
| Liveness.LiveNext | 3rdParty/angelscript/source/as_bytecode.cpp:1257-1345 | a variable live at a successor is live here unless this instruction overwrites it |
| Windows.TargetMoves | 3rdParty/angelscript/source/as_bytecode.cpp:1835-1885 | replacing a window that holds no label moves every jump target to its own new place and invents none |
| Windows.StepMatches | 3rdParty/angelscript/source/as_bytecode.cpp:395-588 | outside a replaced window, states that differ only in dead variables, or in a register nobody asks for, take corresponding steps |
| Windows.ReplacementPreserves | 3rdParty/angelscript/source/as_bytecode.cpp:395-588 | over arbitrary flow graphs with loops: if the two windows simulate each other up to dead variables, the two lists have the same finishing runs, in both directions |
| Blocks.BlockReplaces | 3rdParty/angelscript/source/as_bytecode.cpp:395-588 | a straight sequence can stand in for another wherever both lead from related states to related states |
| UnusedValues.DeadStorePreserves | 3rdParty/angelscript/source/as_bytecode.cpp:410-430 | removing a write without side effects to a variable that is read neither afterwards nor behind a SUSPEND leaves every run the same on all other variables, the operand stack, the register and the outside world |
| UnusedValues.DeadStoreUpholds | 3rdParty/angelscript/source/as_bytecode.cpp:410-430 | if the write can raise an exception, such as a division, all runs that do not raise it stay the same |
| UnusedValues.LoadOfGlobalPreserves | 3rdParty/angelscript/source/as_bytecode.cpp:421-426 | a load of a global whose value is dead but whose address is used keeps only the address |
| UnusedValues.UnusedLoadPreserves | 3rdParty/angelscript/source/as_bytecode.cpp:421-430 | and if nobody asks for the address either it disappears |
| UnusedValues.CompareFoldPreserves | 3rdParty/angelscript/source/as_bytecode.cpp:434-449 | a constant compared with and then dead becomes an immediate operand |
| UnusedValues.ArithFoldPreserves | 3rdParty/angelscript/source/as_bytecode.cpp:451-496 | a constant used in a calculation becomes an immediate operand, also with the operands exchanged where the operation commutes |
| UnusedValues.ArithFoldExact | 3rdParty/angelscript/source/as_bytecode.cpp:451-473 | for 32-bit addition, subtraction and multiplication the folded instruction has the effect of the pair if and only if the two operands are different variables, or the pair multiplies by zero |
| UnusedValues.CompareFoldExact | 3rdParty/angelscript/source/as_bytecode.cpp:434-449 | the folded comparison gives the same register if and only if the two operands are different variables |
| UnusedValues.FoldOfRepeatedOperandFails | 3rdParty/angelscript/source/as_bytecode.cpp:451-473 | a list on which the optimizer folds a constant that is both operands, and changes the result of the program |
| UnusedValues.CopyPreserves | 3rdParty/angelscript/source/as_bytecode.cpp:498-547 | a value calculated or loaded into a temporary only to be copied is produced in its destination |
| UnusedValues.PushPreserves | 3rdParty/angelscript/source/as_bytecode.cpp:509-586 | a constant or global loaded into a temporary only to be pushed is pushed directly |
| UnusedValues.SetGlobalPreserves | 3rdParty/angelscript/source/as_bytecode.cpp:521-533 | a constant copied to a global by way of a temporary is stored there, with either pointer size |
| UnusedValues.SetGlobalOperands | 3rdParty/angelscript/source/as_bytecode.cpp:521-533 | the address and the constant of SetG4 are found again where the interpreter reads them, although with 64-bit pointers the constant is kept in two wArg halves |
| UnusedValues.RegisterRoundTripPreserves | 3rdParty/angelscript/source/as_bytecode.cpp:549-559 | the register copied to a dead temporary and straight back need not be copied |
| UnusedValues.UnusedPreserves | 3rdParty/angelscript/source/as_bytecode.cpp:395-588 | every case of RemoveUnusedValue upholds all runs of a disciplined list, up to temporaries and the register, under the stated condition (a removed store has no side effect but an exception, a folded constant is not both operands of its user, float operations commute), and keeps exceptions too if the removed store raises none |
| ByteCodes.ByteCode.RemoveUnusedValue | 3rdParty/angelscript/source/as_bytecode.cpp:395-588 | edits the list exactly as the specification says, keeps it well formed with the same stack depths, and makes progress |
| ByteCodes.ByteCode.FoldSetV4 | 3rdParty/angelscript/source/as_bytecode.cpp:432-534 | each of the six uses of a loaded constant, in the order the code tries them |
| ByteCodes.ByteCode.JoinTwo | 3rdParty/angelscript/source/as_bytecode.cpp:536-588 | each of the four pairs that pass a value through a temporary |
| ByteCodes.ByteCode.IsTempRegUsed | 3rdParty/angelscript/source/as_bytecode.cpp:1347-1437 | the scan ahead finds a reader of the register before something that clobbers it |
| Instructions.ReadersKnown | 3rdParty/angelscript/source/as_bytecode.cpp:1347-1437 | what the scan takes for readers are the instructions that read the register in the interpreter, all but the 64-bit increments |
| Instructions.SettersKnown | 3rdParty/angelscript/source/as_bytecode.cpp:1347-1437 | and what it takes to set it is all that does but six instructions |
| Discipline.RegisterUnused | 3rdParty/angelscript/source/as_bytecode.cpp:1347-1437 | on a disciplined list a register that the scan takes for unused is read on no path by an instruction the scan looks for, although the scan does not follow jumps |
| Discipline.SpliceKeepsDiscipline | 3rdParty/angelscript/source/as_bytecode.cpp:395-588 | a window replaced by one that asks for no more, on any flow graph, makes no place live that was not, and the list stays disciplined |
| DisciplineKept.UnusedKeepsDiscipline | 3rdParty/angelscript/source/as_bytecode.cpp:395-588 | every case of RemoveUnusedValue keeps the list disciplined |
| Postponement.MoveKeepsDiscipline | 3rdParty/angelscript/source/as_bytecode.cpp:346-393 | so does moving a constant down |
| DisciplineKept.FusedJumpKeeps | 3rdParty/angelscript/source/as_bytecode.cpp:955-975 | so does fusing a test, or ClrHi, with a jump |
| DisciplineKept.AccessKeeps | 3rdParty/angelscript/source/as_bytecode.cpp:718-740 | so does accessing a global directly |
| ByteCodes.ByteCode.IsLastUse | 3rdParty/angelscript/source/as_bytecode.cpp:590-597 | a temporary not read afterwards |
| Postponement.MovePreserves | 3rdParty/angelscript/source/as_bytecode.cpp:346-393 | moving a constant down over instructions that neither read nor write it, nor are jumps or labels, preserves all runs |
| Postponement.PostponePreserves | 3rdParty/angelscript/source/as_bytecode.cpp:346-393 | postponing a constant in a disciplined list and combining it with its use preserves all runs, exceptions included, up to temporaries and the register, whenever the combination is sound |
| ByteCodes.ByteCode.PostponeInitOfTemp | 3rdParty/angelscript/source/as_bytecode.cpp:346-393 | succeeds exactly when the constant has a later use it can be combined with; otherwise the list is exactly as before |
| ByteCodes.ByteCode.MoveBack | 3rdParty/angelscript/source/as_bytecode.cpp:376-390 | undoes the move: the original list is restored |
| LinkedCode.InstructionList.AddInstruction | 3rdParty/angelscript/source/as_bytecode.cpp:1633-1654 | appending through the links appends to the sequence |
| LinkedCode.InstructionList.RemoveInstruction | 3rdParty/angelscript/source/as_bytecode.cpp:294-304 | unlinking a node leaves a well-linked list whose sequence lacks just that instruction |
| LinkedCode.InstructionList.InsertBefore | 3rdParty/angelscript/source/as_bytecode.cpp:281-292 | linking a node in front of another inserts it in the sequence there |
| LinkedCode.InstructionList.DeleteInstruction | 3rdParty/angelscript/source/as_bytecode.cpp:1932-1943 | the same edit, and the neighbour it answers |
| LinkedCode.InstructionList.GoBack | 3rdParty/angelscript/source/as_bytecode.cpp:328-335 | two nodes back, or the first |
| LinkedCode.InstructionList.GoForward | 3rdParty/angelscript/source/as_bytecode.cpp:337-344 | two nodes forward, or the last |
| LinkedCode.InstructionList.FindLabel | 3rdParty/angelscript/source/as_bytecode.cpp:1835-1885 | following the links, forward and then back, finds the target of a jump |
| ByteCodes.ByteCode.OptimizeSwapPtr | 3rdParty/angelscript/source/as_bytecode.cpp:306-326 | two pushes and a swap become the pushes in the other order; nothing else is changed |
| ByteCodes.ByteCode.OptimizeClrHi | 3rdParty/angelscript/source/as_bytecode.cpp:666-699 | ClrHi behind a test disappears, and ClrHi before JZ or JNZ makes it test the low byte |
| ByteCodes.ByteCode.OptimizeLDV | 3rdParty/angelscript/source/as_bytecode.cpp:701-716 | an increment through the register becomes one on the variable, unless the register is used |
| ByteCodes.ByteCode.OptimizeLDG | 3rdParty/angelscript/source/as_bytecode.cpp:718-740 | an access to a global through the register becomes a direct one |
| ByteCodes.ByteCode.OptimizeCHKREF | 3rdParty/angelscript/source/as_bytecode.cpp:742-770 | which null checks are dropped |
| ByteCodes.ByteCode.OptimizePopPtr | 3rdParty/angelscript/source/as_bytecode.cpp:772-827 | which pushes are dropped together with the pop |
| ByteCodes.ByteCode.OptimizeStoredHandle | 3rdParty/angelscript/source/as_bytecode.cpp:828-866 | the seven instructions that copy a returned handle become two if the temporary is dead |
| ByteCodes.ByteCode.OptimizeRDSPtr | 3rdParty/angelscript/source/as_bytecode.cpp:868-899 | a dereferenced address becomes a push of what it points to |
| ByteCodes.ByteCode.OptimizePopRPtr | 3rdParty/angelscript/source/as_bytecode.cpp:901-941 | the address of a member loaded into the register |
| ByteCodes.ByteCode.OptimizeREFCPY | 3rdParty/angelscript/source/as_bytecode.cpp:943-953 | a handle copied into a variable |
| ByteCodes.ByteCode.OptimizeJump | 3rdParty/angelscript/source/as_bytecode.cpp:955-975 | a test and a jump on its result become one jump |
| ByteCodes.ByteCode.OptimizeFREE | 3rdParty/angelscript/source/as_bytecode.cpp:977-1000 | a release moves in front of a push |
| ByteCodes.ByteCode.OptimizeVAR | 3rdParty/angelscript/source/as_bytecode.cpp:1001-1033 | references to variables, including that the last rule is tried even after one of the others |
| SequencesKept.SwapKept | 3rdParty/angelscript/source/as_bytecode.cpp:648-664 | the replacement keeps sizes and stack effects in agreement with the tables, keeps the stack depth at every label, jump and return, and is nearer the end of the optimization |
| SequencesKept.JumpKept | 3rdParty/angelscript/source/as_bytecode.cpp:666-699 | the same for a jump fused with what is before it |
| SequencesKept.RegisterKept | 3rdParty/angelscript/source/as_bytecode.cpp:701-740 | the same for accesses through the register |
| SequencesKept.PopKept | 3rdParty/angelscript/source/as_bytecode.cpp:772-827 | the same for pushed and popped pointers |
| SequencesKept.StoredHandleKept | 3rdParty/angelscript/source/as_bytecode.cpp:828-866 | the same for the seven instructions of a returned handle |
| SequencesKept.CheckKept | 3rdParty/angelscript/source/as_bytecode.cpp:879-886 | the same for the exchange of ChkRefS, which shortens nothing but lowers the weight of the list |
| SequencesKept.FreeKept | 3rdParty/angelscript/source/as_bytecode.cpp:977-1000 | the same for FREE moved forward, which lowers the sum of the positions of the FREEs |
| Peephole.WindowKept | 3rdParty/angelscript/source/as_bytecode.cpp:646-1033 | replacing a window by one of the same net stack effect leaves the control skeleton with all its stack depths unchanged, and a complete list complete |
| UnusedKept.UnusedProgress | 3rdParty/angelscript/source/as_bytecode.cpp:395-588 | every rewrite of RemoveUnusedValue keeps sizes, stack effects and skeleton, for both pointer sizes, and makes progress |
| UnusedKept.PostponeProgress | 3rdParty/angelscript/source/as_bytecode.cpp:346-393 | so does every postponement |
| DepthKept.LevelsKept | 3rdParty/angelscript/source/as_bytecode.cpp:2021-2113 | such a window in a list with one stack depth for each reachable instruction: what can be reached in the new list could be reached before, it has one depth too, jumps still have labels, and the last two entries of jump tables still differ |
| Layout.StaysWritable | 3rdParty/angelscript/source/as_bytecode.cpp:1945-2019 | sizes, operand ranges and the bound on the length survive a window of no more words |
| JumpFusion.TestJumpPreserves | 3rdParty/angelscript/source/as_bytecode.cpp:955-975 | in a disciplined list a test and a conditional jump on its result, replaced by the jump on the other sense of the register, run the same; the register then holds something else, for which nobody asks |
| JumpFusion.ClearedJumpPreserves | 3rdParty/angelscript/source/as_bytecode.cpp:681-699 | so do ClrHi and a jump replaced by a jump on the low byte |
| JumpFusion.ClearAfterTestPreserves | 3rdParty/angelscript/source/as_bytecode.cpp:668-680 | and a test without the ClrHi behind it |
| JumpFusion.FusionOfKeptRegisterFails | 3rdParty/angelscript/source/as_bytecode.cpp:955-975 | a list that returns the result of a test behind the jump on it: it is not disciplined, and the fused list returns something else |
| GlobalAccess.WriteDirectPreserves | 3rdParty/angelscript/source/as_bytecode.cpp:718-740 | LDG and WRTV4 run like CpyVtoG4 if the register is not used afterwards |
| GlobalAccess.ReadDirectPreserves | 3rdParty/angelscript/source/as_bytecode.cpp:718-740 | LDG and RDR4 like CpyGtoV4 |
| GlobalAccess.ReadKeepingPreserves | 3rdParty/angelscript/source/as_bytecode.cpp:718-740 | and like LdGRdR4 in any case |
| AddressRules.SwapPreserves | 3rdParty/angelscript/source/as_bytecode.cpp:648-664 | two pushes and a swap do the same as the pushes in the other order, whatever is pushed |
| AddressRules.IncrementPreserves | 3rdParty/angelscript/source/as_bytecode.cpp:701-716 | LDV and INCi, or DECi, through the address in the register run like IncVi, or DecVi, on the variable if the register is not used afterwards |
| AddressRules.CheckPreserves | 3rdParty/angelscript/source/as_bytecode.cpp:742-770 | a null check that is dropped cannot fail, or the next instruction fails in its place |
| AddressRules.CheckMovedAlike | 3rdParty/angelscript/source/as_bytecode.cpp:879-886 | a check of what a pointer points to, and then reading it, do the same as reading it and then checking that |
| AddressRules.PopPreserves | 3rdParty/angelscript/source/as_bytecode.cpp:772-827 | a pointer that is pushed, used in place and popped: what is left checks, releases and counts the same; all rules but those for RDSPtr and a stored handle |
| AddressRules.ReadPopUpholds | 3rdParty/angelscript/source/as_bytecode.cpp:775-778 | RDSPtr and PopPtr without the RDSPtr run the same wherever the pointer is not null |
| AddressRules.NullReadLost | 3rdParty/angelscript/source/as_bytecode.cpp:775-778 | where it is null, an exception is lost |
| AddressRules.StoredHandlePreserves | 3rdParty/angelscript/source/as_bytecode.cpp:830-866 | the seven instructions of a returned handle run like the two that are left, with all reference counts, but for the temporary that they clear |
| AddressRules.OtherReleaseLost | 3rdParty/angelscript/source/as_bytecode.cpp:830-866 | if they release a third variable, which the rule does not check, that release is lost |
| AddressRules.ReadPreserves | 3rdParty/angelscript/source/as_bytecode.cpp:868-899 | reading through an address that was pushed runs like pushing what is there |
| AddressRules.MemberPreserves | 3rdParty/angelscript/source/as_bytecode.cpp:901-941 | the three instructions that leave the address of a member in the register run like the one that does, null checks included |
| AddressRules.HandleCopyPreserves | 3rdParty/angelscript/source/as_bytecode.cpp:943-953 | a handle copied through the address of a variable runs like one copied into it |
| AddressRules.ReleasePreserves | 3rdParty/angelscript/source/as_bytecode.cpp:977-1000 | a release in front of the push of an address runs like one behind it |
| AddressRules.NamedPreserves | 3rdParty/angelscript/source/as_bytecode.cpp:1001-1023 | an offset that is resolved later runs like the address, or the object, pushed at once |
| AddressRules.NamedReferencePreserves | 3rdParty/angelscript/source/as_bytecode.cpp:1025-1033 | so does one resolved below another pointer |
| AddressRules.ResolvedTwiceUpholds | 3rdParty/angelscript/source/as_bytecode.cpp:1025-1033 | on what another rule has left the same rule drops a GETREF that could only fail |
| AddressesKept.RuleKeeps | 3rdParty/angelscript/source/as_bytecode.cpp:629-1034 | a rule on addresses that asks for no place more than the window did keeps the list disciplined |
| ByteCodes.ByteCode.OptimizeLocally | 3rdParty/angelscript/source/as_bytecode.cpp:629-1034 | the main loop always ends though it goes forward again after each rewrite; it keeps sizes, stack effects and the stack depth at every label, jump and return; a list that was complete stays complete; the list goes through exactly specified turns, is unchanged only if none was possible, and at the end none is possible up to where the last was made |
| Directives.TurnKeepsMarkers | 3rdParty/angelscript/source/as_bytecode.cpp:629-1034 | a turn leaves all LINEs, SUSPENDs, labels and directives in their order, and all releases of objects, unless it is one of two on handles |
| Directives.HandleReleased | 3rdParty/angelscript/source/as_bytecode.cpp:779-866 | and then it puts exactly one release, of the handle that is overwritten, in the place of none or of that of the temporary |
| Directives.OptimizerKeepsMarkers | 3rdParty/angelscript/source/as_bytecode.cpp:629-1034 | hence the whole optimizer leaves all LINEs, SUSPENDs, labels and directives |
| PlainLists.NoConflictUnused | 3rdParty/angelscript/source/as_bytecode.cpp:395-588 | a list in which no constant can meet a user that has it for both operands, and no address is followed that is not meant to be, stays one, although copies become constants and results move to other variables |
| LocalMeaning.TurnPreserves | 3rdParty/angelscript/source/as_bytecode.cpp:629-1034 | on the lists described under Hypotheses every turn, of whatever rule, upholds every run up to temporaries and the register, the list stays such a list, and a list that can lose no exception loses none and stays such a list too |
| LocalMeaning.OptimizerPreserves | 3rdParty/angelscript/source/as_bytecode.cpp:629-1034 | hence so does the whole optimizer, whatever turns it makes |
| StackDepth.TargetKept | 3rdParty/angelscript/source/as_bytecode.cpp:2115-2134 | among the kept instructions a label search finds the kept instruction it found before |
| StackDepth.RunsInStep | 3rdParty/angelscript/source/as_bytecode.cpp:2021-2134 | without its unreachable instructions a list runs in lock step with the original |
| StackDepth.DeadCodeRemovalPreserves | 3rdParty/angelscript/source/as_bytecode.cpp:2115-2134 | removing what no path reaches preserves every run |
| PostProcessing.CodeVerifier.AddPath | 3rdParty/angelscript/source/as_bytecode.cpp:236-250 | its assertion holds: an instruction reached again is reached with the same depth |
| PostProcessing.CodeVerifier.Branch | 3rdParty/angelscript/source/as_bytecode.cpp:2055-2100 | all successors of a jump, fork or table are opened |
| PostProcessing.CodeVerifier.Visit | 3rdParty/angelscript/source/as_bytecode.cpp:2021-2113 | the work list ends with everything reachable marked with its depth |
| PostProcessing.CodeVerifier.PostProcess | 3rdParty/angelscript/source/as_bytecode.cpp:2021-2134 | exact: given a consistent depth labelling, every reachable instruction gets its depth, the largest depth is the maximum of 0 and all depths behind a reachable instruction, and exactly the unreachable instructions other than block markers are deleted |
| Finalizing.KeptResolves | 3rdParty/angelscript/source/as_bytecode.cpp:2115-2134 | every jump that remains still has its label |
| PostProcessing.MarkedIsReachable | 3rdParty/angelscript/source/as_bytecode.cpp:2115-2134 | marked means reachable, in both directions |
| StackUse.KnownHeight | 3rdParty/angelscript/include/angelscript.h:1700-1960 | the stack effect in the table is what the instruction does to the operand stack |
| StackUse.NeverMore | 3rdParty/angelscript/source/as_bytecode.cpp:2021-2113 | in every run the operand stack is as high at an instruction as the depth recorded there, and never has more words than largestStackUsed |
| Assembling.NothingDeleted | 3rdParty/angelscript/source/as_bytecode.cpp:1108-1190 | an instruction from which every run just goes on can be deleted |
| Assembling.TablesStaySafe | 3rdParty/angelscript/source/as_bytecode.cpp:1112-1190 | deleting what Optimize deletes leaves safe jump tables safe |
| Assembling.JumpToNextDeleted | 3rdParty/angelscript/source/as_bytecode.cpp:1187-1188 | a jump to the label behind it can be deleted, also as the last entry of a jump table |
| Assembling.PopBeforeReturnDeleted | 3rdParty/angelscript/source/as_bytecode.cpp:1128-1135 | a PopPtr before RET can be deleted |
| Assembling.RemovalPreserves | 3rdParty/angelscript/source/as_bytecode.cpp:1112-1190 | each removal preserves every run if the jump tables are safe, and they stay so |
| Emitters.RemovalsPreserve | 3rdParty/angelscript/source/as_bytecode.cpp:1095-1191 | hence so do all removals together |
| LineCues.RemovalKeepsCues | 3rdParty/angelscript/source/as_bytecode.cpp:1112-1190 | a removal leaves every instruction but a cue, Block or VarDecl the LINE and the SUSPEND that were the last in front of it |
| Emitters.RemovalsKeepCues | 3rdParty/angelscript/source/as_bytecode.cpp:1095-1191 | hence so do all removals together |
| LineCues.LatestOfKept | 3rdParty/angelscript/source/as_bytecode.cpp:2115-2134 | in what PostProcess leaves, the last LINE in front of an instruction is the last one that is reached |
| MissedEntries.UnsafeTableMissed | 3rdParty/angelscript/source/as_bytecode.cpp:1187-1188 | safety is needed: whatever Optimize makes of a list with a table that is not safe, at the end the label that its last value should lead to stands two words or more in front of where it does lead |
| MissedEntries.SharedLastLabelDiffers | 3rdParty/angelscript/source/as_bytecode.cpp:1187-1188 | such a list, its two removals, and a state from which the list returns 5 and its words return 0 |
| Finalizing.DifferentEndsSafe | 3rdParty/angelscript/source/as_compiler.cpp:4447-4458 | tables whose last two entries have different labels are safe, whatever unreachable code is deleted |
| Emitters.Emitter.Optimize | 3rdParty/angelscript/source/as_bytecode.cpp:1095-1191 | ends for every list; all it does are the removals specified; nothing is left to remove anywhere; and every instruction has the same last LINE and the same last SUSPEND in front of it as before |
| Emitters.Emitter.ResolveJumpAddresses | 3rdParty/angelscript/source/as_bytecode.cpp:1887-1929 | answers 0 exactly if all labels exist, and then has replaced each label by the distance to it, and that of a try block by its address |
| Emitters.Emitter.ExtractLineNumbers | 3rdParty/angelscript/source/as_bytecode.cpp:1464-1509 | each LINE becomes a SUSPEND or disappears, and the buffers hold the table |
| Linking.LinesIncrease | 3rdParty/angelscript/source/as_bytecode.cpp:1478-1490 | positions in the line table strictly increase |
| Linking.LinesExact | 3rdParty/angelscript/source/as_bytecode.cpp:1478-1490 | the table holds exactly the last LINE at each position that has one |
| LineNumbers.LineOfInstruction | 3rdParty/angelscript/source/as_bytecode.cpp:1464-1509 | for every word of an instruction the entry at or in front of it is that of the last LINE up to the instruction |
| LineNumbers.CuesTell | 3rdParty/angelscript/source/as_bytecode.cpp:68-83 | hence for every word of an instruction of the list that is given to Finalize the table tells the line and section of the last LINE in front of it that is reached |
| LineNumbers.ChangesSuffice | 3rdParty/angelscript/source/as_compiler.cpp:449-462 | the sections that are stored, only where they change, tell the section of every entry |
| LineNumbers.ScriptFunction.TakeLineNumbers | 3rdParty/angelscript/source/as_compiler.cpp:449-462 | stores the lines and the changes of section |
| LineNumbers.ScriptFunction.GetLineNumber | 3rdParty/angelscript/source/as_scriptfunction.cpp:887-935 | the binary search ends and finds the line of the last entry at or in front of the position, or else the first; and its section, or else that of the function |
| Linking.LinedAt | 3rdParty/angelscript/source/as_bytecode.cpp:1492-1503 | every instruction but a dropped LINE is still there, in order |
| Linking.Links | 3rdParty/angelscript/source/as_bytecode.cpp:1464-1509 | words that hold the final list hold the labelled list, each instruction at its own position with its jump resolved |
| Words.DecodeWritten | 3rdParty/angelscript/source/as_bytecode.cpp:1945-2019 | reading an instruction back from its words gives exactly its operands, for every instruction type, with 16-bit and 32-bit fields and whatever the words held before |
| Words.FieldsFill | 3rdParty/angelscript/include/angelscript.h:1651-1699 | for every type the fields that are written and read are as many bits as its name tells, and behind half a word for the instruction they fill exactly the words of the size table |
| Words.WrittenAlike | 3rdParty/angelscript/source/as_bytecode.cpp:1957-2013 | no operand is lost: two instructions whose words are the same are the same instruction with the same operands |
| Emitters.Emitter.WriteInstruction | 3rdParty/angelscript/source/as_bytecode.cpp:1957-2013 | writes the words of one instruction, all operands of its type included, and no others |
| Emitters.Emitter.GetSize | 3rdParty/angelscript/source/as_bytecode.cpp:1596-1608 | the number of words is the position behind the last instruction |
| Emitters.Emitter.Output | 3rdParty/angelscript/source/as_bytecode.cpp:1945-2019 | after writing, every instruction can be read back at its position |
| Programs.ExecCanon | 3rdParty/angelscript/source/as_context.cpp:2306-2400 | an instruction does the same whether run from the list or from its encoding |
| Programs.InstructionSteps | 3rdParty/angelscript/source/as_context.cpp:2418-2500 | a step of the words with relative jumps is a step of the list with labels |
| Programs.ListToWords | 3rdParty/angelscript/source/as_bytecode.cpp:68-83 | whatever a run of the list comes to, the words come to |
| Programs.WordsToList | 3rdParty/angelscript/source/as_bytecode.cpp:68-83 | and the other way round, unless the list overruns a jump table |
| Finalizing.KeptLaid | 3rdParty/angelscript/source/as_bytecode.cpp:2115-2134 | after PostProcess jumps still resolve, and sizes and ranges are as required by the later passes |
| Finalizing.WordsRunAlike | 3rdParty/angelscript/source/as_bytecode.cpp:68-83 | the words mean what the linked list means |
| Finalizing.MeaningComposes | 3rdParty/angelscript/source/as_bytecode.cpp:68-83 | and what any equivalent list means |
| Finalizing.UpheldComposes | 3rdParty/angelscript/source/as_bytecode.cpp:68-83 | words that mean the same as a list that upholds another uphold that |
| Finalizing.Finalize | 3rdParty/angelscript/source/as_bytecode.cpp:68-83 | all four passes in order: equivalent to the original list, jumps resolved, lines extracted, largest stack depth exact; the line table tells the LINE that each instruction of the original list had |
| Finalizing.Assemble | 3rdParty/angelscript/source/as_bytecode.cpp:68-83 | assembler correctness, end to end: every finishing run of the labelled list is matched by a run of the final words, and every finishing run of the words by one of the list |
| Compiling.CompleteIsFinished | 3rdParty/angelscript/source/as_bytecode.cpp:68-83 | a complete list meets the requirements of the last passes |
| Compiling.OptimizeFinished | 3rdParty/angelscript/source/as_compiler.cpp:230-246 | the local optimizer turns a complete list into one that upholds it, and is equivalent if it can lose no exception; it meets the requirements again, with other stack depths, and has the same cues, labels and directives |
| Compiling.OptimizeAndAssemble | 3rdParty/angelscript/source/as_compiler.cpp:230-246 | the whole back end on one machine: the optimized and assembled words uphold the original list in both directions, up to temporaries and the register of runs that do not return; if the list can lose no exception, words and list have the same finishing runs |
| Scopes.ScopeTable.ExtractObjectVariableInfo | 3rdParty/angelscript/source/as_bytecode.cpp:1511-1573 | each entry says just what one instruction says, in order, and every ObjInfo and, with a try block, every declared object variable has its entry; the table is the list of marks with empty blocks dropped, the assertions hold, and variables are declared at their last VarDecl |
| Scopes.TableSourced | 3rdParty/angelscript/source/as_bytecode.cpp:1511-1573 | the entries are exactly those instructions and marks of blocks, with position, offset and option of each |
| Scopes.EventsSourced | 3rdParty/angelscript/source/as_bytecode.cpp:1511-1573 | before empty blocks are dropped, all blocks too |
| Scopes.PositionInWords | 3rdParty/angelscript/source/as_bytecode.cpp:1565-1568 | the positions are those of the final words |
| Scopes.DeclaredLast | 3rdParty/angelscript/source/as_bytecode.cpp:1549-1552 | a variable is shown from its last declaration on |
| LiveObjects.DetermineLiveObjects | 3rdParty/angelscript/source/as_context.cpp:5181-5296 | in front of the last entry the backward scan that skips closed blocks counts, for every offset, the objects created and not destroyed by what is in scope at the position |
| LiveObjects.TableUsable | 3rdParty/angelscript/source/as_context.cpp:5181-5296 | the table of a function is nested and sorted as the scan needs it, and with empty blocks dropped it gives the same counts |
| TryBlocks.TryTable.ExtractTryCatchInfo | 3rdParty/angelscript/source/as_bytecode.cpp:1575-1594 | one entry for each TryBlock, in order |
| TryBlocks.TryTable.FindCatch | 3rdParty/angelscript/source/as_context.cpp:5461-5480 | finds the last entry that covers the position, though it stops at the first that begins behind it |
| TryBlocks.CatchPosition | 3rdParty/angelscript/source/as_bytecode.cpp:1910-1921 | the address that ResolveJumpAddresses puts into a TryBlock is the position of its catch label |
| TryBlocks.CaughtByInnermost | 3rdParty/angelscript/source/as_context.cpp:5461-5480 | an exception in any word of an instruction is caught at the label of the last TryBlock in front of it whose label is behind it, and not at all if there is none |
| Scopes.FoldReduces | 3rdParty/angelscript/source/as_bytecode.cpp:1533-1540 | the table differs from the marks only by removal of blocks that are empty at one position |
| Scopes.FoldNormal | 3rdParty/angelscript/source/as_bytecode.cpp:1533-1540 | no such block is left |
| Scopes.FoldUnique | 3rdParty/angelscript/source/as_bytecode.cpp:1533-1540 | it is the only result that removing empty blocks, in any order, can end in |
| Scopes.TableInScope | 3rdParty/angelscript/source/as_bytecode.cpp:1511-1573 | at every program position the same blocks are open and the same variables in scope as the marks say |
| Scopes.FoldNested | 3rdParty/angelscript/source/as_bytecode.cpp:1511-1573 | a table of nested blocks is again nested |
| Scopes.FoldLevel | 3rdParty/angelscript/source/as_bytecode.cpp:1511-1573 | and ends at the same level |
| ClassOrder.StaysAcyclic | 3rdParty/angelscript/source/as_builder.cpp:3255-3299 | giving a class without a base one that does not inherit from it makes no cycle |
| ClassOrder.AcyclicHasNoCycle | 3rdParty/angelscript/source/as_builder.cpp:3255-3269 | then no class is its own ancestor |
| ClassOrder.TypeRelations.InheritsFrom | 3rdParty/angelscript/source/as_builder.cpp:3255-3269 | the walk up the base classes ends and finds the class exactly if it is an ancestor |
| ClassOrder.TypeRelations.AddBase | 3rdParty/angelscript/source/as_builder.cpp:3241-3302 | when the base is set, and exactly when no error is reported |
| ClassOrder.TypeRelations.DetermineTypeRelations | 3rdParty/angelscript/source/as_builder.cpp:3172-3313 | inheritance stays free of cycles, existing bases stay, each class gets the first base it accepts, and no error is reported exactly if every name is an interface or mixin, an accepted base, or the base of an existing shared class |
| ClassOrder.NamedBaseTaken | 3rdParty/angelscript/source/as_builder.cpp:3194-3313 | a script class that is named without an error is the base in the end |
| ClassOrder.RotationNearer | 3rdParty/angelscript/source/as_builder.cpp:3322-3344 | each rotation brings the first class whose base is elsewhere one step nearer |
| ClassOrder.ClassSorter.OrderClasses | 3rdParty/angelscript/source/as_builder.cpp:3320-3344 | the rotate-to-end loop ends with a permutation in which no class precedes its base |
| ClassOrder.AncestorsFirst | 3rdParty/angelscript/source/as_builder.cpp:3320-3344 | nor any other ancestor |
| Containment.TrapHasCycle | 3rdParty/angelscript/source/as_builder.cpp:3762-3766 | a set in which every class contains another of the set has a cycle |
| Containment.AllValidNoCycle | 3rdParty/angelscript/source/as_builder.cpp:3679-3767 | if every class was found valid no class contains itself |
| Containment.ByValueMeans | 3rdParty/angelscript/source/as_builder.cpp:3712-3725 | a class is a member by value exactly if a property says so |
| Containment.Validator.Validate | 3rdParty/angelscript/source/as_builder.cpp:3688-3741 | what one validation concludes from the present states of the members |
| Containment.Validator.ValidateRound | 3rdParty/angelscript/source/as_builder.cpp:3686-3757 | a pass that validates nothing leaves every remaining class with a member whose state is not known |
| Containment.Validator.ValidateAll | 3rdParty/angelscript/source/as_builder.cpp:3618-3767 | classes that are not shared and known already are validated; the loop ends, reports an error if and only if some class contains itself by value, directly or not, and calls a class valid only if all its members by value are |
| GarbageFlags.Evaluator.CheckFinal | 3rdParty/angelscript/source/as_builder.cpp:4017-4042 | the look into a final class finds exactly a handle to a script or garbage-collected type or a garbage-collected member |
| GarbageFlags.Evaluator.Evaluate | 3rdParty/angelscript/source/as_builder.cpp:3956-4072 | what the members of one class decide |
| GarbageFlags.Evaluator.EvaluateAll | 3rdParty/angelscript/source/as_builder.cpp:3906-4093 | the requeueing loop ends; what it clears is safe in the order of evaluation; and every class that keeps the flag has a reason to |
| GarbageFlags.NoReturn | 3rdParty/angelscript/source/as_builder.cpp:3906-4093 | no path of references leads from a cleared class back to it or to one evaluated later |
| GarbageFlags.ClearedInCircle | 3rdParty/angelscript/source/as_builder.cpp:3906-4093 | a class that ends without the flag can be in a circle of references if and only if it can reach a class that holds a function pointer |
| GarbageFlags.DelegateMissed | 3rdParty/angelscript/source/as_builder.cpp:4010-4045 | classes on which the shortcut for final classes clears a class that can be in a circle |
| VirtualTables.InterfaceType.Compile | 3rdParty/angelscript/source/as_builder.cpp:3030-3070 | own methods stand in front with their own index; inherited ones follow, each signature once |
| VirtualTables.ObjectType.InheritMethods | 3rdParty/angelscript/source/as_builder.cpp:3391-3461 | slots of the base keep their index; a method that overrides one takes its slot; no error exactly if all overriding is legal |
| VirtualTables.ObjectType.MoveOwnMethods | 3rdParty/angelscript/source/as_builder.cpp:3464-3481 | new methods get the following slots, and stubs in the same order |
| VirtualTables.ObjectType.MakeInterfaceChunks | 3rdParty/angelscript/source/as_builder.cpp:3483-3531 | a chunk for each interface at its offset |
| VirtualTables.ObjectType.CompileMethods | 3rdParty/angelscript/source/as_builder.cpp:3369-3531 | the whole layout of a class; methods[k] is a stub with index k |
| VirtualTables.CompileClasses | 3rdParty/angelscript/source/as_builder.cpp:3346-3531 | the layout of every class of a hierarchy, bases first; no error exactly if all overriding is legal |
| VirtualTables.MethodsInOrder | 3rdParty/angelscript/source/as_builder.cpp:4317-4346 | in every class methods[k] is a stub with index k, and no two have the same key |
| VirtualTables.SlotsKeepIndex | 3rdParty/angelscript/source/as_builder.cpp:3391-3461 | the slots of an ancestor keep their index in every descendant |
| VirtualTables.SlotHoldsMostDerived | 3rdParty/angelscript/source/as_builder.cpp:3391-3461 | and hold the most derived implementation of their method |
| VirtualTables.OwnMethodHasSlot | 3rdParty/angelscript/source/as_builder.cpp:3464-3481 | every method of a class is in some slot under its key |
| VirtualTables.InterfaceSlot | 3rdParty/angelscript/source/as_builder.cpp:3483-3531 | own method j of interface m is found at the offset of m plus j |
| VirtualTables.InterfaceCallReaches | 3rdParty/angelscript/source/as_builder.cpp:3483-3531 | a call through an interface reaches the most derived implementation whenever the class has one method with that signature |
| GlobalVariables.Globals.CompilePass | 3rdParty/angelscript/source/as_builder.cpp:2602-2798 | one pass: what was compiled could be, and if nothing was, nothing can be |
| GlobalVariables.Globals.CompileGlobalVariables | 3rdParty/angelscript/source/as_builder.cpp:2564-2835 | the two-phase loop ends with nothing left to compile, primitives first; each variable was compiled after those it needed; errors added are those of the last pass, warnings those of every variable when it was compiled and of the last pass |
| GlobalVariables.LeastClosed | 3rdParty/angelscript/source/as_builder.cpp:2592-2815 | what was compiled is in every set of variables that leaves nothing to compile: it is the least one |
| GlobalVariables.InitBefore | 3rdParty/angelscript/source/as_builder.cpp:2733-2735 | the initialization order keeps the order of compilation |
| GlobalVariables.NoErrorAllCompiled | 3rdParty/angelscript/source/as_builder.cpp:2809-2834 | if each failure reports an error, no error means everything was compiled |
| DynamicArray.DynArray.Allocate | 3rdParty/angelscript/source/as_array.h:196-278 | contents are kept as far as they fit; the storage is the internal buffer exactly while it is large enough |
| DynamicArray.DynArray.PushLast | 3rdParty/angelscript/source/as_array.h:168-186 | appends; n pushes onto an empty array copy fewer than 2n elements |
| DynamicArray.DynArray.PopLast | 3rdParty/angelscript/source/as_array.h:188-194 | removes the last element |
| DynamicArray.DynArray.SetLength | 3rdParty/angelscript/source/as_array.h:353-368 | elements in both lengths stay |
| DynamicArray.DynArray.Concatenate | 3rdParty/angelscript/source/as_array.h:460-480 | appends the contents of another array or of this one |
| DynamicArray.DynArray.RemoveIndex | 3rdParty/angelscript/source/as_array.h:504-514 | removes one element and keeps the order; beyond the end nothing happens |
| DynamicArray.DynArray.RemoveIndexUnordered | 3rdParty/angelscript/source/as_array.h:529-536 | removes one element of the multiset; all others keep their places except the last |
| DynamicArray.DynArray.SwapWith | 3rdParty/angelscript/source/as_array.h:414-438 | exchanges contents and capacities, and each array still owns its buffer |
| ConfigGroups.ConfigGroup.RefConfigGroup | 3rdParty/angelscript/source/as_configgroup.cpp:78-90 | lists another group once and keeps all counts exact |
| ConfigGroups.ConfigGroup.ReleaseReferences | 3rdParty/angelscript/source/as_configgroup.cpp:239-242 | gives up all references and keeps all counts exact |
| ConfigGroups.ConfigGroup.AddReferencesForType | 3rdParty/angelscript/source/as_configgroup.cpp:99-144 | ends on instances that lead to each other; the instances added are closed under signatures, and their groups are referred to |
| ConfigGroups.OneMoreReference | 3rdParty/angelscript/source/as_configgroup.cpp:89-90 | each count is what others hold plus the number of groups that list the group |
| ArgumentSplit.RegisterOf | 3rdParty/angelscript/source/as_callfunc_x64_gcc.cpp:438-460 | an argument is in a register exactly if fewer than the number of registers of its kind come before it |
| ArgumentSplit.EachOnce | 3rdParty/angelscript/source/as_callfunc_x64_gcc.cpp:438-471 | every argument lands in exactly one place |
| ArgumentSplit.StackCount | 3rdParty/angelscript/source/as_callfunc_x64_gcc.cpp:462-471 | how many arguments go on the stack |
| ArgumentSplit.BeyondRegisters | 3rdParty/angelscript/source/as_callfunc_x64_gcc.cpp:438-471 | it is the number of integers beyond six and of floats beyond eight |
| ArgumentSplit.BufferSuffices | 3rdParty/angelscript/source/as_callfunc_x64_gcc.cpp:59-62 | with at most 35 arguments no index passes the end of the buffer |
| ArgumentSplit.BufferNeeded | 3rdParty/angelscript/source/as_callfunc_x64_gcc.cpp:59-62 | with 36 integer arguments one would |
| ArgumentSplit.FillRegisters | 3rdParty/angelscript/source/as_callfunc_x64_gcc.cpp:443-460 | one register loop: the first arguments of a kind, in order |
| ArgumentSplit.FillStack | 3rdParty/angelscript/source/as_callfunc_x64_gcc.cpp:462-470 | the stack loop: what is left, last first |
| ArgumentSplit.Split | 3rdParty/angelscript/source/as_callfunc_x64_gcc.cpp:438-471 | the whole arrangement: registers filled in order and padded with 0, the rest reversed |

## Left out

- The optimizer's methods work on the sequence of instructions with an index as cursor. `LinkedCode` has the links
  and the edits of them, but the methods are not repeated on nodes.
- LocalMeaning.OptimizerPreserves: covers lists in which STOREOBJ, RefCpyV and AllocMem write no temporary. A temporary
  that holds an object is reached by its address too, and that nothing does so after its last use cannot be read
  off the list; `AddressRules.StoredHandlePreserves` covers the one rule that is about such temporaries.
- Widths: variables are cells, so the width of 64-bit copies and pairs of adjacent 32-bit variables are
  not modelled.
- What runs after an exception: a run that raises one ends there, and a TryBlock does nothing when run. Where it is
  caught, and what is destroyed before that, is covered by `TryBlocks` and `LiveObjects` as far as positions go.
- Optimizations switched off by an engine property; JIT compilation; the profiler and debug output.
- The return-handle tail of `OptimizeLocally` (`as_bytecode.cpp:1036-1092`): it relies on a shape that only the
  compiler bodies establish.
- PostProcessing.CodeVerifier.PostProcess: takes a consistent labelling as given; that its assertions fail on every
  list without one is not claimed, since a path that runs into an instruction already visited is not compared. The
  closing assertion that depths are not negative is a matter of that labelling.
- LiveObjects.DetermineLiveObjects: counts per stack offset; which of several variables at one offset is meant, and the
  skipping of variables declared before the try block, are not modelled.
- Which LINE an instruction has that the local optimizer moves or makes of several: `Directives` keeps the LINEs and
  their order, not their place between the other instructions.
- LineNumbers.LinesTold: speaks of the LINEs that are reached, since `PostProcess` also deletes a LINE that is not.
- Parsing, name lookup and error texts of the builder; mixins, template instances and their re-evaluation during the
  garbage-collection analysis; interface ordering; shared-type matching beyond the flags used here; default arguments.
- VirtualTables.ObjectType.InheritMethods: "same signature" is one key per method that already includes the return
  type for conversion operators, instead of comparing parameter lists.
- GlobalVariables.Globals.CompileGlobalVariables: the compiler is a parameter; values of enumerators, messages and
  init functions are not modelled.
- GarbageFlags.Evaluator.EvaluateAll: what it leaves flagged is justified by a flagged base or member, not claimed to be
  the smallest safe set.
- DynamicArray.DynArray.Allocate: allocation always succeeds, lengths do not overflow, and constructors and destructors
  only set the default value.
- ConfigGroups.ConfigGroup.ReleaseReferences: the removal of the registered types, functions and properties of a group
  is not modelled.
- ArgumentSplit.Split: starts from the classified arguments; how a script type becomes one or two machine words, and
  the assembly that makes the call, are not modelled.
- Floating point is an unspecified function of two words.
