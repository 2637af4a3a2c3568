/** The whole back end: a complete list is optimized locally and then assembled into words that mean
    the same. */
module Compiling {
  import opened Instructions
  import opened Machine
  import opened Layout
  import opened Windows
  import opened Discipline
  import opened StackDepth
  import opened Peephole
  import opened DepthKept
  import opened Assembling
  import opened PlainLists
  import opened LocalMeaning
  import opened Directives
  import ByteCodes
  import Finalizing

  /** A list as the compiler completes it is fit for the last passes. */
  lemma CompleteIsFinished(code: seq<Ins>, depth: seq<int>, noLineCues: bool, includeJit: bool)
    requires Levelled(code, depth) && Writable(code, noLineCues)
    ensures Finalizing.Finished(code, depth, noLineCues, includeJit)
  {
    hide JumpsResolve, Consistent, Writable, SafeTables, AllEndsDiffer, ReachedCode;
    var keep := ReachedMarks(code);
    MarksKeepReachable(code);
    KeptIsReached(code, keep);
    Finalizing.DifferentEndsSafe(code, keep, includeJit);
  }

  lemma MarksKeepReachable(code: seq<Ins>)
    ensures KeepsReachable(code, ReachedMarks(code))
  {
    hide Reachable;
  }

  /** The local optimizer keeps a list finished, with other stack depths, and leaves its markers alone. */
  method OptimizeFinished(code: seq<Ins>, temporaryVariables: seq<int>, noLineCues: bool, includeJit: bool,
                          ghost vm: VM)
    returns (code': seq<Ins>, ghost depth: seq<int>)
    requires Good(code) && HasLevels(code) && Writable(code, noLineCues)
    requires WellBehaved(vm) && Fit(vm, code, set t | t in temporaryVariables)
    ensures Finalizing.Finished(code', depth, noLineCues, includeJit)
    ensures Faithful(vm, code, code', set t | t in temporaryVariables) && SameMarkers(code, code')
  {
    hide SameMarkers, Good, Faithful, Finalizing.Finished, Fit, WellBehaved, Levelled, Writable;
    var b := new ByteCodes.ByteCode(code, temporaryVariables);
    ghost var lists := b.OptimizeLocally();
    OptimizerPreserves(vm, lists, b.Temps());
    code' := b.code;
    depth :| Levelled(code', depth);
    CompleteIsFinished(code', depth, noLineCues, includeJit);
  }

  /** From a complete list to the words: they mean the same, up to temporaries and the value register
      of runs that do not return, and up to an exception that a list that is not strict may lose. */
  method OptimizeAndAssemble(code: seq<Ins>, temporaryVariables: seq<int>, buildWithoutLineCues: bool,
                             includeJitInstructions: bool, ghost vm: VM)
    returns (words: array<int>)
    requires Good(code) && HasLevels(code) && Writable(code, buildWithoutLineCues)
    requires WellBehaved(vm) && Fit(vm, code, set t | t in temporaryVariables)
    ensures fresh(words)
    ensures Finalizing.UpheldMeaning(vm, code, words[..], Loose(set t | t in temporaryVariables))
    ensures AllStrict(vm, code) ==>
      Finalizing.SameMeaning(vm, code, words[..], Loose(set t | t in temporaryVariables))
  {
    hide Good, Equivalent, Finalizing.Finished, Fit, WellBehaved, HasLevels, Writable, Finalizing.SameMeaning;
    hide Upholds, Finalizing.UpheldMeaning, AllStrict;
    var code';
    ghost var depth;
    code', depth := OptimizeFinished(code, temporaryVariables, buildWithoutLineCues, includeJitInstructions, vm);
    words := Finalizing.Assemble(code', includeJitInstructions, buildWithoutLineCues, depth, vm);
    Finalizing.UpheldComposes(vm, code, code', words[..], Loose(set t | t in temporaryVariables));
    if AllStrict(vm, code) {
      Finalizing.MeaningComposes(vm, code, code', words[..], Loose(set t | t in temporaryVariables));
    }
  }
}
