/** `Finalize` and `Output` together: from the instruction list to the words that are run. */
module Finalizing {
  import Op
  import opened Tables
  import opened Instructions
  import opened CodeLists
  import opened Machine
  import opened Layout
  import opened Liveness
  import opened Windows
  import opened StackDepth
  import opened PostProcessing
  import opened Assembling
  import opened Programs
  import opened Linking
  import opened LineCues
  import opened LineNumbers
  import opened Emitters

  /** What the compiler hands over: jumps that lead somewhere, one stack depth per reachable
      instruction, whole jump tables that are safe once unreachable code is gone, sizes as emitted,
      operands that fit. */
  ghost predicate Finished(code: seq<Ins>, depth: seq<int>, noLineCues: bool, includeJit: bool) {
    && JumpsResolve(code) && Consistent(code, depth) && TablesFull(code) && SafeTables(ReachedCode(code), includeJit)
    && Writable(code, noLineCues)
  }

  // ----- what PostProcess leaves -----

  lemma {:induction false} KeptShorter(code: seq<Ins>, keep: seq<bool>, n: nat, noLineCues: bool)
    requires n <= |code| == |keep| && AllSized(code, noLineCues)
    ensures Pos(Kept(code, keep, n), Rank(keep, n)) <= Pos(code, n)
  {
    hide InfoType, TypeSize;
    if n > 0 {
      KeptShorter(code, keep, n - 1, noLineCues);
      assert Sized(code[n - 1], noLineCues);
      PosPrefix(Kept(code, keep, n - 1), Kept(code, keep, n), Rank(keep, n - 1));
    }
  }

  lemma KeptResolves(code: seq<Ins>, keep: seq<bool>, m: nat)
    requires KeepsReachable(code, keep) && JumpsResolve(code) && m < Rank(keep, |code|)
    ensures var code' := Kept(code, keep, |code|);
      IsLabelJump(code'[m].op) || code'[m].op == Op.TryBlock ==> Target(code', m, code'[m].a0) != -1
  {
    hide Reachable, Target, Kept;
    var i := Unrank(code, keep, |code|, m);
    if IsLabelJump(code[i].op) || code[i].op == Op.TryBlock {
      assert Reachable(code, i);
      var t := Target(code, i, code[i].a0);
      NextReachable(code, i, t);
      TargetKept(code, keep, i, code[i].a0);
    }
  }

  lemma KeptLength(code: seq<Ins>, keep: seq<bool>)
    requires KeepsReachable(code, keep)
    ensures |keep| == |code|
  {
  }

  /** The list without its unreachable instructions is fit for the later passes. */
  lemma KeptLaid(code: seq<Ins>, keep: seq<bool>, noLineCues: bool)
    requires KeepsReachable(code, keep) && JumpsResolve(code)
    requires Writable(code, noLineCues)
    ensures Laid(Kept(code, keep, |code|), noLineCues)
  {
    hide KeepsReachable, JumpsResolve, Sized, InRange, Target, Kept, Pos;
    KeptLength(code, keep);
    var code' := Kept(code, keep, |code|);
    forall m | 0 <= m < |code'|
      ensures Sized(code'[m], noLineCues) && InRange(code'[m])
      ensures IsLabelJump(code'[m].op) || code'[m].op == Op.TryBlock ==> Target(code', m, code'[m].a0) != -1
    {
      var i := Unrank(code, keep, |code|, m);
      assert Sized(code[i], noLineCues);
      KeptResolves(code, keep, m);
    }
    KeptShorter(code, keep, |code|, noLineCues);
  }

  /** Tables whose last two entries lead to different labels are safe. */
  lemma DifferentEndsSafe(code: seq<Ins>, keep: seq<bool>, includeJit: bool)
    requires KeepsReachable(code, keep) && AllEndsDiffer(code)
    ensures TablesFull(code) && |keep| == |code| && SafeTables(Kept(code, keep, |code|), includeJit)
  {
    hide KeepsReachable, Kept, SafeTable, InTable;
    KeptLength(code, keep);
    TablesAreFull(code);
    var code' := Kept(code, keep, |code|);
    forall m | 0 <= m < |code'| && code'[m].op == Op.JMPP
      ensures SafeTable(code', m, includeJit)
    {
      var i := Unrank(code, keep, |code|, m);
      KeptTable(code, keep, i, includeJit);
    }
  }

  lemma TablesAreFull(code: seq<Ins>)
    requires AllEndsDiffer(code)
    ensures TablesFull(code)
  {
    hide InTable;
    forall i | 0 <= i < |code| && code[i].op == Op.JMPP && 0 <= code[i].a0
      ensures InTable(code, i + 1, i + 1 + code[i].a0)
    {
      assert EndsDiffer(code, i);
    }
  }

  lemma KeptTable(code: seq<Ins>, keep: seq<bool>, i: nat, includeJit: bool)
    requires KeepsReachable(code, keep) && TablesFull(code) && i < |code| && code[i].op == Op.JMPP
    requires EndsDiffer(code, i)
    requires |keep| == |code| && keep[i]
    ensures Rank(keep, i) < Rank(keep, |code|) && SafeTable(Kept(code, keep, |code|), Rank(keep, i), includeJit)
  {
    hide Reachable, Kept, TablesFull, Rank;
    var code', m := Kept(code, keep, |code|), Rank(keep, i);
    KeptAt(code, keep, |code|, i);
    assert Reachable(code, i) by {
      JmppReachable(code, keep, i);
    }
    forall j | m < j <= m + 1 + code[i].a0
      ensures j < |code'| && code'[j] == code[j - m + i]
    {
      TableEntryKept(code, keep, i, j - m - 1);
      EntryIsKept(code, keep, i, j - m - 1);
      KeptAt(code, keep, |code|, j - m + i);
    }
    TableEntryKept(code, keep, i, code[i].a0);
    EntryIsKept(code, keep, i, code[i].a0);
    KeptAt(code, keep, |code|, i + 1 + code[i].a0);
    SameTable(code, code', i, m, includeJit);
  }

  lemma JmppReachable(code: seq<Ins>, keep: seq<bool>, i: nat)
    requires KeepsReachable(code, keep) && i < |code| == |keep| && keep[i] && code[i].op != Op.Block
    ensures Reachable(code, i)
  {
    hide Reachable;
  }

  lemma EntryIsKept(code: seq<Ins>, keep: seq<bool>, i: nat, v: nat)
    requires KeepsReachable(code, keep) && i + 1 + v < |code| == |keep| && Reachable(code, i + 1 + v)
    ensures keep[i + 1 + v]
  {
    hide Reachable;
  }

  lemma SameTable(code: seq<Ins>, code': seq<Ins>, i: nat, m: nat, includeJit: bool)
    requires i < |code| && EndsDiffer(code, i) && m < |code'| && code'[m] == code[i]
    requires m + 1 + code[i].a0 < |code'|
    requires forall j :: m < j <= m + 1 + code[i].a0 ==> code'[j] == code[j - m + i]
    ensures SafeTable(code', m, includeJit)
  {
    var last := m + 1 + code[i].a0;
    assert code'[last] == code[last - m + i];
    assert code[i].a0 > 0 ==> code'[last - 1] == code[last - 1 - m + i];
  }

  // ----- what is written -----

  lemma {:induction false} LinedEmitted(code: seq<Ins>, n: nat, noLineCues: bool)
    requires n <= |code| && Ripe(code, noLineCues)
    ensures AllEmitted(Lined(Resolved(code), n, noLineCues))
  {
    hide InfoType, Ripe, ResolvedAt, Emitted, Suspended;
    if n > 0 {
      LinedEmitted(code, n - 1, noLineCues);
      ResolvedEmitted(code, n - 1, noLineCues);
    }
  }

  lemma ResolvedEmitted(code: seq<Ins>, i: nat, noLineCues: bool)
    requires i < |code| && Ripe(code, noLineCues)
    ensures Emitted(Suspended(ResolvedAt(code, i)))
  {
    hide InfoType, TypeSize, Target, WholeTables, Pos, ResolvedAt;
    ResolvedIs(code, i);
    assert Sized(code[i], noLineCues) && InRange(code[i]);
    PosOrder(code, noLineCues, i, |code|);
    var t := Target(code, i, code[i].a0);
    if IsLabelJump(code[i].op) {
      PosOrder(code, noLineCues, t, |code|);
      PosOrder(code, noLineCues, i + 1, |code|);
      PosNext(code, i);
    }
    SuspendSize();
  }

  // ----- the whole -----

  /** Every run of the list that finishes is matched by a run of the words that finishes the same
      way, up to what is left in X, and every finishing run of the words by one of the list, unless
      the list overruns a jump table. */
  ghost predicate SameMeaning(vm: VM, code: seq<Ins>, words: seq<int>, X: set<Place>) {
    && (forall s, n :: !Run(vm, code, At(0, s), n).At? && Run(vm, code, At(0, s), n) != Wild ==>
      exists m :: SameEnd(Run(vm, code, At(0, s), n), RunWords(vm, words, At(0, s), m), X))
    && (forall s, m :: !RunWords(vm, words, At(0, s), m).At? && NeverWild(vm, code, s) ==>
      exists n :: SameEnd(RunWords(vm, words, At(0, s), m), Run(vm, code, At(0, s), n), X))
  }

  ghost predicate NeverWild(vm: VM, code: seq<Ins>, s: State) {
    forall k: nat :: Run(vm, code, At(0, s), k) != Wild
  }

  lemma WordsRunAlike(vm: VM, code: seq<Ins>, words: seq<int>, noLineCues: bool)
    requires Ready(code, words, noLineCues)
    ensures SameMeaning(vm, code, words, {})
  {
    hide Run, RunWords, Ready, Agree;
    PosFirst(code);
    forall s, n | !Run(vm, code, At(0, s), n).At? && Run(vm, code, At(0, s), n) != Wild
      ensures exists m :: SameEnd(Run(vm, code, At(0, s), n), RunWords(vm, words, At(0, s), m), {})
    {
      var m := ListToWords(vm, code, words, noLineCues, At(0, s), At(0, s), n);
      SameStateEnds(Run(vm, code, At(0, s), n));
      assert SameEnd(Run(vm, code, At(0, s), n), RunWords(vm, words, At(0, s), m), {});
    }
    forall s, m | !RunWords(vm, words, At(0, s), m).At? && NeverWild(vm, code, s)
      ensures exists n :: SameEnd(RunWords(vm, words, At(0, s), m), Run(vm, code, At(0, s), n), {})
    {
      var n := WordsToList(vm, code, words, noLineCues, At(0, s), At(0, s), m);
      SameStateEnds(RunWords(vm, words, At(0, s), m));
      assert SameEnd(RunWords(vm, words, At(0, s), m), Run(vm, code, At(0, s), n), {});
    }
  }

  lemma SameStateEnds(r: Res)
    requires !r.At?
    ensures SameEnd(r, r, {})
  {
  }

  lemma EndsTrans(r: Res, r': Res, r'': Res, X: set<Place>)
    requires SameEnd(r, r', X) && SameEnd(r', r'', X)
    ensures SameEnd(r, r'', X)
  {
  }

  // The two ends differ in no more if they may differ in more.
  lemma EndWeakens(r: Res, r': Res, X: set<Place>)
    requires SameEnd(r, r', {})
    ensures SameEnd(r, r', X) && !r.At? && !r'.At? && (r == Wild <==> r' == Wild)
  {
  }

  lemma EndsFinish(r: Res, r': Res, X: set<Place>)
    requires SameEnd(r, r', X)
    ensures !r.At? && !r'.At? && (r == Wild <==> r' == Wild)
  {
  }

  /** Words that mean the same as an equivalent list mean the same as the list. */
  lemma MeaningComposes(vm: VM, code: seq<Ins>, linked: seq<Ins>, words: seq<int>, X: set<Place>)
    requires Equivalent(vm, code, linked, X) && SameMeaning(vm, linked, words, {})
    ensures SameMeaning(vm, code, words, X)
  {
    hide Run, RunWords, SameEnd;
    forall s, n | !Run(vm, code, At(0, s), n).At? && Run(vm, code, At(0, s), n) != Wild
      ensures exists m :: SameEnd(Run(vm, code, At(0, s), n), RunWords(vm, words, At(0, s), m), X)
    {
      var k :| SameEnd(Run(vm, code, At(0, s), n), Run(vm, linked, At(0, s), k), X);
      EndsFinish(Run(vm, code, At(0, s), n), Run(vm, linked, At(0, s), k), X);
      var m :| SameEnd(Run(vm, linked, At(0, s), k), RunWords(vm, words, At(0, s), m), {});
      EndWeakens(Run(vm, linked, At(0, s), k), RunWords(vm, words, At(0, s), m), X);
      EndsTrans(Run(vm, code, At(0, s), n), Run(vm, linked, At(0, s), k), RunWords(vm, words, At(0, s), m), X);
      assert SameEnd(Run(vm, code, At(0, s), n), RunWords(vm, words, At(0, s), m), X);
    }
    forall s, m | !RunWords(vm, words, At(0, s), m).At? && NeverWild(vm, code, s)
      ensures exists n :: SameEnd(RunWords(vm, words, At(0, s), m), Run(vm, code, At(0, s), n), X)
    {
      StillNeverWild(vm, code, linked, s, X);
      var k :| SameEnd(RunWords(vm, words, At(0, s), m), Run(vm, linked, At(0, s), k), {});
      EndWeakens(RunWords(vm, words, At(0, s), m), Run(vm, linked, At(0, s), k), X);
      var n :| SameEnd(Run(vm, linked, At(0, s), k), Run(vm, code, At(0, s), n), X);
      EndsTrans(RunWords(vm, words, At(0, s), m), Run(vm, linked, At(0, s), k), Run(vm, code, At(0, s), n), X);
      assert SameEnd(RunWords(vm, words, At(0, s), m), Run(vm, code, At(0, s), n), X);
    }
  }

  /** The same up to exceptions: where the list raises one, the words may go on. */
  ghost predicate UpheldMeaning(vm: VM, code: seq<Ins>, words: seq<int>, X: set<Place>) {
    && (forall s, n :: !Run(vm, code, At(0, s), n).At? && Run(vm, code, At(0, s), n) != Wild ==>
      exists m :: Follows(Run(vm, code, At(0, s), n), RunWords(vm, words, At(0, s), m), X))
    && (forall s, m :: !RunWords(vm, words, At(0, s), m).At? && NeverWild(vm, code, s) ==>
      exists n :: Follows(Run(vm, code, At(0, s), n), RunWords(vm, words, At(0, s), m), X))
  }

  /** Words that mean the same as a list that upholds another mean the same as that, up to exceptions. */
  lemma UpheldComposes(vm: VM, code: seq<Ins>, linked: seq<Ins>, words: seq<int>, X: set<Place>)
    requires Upholds(vm, code, linked, X) && SameMeaning(vm, linked, words, {})
    ensures UpheldMeaning(vm, code, words, X)
  {
    hide Run, RunWords, SameEnd, NeverWild, Upholds, SameMeaning, Follows;
    forall s, n | !Run(vm, code, At(0, s), n).At? && Run(vm, code, At(0, s), n) != Wild
      ensures exists m :: Follows(Run(vm, code, At(0, s), n), RunWords(vm, words, At(0, s), m), X)
    {
      var m := UpheldAhead(vm, code, linked, words, X, s, n);
    }
    forall s, m | !RunWords(vm, words, At(0, s), m).At? && NeverWild(vm, code, s)
      ensures exists n :: Follows(Run(vm, code, At(0, s), n), RunWords(vm, words, At(0, s), m), X)
    {
      var n := UpheldBack(vm, code, linked, words, X, s, m);
    }
  }

  lemma UpheldAhead(vm: VM, code: seq<Ins>, linked: seq<Ins>, words: seq<int>, X: set<Place>, s: State, n: nat)
    returns (m: nat)
    requires Upholds(vm, code, linked, X) && SameMeaning(vm, linked, words, {})
    requires !Run(vm, code, At(0, s), n).At? && Run(vm, code, At(0, s), n) != Wild
    ensures Follows(Run(vm, code, At(0, s), n), RunWords(vm, words, At(0, s), m), X)
  {
    hide Run, RunWords, SameEnd, NeverWild;
    m := 0;
    var r := Run(vm, code, At(0, s), n);
    if !r.Raised? {
      var k :| Follows(r, Run(vm, linked, At(0, s), k), X);
      EndsFinish(r, Run(vm, linked, At(0, s), k), X);
      m :| SameEnd(Run(vm, linked, At(0, s), k), RunWords(vm, words, At(0, s), m), {});
      EndWeakens(Run(vm, linked, At(0, s), k), RunWords(vm, words, At(0, s), m), X);
      EndsTrans(r, Run(vm, linked, At(0, s), k), RunWords(vm, words, At(0, s), m), X);
    }
  }

  lemma UpheldBack(vm: VM, code: seq<Ins>, linked: seq<Ins>, words: seq<int>, X: set<Place>, s: State, m: nat)
    returns (n: nat)
    requires Upholds(vm, code, linked, X) && SameMeaning(vm, linked, words, {})
    requires !RunWords(vm, words, At(0, s), m).At? && NeverWild(vm, code, s)
    ensures Follows(Run(vm, code, At(0, s), n), RunWords(vm, words, At(0, s), m), X)
  {
    hide Run, RunWords, SameEnd;
    if q: nat :| Run(vm, code, At(0, s), q).Raised? {
      n := q;
    } else {
      UpheldNeverWild(vm, code, linked, s, X);
      var k :| SameEnd(RunWords(vm, words, At(0, s), m), Run(vm, linked, At(0, s), k), {});
      EndWeakens(RunWords(vm, words, At(0, s), m), Run(vm, linked, At(0, s), k), X);
      n :| Follows(Run(vm, code, At(0, s), n), Run(vm, linked, At(0, s), k), X);
      EndsSymmetric(RunWords(vm, words, At(0, s), m), Run(vm, linked, At(0, s), k), X);
      EndsTrans(Run(vm, code, At(0, s), n), Run(vm, linked, At(0, s), k), RunWords(vm, words, At(0, s), m), X);
    }
  }

  lemma UpheldNeverWild(vm: VM, code: seq<Ins>, linked: seq<Ins>, s: State, X: set<Place>)
    requires Upholds(vm, code, linked, X) && NeverWild(vm, code, s)
    requires forall q: nat :: !Run(vm, code, At(0, s), q).Raised?
    ensures NeverWild(vm, linked, s)
  {
    hide Run, SameEnd;
    forall k: nat
      ensures Run(vm, linked, At(0, s), k) != Wild
    {
      if Run(vm, linked, At(0, s), k) == Wild {
        var n :| Follows(Run(vm, code, At(0, s), n), Run(vm, linked, At(0, s), k), X);
        EndsFinish(Run(vm, code, At(0, s), n), Run(vm, linked, At(0, s), k), X);
        assert false;
      }
    }
  }

  lemma StillNeverWild(vm: VM, code: seq<Ins>, linked: seq<Ins>, s: State, X: set<Place>)
    requires Equivalent(vm, code, linked, X) && NeverWild(vm, code, s)
    ensures NeverWild(vm, linked, s)
  {
    hide Run, SameEnd;
    forall k: nat
      ensures Run(vm, linked, At(0, s), k) != Wild
    {
      if Run(vm, linked, At(0, s), k) == Wild {
        var n :| SameEnd(Run(vm, linked, At(0, s), k), Run(vm, code, At(0, s), n), X);
        EndsFinish(Run(vm, linked, At(0, s), k), Run(vm, code, At(0, s), n), X);
        assert false;
      }
    }
  }

  /** Run all passes over a list. What is left of the list still runs the same, and the line table
      tells of each instruction the LINE that it had in the list. */
  method Finalize(code: seq<Ins>, includeJitInstructions: bool, buildWithoutLineCues: bool,
                  ghost depth: seq<int>, ghost vm: VM)
    returns (e: Emitter, largestStackUsed: int, ghost linked: seq<Ins>, ghost from: seq<nat>)
    requires Finished(code, depth, buildWithoutLineCues, includeJitInstructions)
    ensures fresh(e) && e.buildWithoutLineCues == buildWithoutLineCues
    ensures Equivalent(vm, code, linked, {}) && Ripe(linked, buildWithoutLineCues)
    ensures e.code == Lined(Resolved(linked), |linked|, buildWithoutLineCues)
    ensures e.lineNumbers == Flat(LineTable(Resolved(linked), |linked|, buildWithoutLineCues))
    ensures e.sectionIdxs == Sections(LineTable(Resolved(linked), |linked|, buildWithoutLineCues))
    ensures CuesKept(ReachedCode(code), linked, from)
    ensures LinesTold(code, linked, from, LineTable(Resolved(linked), |linked|, buildWithoutLineCues))
    ensures |code| > 0 ==> IsLargest(code, depth, largestStackUsed)
  {
    hide InfoType, Equivalent, KeepsReachable, JumpsResolve, Consistent, TablesFull, Kept, IsLargest, ReachedCode;
    hide SafeTables;
    hide Ripe, Laid, Resolved, Lined, LineTable, AllSized, AllInRange, Pos, Removals, Irremovable;
    hide LinesTold, SameCues;
    var verifier := new CodeVerifier(code);
    ghost var keep := verifier.PostProcess(depth);
    KeptLength(code, keep);
    KeptIsReached(code, keep);
    KeptLaid(code, keep, buildWithoutLineCues);
    DeadCodeRemovalPreserves(vm, code, keep);
    largestStackUsed := verifier.largestStackUsed;
    e := new Emitter(verifier.code, includeJitInstructions, buildWithoutLineCues);
    ghost var lists;
    lists, from := e.Optimize();
    linked := e.code;
    RemovalsPreserve(vm, lists, buildWithoutLineCues, includeJitInstructions);
    EquivalentTrans(vm, code, verifier.code, linked, {});
    assert Ripe(linked, buildWithoutLineCues) by {
      LaidIsRipe(linked, buildWithoutLineCues, includeJitInstructions);
    }
    RipeSizes(linked, buildWithoutLineCues);
    CuesTell(code, linked, from, buildWithoutLineCues);
    var r := e.ResolveJumpAddresses();
    e.ExtractLineNumbers();
  }

  lemma LaidIsRipe(code: seq<Ins>, noLineCues: bool, includeJit: bool)
    requires Laid(code, noLineCues) && SafeTables(code, includeJit)
    ensures Ripe(code, noLineCues)
  {
    hide Laid, SafeTables, WholeTables;
    SafeIsWhole(code, includeJit);
  }

  lemma RipeSizes(code: seq<Ins>, noLineCues: bool)
    requires Ripe(code, noLineCues)
    ensures AllSized(code, noLineCues) && AllResolve(code) && |Resolved(code)| == |code|
    ensures forall i :: 0 <= i < |code| ==> Resolved(code)[i].size >= 0
  {
    hide InfoType, TypeSize, InRange, WholeTables, ResolvedAt;
    forall i | 0 <= i < |code|
      ensures ResolvedAt(code, i).size >= 0
    {
      assert Sized(code[i], noLineCues);
      ResolvedIs(code, i);
    }
  }

  /** From the list to the words: they mean the same. */
  method Assemble(code: seq<Ins>, includeJitInstructions: bool, buildWithoutLineCues: bool,
                  ghost depth: seq<int>, ghost vm: VM)
    returns (words: array<int>)
    requires Finished(code, depth, buildWithoutLineCues, includeJitInstructions)
    ensures fresh(words) && SameMeaning(vm, code, words[..], {})
  {
    hide InfoType, Equivalent, Resolved, Lined, LineTable, Finished, SameMeaning, IsLargest, Pos, Holds, Assembled;
    hide Ripe, CuesKept, LinesTold;
    var e, largest;
    ghost var linked, from;
    e, largest, linked, from := Finalize(code, includeJitInstructions, buildWithoutLineCues, depth, vm);
    LinedEmitted(linked, |linked|, buildWithoutLineCues);
    EmittedOrder(e.code, 0, |e.code|);
    var size := e.GetSize();
    words := new int[size];
    e.Output(words);
    RipeReady(linked, words[..], buildWithoutLineCues);
    WordsRunAlike(vm, linked, words[..], buildWithoutLineCues);
    MeaningComposes(vm, code, linked, words[..], {});
  }

  lemma RipeReady(code: seq<Ins>, words: seq<int>, noLineCues: bool)
    requires Ripe(code, noLineCues)
    requires var final := Lined(Resolved(code), |code|, noLineCues); Holds(final, words, |final|)
    ensures Ready(code, words, noLineCues)
  {
    hide AllSized, AllResolve, WholeTables, AllInRange, Assembled, Lined, Holds;
    Links(code, words, noLineCues);
  }
}
