/** Jump tables that are not safe: once `Optimize` is done, the last value of such a table leads past
    its label. So safety of the tables is exactly what the later passes need. */
module MissedEntries {
  import Op
  import opened Tables
  import opened Instructions
  import opened CodeLists
  import opened Machine
  import opened Layout
  import opened Blocks
  import opened UnusedValues
  import opened Words
  import opened Assembling
  import opened Programs
  import opened Emitters

  /** The JMPs behind the JMPP at `i` end at the label, in front of the last place it can lead to. */
  ghost predicate Missed(code: seq<Ins>, i: nat, lab: int) {
    && i < |code| && code[i].op == Op.JMPP
    && exists e: nat :: i < e <= i + code[i].a0 && e < |code| && IsLabel(code[e], lab) && JumpsUpTo(code, i, e)
  }

  ghost predicate JumpsUpTo(code: seq<Ins>, i: nat, e: nat)
    requires e <= |code|
  {
    forall j :: i < j < e ==> code[j].op == Op.JMP
  }

  /** An entry but the last will become a jump to the label directly behind it. */
  ghost predicate Doomed(code: seq<Ins>, i: nat, lab: int, includeJit: bool) {
    i < |code| && code[i].op == Op.JMPP && exists e: nat :: DoomedAt(code, i, e, lab, includeJit)
  }

  ghost predicate DoomedAt(code: seq<Ins>, i: nat, e: nat, lab: int, includeJit: bool)
    requires i < |code|
  {
    && i + 1 < e <= i + 1 + code[i].a0 && e <= |code| && JumpsUpTo(code, i, e)
    && code[e - 1].a0 == lab && Reduces(code, e, lab, includeJit)
  }

  ghost predicate Lost(code: seq<Ins>, i: nat, lab: int, includeJit: bool) {
    Missed(code, i, lab) || Doomed(code, i, lab, includeJit)
  }

  // ----- no deletion helps -----

  function Shifted(k: nat, i: nat): int {
    if k < i then i - 1 else i
  }

  lemma MissedStays(code: seq<Ins>, k: nat, i: nat, lab: int, includeJit: bool)
    requires k < |code| && Vanishes(code, k, includeJit) && Missed(code, i, lab)
    ensures Missed(Splice(code, k, 1, []), Shifted(k, i), lab)
    ensures 0 <= Shifted(k, i) < |code| - 1 && Splice(code, k, 1, [])[Shifted(k, i)] == code[i]
  {
    hide Splice, Reduces;
    var code', i' := Splice(code, k, 1, []), Shifted(k, i);
    DeletedAt(code, k);
    var e: nat :| i < e <= i + code[i].a0 && e < |code| && IsLabel(code[e], lab) && JumpsUpTo(code, i, e);
    var e' := Shifted(k, e);
    assert k < e ==> k < i || k == e - 1;
    assert code'[e'] == code[e] && code'[i'] == code[i];
    assert JumpsUpTo(code', i', e') by {
      forall j | i' < j < e'
        ensures code'[j].op == Op.JMP
      {
        assert code'[j] == code[if j < k then j else j + 1];
      }
    }
  }

  lemma DoomedStays(code: seq<Ins>, k: nat, i: nat, lab: int, includeJit: bool)
    requires k < |code| && Vanishes(code, k, includeJit) && Doomed(code, i, lab, includeJit)
    ensures Lost(Splice(code, k, 1, []), Shifted(k, i), lab, includeJit)
    ensures 0 <= Shifted(k, i) < |code| - 1 && Splice(code, k, 1, [])[Shifted(k, i)] == code[i]
  {
    hide Splice, Reduces, Missed;
    var code', i' := Splice(code, k, 1, []), Shifted(k, i);
    DeletedAt(code, k);
    var e: nat :| DoomedAt(code, i, e, lab, includeJit);
    assert code'[i'] == code[i];
    if i < k < e {
      DoomedToMissed(code, k, i, e, lab, includeJit);
    } else {
      var e' := Shifted(k, e);
      ReducesAhead(code, k, e, lab, includeJit);
      assert code'[e' - 1] == code[e - 1];
      assert JumpsUpTo(code', i', e') by {
        forall j | i' < j < e'
          ensures code'[j].op == Op.JMP
        {
          assert code'[j] == code[if j < k then j else j + 1];
        }
      }
      assert DoomedAt(code', i', e', lab, includeJit);
    }
  }

  // The entry itself is deleted, and the label takes its place.
  lemma DoomedToMissed(code: seq<Ins>, k: nat, i: nat, e: nat, lab: int, includeJit: bool)
    requires i < k < e && k < |code| && code[i].op == Op.JMPP && Vanishes(code, k, includeJit)
    requires DoomedAt(code, i, e, lab, includeJit)
    ensures Missed(Splice(code, k, 1, []), i, lab)
  {
    hide Splice;
    var code' := Splice(code, k, 1, []);
    DeletedAt(code, k);
    assert k == e - 1 && code'[e - 1] == code[e];
    assert JumpsUpTo(code', i, e - 1);
  }

  lemma LostStays(code: seq<Ins>, k: nat, i: nat, lab: int, includeJit: bool)
    requires k < |code| && Vanishes(code, k, includeJit) && Lost(code, i, lab, includeJit)
    ensures Lost(Splice(code, k, 1, []), Shifted(k, i), lab, includeJit)
    ensures i < |code| && 0 <= Shifted(k, i) < |code| - 1 && Splice(code, k, 1, [])[Shifted(k, i)] == code[i]
  {
    hide Splice, Vanishes, Doomed, Missed;
    LostIsTable(code, i, lab, includeJit);
    if Missed(code, i, lab) {
      MissedStays(code, k, i, lab, includeJit);
    } else {
      DoomedStays(code, k, i, lab, includeJit);
    }
  }

  lemma LostAfterRemoval(code: seq<Ins>, k: nat, i: nat, lab: int, includeJit: bool) returns (i': nat)
    requires k < |code| && i < |code| && Removal(code, k, includeJit).Replace? && Lost(code, i, lab, includeJit)
    ensures var code' := Apply(code, Removal(code, k, includeJit));
      i' < |code'| && code'[i'] == code[i] && Lost(code', i', lab, includeJit)
  {
    hide Splice, Vanishes, Doomed, Missed;
    RemovalVanishes(code, k, includeJit);
    LostIsTable(code, i, lab, includeJit);
    if Removal(code, k, includeJit).len == 2 {
      SplicedTwice(code, k);
      LostStays(code, k + 1, i, lab, includeJit);
      LostStays(Splice(code, k + 1, 1, []), k, Shifted(k + 1, i), lab, includeJit);
      i' := Shifted(k, Shifted(k + 1, i));
      LostIsTable(Splice(code, k, 2, []), i', lab, includeJit);
    } else {
      LostStays(code, k, i, lab, includeJit);
      i' := Shifted(k, i);
      LostIsTable(Splice(code, k, 1, []), i', lab, includeJit);
    }
  }

  lemma LostIsTable(code: seq<Ins>, i: nat, lab: int, includeJit: bool)
    requires Lost(code, i, lab, includeJit)
    ensures i < |code|
  {
  }

  // ----- when nothing is left to remove -----

  lemma {:induction false} DoomedIsRemovable(code: seq<Ins>, e: nat, lab: int, includeJit: bool)
    requires 0 < e <= |code| && code[e - 1].op == Op.JMP && code[e - 1].a0 == lab && Reduces(code, e, lab, includeJit)
    ensures !Irremovable(code, includeJit)
    decreases |code| - e
  {
    hide Irremovable;
    if IsLabel(code[e], lab) {
      SomeRemoval(code, e - 1, includeJit);
    } else if code[e].op == Op.JitEntry {
      SomeRemoval(code, e, includeJit);
    } else {
      DoomedIsRemovable(code, e + 1, lab, includeJit);
    }
  }

  lemma SomeRemoval(code: seq<Ins>, k: nat, includeJit: bool)
    requires k < |code| && Removal(code, k, includeJit).Replace?
    ensures !Irremovable(code, includeJit)
  {
    hide Removal;
  }

  lemma {:induction false} StaysLost(lists: seq<seq<Ins>>, i: nat, lab: int, includeJit: bool) returns (i': nat)
    requires Removals(lists, includeJit) && i < |lists[0]| && Lost(lists[0], i, lab, includeJit)
    ensures var last := lists[|lists| - 1]; i' < |last| && last[i'] == lists[0][i] && Lost(last, i', lab, includeJit)
    decreases |lists|
  {
    hide Removal, Apply, Lost;
    var n := |lists|;
    if n == 1 {
      i' := i;
    } else {
      var front := lists[..n - 1];
      assert Removals(front, includeJit) by {
        assert forall j :: 0 <= j < n - 1 ==> front[j] == lists[j];
      }
      var m := StaysLost(front, i, lab, includeJit);
      assert OneRemoval(lists[n - 2], lists[n - 1], includeJit);
      var k: nat :| k < |lists[n - 2]| && Removal(lists[n - 2], k, includeJit).Replace?
        && lists[n - 1] == Apply(lists[n - 2], Removal(lists[n - 2], k, includeJit));
      i' := LostAfterRemoval(lists[n - 2], k, m, lab, includeJit);
    }
  }

  lemma FinallyMissed(code: seq<Ins>, i: nat, lab: int, includeJit: bool)
    requires Lost(code, i, lab, includeJit) && Irremovable(code, includeJit)
    ensures Missed(code, i, lab)
  {
    hide Irremovable, Reduces, Missed;
    if !Missed(code, i, lab) {
      var e: nat :| DoomedAt(code, i, e, lab, includeJit);
      DoomedIsRemovable(code, e, lab, includeJit);
    }
  }

  lemma UnsafeIsLost(code: seq<Ins>, i: nat, includeJit: bool)
    requires i < |code| && code[i].op == Op.JMPP && WholeTable(code, i) && !SafeTable(code, i, includeJit)
    requires code[i + 1 + code[i].a0].op == Op.JMP
    ensures Lost(code, i, code[i + 1 + code[i].a0].a0, includeJit)
  {
    var last := i + 1 + code[i].a0;
    assert DoomedAt(code, i, last, code[last].a0, includeJit);
  }

  lemma {:induction false} EntryPositions(code: seq<Ins>, noLineCues: bool, i: nat, e: nat)
    requires AllSized(code, noLineCues) && i < e <= |code| && code[i].op == Op.JMPP && JumpsUpTo(code, i, e)
    ensures Pos(code, e) == Pos(code, i) + 1 + 2 * (e - i - 1)
    decreases e
  {
    hide InfoType;
    JumpSizes();
    assert Sized(code[e - 1], noLineCues);
    if e > i + 1 {
      EntryPositions(code, noLineCues, i, e - 1);
    }
  }

  // The words have that label two words or more in front of where the last value leads.
  lemma MissedInWords(code: seq<Ins>, noLineCues: bool, i: nat, lab: int) returns (e: nat)
    requires AllSized(code, noLineCues) && Missed(code, i, lab)
    ensures i < e < |code| && IsLabel(code[e], lab) && Pos(code, e) + 2 <= Pos(code, i) + 1 + 2 * code[i].a0
  {
    hide AllSized, Pos;
    e :| i < e <= i + code[i].a0 && e < |code| && IsLabel(code[e], lab) && JumpsUpTo(code, i, e);
    EntryPositions(code, noLineCues, i, e);
  }

  /** Whatever `Optimize` makes of a list with a table that is not safe: at the end the label that the
      last value of the table should lead to stands in front of the place where it does lead. */
  lemma UnsafeTableMissed(lists: seq<seq<Ins>>, i: nat, noLineCues: bool, includeJit: bool) returns (i': nat, e: nat)
    requires Removals(lists, includeJit) && Irremovable(lists[|lists| - 1], includeJit)
    requires AllSized(lists[|lists| - 1], noLineCues)
    requires i < |lists[0]| && lists[0][i].op == Op.JMPP && WholeTable(lists[0], i)
    requires lists[0][i + 1 + lists[0][i].a0].op == Op.JMP && !SafeTable(lists[0], i, includeJit)
    ensures var code, was := lists[|lists| - 1], lists[0];
      && i' < e < |code| && code[i'] == was[i] && IsLabel(code[e], was[i + 1 + was[i].a0].a0)
      && Pos(code, e) + 2 <= Pos(code, i') + 1 + 2 * code[i'].a0
  {
    hide Irremovable, AllSized, Pos, Lost, Missed, SafeTable, OneRemoval;
    var lab := lists[0][i + 1 + lists[0][i].a0].a0;
    UnsafeIsLost(lists[0], i, includeJit);
    i' := StaysLost(lists, i, lab, includeJit);
    FinallyMissed(lists[|lists| - 1], i', lab, includeJit);
    e := MissedInWords(lists[|lists| - 1], noLineCues, i', lab);
  }

  // ----- a list whose words run differently -----

  function SharedLabel(): seq<Ins> {
    [Ins(Op.JMPP, 1, 0, 1, 0, 0, 1, 0), Ins(Op.JMP, 7, 0, 0, 0, 0, 2, 0), Ins(Op.JMP, 7, 0, 0, 0, 0, 2, 0),
     Ins(Op.LABEL, 0, 0, 7, 0, 0, 0, 0), Ins(Op.SetV4, 5, 0, 2, 0, 0, 2, 0), Ins(Op.CpyVtoR4, 0, 0, 2, 0, 0, 1, 0),
     Ins(Op.RET, 0, 0, 0, 0, 0, 1, 0)]
  }

  // The same with one jump, and without both.
  function SharedLabelOnce(): seq<Ins> {
    SharedLabel()[..2] + SharedLabel()[3..]
  }

  function SharedLabelOptimized(): seq<Ins> {
    [SharedLabel()[0]] + SharedLabel()[3..]
  }

  lemma SharedLabelRemovals(includeJit: bool)
    ensures Removals([SharedLabel(), SharedLabelOnce(), SharedLabelOptimized()], includeJit)
    ensures Irremovable(SharedLabelOptimized(), includeJit)
  {
    hide Irremovable, SharedLabel, SharedLabelOnce, SharedLabelOptimized;
    FirstGone(includeJit);
    SecondGone(includeJit);
    TwoRemovals(SharedLabel(), SharedLabelOnce(), SharedLabelOptimized(), includeJit);
    NothingMore(includeJit);
  }

  lemma TwoRemovals(a: seq<Ins>, b: seq<Ins>, c: seq<Ins>, includeJit: bool)
    requires OneRemoval(a, b, includeJit) && OneRemoval(b, c, includeJit)
    ensures Removals([a, b, c], includeJit)
  {
    hide OneRemoval;
    var lists := [a, b, c];
    forall i | 0 <= i < 2
      ensures OneRemoval(lists[i], lists[i + 1], includeJit)
    {
      assert i == 0 || i == 1;
    }
  }

  lemma FirstGone(includeJit: bool)
    ensures OneRemoval(SharedLabel(), SharedLabelOnce(), includeJit)
  {
    assert SharedLabel()[2].op == Op.JMP && IsLabel(SharedLabel()[3], 7);
    assert Removal(SharedLabel(), 2, includeJit) == Replace(2, 1, []);
    assert Splice(SharedLabel(), 2, 1, []) == SharedLabelOnce();
  }

  lemma SecondGone(includeJit: bool)
    ensures OneRemoval(SharedLabelOnce(), SharedLabelOptimized(), includeJit)
  {
    var code := SharedLabelOnce();
    assert code[1].op == Op.JMP && code[1].a0 == 7 && IsLabel(code[2], 7);
    assert Removal(code, 1, includeJit) == Replace(1, 1, []);
    assert Splice(code, 1, 1, []) == SharedLabelOptimized();
  }

  lemma NothingMore(includeJit: bool)
    ensures Irremovable(SharedLabelOptimized(), includeJit)
  {
    var code := SharedLabelOptimized();
    forall i | 0 <= i < |code|
      ensures Removal(code, i, includeJit).Keep?
    {
      assert code[i].op in {Op.JMPP, Op.LABEL, Op.SetV4, Op.CpyVtoR4, Op.RET};
    }
  }

  lemma SharedLabelPositions()
    ensures var code := SharedLabelOptimized();
      Pos(code, 0) == 0 && Pos(code, 1) == 1 && Pos(code, 2) == 1 && Pos(code, 3) == 3 && Pos(code, 4) == 4
  {
    var code := SharedLabelOptimized();
    PosFirst(code);
    PosNext(code, 0);
    PosNext(code, 1);
    PosNext(code, 2);
    PosNext(code, 3);
  }

  // One step of a run that has been followed so far.
  lemma OneMoreStep(vm: VM, code: seq<Ins>, r: Res, n: nat, pc: nat, s: State)
    requires Run(vm, code, r, n) == At(pc, s)
    ensures Run(vm, code, r, n + 1) == Step(vm, code, pc, s)
  {
    hide Step;
    RunAdds(vm, code, r, n, 1);
    assert Run(vm, code, At(pc, s), 1) == Run(vm, code, Step(vm, code, pc, s), 0);
  }

  lemma SharedLabelRun(vm: VM, s: State)
    requires vm.hasResult && s.vars == map[1 := 1]
    ensures Run(vm, SharedLabel(), At(0, s), 6) == Returned(0, 5, s.core.obj, s.core.world)
  {
    hide Run, Exec, InfoType;
    var code := SharedLabel();
    var t := Exec(vm, code[4], s);
    var u := Exec(vm, code[5], t);
    assert Run(vm, code, At(0, s), 0) == At(0, s) by {
      RunAdds(vm, code, At(0, s), 0, 0);
      RunNone(vm, code, At(0, s));
    }
    ExecSetV4(vm, code[4], s);
    ExecRegister(vm, code[5], t);
    OneMoreStep(vm, code, At(0, s), 0, 0, s);
    assert Step(vm, code, 0, s) == At(2, s);
    OneMoreStep(vm, code, At(0, s), 1, 2, s);
    SharedLabelTarget();
    assert Step(vm, code, 2, s) == At(3, s);
    OneMoreStep(vm, code, At(0, s), 2, 3, s);
    NopStep(vm, code, 3, s);
    OneMoreStep(vm, code, At(0, s), 3, 4, s);
    OneMoreStep(vm, code, At(0, s), 4, 5, t);
    OneMoreStep(vm, code, At(0, s), 5, 6, u);
  }

  lemma RunNone(vm: VM, code: seq<Ins>, r: Res)
    ensures Run(vm, code, r, 0) == r
  {
    hide Step;
  }

  lemma NopStep(vm: VM, code: seq<Ins>, i: nat, s: State)
    requires i < |code| && code[i].op == Op.LABEL
    ensures Step(vm, code, i, s) == At(i + 1, s)
  {
  }

  lemma SharedLabelTarget()
    ensures Target(SharedLabel(), 2, 7) == 3
  {
    hide LastLabel;
    assert IsLabel(SharedLabel()[3], 7);
  }

  lemma SharedLabelWordsRun(vm: VM, words: seq<int>, s: State)
    requires vm.hasResult && s.vars == map[1 := 1] && Assembled(SharedLabelOptimized(), words)
    ensures RunWords(vm, words, At(0, s), 3) == Returned(0, 0, s.core.obj, s.core.world)
  {
    hide InfoType, Exec, Decode, Pos, Canon, Suspended, ResolvedAt;
    var code := SharedLabelOptimized();
    SharedLabelPositions();
    SharedLabelCanon();
    assert |words| == 5 by {
      PosNext(code, 4);
    }
    var ins := Canon(code[3]);
    AssembledAt(code, words, 0);
    AssembledAt(code, words, 3);
    AssembledAt(code, words, 4);
    ExecCanon(vm, code[3], s);
    ExecRegister(vm, code[3], s);
    var u := Exec(vm, code[3], s);
    assert StepWords(vm, words, 0, s) == At(3, s);
    assert StepWords(vm, words, 3, s) == At(4, u);
    assert StepWords(vm, words, 4, u) == Returned(0, 0, s.core.obj, s.core.world);
    hide StepWords;
    assert RunWords(vm, words, At(4, u), 1) == Returned(0, 0, s.core.obj, s.core.world);
    assert RunWords(vm, words, At(3, s), 2) == Returned(0, 0, s.core.obj, s.core.world);
  }

  lemma AssembledAt(code: seq<Ins>, words: seq<int>, i: nat)
    requires Assembled(code, words) && i < |code| && code[i].size > 0
    ensures Decode(words, Pos(code, i)) == Canon(Suspended(ResolvedAt(code, i)))
  {
    hide Decode, Pos, Canon, Suspended, ResolvedAt;
  }

  // What the three instructions that are run look like in the words.
  lemma SharedLabelCanon()
    ensures var code := SharedLabelOptimized();
      && Canon(Suspended(ResolvedAt(code, 0))).op == Op.JMPP && Canon(Suspended(ResolvedAt(code, 0))).w0 == 1
      && Canon(Suspended(ResolvedAt(code, 3))) == Canon(code[3]) && Canon(code[3]).op == Op.CpyVtoR4
      && Canon(Suspended(ResolvedAt(code, 4))).op == Op.RET && Canon(Suspended(ResolvedAt(code, 4))).w0 == 0
      && TypeSize(InfoType(Op.CpyVtoR4)) == 1
  {
    hide Target, Pos;
    EncodedTable(SharedLabelOptimized(), 0);
    ReturnType();
  }

  /** In the list, `x = 1; switch (x) { case 0: case 1: }; y = 5; return y` returns 5; in the words the
      assignment to `y` is passed over. */
  lemma SharedLastLabelDiffers(vm: VM, words: seq<int>, world: World, includeJit: bool)
    requires vm.hasResult && Assembled(SharedLabelOptimized(), words)
    ensures var s := State(map[1 := 1], Core(0, 0, [], world));
      && Run(vm, SharedLabel(), At(0, s), 6) == Returned(0, 5, 0, world)
      && RunWords(vm, words, At(0, s), 3) == Returned(0, 0, 0, world)
    ensures Removals([SharedLabel(), SharedLabelOnce(), SharedLabelOptimized()], includeJit)
    ensures Irremovable(SharedLabelOptimized(), includeJit)
  {
    hide Run, RunWords, Removals, Irremovable, Assembled;
    var s := State(map[1 := 1], Core(0, 0, [], world));
    SharedLabelRun(vm, s);
    SharedLabelWordsRun(vm, words, s);
    SharedLabelRemovals(includeJit);
  }
}
