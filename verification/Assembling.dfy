/** `Optimize`: what it deletes from the finished list, and why the list still runs the same. */
module Assembling {
  import Op
  import opened Instructions
  import opened CodeLists
  import opened Machine
  import opened Windows
  import opened Blocks
  import opened UnusedValues

  // ----- jump tables -----

  /** The table of the JMPP at `i`: JMPs, the last of which may already have been replaced by falling
      through to its label. */
  ghost predicate WholeTable(code: seq<Ins>, i: nat)
    requires i < |code|
  {
    var last := i + 1 + code[i].a0;
    && 0 <= code[i].a0 && last < |code|
    && (forall j :: i < j < last ==> code[j].op == Op.JMP)
    && (code[last].op == Op.JMP || code[last].op == Op.LABEL)
  }

  ghost predicate WholeTables(code: seq<Ins>) {
    forall i {:trigger code[i]} :: 0 <= i < |code| && code[i].op == Op.JMPP ==> WholeTable(code, i)
  }

  /** From `k` on there is the label, behind nothing but jumps to it and JitEntries that will be
      deleted. A jump to the label in front of `k` will be deleted too. */
  predicate Reduces(code: seq<Ins>, k: nat, lab: int, includeJit: bool)
    decreases |code| - k
  {
    k < |code| &&
    (|| IsLabel(code[k], lab)
     || (code[k].op == Op.JitEntry && !includeJit && Reduces(code, k + 1, lab, includeJit))
     || (code[k].op == Op.JMP && code[k].a0 == lab && Reduces(code, k + 1, lab, includeJit)))
  }

  /** No entry of the table but the last can become a jump to a label directly behind it. */
  ghost predicate SafeTable(code: seq<Ins>, i: nat, includeJit: bool)
    requires i < |code|
  {
    && WholeTable(code, i)
    && var last := i + 1 + code[i].a0;
      (code[i].a0 > 0 ==> !Reduces(code, last, code[last - 1].a0, includeJit))
  }

  ghost predicate SafeTables(code: seq<Ins>, includeJit: bool) {
    forall i {:trigger code[i]} :: 0 <= i < |code| && code[i].op == Op.JMPP ==> SafeTable(code, i, includeJit)
  }

  lemma SafeIsWhole(code: seq<Ins>, includeJit: bool)
    requires SafeTables(code, includeJit)
    ensures WholeTables(code)
  {
    hide WholeTable, Reduces;
    forall i | 0 <= i < |code| && code[i].op == Op.JMPP
      ensures WholeTable(code, i)
    {
      assert SafeTable(code, i, includeJit);
    }
  }

  // ----- what is deleted -----

  // Is the instruction at `k` made redundant by the one at `k + 2`, over one of these?
  predicate Skips(code: seq<Ins>, k: nat, over: int)
    requires k < |code|
  {
    k + 2 < |code| && code[k + 1].op == over && code[k + 2].op == code[k].op
  }

  /** What `Optimize` removes at `k`: the instruction there or, over a JitEntry, it and the next. */
  function Removal(code: seq<Ins>, k: nat, includeJit: bool): (w: Rewrite)
    requires k < |code|
    ensures w.Replace? ==> w.at == k && w.put == [] && k + w.len <= |code|
    ensures w.Replace? ==> w.len == 1 || (w.len == 2 && code[k + 1].op == Op.JitEntry)
    ensures w.Replace? ==> code[k].op in {Op.JitEntry, Op.PopPtr, Op.SUSPEND, Op.LINE, Op.JMP}
  {
    var op := code[k].op;
    if op == Op.JitEntry && !includeJit then Replace(k, 1, [])
    else if k + 1 == |code| then Keep
    else if op == Op.PopPtr && code[k + 1].op == Op.RET then Replace(k, 1, [])
    else if (op == Op.SUSPEND || op == Op.LINE) && Skips(code, k, Op.JitEntry) then Replace(k, 2, [])
    else if (op == Op.SUSPEND || op == Op.LINE)
            && (code[k + 1].op == op || Skips(code, k, Op.Block) || (op == Op.LINE && Skips(code, k, Op.VarDecl)))
    then Replace(k, 1, [])
    else if op == Op.JMP && IsLabel(code[k + 1], code[k].a0) then Replace(k, 1, [])
    else Keep
  }

  /** An instruction whose deletion brings no jump closer to its label than expected. */
  ghost predicate Vanishes(code: seq<Ins>, k: nat, includeJit: bool)
    requires k < |code|
  {
    && code[k].op != Op.LABEL && code[k].op != Op.JMPP
    && (|| (code[k].op == Op.JitEntry && !includeJit)
        || (code[k].op == Op.JMP && k + 1 < |code| && IsLabel(code[k + 1], code[k].a0))
        || (code[k].op != Op.JMP && ReducesNowhere(code, k + 1, includeJit)))
  }

  ghost predicate ReducesNowhere(code: seq<Ins>, k: nat, includeJit: bool) {
    forall lab :: !Reduces(code, k, lab, includeJit)
  }

  lemma RemovalVanishes(code: seq<Ins>, k: nat, includeJit: bool)
    requires k < |code| && Removal(code, k, includeJit).Replace?
    ensures Removal(code, k, includeJit).len == 1 ==> Vanishes(code, k, includeJit)
    ensures Removal(code, k, includeJit).len == 2 ==>
      Vanishes(code, k + 1, includeJit) && Vanishes(Splice(code, k + 1, 1, []), k, includeJit)
  {
    if Removal(code, k, includeJit).len == 2 {
      assert Splice(code, k + 1, 1, [])[k + 1] == code[k + 2];
    }
  }

  // The instruction that was deleted at `k` was the only one.
  lemma DeletedAt(code: seq<Ins>, k: nat)
    requires k < |code|
    ensures var code' := Splice(code, k, 1, []);
      |code'| == |code| - 1 && forall m :: 0 <= m < |code'| ==> code'[m] == code[if m < k then m else m + 1]
  {
  }

  lemma {:induction false} ReducesBack(code: seq<Ins>, k: nat, m: nat, lab: int, includeJit: bool)
    requires k < |code| && Vanishes(code, k, includeJit) && Reduces(Splice(code, k, 1, []), m, lab, includeJit)
    ensures Reduces(code, if m <= k then m else m + 1, lab, includeJit)
    decreases |code| - m
  {
    hide Splice;
    var code' := Splice(code, k, 1, []);
    DeletedAt(code, k);
    if !IsLabel(code'[m], lab) {
      ReducesBack(code, k, m + 1, lab, includeJit);
    }
    if m == k {
      assert Reduces(code, k + 1, lab, includeJit);
    }
  }

  lemma {:induction false} ReducesAhead(code: seq<Ins>, k: nat, m: nat, lab: int, includeJit: bool)
    requires k < |code| && Vanishes(code, k, includeJit) && Reduces(code, m, lab, includeJit)
    ensures Reduces(Splice(code, k, 1, []), if m <= k then m else m - 1, lab, includeJit)
    decreases |code| - m
  {
    hide Splice;
    DeletedAt(code, k);
    if !IsLabel(code[m], lab) {
      ReducesAhead(code, k, m + 1, lab, includeJit);
    }
  }

  lemma TablesStaySafe(code: seq<Ins>, k: nat, includeJit: bool)
    requires k < |code| && Vanishes(code, k, includeJit) && SafeTables(code, includeJit)
    ensures SafeTables(Splice(code, k, 1, []), includeJit)
  {
    hide Splice, Reduces, Vanishes, SafeTable;
    var code' := Splice(code, k, 1, []);
    DeletedAt(code, k);
    forall i | 0 <= i < |code'| && code'[i].op == Op.JMPP
      ensures SafeTable(code', i, includeJit)
    {
      var j := if i < k then i else i + 1;
      assert code'[i] == code[j] && SafeTable(code, j, includeJit);
      TableStaysSafe(code, k, i, includeJit);
    }
  }

  lemma TableStaysSafe(code: seq<Ins>, k: nat, i: nat, includeJit: bool)
    requires k < |code| && Vanishes(code, k, includeJit) && i + 1 < |code|
    requires var j := if i < k then i else i + 1; code[j].op == Op.JMPP && SafeTable(code, j, includeJit)
    ensures Splice(code, k, 1, [])[i] == code[if i < k then i else i + 1]
    ensures SafeTable(Splice(code, k, 1, []), i, includeJit)
  {
    hide Splice, Reduces, Vanishes;
    var code' := Splice(code, k, 1, []);
    DeletedAt(code, k);
    var j := if i < k then i else i + 1;
    var last := j + 1 + code[j].a0;
    if i < k <= last {
      OnlyLastVanishes(code, i, k, includeJit);
    }
    var last' := i + 1 + code[j].a0;
    if code[j].a0 > 0 && Reduces(code', last', code'[last' - 1].a0, includeJit) {
      ReducesBack(code, k, last', code'[last' - 1].a0, includeJit);
      assert false;
    }
  }

  // Only the last entry of a safe table can be deleted, and then the label behind it takes its place.
  lemma OnlyLastVanishes(code: seq<Ins>, i: nat, k: nat, includeJit: bool)
    requires k < |code| && i < |code| && Vanishes(code, k, includeJit) && code[i].op == Op.JMPP
    requires SafeTable(code, i, includeJit)
    requires i < k <= i + 1 + code[i].a0
    ensures k == i + 1 + code[i].a0 && k + 1 < |code| && code[k + 1].op == Op.LABEL
  {
  }

  // A table reaches neither an instruction that is not an entry nor, but for its last entry, one that
  // can be deleted.
  lemma SafeIsClear(code: seq<Ins>, k: nat, la: nat, includeJit: bool)
    requires 0 < la && k + la <= |code| && SafeTables(code, includeJit) && Vanishes(code, k, includeJit)
    requires forall j :: k < j < k + la ==> code[j].op != Op.JMPP
    requires la > 1 ==> code[k].op != Op.JMP
    ensures TablesClear(code, k, la)
  {
    hide Reduces, Vanishes, SafeTable;
    forall i | 0 <= i < k + la && i < |code| && code[i].op == Op.JMPP
      ensures i + 1 + code[i].a0 <= k
    {
      assert SafeTable(code, i, includeJit);
      if i + 1 + code[i].a0 > k {
        VanishesIsPlain(code, k, includeJit);
        OnlyLastVanishes(code, i, k, includeJit);
        assert false;
      }
    }
  }

  lemma VanishesIsPlain(code: seq<Ins>, k: nat, includeJit: bool)
    requires k < |code| && Vanishes(code, k, includeJit)
    ensures code[k].op != Op.JMPP
  {
  }

  // ----- deleting instructions that do nothing -----

  /** An instruction from which every run just goes on to the next can be deleted. */
  lemma NothingDeleted(vm: VM, code: seq<Ins>, k: nat)
    requires k < |code| && code[k].op != Op.LABEL && TablesClear(code, k, 1)
    requires forall s :: Step(vm, code, k, s) == At(k + 1, s)
    ensures Equivalent(vm, code, Splice(code, k, 1, []), {})
  {
    hide Step, TablesClear, Rel, Run, Match;
    var code' := Splice(code, k, 1, []);
    assert Spliced(code, code', k, 1, 0);
    forall s
      ensures Run(vm, code, At(k, s), 1) == At(k + 1, s)
    {
      RunOnce(vm, code, k, s);
    }
    forall s, s' | Rel(vm, code, k, s, s', {})
      ensures Sim(vm, code, k, 1, 0, Run(vm, code, At(k, s), 1), Run(vm, code', At(k, s'), 0), {}, false)
    {
      StandsBehind(vm, code, code', k, s, s');
    }
    ReplacementPreserves(vm, code, code', k, 1, 0, {});
  }

  lemma RunOnce(vm: VM, code: seq<Ins>, k: nat, s: State)
    ensures Run(vm, code, At(k, s), 1) == Step(vm, code, k, s)
  {
    hide Step;
    assert Run(vm, code, At(k, s), 1) == Run(vm, code, Step(vm, code, k, s), 0);
  }

  lemma StandsBehind(vm: VM, code: seq<Ins>, code': seq<Ins>, k: nat, s: State, s': State)
    requires k < |code| && Rel(vm, code, k, s, s', {}) && Run(vm, code, At(k, s), 1) == At(k + 1, s)
    ensures Match(vm, code, k, 1, 0, Run(vm, code, At(k, s), 1), Run(vm, code', At(k, s'), 0), {})
  {
    hide Step;
    assert Run(vm, code', At(k, s'), 0) == At(k, s');
  }

  // Markers: they change nothing when run.
  lemma MarkerDeleted(vm: VM, code: seq<Ins>, k: nat, includeJit: bool)
    requires k < |code| && Vanishes(code, k, includeJit) && code[k].op in {Op.JitEntry, Op.SUSPEND, Op.LINE}
    requires SafeTables(code, includeJit)
    ensures Equivalent(vm, code, Splice(code, k, 1, []), {}) && SafeTables(Splice(code, k, 1, []), includeJit)
  {
    hide Equivalent, Vanishes, SafeTables, Splice, TablesClear;
    forall s
      ensures Step(vm, code, k, s) == At(k + 1, s)
    {
    }
    SafeIsClear(code, k, 1, includeJit);
    NothingDeleted(vm, code, k);
    TablesStaySafe(code, k, includeJit);
  }

  /** JMP +0: a jump to the label that follows it. */
  lemma JumpToNextDeleted(vm: VM, code: seq<Ins>, k: nat, includeJit: bool)
    requires k + 1 < |code| && code[k].op == Op.JMP && IsLabel(code[k + 1], code[k].a0) && SafeTables(code, includeJit)
    ensures Equivalent(vm, code, Splice(code, k, 1, []), {}) && SafeTables(Splice(code, k, 1, []), includeJit)
  {
    hide Equivalent, SafeTables, Splice, TablesClear, Reduces;
    assert Target(code, k, code[k].a0) == k + 1;
    SafeIsClear(code, k, 1, includeJit);
    NothingDeleted(vm, code, k);
    TablesStaySafe(code, k, includeJit);
  }

  /** PopPtr, RET -> RET: a return restores the stack pointer itself. */
  lemma PopBeforeReturnDeleted(vm: VM, code: seq<Ins>, k: nat, includeJit: bool)
    requires k + 1 < |code| && code[k].op == Op.PopPtr && code[k + 1].op == Op.RET && SafeTables(code, includeJit)
    ensures Equivalent(vm, code, Splice(code, k, 1, []), {}) && SafeTables(Splice(code, k, 1, []), includeJit)
  {
    hide Equivalent, SafeTables, TablesClear, Discards, Rel, ExitRel, Block, Splice;
    SafeIsClear(code, k, 2, includeJit);
    forall s, s' | Rel(vm, code, k, s, s', {})
      ensures ExitRel(vm, code, k + 2, Block(vm, code[k..k + 2], s), Block(vm, [code[k + 1]], s'), {})
    {
      ReturnsAlike(vm, code, k, s, s');
    }
    assert Discards(vm, code, {}) by {
      NothingDiscarded(vm, code);
    }
    assert code[k..k + 2] == [code[k], code[k + 1]];
    BlockReplaces(vm, code, k, 2, [code[k + 1]], {});
    KeptOfTwo(code, k);
    TablesStaySafe(code, k, includeJit);
  }

  lemma KeptOfTwo(code: seq<Ins>, k: nat)
    requires k + 1 < |code|
    ensures Splice(code, k, 2, [code[k + 1]]) == Splice(code, k, 1, [])
  {
  }

  lemma ReturnsAlike(vm: VM, code: seq<Ins>, k: nat, s: State, s': State)
    requires k + 1 < |code| && code[k].op == Op.PopPtr && code[k + 1].op == Op.RET && Rel(vm, code, k, s, s', {})
    ensures ExitRel(vm, code, k + 2, Block(vm, code[k..k + 2], s), Block(vm, [code[k + 1]], s'), {})
  {
    hide Exec, Faults;
    PopKeepsResult(vm, code[k], s);
    assert code[k..k + 2] == [code[k], code[k + 1]] && [code[k], code[k + 1]][1..] == [code[k + 1]];
  }

  lemma PopKeepsResult(vm: VM, ins: Ins, s: State)
    requires ins.op == Op.PopPtr
    ensures Exec(vm, ins, s).core == s.core.(stack := Exec(vm, ins, s).core.stack) && !Faults(vm, ins, s)
  {
  }

  // ----- one removal -----

  lemma SplicedTwice(code: seq<Ins>, k: nat)
    requires k + 1 < |code|
    ensures Splice(Splice(code, k + 1, 1, []), k, 1, []) == Splice(code, k, 2, [])
    ensures k < |Splice(code, k + 1, 1, [])| && Splice(code, k + 1, 1, [])[k] == code[k]
  {
  }

  /** What `Optimize` removes is not missed by any run, if all jump tables are safe; and they stay so. */
  lemma RemovalPreserves(vm: VM, code: seq<Ins>, k: nat, includeJit: bool)
    requires k < |code| && SafeTables(code, includeJit) && Removal(code, k, includeJit).Replace?
    ensures var code' := Apply(code, Removal(code, k, includeJit));
      Equivalent(vm, code, code', {}) && SafeTables(code', includeJit)
  {
    hide Equivalent, SafeTables, Splice, Vanishes;
    RemovalVanishes(code, k, includeJit);
    if code[k].op == Op.JMP {
      JumpToNextDeleted(vm, code, k, includeJit);
    } else if code[k].op == Op.PopPtr {
      PopBeforeReturnDeleted(vm, code, k, includeJit);
    } else if Removal(code, k, includeJit).len == 1 {
      MarkerDeleted(vm, code, k, includeJit);
    } else {
      var mid := Splice(code, k + 1, 1, []);
      SplicedTwice(code, k);
      MarkerDeleted(vm, code, k + 1, includeJit);
      MarkerDeleted(vm, mid, k, includeJit);
      EquivalentTrans(vm, code, mid, Splice(mid, k, 1, []), {});
    }
  }
}
