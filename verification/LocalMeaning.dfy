/** The local optimizer as a whole preserves the meaning of lists. */
module LocalMeaning {
  import Op
  import opened Tables
  import opened Instructions
  import opened CodeLists
  import opened Liveness
  import opened Machine
  import opened Windows
  import opened Blocks
  import opened Discipline
  import opened UnusedValues
  import opened Postponement
  import opened Skeletons
  import opened Peephole
  import opened SequencesKept
  import opened JumpFusion
  import opened GlobalAccess
  import opened DisciplineKept
  import opened Sequences
  import opened AddressRules
  import opened AddressesKept
  import opened PlainLists

  // ----- when no exception is lost -----

  // An instruction that the optimizer may take out although it raises exceptions, such as a division.
  predicate MayRaise(op: int) {
    OnlyWrites(InfoType(op)) && !Calm(op)
  }

  // It raises none, and is no GETREF for a pointer below the top, which may be dropped without a check.
  ghost predicate Strict(vm: VM, ins: Ins) {
    (ins.op == Op.GETREF ==> ins.w0 != PTR_SIZE) && (MayRaise(ins.op) ==> NeverFaults(vm, ins))
  }

  ghost predicate Without(code: seq<Ins>, op: int) {
    forall i :: 0 <= i < |code| ==> code[i].op != op
  }

  /** A list in which the optimizer drops no exception: no instruction that only writes a variable raises
      one, and no RDSPtr can come to stand in front of a PopPtr. */
  ghost predicate AllStrict(vm: VM, code: seq<Ins>) {
    && (forall i :: 0 <= i < |code| ==> Strict(vm, code[i]))
    && (Without(code, Op.RDSPtr) || Without(code, Op.PopPtr))
  }

  /** What turns may do: at most lose an exception, and none of a strict list. */
  ghost predicate Faithful(vm: VM, code: seq<Ins>, code': seq<Ins>, temps: set<int>) {
    && Upholds(vm, code, code', Loose(temps)) && Fit(vm, code', temps)
    && (AllStrict(vm, code) ==> Equivalent(vm, code, code', Loose(temps)) && AllStrict(vm, code'))
  }

  lemma ExactIsFaithful(vm: VM, code: seq<Ins>, code': seq<Ins>, X: set<Place>, temps: set<int>)
    requires Equivalent(vm, code, code', X) && X <= Loose(temps) && Fit(vm, code', temps)
    requires AllStrict(vm, code) ==> AllStrict(vm, code')
    ensures Faithful(vm, code, code', temps)
  {
    hide Equivalent, Upholds, Fit, AllStrict;
    EquivalentWeakens(vm, code, code', X, Loose(temps));
    EquivalentUpholds(vm, code, code', Loose(temps));
  }

  // What a strict window may be replaced by.
  ghost predicate StrictPut(vm: VM, code: seq<Ins>, w: Rewrite)
    requires Fits(code, w) && w.Replace?
  {
    && ((forall i :: w.at <= i < w.at + w.len ==> Strict(vm, code[i])) ==>
          forall j :: 0 <= j < |w.put| ==> Strict(vm, w.put[j]))
    && forall j :: 0 <= j < |w.put| ==>
      w.put[j].op != Op.PopPtr && (w.put[j].op == Op.RDSPtr ==> code[w.at + w.len - 1].op == Op.RDSPtr)
  }

  lemma StrictSplice(vm: VM, code: seq<Ins>, w: Rewrite)
    requires Fits(code, w) && w.Replace? && StrictPut(vm, code, w)
    ensures AllStrict(vm, code) ==> AllStrict(vm, Apply(code, w))
  {
    hide Strict;
  }

  lemma FitIs(vm: VM, code: seq<Ins>, temps: set<int>)
    requires Fit(vm, code, temps)
    ensures AllPlain(vm, code, temps) && NoConflict(vm, code, temps) && Disciplined(code, temps, vm.hasResult)
  {
    hide AllPlain, NoConflict, Disciplined;
  }

  /** A window whose replacement is exact, plain, without conflicts and keeps the discipline. */
  lemma ExactTurn(vm: VM, code: seq<Ins>, w: Rewrite, X: set<Place>, temps: set<int>)
    requires w.Replace? && Fits(code, w) && Fit(vm, code, temps) && X <= Loose(temps)
    requires Equivalent(vm, code, Apply(code, w), X)
    requires Disciplined(Apply(code, w), temps, vm.hasResult)
    requires forall j :: 0 <= j < |w.put| ==> Plain(vm, w.put[j], temps) && LikeSome(code, w.put[j])
    requires StrictPut(vm, code, w)
    ensures Faithful(vm, code, Apply(code, w), temps)
  {
    StaysFit(vm, code, w, temps);
    hide Equivalent, Fit, AllStrict, Splice, Plain, Like, StrictPut, Disciplined, LikeSome;
    StrictSplice(vm, code, w);
    ExactIsFaithful(vm, code, Apply(code, w), X, temps);
  }

  lemma StaysFit(vm: VM, code: seq<Ins>, w: Rewrite, temps: set<int>)
    requires w.Replace? && Fits(code, w) && Fit(vm, code, temps)
    requires Disciplined(Apply(code, w), temps, vm.hasResult)
    requires forall j :: 0 <= j < |w.put| ==> Plain(vm, w.put[j], temps) && LikeSome(code, w.put[j])
    ensures Fit(vm, Apply(code, w), temps)
  {
    hide Disciplined, Splice, Plain, LikeSome, NoConflict, Fresh;
    LikeFresh(vm, code, w.put, temps);
    FreshSplice(vm, code, w.at, w.len, w.put, temps);
    PlainSplice(vm, code, w.at, w.len, w.put, temps);
  }

  lemma LooseContains(temps: set<int>)
    ensures {} <= Loose(temps) && {Register} <= Loose(temps)
  {
  }

  // ----- unused values and postponed constants -----

  lemma UnusedTurn(vm: VM, code: seq<Ins>, k: nat, temps: set<int>)
    requires Fit(vm, code, temps) && WellBehaved(vm) && TablesFull(code) && TablesClosed(code) && k < |code|
    ensures Faithful(vm, code, Apply(code, Unused(code, k, temps)), temps)
  {
    hide LiveAt, InfoType, Equivalent, Unused, Sound, Apply, WellBehaved, TablesFull, TablesClosed, Disciplined;
    hide AllPlain, NoConflict, Upholds, Quiet, AllStrict, Plain;
    PlainSound(vm, code, k, temps);
    PlainAt(vm, code, k, temps);
    PlainWord(vm, code[k], temps);
    UnusedPreserves(vm, code, k, temps);
    UnusedKeepsDiscipline(vm, code, k, temps);
    PlainUnused(vm, code, k, temps);
    NoConflictUnused(vm, code, k, temps);
    StrictUnused(vm, code, k, temps);
    if AllStrict(vm, code) {
      StrictQuiet(vm, code, k, temps);
    }
  }

  lemma PlainWord(vm: VM, ins: Ins, temps: set<int>)
    requires Plain(vm, ins, temps)
    ensures Word32(ins.a0)
  {
    hide Word32, InfoType;
  }

  lemma StrictQuiet(vm: VM, code: seq<Ins>, k: nat, temps: set<int>)
    requires AllStrict(vm, code) && k < |code|
    ensures Quiet(vm, code, k, temps)
  {
    hide LiveAt, InfoType, NeverFaults, Calm;
    assert Strict(vm, code[k]);
    if Calm(code[k].op) {
      CalmNeverFaults(vm, code[k]);
    }
  }

  lemma StrictUnused(vm: VM, code: seq<Ins>, k: nat, temps: set<int>)
    requires k < |code|
    ensures AllStrict(vm, code) ==> AllStrict(vm, Apply(code, Unused(code, k, temps)))
  {
    hide Unused, AllStrict, Splice, StrictPut;
    var w := Unused(code, k, temps);
    if w.Replace? {
      StrictUnusedPut(vm, code, k, temps);
      StrictSplice(vm, code, w);
    }
  }

  lemma StrictUnusedPut(vm: VM, code: seq<Ins>, k: nat, temps: set<int>)
    requires k < |code| && Unused(code, k, temps).Replace?
    ensures StrictPut(vm, code, Unused(code, k, temps))
  {
    hide LiveAt, InfoType, LastUse, RegUsedAfter, NeverFaults, Calm, MayRaise;
    ResultIsStrict(code[k].op);
    CalmResults();
    if InfoType(code[k].op) in {wW_rW_rW_ARG, wW_rW_DW_ARG} && k + 1 < |code| {
      RaisesAlike(vm, code[k], code[k + 1].w0);
    }
  }

  lemma ResultIsStrict(op: int)
    ensures InfoType(op) in {wW_rW_rW_ARG, wW_rW_DW_ARG} ==> op !in {Op.RDSPtr, Op.GETREF, Op.PopPtr}
  {
  }

  // The instructions that a constant or a join puts raise no exception.
  lemma CalmResults()
    ensures forall op :: IsArithImm(op) || IsCompareImm(op) ==> !MayRaise(op)
    ensures forall op :: op in {Op.SetV4, Op.PshC4, Op.SetG4, Op.PshG4, Op.PshC8, Op.LDG} ==> !MayRaise(op)
  {
    hide InfoType;
  }

  // Where a result goes makes no difference to an exception.
  lemma RaisesAlike(vm: VM, ins: Ins, x: int)
    requires InfoType(ins.op) in {wW_rW_rW_ARG, wW_rW_DW_ARG}
    ensures NeverFaults(vm, ins) ==> NeverFaults(vm, ins.(w0 := x))
  {
    var n := ins.(w0 := x);
    forall s
      ensures Faults(vm, n, s) == Faults(vm, ins, s)
    {
      FaultMoved(vm, ins, x, s);
    }
  }

  lemma FaultMoved(vm: VM, ins: Ins, x: int, s: State)
    requires InfoType(ins.op) in {wW_rW_rW_ARG, wW_rW_DW_ARG}
    ensures Faults(vm, ins.(w0 := x), s) == Faults(vm, ins, s)
  {
    CalculationTypes(ins.op);
    hide InfoType, Calm;
  }

  lemma CalculationTypes(op: int)
    requires InfoType(op) in {wW_rW_rW_ARG, wW_rW_DW_ARG}
    ensures op !in {Op.GETREF, Op.GETOBJREF, Op.ChkNullV, Op.LoadThisR, Op.LoadRObjR, Op.FREE}
  {
  }

  lemma PostponeTurn(vm: VM, code: seq<Ins>, k: nat, temps: set<int>)
    requires Fit(vm, code, temps) && WellBehaved(vm) && TablesOk(code) && k < |code| && CanPostpone(code, k, temps)
    ensures Faithful(vm, code, Postpone(code, k, temps), temps)
  {
    hide LiveAt, InfoType, Equivalent, Unused, Sound, Apply, WellBehaved, TablesFull, MovedDown, FirstUse, Disciplined;
    hide AllPlain, NoConflict, TablesClosed, Passes, TablesOk, AllStrict, Upholds, Plain;
    var u := FirstUse(code, k + 1, code[k].w0);
    var moved := MovedDown(code, k, u);
    TablesOkMeans(code);
    PlainMoved(vm, code, k, u, temps);
    NoConflictMoved(vm, code, k, u, temps);
    PlainSound(vm, moved, u - 1, temps);
    PlainAt(vm, code, k, temps);
    PlainWord(vm, code[k], temps);
    PostponePreserves(vm, code, k, temps);
    PlainUnused(vm, moved, u - 1, temps);
    NoConflictUnused(vm, moved, u - 1, temps);
    MoveKeepsDiscipline(code, k, u, temps, vm.hasResult);
    MoveKeepsClosed(code, k, u);
    UnusedKeepsDiscipline(vm, moved, u - 1, temps);
    StrictMoved(vm, code, k, u);
    StrictUnused(vm, moved, u - 1, temps);
    ExactIsFaithful(vm, code, Postpone(code, k, temps), Loose(temps), temps);
  }

  lemma StrictMoved(vm: VM, code: seq<Ins>, k: nat, u: nat)
    requires k < u <= |code|
    ensures AllStrict(vm, code) ==> AllStrict(vm, MovedDown(code, k, u))
  {
    hide Strict;
  }

  lemma MoveKeepsClosed(code: seq<Ins>, k: nat, u: nat)
    requires CanMove(code, k, u) && TablesOk(code)
    ensures TablesClosed(MovedDown(code, k, u))
  {
    hide TablesOk, MovedDown, Splice, Passes, TablesClosed, NoTable;
    MovedIsSplice(code, k, u);
    MovedNoTable(code, k, u);
    TablesKept(code, k, u - k, code[k + 1..u] + [code[k]]);
    TablesOkMeans(MovedDown(code, k, u));
  }

  lemma MovedNoTable(code: seq<Ins>, k: nat, u: nat)
    requires CanMove(code, k, u)
    ensures NoTable(code[k..u]) && NoTable(code[k + 1..u] + [code[k]])
  {
    hide Passes, InfoType;
    assert forall m :: k < m < u ==> !IsJmpOrLabel(code[m].op);
  }

  // ----- sequences on the register -----

  lemma ClearTurn(vm: VM, code: seq<Ins>, k: nat, temps: set<int>)
    requires Fit(vm, code, temps) && TablesFull(code) && TablesClosed(code) && k < |code| && code[k].op == Op.ClrHi
    requires ClrHiRule(code, k).Replace?
    ensures Faithful(vm, code, Apply(code, ClrHiRule(code, k)), temps)
  {
    hide LiveAt, InfoType, Equivalent, TablesFull, TablesClosed, Splice, Disciplined, AllPlain, NoConflict, Like;
    var w := ClrHiRule(code, k);
    LooseContains(temps);
    if k > 0 && IsTest(code[k - 1].op) {
      ClearAfterTestPreserves(vm, code, k - 1);
      DropBehind(code, k);
      ClearKeeps(code, k, temps, vm.hasResult);
      ExactTurn(vm, code, w, {}, temps);
    } else {
      PlainAt(vm, code, k + 1, temps);
      ClearedJumpPreserves(vm, code, k, temps);
      FusedJumpKeeps(code, k, LowJump(code[k + 1].op), temps, vm.hasResult);
      JumpIsPlain(vm, code[k + 1], LowJump(code[k + 1].op), temps);
      ExactTurn(vm, code, w, {Register}, temps);
    }
  }

  lemma JumpIsPlain(vm: VM, j: Ins, op: int, temps: set<int>)
    requires Plain(vm, j, temps) && IsCondJump(op)
    ensures Plain(vm, j.(op := op), temps) && Inert(op) && Strict(vm, j.(op := op))
  {
    hide Word32, NeverFaults;
    JumpType(op);
  }

  lemma JumpType(op: int)
    requires IsCondJump(op)
    ensures InfoType(op) == DW_ARG
  {
  }

  lemma DropBehind(code: seq<Ins>, k: nat)
    requires 0 < k < |code|
    ensures Splice(code, k - 1, 2, [code[k - 1]]) == Splice(code, k, 1, [])
  {
  }

  lemma JumpTurn(vm: VM, code: seq<Ins>, k: nat, temps: set<int>)
    requires Fit(vm, code, temps) && TablesFull(code) && TablesClosed(code) && k < |code| && IsCondJump(code[k].op)
    requires JumpRule(code, k).Replace?
    ensures Faithful(vm, code, Apply(code, JumpRule(code, k)), temps)
  {
    hide LiveAt, InfoType, Equivalent, TablesFull, TablesClosed, Splice, Disciplined, AllPlain, NoConflict, Like;
    hide TestAndJump;
    LooseContains(temps);
    TestJumpFound(code, k);
    PlainAt(vm, code, k, temps);
    var op := TestAndJump(code[k - 1].op, code[k].op);
    TestJumpPreserves(vm, code, k - 1, temps);
    FusedJumpKeeps(code, k - 1, op, temps, vm.hasResult);
    JumpIsPlain(vm, code[k], op, temps);
    ExactTurn(vm, code, JumpRule(code, k), {Register}, temps);
  }

  lemma TestJumpFound(code: seq<Ins>, k: nat)
    requires k < |code| && IsCondJump(code[k].op) && JumpRule(code, k).Replace?
    ensures k > 0 && IsTest(code[k - 1].op) && TestAndJump(code[k - 1].op, code[k].op) != -1
    ensures IsCondJump(TestAndJump(code[k - 1].op, code[k].op))
  {
  }

  lemma AccessTurn(vm: VM, code: seq<Ins>, k: nat, temps: set<int>)
    requires Fit(vm, code, temps) && TablesFull(code) && TablesClosed(code) && k < |code| && code[k].op == Op.LDG
    requires LDGRule(code, k).Replace?
    ensures Faithful(vm, code, Apply(code, LDGRule(code, k)), temps)
  {
    hide LiveAt, InfoType, Equivalent, TablesFull, TablesClosed, Splice, Disciplined, AllPlain, NoConflict, Like;
    hide PtrArg, RegUsedAfter, IsGlobal;
    var code' := Apply(code, LDGRule(code, k));
    LooseContains(temps);
    PlainAt(vm, code, k, temps);
    PlainAt(vm, code, k + 1, temps);
    var used := RegUsedAfter(code, k + 1);
    var op := if code[k + 1].op == Op.WRTV4 then Op.CpyVtoG4 else if used then Op.LdGRdR4 else Op.CpyGtoV4;
    SamePointer(code[k], DirectAccess(code[k], code[k + 1], op));
    AccessSizes();
    assert code' == Splice(code, k, 2, [DirectAccess(code[k], code[k + 1], op)]);
    if op == Op.CpyVtoG4 {
      WriteDirectPreserves(vm, code, k, temps);
    } else if used {
      ReadKeepingPreserves(vm, code, k);
      EquivalentWeakens(vm, code, code', {}, {Register});
    } else {
      ReadDirectPreserves(vm, code, k, temps);
    }
    AccessKeeps(code, k, op, temps, vm.hasResult);
    AccessIsPlain(vm, code[k], code[k + 1], op, temps);
    ExactTurn(vm, code, LDGRule(code, k), {Register}, temps);
  }

  lemma AccessIsPlain(vm: VM, c: Ins, d: Ins, op: int, temps: set<int>)
    requires Plain(vm, c, temps) && Plain(vm, d, temps) && c.op == Op.LDG
    requires (d.op == Op.WRTV4 && op == Op.CpyVtoG4) || (d.op == Op.RDR4 && op in {Op.CpyGtoV4, Op.LdGRdR4})
    ensures Plain(vm, DirectAccess(c, d, op), temps) && Inert(op)
  {
    hide Word32, PtrArg, IsGlobal;
    SamePointer(c, DirectAccess(c, d, op));
  }

  lemma AccessSizes()
    ensures InfoType(Op.LdGRdR4) == InfoType(Op.CpyGtoV4)
  {
  }

  // ----- sequences on addresses -----

  // Instructions on addresses that write no variable.
  lemma AddressTypes(op: int)
    ensures OnAddresses(op) && op != Op.FREE && op != Op.RefCpyV ==> !OnlyWrites(InfoType(op))
  {
    hide InfoType;
    OperandTypes(op);
    OtherTypes(op);
  }

  lemma SwapTurn(vm: VM, code: seq<Ins>, k: nat, temps: set<int>)
    requires Fit(vm, code, temps) && TablesFull(code) && TablesClosed(code) && k < |code| && code[k].op == Op.SwapPtr
    requires SwapRule(code, k).Replace?
    ensures Faithful(vm, code, Apply(code, SwapRule(code, k)), temps)
  {
    hide LiveAt, Equivalent, TablesFull, TablesClosed, Splice, Disciplined, AllPlain, NoConflict;
    hide Plain, LikeSome, Strict;
    LooseContains(temps);
    SwapPreserves(vm, code, k);
    SwapKeeps(code, k, temps, vm.hasResult);
    PlainAt(vm, code, k - 1, temps);
    PlainAt(vm, code, k - 2, temps);
    InListLike(code, k - 1);
    InListLike(code, k - 2);
    ExactTurn(vm, code, SwapRule(code, k), {}, temps);
  }

  lemma IncrementTurn(vm: VM, code: seq<Ins>, k: nat, temps: set<int>)
    requires Fit(vm, code, temps) && TablesFull(code) && TablesClosed(code) && k < |code| && code[k].op == Op.LDV
    requires LDVRule(code, k).Replace?
    ensures Faithful(vm, code, Apply(code, LDVRule(code, k)), temps)
  {
    hide LiveAt, InfoType, Equivalent, TablesFull, TablesClosed, Splice, Disciplined;
    hide AllPlain, NoConflict, RegUsedAfter;
    hide Like, Word32;
    LooseContains(temps);
    PlainAt(vm, code, k, temps);
    IncrementPreserves(vm, code, k, temps);
    IncrementKeeps(code, k, temps, vm.hasResult);
    AddressTypes(LDVRule(code, k).put[0].op);
    ExactTurn(vm, code, LDVRule(code, k), {Register}, temps);
  }

  lemma AllPushNonNull(vm: VM, code: seq<Ins>, temps: set<int>)
    requires AllPlain(vm, code, temps)
    ensures forall i :: 0 <= i < |code| ==> PushesNonNull(vm, code[i])
  {
    hide Plain, PushesNonNull;
    forall i | 0 <= i < |code|
      ensures PushesNonNull(vm, code[i])
    {
      assert Plain(vm, code[i], temps);
      PlainPushes(vm, code[i], temps);
    }
  }

  lemma PlainPushes(vm: VM, ins: Ins, temps: set<int>)
    requires Plain(vm, ins, temps)
    ensures PushesNonNull(vm, ins)
  {
    hide Word32, InfoType, Address, PtrArg;
  }

  lemma CheckTurn(vm: VM, code: seq<Ins>, k: nat, temps: set<int>)
    requires Fit(vm, code, temps) && TablesFull(code) && TablesClosed(code) && k < |code| && code[k].op == Op.CHKREF
    requires CHKREFRule(code, k).Replace? && WellBehaved(vm)
    ensures Faithful(vm, code, Apply(code, CHKREFRule(code, k)), temps)
  {
    hide LiveAt, Equivalent, TablesFull, TablesClosed, Splice, Disciplined, AllPlain, NoConflict, PushesNonNull;
    LooseContains(temps);
    AllPushNonNull(vm, code, temps);
    CheckPreserves(vm, code, k);
    DropKeeps(code, k, temps, vm.hasResult);
    ExactTurn(vm, code, CHKREFRule(code, k), {}, temps);
  }

  // An address that is followed is one of a variable meant to be reached.
  lemma AddressedWhereFollowed(vm: VM, code: seq<Ins>, i: nat, j: nat, temps: set<int>)
    requires NoConflict(vm, code, temps) && i < |code| && j < |code|
    requires FollowsAddress(code[i].op) && GivesAddress(code[j].op)
    ensures vm.addressed(code[j].w0) && (code[i].op == Op.REFCPY ==> code[j].w0 !in temps)
  {
    hide Clash;
    assert !Conflict(vm, code[i], code[j], temps);
  }

  lemma ReadTurn(vm: VM, code: seq<Ins>, k: nat, temps: set<int>)
    requires Fit(vm, code, temps) && TablesFull(code) && TablesClosed(code) && k < |code| && code[k].op == Op.RDSPtr
    requires RDSPtrRule(code, k).Replace?
    ensures Faithful(vm, code, Apply(code, RDSPtrRule(code, k)), temps)
  {
    hide LiveAt, InfoType, Equivalent, TablesFull, TablesClosed, Splice, Disciplined, AllPlain, NoConflict, Word32;
    hide PtrArg, IsGlobal;
    LooseContains(temps);
    PlainAt(vm, code, k - 1, temps);
    PlainAt(vm, code, k, temps);
    if code[k - 1].op == Op.PSF {
      AddressedWhereFollowed(vm, code, k, k - 1, temps);
    }
    ReadPreserves(vm, code, k);
    ReadKeeps(code, k, temps, vm.hasResult);
    AddressTypes(RDSPtrRule(code, k).put[0].op);
    AddressTypes(Op.CHKREF);
    if code[k - 1].op == Op.ChkRefS {
      assert Like(RDSPtrRule(code, k).put[0], code[k]);
    }
    ExactTurn(vm, code, RDSPtrRule(code, k), {}, temps);
  }

  lemma MemberTurn(vm: VM, code: seq<Ins>, k: nat, temps: set<int>)
    requires Fit(vm, code, temps) && TablesFull(code) && TablesClosed(code) && k < |code| && code[k].op == Op.PopRPtr
    requires PopRPtrRule(code, k).Replace?
    ensures Faithful(vm, code, Apply(code, PopRPtrRule(code, k)), temps)
  {
    hide LiveAt, InfoType, InfoStackInc, Equivalent, TablesFull, TablesClosed, Splice;
    hide Disciplined, AllPlain, NoConflict;
    hide Word32, Address, Like, PtrArg;
    LooseContains(temps);
    PlainAt(vm, code, k - 1, temps);
    PlainAt(vm, code, k - 2, temps);
    PlainPushes(vm, code[k - 2], temps);
    MemberPreserves(vm, code, k);
    MemberKeeps(code, k, temps, vm.hasResult);
    AddressTypes(PopRPtrRule(code, k).put[0].op);
    ExactTurn(vm, code, PopRPtrRule(code, k), {}, temps);
  }

  lemma HandleCopyTurn(vm: VM, code: seq<Ins>, k: nat, temps: set<int>)
    requires Fit(vm, code, temps) && TablesFull(code) && TablesClosed(code) && k < |code| && code[k].op == Op.REFCPY
    requires REFCPYRule(code, k).Replace?
    ensures Faithful(vm, code, Apply(code, REFCPYRule(code, k)), temps)
  {
    hide LiveAt, InfoType, InfoStackInc, Equivalent, TablesFull, TablesClosed, Splice;
    hide Disciplined, AllPlain, NoConflict;
    hide Word32, Address, Like;
    LooseContains(temps);
    PlainAt(vm, code, k, temps);
    AddressedWhereFollowed(vm, code, k, k - 1, temps);
    HandleCopyPreserves(vm, code, k);
    HandleCopyKeeps(code, k, temps, vm.hasResult);
    ExactTurn(vm, code, REFCPYRule(code, k), {}, temps);
  }

  lemma ReleaseTurn(vm: VM, code: seq<Ins>, k: nat, temps: set<int>)
    requires Fit(vm, code, temps) && TablesFull(code) && TablesClosed(code) && k < |code| && code[k].op == Op.FREE
    requires FREERule(code, k).Replace?
    ensures Faithful(vm, code, Apply(code, FREERule(code, k)), temps)
  {
    hide LiveAt, Equivalent, TablesFull, TablesClosed, Splice, Disciplined, AllPlain, NoConflict;
    hide Plain, LikeSome, Strict;
    LooseContains(temps);
    ReleasePreserves(vm, code, k);
    ReleaseKeeps(code, k, temps, vm.hasResult);
    PlainAt(vm, code, k - 1, temps);
    PlainAt(vm, code, k, temps);
    InListLike(code, k - 1);
    InListLike(code, k);
    ExactTurn(vm, code, FREERule(code, k), {}, temps);
  }

  lemma PopTurn(vm: VM, code: seq<Ins>, k: nat, temps: set<int>)
    requires Fit(vm, code, temps) && TablesFull(code) && TablesClosed(code) && k < |code| && code[k].op == Op.PopPtr
    requires PopPtrRule(code, k, temps).Replace?
    ensures Faithful(vm, code, Apply(code, PopPtrRule(code, k, temps)), temps)
  {
    hide LiveAt, InfoType, Equivalent, TablesFull, TablesClosed, Splice, Disciplined, AllPlain, NoConflict, Word32;
    hide PtrArg, Like, Upholds, StoredHandleRule;
    LooseContains(temps);
    PlainAt(vm, code, k - 1, temps);
    var w := PopPtrRule(code, k, temps);
    if code[k - 1].op == Op.FREE {
      NoStoredHandle(vm, code, k, temps);
    } else if code[k - 1].op == Op.RDSPtr {
      DroppedRead(vm, code, k - 1, temps);
    } else {
      if k > 1 && code[k - 2].op == Op.PSF && code[k - 1].op == Op.ChkRefS {
        AddressedWhereFollowed(vm, code, k - 1, k - 2, temps);
      }
      PopPreserves(vm, code, k, temps);
      PopKeeps(code, k, temps, vm.hasResult);
      if k > 1 {
        PlainAt(vm, code, k - 2, temps);
      }
      if w.put != [] {
        AddressTypes(w.put[0].op);
        FreedPtr(code[k - 1]);
      }
      ExactTurn(vm, code, w, {}, temps);
    }
  }

  lemma FreedPtr(ins: Ins)
    ensures PtrArg(ins.(op := Op.FREE)) == PtrArg(ins)
  {
  }

  // A handle is stored in no temporary, so it is not moved out of one either.
  lemma NoStoredHandle(vm: VM, code: seq<Ins>, k: nat, temps: set<int>)
    requires AllPlain(vm, code, temps) && 0 < k < |code|
    ensures StoredHandleRule(code, k, temps).Keep?
  {
    hide LiveAt, Plain;
    if k >= 6 && IsStoredHandle(code, k) {
      PlainAt(vm, code, k - 6, temps);
      StoresInNoTemporary(vm, code[k - 6], temps);
    }
  }

  lemma StoresInNoTemporary(vm: VM, ins: Ins, temps: set<int>)
    requires Plain(vm, ins, temps) && ins.op == Op.STOREOBJ
    ensures ins.w0 !in temps
  {
    hide Word32, InfoType;
  }

  // RDSPtr, PopPtr -> PopPtr
  lemma DroppedRead(vm: VM, code: seq<Ins>, k: nat, temps: set<int>)
    requires Fit(vm, code, temps) && TablesFull(code) && TablesClosed(code) && k + 1 < |code|
    requires code[k].op == Op.RDSPtr && code[k + 1].op == Op.PopPtr
    ensures Faithful(vm, code, Splice(code, k, 1, []), temps)
  {
    hide LiveAt, TablesFull, TablesClosed, Splice, Disciplined, AllPlain, NoConflict, Upholds, Equivalent;
    LooseContains(temps);
    ReadPopUpholds(vm, code, k);
    UpholdsWeakens(vm, code, Splice(code, k, 1, []), {}, Loose(temps));
    DropKeeps(code, k, temps, vm.hasResult);
    StaysFit(vm, code, Replace(k, 1, []), temps);
    assert !Without(code, Op.RDSPtr) && !Without(code, Op.PopPtr);
  }

  lemma NamedTurn(vm: VM, code: seq<Ins>, k: nat, temps: set<int>)
    requires Fit(vm, code, temps) && TablesFull(code) && TablesClosed(code) && k < |code| && code[k].op == Op.VAR
    requires VarRule(code, k).Replace?
    ensures Faithful(vm, code, Apply(code, VarRule(code, k)), temps)
  {
    hide LiveAt, InfoType, Equivalent, TablesFull, TablesClosed, Splice, Disciplined, AllPlain, NoConflict, Word32;
    LooseContains(temps);
    var w := VarRule(code, k);
    PlainAt(vm, code, k, temps);
    forall i | 0 <= i < |code| && code[i].op == Op.GETOBJREF
      ensures vm.addressed(code[k].w0)
    {
      AddressedWhereFollowed(vm, code, i, k, temps);
    }
    NamedPreserves(vm, code, k);
    NamedKeeps(code, k, temps, vm.hasResult);
    AddressTypes(w.put[0].op);
    assert GivesAddress(w.put[0].op) ==> Like(w.put[0], code[k]);
    if |w.put| > 1 {
      PlainAt(vm, code, k + 1, temps);
      assert Like(w.put[1], code[k + 1]);
    }
    ExactTurn(vm, code, w, {}, temps);
  }

  lemma ReferenceTurn(vm: VM, code: seq<Ins>, k: nat, temps: set<int>)
    requires Fit(vm, code, temps) && TablesFull(code) && TablesClosed(code) && k < |code| && code[k].op == Op.VAR
    requires VarRefRule(code, k).Replace?
    ensures Faithful(vm, code, Apply(code, VarRefRule(code, k)), temps)
  {
    hide LiveAt, InfoType, Equivalent, TablesFull, TablesClosed, Splice, Disciplined, AllPlain, NoConflict, Word32;
    LooseContains(temps);
    var w := VarRefRule(code, k);
    PlainAt(vm, code, k, temps);
    PlainAt(vm, code, k + 1, temps);
    NamedReferencePreserves(vm, code, k);
    BelowKeeps(code, k, w, temps, vm.hasResult);
    AddressTypes(w.put[0].op);
    assert Like(w.put[0], code[k]) && Like(w.put[1], code[k + 1]);
    ExactTurn(vm, code, w, {}, temps);
  }

  // VAR, PSF, GETREF -> PSF, PSF on what another rule has made of the VAR.
  lemma ResolvedTwiceTurn(vm: VM, code: seq<Ins>, k: nat, temps: set<int>)
    requires Fit(vm, code, temps) && TablesFull(code) && TablesClosed(code) && k < |code| && code[k].op == Op.VAR
    requires VarRule(code, k).Replace?
    requires var code' := Apply(code, VarRule(code, k)); TablesFull(code') && TablesClosed(code')
    requires var code' := Apply(code, VarRule(code, k)); k < |code'| && VarRefRule(code', k).Replace?
    ensures var code' := Apply(code, VarRule(code, k)); Faithful(vm, code, Apply(code', VarRefRule(code', k)), temps)
  {
    hide LiveAt, Equivalent, TablesFull, TablesClosed, Disciplined, AllPlain, NoConflict, Upholds, Plain, Fit, Splice;
    var code' := Apply(code, VarRule(code, k));
    var code'' := Apply(code', VarRefRule(code', k));
    NamedTurn(vm, code, k, temps);
    var _ := ResolvedTwiceShape(code, k);
    ResolvedTwiceUpholds(vm, code', k);
    LooseContains(temps);
    UpholdsWeakens(vm, code', code'', {}, Loose(temps));
    UpholdsTrans(vm, code, code', code'', Loose(temps));
    FitIs(vm, code', temps);
    BelowKeeps(code', k, VarRefRule(code', k), temps, vm.hasResult);
    ResolvedTwiceFit(vm, code, k, temps);
    assert !Strict(vm, code[k + 3]);
  }

  // The four instructions, and the two that are left.
  lemma ResolvedTwiceShape(code: seq<Ins>, k: nat) returns (i: nat)
    requires k < |code| && code[k].op == Op.VAR && VarRule(code, k).Replace?
    requires var code' := Apply(code, VarRule(code, k)); k < |code'| && VarRefRule(code', k).Replace?
    ensures k + 3 < |code| && code[k + 3].op == Op.GETREF && code[k + 3].w0 == PTR_SIZE
    ensures i < |code| && code[i].op == Op.PSF
    ensures var code' := Apply(code, VarRule(code, k));
      && code'[k].op in {Op.PSF, Op.PshVPtr} && code'[k].w0 == code[k].w0
      && Apply(code', VarRefRule(code', k)) == Splice(code, k, 4, [code[k].(op := Op.PSF), code[i]])
  {
    var code' := Apply(code, VarRule(code, k));
    i := if PushedThen(code, k, Op.GETOBJREF) then k + 1 else k + 2;
    assert code'[k + 1] == code[i];
    assert Apply(code', VarRefRule(code', k)) == Splice(code, k, 4, [code[k].(op := Op.PSF), code[i]]);
  }

  lemma ResolvedTwiceFit(vm: VM, code: seq<Ins>, k: nat, temps: set<int>)
    requires Fit(vm, code, temps) && k < |code| && code[k].op == Op.VAR && VarRule(code, k).Replace?
    requires var code' := Apply(code, VarRule(code, k)); k < |code'| && VarRefRule(code', k).Replace?
    requires var code' := Apply(code, VarRule(code, k));
      Disciplined(Apply(code', VarRefRule(code', k)), temps, vm.hasResult)
    ensures var code' := Apply(code, VarRule(code, k)); Fit(vm, Apply(code', VarRefRule(code', k)), temps)
  {
    hide LiveAt, InfoType, Disciplined, AllPlain, NoConflict, Word32, Splice, VarRule, VarRefRule;
    var i := ResolvedTwiceShape(code, k);
    var n, b := code[k].(op := Op.PSF), code[i];
    PlainAt(vm, code, k, temps);
    PlainAt(vm, code, i, temps);
    AddressTypes(Op.PSF);
    assert Like(n, code[k]) && Like(b, code[i]);
    StaysFit(vm, code, Replace(k, 4, [n, b]), temps);
  }

  lemma VarTurn(vm: VM, code: seq<Ins>, k: nat, temps: set<int>)
    requires TablesOk(code) && Fit(vm, code, temps) && k < |code| && code[k].op == Op.VAR
    requires VarOutcome(code, k).Changed?
    ensures Faithful(vm, code, VarOutcome(code, k).code, temps)
  {
    hide VarRule, VarRefRule, Faithful, Fit, TablesFull, TablesClosed, TablesOk;
    TablesOkMeans(code);
    if VarRule(code, k).Keep? {
      ReferenceTurn(vm, code, k, temps);
    } else {
      var code' := Apply(code, VarRule(code, k));
      NamedTurn(vm, code, k, temps);
      NamedTables(code, k);
      TablesOkMeans(code');
      if VarRefRule(code', k).Replace? {
        ResolvedTwiceTurn(vm, code, k, temps);
      }
    }
  }

  lemma NamedTables(code: seq<Ins>, k: nat)
    requires k < |code| && code[k].op == Op.VAR && VarRule(code, k).Replace? && TablesOk(code)
    ensures TablesOk(Apply(code, VarRule(code, k)))
  {
    hide TablesOk;
    var w := VarRule(code, k);
    TablesKept(code, k, w.len, w.put);
  }

  // ----- all turns -----

  lemma SequenceTurn(vm: VM, code: seq<Ins>, k: nat, temps: set<int>)
    requires Fit(vm, code, temps) && TablesOk(code) && k < |code| && WellBehaved(vm)
    requires Sequence(code, k, temps).Changed?
    ensures Faithful(vm, code, Sequence(code, k, temps).code, temps)
  {
    hide Fit, Faithful, TablesOk, TablesFull, TablesClosed, WellBehaved, VarOutcome;
    hide SwapRule, ClrHiRule, LDVRule, LDGRule, CHKREFRule, PopPtrRule, RDSPtrRule, PopRPtrRule, REFCPYRule, JumpRule;
    hide FREERule;
    TablesOkMeans(code);
    var op := code[k].op;
    if op == Op.SwapPtr {
      SwapTurn(vm, code, k, temps);
    } else if op == Op.ClrHi {
      ClearTurn(vm, code, k, temps);
    } else if op == Op.LDV {
      IncrementTurn(vm, code, k, temps);
    } else if op == Op.LDG {
      AccessTurn(vm, code, k, temps);
    } else if op == Op.CHKREF {
      CheckTurn(vm, code, k, temps);
    } else if op == Op.PopPtr {
      PopTurn(vm, code, k, temps);
    } else if op == Op.RDSPtr {
      ReadTurn(vm, code, k, temps);
    } else if op == Op.PopRPtr {
      MemberTurn(vm, code, k, temps);
    } else if op == Op.REFCPY {
      HandleCopyTurn(vm, code, k, temps);
    } else if IsCondJump(op) {
      JumpTurn(vm, code, k, temps);
    } else if op == Op.FREE {
      ReleaseTurn(vm, code, k, temps);
    } else {
      VarTurn(vm, code, k, temps);
    }
  }

  /** One turn of the optimizer preserves every run, up to temporaries and the value register; at most it
      loses an exception, and none of a strict list. */
  lemma TurnPreserves(vm: VM, code: seq<Ins>, k: nat, temps: set<int>)
    requires Good(code) && Fit(vm, code, temps) && WellBehaved(vm) && k < |code| && Turn(code, k, temps).Changed?
    ensures Faithful(vm, code, Turn(code, k, temps).code, temps)
  {
    hide Faithful, Unused, CanPostpone, Postpone, Sequence, Apply, WellBehaved, TablesFull, TablesClosed, Fit;
    hide TablesOk, AllConform;
    TablesOkMeans(code);
    if Unused(code, k, temps).Replace? {
      UnusedTurn(vm, code, k, temps);
    } else if CanPostpone(code, k, temps) {
      PostponeTurn(vm, code, k, temps);
    } else {
      SequenceTurn(vm, code, k, temps);
    }
  }

  /** And so does the optimizer, whatever turns it makes. */
  lemma {:induction false} OptimizerPreserves(vm: VM, lists: seq<seq<Ins>>, temps: set<int>)
    requires Turns(lists, temps) && (forall i :: 0 <= i < |lists| ==> Good(lists[i]))
    requires Fit(vm, lists[0], temps) && WellBehaved(vm)
    ensures Faithful(vm, lists[0], lists[|lists| - 1], temps)
  {
    hide WellBehaved, Fit, Good, Turn, Faithful;
    var n := |lists|;
    if n == 1 {
      NoTurn(vm, lists[0], temps);
    } else {
      var front := lists[..n - 1];
      assert forall i :: 0 <= i < n - 1 ==> front[i] == lists[i];
      assert Turns(front, temps);
      OptimizerPreserves(vm, front, temps);
      assert OneTurn(lists[n - 2], lists[n - 1], temps);
      var k: nat :| k < |lists[n - 2]| && Turn(lists[n - 2], k, temps) == Changed(lists[n - 1]);
      FaithfulFit(vm, lists[0], lists[n - 2], temps);
      TurnPreserves(vm, lists[n - 2], k, temps);
      FaithfulTrans(vm, lists[0], lists[n - 2], lists[n - 1], temps);
    }
  }

  lemma NoTurn(vm: VM, code: seq<Ins>, temps: set<int>)
    requires Fit(vm, code, temps)
    ensures Faithful(vm, code, code, temps)
  {
    hide Fit, Equivalent, Upholds, AllStrict;
    EquivalentRefl(vm, code, Loose(temps));
    EquivalentUpholds(vm, code, code, Loose(temps));
  }

  lemma FaithfulFit(vm: VM, code: seq<Ins>, code': seq<Ins>, temps: set<int>)
    requires Faithful(vm, code, code', temps)
    ensures Fit(vm, code', temps)
  {
    hide Fit, Equivalent, Upholds, AllStrict;
  }

  lemma FaithfulTrans(vm: VM, c0: seq<Ins>, c1: seq<Ins>, c2: seq<Ins>, temps: set<int>)
    requires Faithful(vm, c0, c1, temps) && Faithful(vm, c1, c2, temps)
    ensures Faithful(vm, c0, c2, temps)
  {
    hide Fit, Equivalent, Upholds, AllStrict;
    UpholdsTrans(vm, c0, c1, c2, Loose(temps));
    if AllStrict(vm, c0) {
      EquivalentTrans(vm, c0, c1, c2, Loose(temps));
    }
  }
}
