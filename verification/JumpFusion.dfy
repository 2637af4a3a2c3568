/** The rewrites of tests, `ClrHi` and conditional jumps preserve the meaning of the list. */
module JumpFusion {
  import Op
  import opened Tables
  import opened Instructions
  import opened CodeLists
  import opened Machine
  import opened Liveness
  import opened Windows
  import opened Blocks
  import opened Discipline
  import opened UnusedValues
  import opened SequencesKept

  lemma ExecTest(vm: VM, ins: Ins, s: State)
    requires IsTest(ins.op) || ins.op == Op.ClrHi
    ensures Exec(vm, ins, s) ==
      s.(core := s.core.(reg := if ins.op == Op.ClrHi then s.core.reg % 0x100 else TestResult(ins.op, s.core.reg)))
  {
  }

  // Testing and then jumping on the result is jumping on the other sense of the register.
  lemma TestsAgree(test: int, jump: int, reg: int)
    requires IsTest(test) && IsCondJump(jump) && TestAndJump(test, jump) != -1
    ensures Taken(jump, TestResult(test, reg)) <==> Taken(TestAndJump(test, jump), reg)
    ensures IsCondJump(TestAndJump(test, jump))
  {
  }

  // Behind a conditional jump nobody asks for the value register.
  lemma RegisterFreeBehind(vm: VM, code: seq<Ins>, i: nat, j: nat, temps: set<int>)
    requires i < |code| && IsCondJump(code[i].op) && Disciplined(code, temps, vm.hasResult)
    requires j == i + 1 || j == Target(code, i, code[i].a0)
    ensures RegisterFree(vm, code, j, {Register})
  {
    hide LiveAt, Target;
    forall p: Place | Counts(p, vm.hasResult) && !p.Var?
      ensures !LiveAt(code, j, p)
    {
      if LiveAt(code, j, p) {
        LiveInside(code, j, p);
        assert Flow(code, i, j);
        var sheds := Sheds(code[i], p, temps, vm.hasResult);
      }
    }
  }

  // States that differ in the value register where nobody asks for it.
  lemma OnlyRegisterDiffers(vm: VM, code: seq<Ins>, k: nat, j: nat, s: State, s': State, t: State)
    requires Rel(vm, code, k, s, s', {Register}) && RegisterFree(vm, code, j, {Register})
    requires t.vars == s.vars && SameOutside(t.core, s.core)
    ensures Rel(vm, code, j, t, s', {Register})
  {
    hide LiveAt;
  }

  /** A conditional jump and what prepares its register, replaced by one conditional jump. */
  lemma FusedJumpPreserves(vm: VM, code: seq<Ins>, k: nat, op: int, temps: set<int>)
    requires k + 1 < |code| && TablesFull(code) && Disciplined(code, temps, vm.hasResult)
    requires (IsTest(code[k].op) || code[k].op == Op.ClrHi) && IsCondJump(code[k + 1].op) && IsCondJump(op)
    requires forall s :: Taken(code[k + 1].op, Exec(vm, code[k], s).core.reg) <==> Taken(op, s.core.reg)
    ensures Equivalent(vm, code, Splice(code, k, 2, [code[k + 1].(op := op)]), {Register})
  {
    hide InfoType, TablesFull, Equivalent, Splice, Exec, Rel, Taken, LiveAt, Disciplined, ExitRel, Block, IsBlock;
    var t, j, X := code[k], code[k + 1], {Register};
    var n := j.(op := op);
    assert code[k..k + 2] == [t, j];
    TablesAreClear(code, k, 2);
    assert Discards(vm, code, X);
    assert IsBlock([t, j]) && IsBlock([n]) by {
      FusedBlocks(t, j, n);
    }
    forall s, s' | Rel(vm, code, k, s, s', X)
      ensures ExitRel(vm, code, k + 2, Block(vm, code[k..k + 2], s), Block(vm, [n], s'), X)
    {
      FusedExits(vm, code, k, op, temps, s, s');
    }
    BlockReplaces(vm, code, k, 2, [n], X);
  }

  lemma FusedBlocks(t: Ins, j: Ins, n: Ins)
    requires (IsTest(t.op) || t.op == Op.ClrHi) && IsCondJump(j.op) && IsCondJump(n.op)
    ensures IsBlock([t, j]) && IsBlock([n])
  {
  }

  lemma FusedExits(vm: VM, code: seq<Ins>, k: nat, op: int, temps: set<int>, s: State, s': State)
    requires k + 1 < |code| && Disciplined(code, temps, vm.hasResult)
    requires (IsTest(code[k].op) || code[k].op == Op.ClrHi) && IsCondJump(code[k + 1].op) && IsCondJump(op)
    requires forall s :: Taken(code[k + 1].op, Exec(vm, code[k], s).core.reg) <==> Taken(op, s.core.reg)
    requires Rel(vm, code, k, s, s', {Register})
    ensures ExitRel(vm, code, k + 2, Block(vm, code[k..k + 2], s), Block(vm, [code[k + 1].(op := op)], s'), {Register})
  {
    hide InfoType, Exec, Taken, LiveAt, Disciplined, Target, RegisterFree, Block, Rel, ExitRel;
    var j, t := code[k + 1], Exec(vm, code[k], s);
    RegisterWanted(code, k);
    RegisterNotFree(vm, code, k, s, s');
    ExecTest(vm, code[k], s);
    assert code[k..k + 2] == [code[k], j];
    FusedBlock(vm, code[k], j, op, s);
    JumpBlock(vm, j.(op := op), s');
    RegisterFreeBehind(vm, code, k + 1, k + 2, temps);
    OnlyRegisterDiffers(vm, code, k, k + 2, s, s', t);
    if Target(code, k + 1, j.a0) != -1 {
      RegisterFreeBehind(vm, code, k + 1, Target(code, k + 1, j.a0), temps);
      OnlyRegisterDiffers(vm, code, k, Target(code, k + 1, j.a0), s, s', t);
    }
    SameJump(vm, code, k + 2, j.a0, t, s', Taken(op, s'.core.reg));
  }

  lemma JumpBlock(vm: VM, j: Ins, s: State)
    requires IsCondJump(j.op)
    ensures Block(vm, [j], s) == if Taken(j.op, s.core.reg) then Jump(j.a0, s) else Fall(s)
  {
    hide Taken;
    assert [j][1..] == [];
    assert Block(vm, [], s) == Fall(s);
  }

  lemma FusedBlock(vm: VM, t: Ins, j: Ins, op: int, s: State)
    requires (IsTest(t.op) || t.op == Op.ClrHi) && IsCondJump(j.op)
    requires Taken(j.op, Exec(vm, t, s).core.reg) <==> Taken(op, s.core.reg)
    ensures var u := Exec(vm, t, s);
      Block(vm, [t, j], s) == if Taken(op, s.core.reg) then Jump(j.a0, u) else Fall(u)
  {
    hide Taken, Exec, InfoType;
    assert [t, j][1..] == [j];
    JumpBlock(vm, j, Exec(vm, t, s));
  }

  lemma SameJump(vm: VM, code: seq<Ins>, end: nat, lab: int, t: State, s': State, taken: bool)
    requires 0 < end <= |code| && Rel(vm, code, end, t, s', {Register})
    requires Target(code, end - 1, lab) != -1 ==> Rel(vm, code, Target(code, end - 1, lab), t, s', {Register})
    ensures ExitRel(vm, code, end, if taken then Jump(lab, t) else Fall(t), if taken then Jump(lab, s') else Fall(s'),
                    {Register})
  {
    hide LiveAt, Target;
  }

  lemma RegisterNotFree(vm: VM, code: seq<Ins>, k: nat, s: State, s': State)
    requires LiveAt(code, k, Register) && Rel(vm, code, k, s, s', {Register})
    ensures s.core == s'.core
  {
    hide LiveAt;
  }

  lemma RegisterWanted(code: seq<Ins>, k: nat)
    requires k + 1 < |code| && (IsTest(code[k].op) || code[k].op == Op.ClrHi) && IsCondJump(code[k + 1].op)
    ensures LiveAt(code, k, Register)
  {
    hide LiveAt, Target;
    if IsTest(code[k].op) {
      LiveHere(code, k, Register);
    } else {
      LiveHere(code, k + 1, Register);
      LiveNext(code, k, k + 1, Register);
    }
  }

  /** T**, J** -> J** */
  lemma TestJumpPreserves(vm: VM, code: seq<Ins>, k: nat, temps: set<int>)
    requires k + 1 < |code| && TablesFull(code) && Disciplined(code, temps, vm.hasResult)
    requires IsTest(code[k].op) && IsCondJump(code[k + 1].op) && TestAndJump(code[k].op, code[k + 1].op) != -1
    ensures var n := code[k + 1].(op := TestAndJump(code[k].op, code[k + 1].op));
      Equivalent(vm, code, Splice(code, k, 2, [n]), {Register})
  {
    hide InfoType, TablesFull, Equivalent, Splice, Exec, Taken, TestResult, TestAndJump, Disciplined;
    TestsAgree(code[k].op, code[k + 1].op, 0);
    forall s
      ensures Taken(code[k + 1].op, Exec(vm, code[k], s).core.reg) <==>
        Taken(TestAndJump(code[k].op, code[k + 1].op), s.core.reg)
    {
      ExecTest(vm, code[k], s);
      TestsAgree(code[k].op, code[k + 1].op, s.core.reg);
    }
    FusedJumpPreserves(vm, code, k, TestAndJump(code[k].op, code[k + 1].op), temps);
  }

  /** ClrHi, JZ -> JLowZ and ClrHi, JNZ -> JLowNZ */
  lemma ClearedJumpPreserves(vm: VM, code: seq<Ins>, k: nat, temps: set<int>)
    requires k + 1 < |code| && TablesFull(code) && Disciplined(code, temps, vm.hasResult)
    requires code[k].op == Op.ClrHi && code[k + 1].op in {Op.JZ, Op.JNZ}
    ensures Equivalent(vm, code, Splice(code, k, 2, [code[k + 1].(op := LowJump(code[k + 1].op))]), {Register})
  {
    hide InfoType, TablesFull, Equivalent, Splice, Exec, Disciplined;
    forall s
      ensures Taken(code[k + 1].op, Exec(vm, code[k], s).core.reg) <==> Taken(LowJump(code[k + 1].op), s.core.reg)
    {
      ExecTest(vm, code[k], s);
    }
    FusedJumpPreserves(vm, code, k, LowJump(code[k + 1].op), temps);
  }

  /** T**, ClrHi -> T** */
  lemma ClearAfterTestPreserves(vm: VM, code: seq<Ins>, k: nat)
    requires k + 1 < |code| && TablesFull(code) && IsTest(code[k].op) && code[k + 1].op == Op.ClrHi
    ensures Equivalent(vm, code, Splice(code, k, 2, [code[k]]), {})
  {
    hide InfoType, TablesFull, Equivalent, Splice, Exec, LiveAt;
    forall s, s' | Rel(vm, code, k, s, s', {})
      ensures Rel(vm, code, k + 2, Exec(vm, code[k + 1], Exec(vm, code[k], s)), Exec(vm, code[k], s'), {})
    {
      ExecTest(vm, code[k], s);
      ExecTest(vm, code[k], s');
      ExecTest(vm, code[k + 1], Exec(vm, code[k], s));
    }
    TwoReplaced(vm, code, k, [code[k]], {});
  }

  // ----- a register that is wanted behind a jump -----

  function KeptRegister(): seq<Ins> {
    [Ins(Op.TZ, 0, 0, 0, 0, 0, 1, 0), Ins(Op.JZ, 7, 0, 0, 0, 0, 2, 0), Ins(Op.LABEL, 0, 0, 7, 0, 0, 0, 0),
     Ins(Op.RET, 0, 0, 0, 0, 0, 1, 0)]
  }

  function KeptRegisterFused(): seq<Ins> {
    [Ins(Op.JNZ, 7, 0, 0, 0, 0, 2, 0), Ins(Op.LABEL, 0, 0, 7, 0, 0, 0, 0), Ins(Op.RET, 0, 0, 0, 0, 0, 1, 0)]
  }

  /** Why the discipline is needed: a list that returns the result of a test behind the jump on it, and
      what becomes of it. */
  lemma FusionOfKeptRegisterFails(vm: VM, world: World)
    requires vm.hasResult
    ensures var code := KeptRegister();
      && TestAndJump(code[0].op, code[1].op) == Op.JNZ
      && Splice(code, 0, 2, [code[1].(op := Op.JNZ)]) == KeptRegisterFused()
      && !Equivalent(vm, code, KeptRegisterFused(), {Register})
      && !Disciplined(code, {}, vm.hasResult)
  {
    hide Run, Exec, InfoType, Disciplined;
    KeptRegisterWanted();
    var code, code', s := KeptRegister(), KeptRegisterFused(), State(map[], Core(5, 0, [], world));
    KeptRegisterRuns(vm, s);
    if Refines(vm, code, code', {Register}) {
      var m :| SameEnd(Run(vm, code, At(0, s), 4), Run(vm, code', At(0, s), m), {Register});
      if m <= 3 {
        RunDone(vm, code', At(0, s), m, 3);
      } else {
        RunDone(vm, code', At(0, s), 3, m);
      }
      assert false;
    }
  }

  lemma KeptRegisterRuns(vm: VM, s: State)
    requires vm.hasResult && s.core.reg == 5
    ensures Run(vm, KeptRegister(), At(0, s), 4) == Returned(0, 0, s.core.obj, s.core.world)
    ensures Run(vm, KeptRegisterFused(), At(0, s), 3) == Returned(0, 5, s.core.obj, s.core.world)
  {
    hide Exec, InfoType, Target;
    var code, code' := KeptRegister(), KeptRegisterFused();
    var t := Exec(vm, code[0], s);
    ExecTest(vm, code[0], s);
    KeptRegisterTargets();
    LabelStep(vm, code, 2, t);
    LabelStep(vm, code', 1, s);
    assert Run(vm, code, At(2, t), 2) == Returned(0, 0, s.core.obj, s.core.world);
    assert Run(vm, code', At(1, s), 2) == Returned(0, 5, s.core.obj, s.core.world);
    assert Step(vm, code, 0, s) == At(1, t) && Step(vm, code, 1, t) == At(2, t);
    assert Step(vm, code', 0, s) == At(1, s);
    hide Step;
    assert Run(vm, code, At(1, t), 3) == Run(vm, code, At(2, t), 2);
    assert Run(vm, code, At(0, s), 4) == Run(vm, code, At(1, t), 3);
    assert Run(vm, code', At(0, s), 3) == Run(vm, code', At(1, s), 2);
  }

  lemma KeptRegisterWanted()
    ensures !Disciplined(KeptRegister(), {}, true)
  {
    hide LiveAt, Target;
    var code := KeptRegister();
    LiveHere(code, 3, Result);
    LiveNext(code, 2, 3, Result);
    assert Flow(code, 1, 2) && Sheds(code[1], Result, {}, true);
  }

  lemma KeptRegisterTargets()
    ensures Target(KeptRegister(), 1, 7) == 2 && Target(KeptRegisterFused(), 0, 7) == 1
  {
    hide LastLabel;
    assert IsLabel(KeptRegister()[2], 7) && IsLabel(KeptRegisterFused()[1], 7);
  }

  lemma LabelStep(vm: VM, code: seq<Ins>, i: nat, s: State)
    requires i < |code| && code[i].op == Op.LABEL
    ensures Step(vm, code, i, s) == At(i + 1, s)
  {
  }
}
