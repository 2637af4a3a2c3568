/** A small program that meets everything asked for by `OptimizeAndAssemble`. */
module Example {
  import Op
  import opened Tables
  import opened Instructions
  import opened CodeLists
  import opened Layout
  import opened Machine
  import opened Liveness
  import opened StackDepth
  import opened Peephole
  import opened Sequences
  import opened Discipline
  import opened UnusedValues
  import opened Postponement
  import opened DisciplineKept
  import opened DepthKept
  import opened PlainLists
  import opened LocalMeaning

  /** `do {} while (a >= b); c++; return c + 5;` with 64-bit `a` and `b`. */
  function SmallProgram(): seq<Ins> {
    [Ins(Op.LABEL, 0, 0, 7, 0, 0, 0, 0), Ins(Op.CMPi64, 0, 0, 2, 4, 0, 2, 0), Ins(Op.TNS, 0, 0, 0, 0, 0, 1, 0),
     Ins(Op.JNZ, 7, 0, 0, 0, 0, 2, 0), Ins(Op.LDV, 0, 0, 5, 0, 0, 1, 0), Ins(Op.INCi, 0, 0, 0, 0, 0, 1, 0),
     Ins(Op.SetV4, 5, 0, 6, 0, 0, 2, 0), Ins(Op.ADDi, 0, 0, 7, 5, 6, 2, 0), Ins(Op.CpyVtoR4, 0, 0, 7, 0, 0, 1, 0),
     Ins(Op.RET, 0, 0, 0, 0, 0, 1, 0)]
  }

  function SmallMachine(): VM {
    VM((ins, a, b, c) => 0, (ins, a, b, c) => c, (ins, a, b, c) => false, (op, a, b) => 0, (a, b) => 0,
       (w, p) => 0, (w, p, v) => w, 1, x => x == 5, (p, n) => p, t => Uncounted, (w, p, t) => w, (w, p, t) => w,
       (w, p, t) => w, op => true, true)
  }

  lemma SmallTarget()
    ensures Target(SmallProgram(), 3, 7) == 0
  {
    hide FirstLabel, LastLabel;
    TargetIsNearest(SmallProgram(), 3, 7);
    assert IsLabel(SmallProgram()[0], 7);
  }

  lemma SmallTypes()
    ensures InfoType(Op.CMPi64) == rW_rW_ARG && InfoType(Op.TNS) == NO_ARG && InfoType(Op.JNZ) == DW_ARG
    ensures InfoType(Op.SetV4) == wW_DW_ARG && InfoType(Op.ADDi) == wW_rW_rW_ARG
    ensures InfoType(Op.CpyVtoR4) == rW_ARG && InfoType(Op.RET) == W_ARG
    ensures InfoType(Op.LDV) == rW_ARG && InfoType(Op.INCi) == NO_ARG
  {
    hide InfoType;
    FragmentTypes(Op.ADDi);
    LoadTypes();
    TakeTypes();
    RegisterTypes(Op.TNS);
    RegisterTypes(Op.JNZ);
    OtherTypes();
  }

  lemma OtherTypes()
    ensures InfoType(Op.CMPi64) == rW_rW_ARG && InfoType(Op.RET) == W_ARG
    ensures InfoType(Op.LDV) == rW_ARG && InfoType(Op.INCi) == NO_ARG
  {
  }

  lemma SmallShape(noLineCues: bool)
    ensures Good(SmallProgram()) && Writable(SmallProgram(), noLineCues)
  {
    hide InfoType, Conforms, Sized, InRange, Signed16, Signed32, Pos;
    var code := SmallProgram();
    SmallSize();
    forall i | 0 <= i < 10
      ensures Conforms(code[i]) && Sized(code[i], noLineCues) && InRange(code[i])
    {
      SmallInstruction(i, noLineCues);
    }
  }

  lemma SmallInstruction(i: nat, noLineCues: bool)
    requires i < 10
    ensures var ins := SmallProgram()[i]; Conforms(ins) && Sized(ins, noLineCues) && InRange(ins)
  {
    hide InfoType, Signed16, Signed32;
    SmallTypes();
    SmallNumbers();
  }

  lemma SmallNumbers()
    ensures forall n :: 0 <= n < 8 ==> Signed16(n) == n && Signed32(n) == n
  {
  }

  lemma SmallSize()
    ensures Pos(SmallProgram(), 10) == 13
  {
    assert Pos(SmallProgram(), 4) == 5;
    assert Pos(SmallProgram(), 7) == 9;
  }

  lemma SmallLevels()
    ensures HasLevels(SmallProgram())
  {
    hide Target, Reachable;
    SmallTarget();
    assert Levelled(SmallProgram(), seq(10, _ => 0));
  }

  // Nobody asks for the register where the program has shed it.
  lemma SmallRegister(p: Place)
    requires !p.Var?
    ensures !LiveAt(SmallProgram(), 0, p) && !LiveAt(SmallProgram(), 1, p) && !LiveAt(SmallProgram(), 4, p)
    ensures !LiveAt(SmallProgram(), 6, p)
  {
    hide LiveAt, InfoType;
    var code := SmallProgram();
    if LiveAt(code, 6, p) {
      var _ := LiveUnfold(code, 6, p);
      var _ := LiveUnfold(code, 7, p);
      var _ := LiveUnfold(code, 8, p);
      assert false;
    }
    if LiveAt(code, 4, p) {
      var _ := LiveUnfold(code, 4, p);
      assert false;
    }
    if LiveAt(code, 1, p) {
      var _ := LiveUnfold(code, 1, p);
      assert false;
    }
    if LiveAt(code, 0, p) {
      var _ := LiveUnfold(code, 0, p);
    }
  }

  lemma SmallDisciplined()
    ensures Disciplined(SmallProgram(), {6, 7}, true)
  {
    hide LiveAt, Target, InfoType;
    SmallTarget();
    forall p: Place | !p.Var?
      ensures !LiveAt(SmallProgram(), 0, p) && !LiveAt(SmallProgram(), 1, p) && !LiveAt(SmallProgram(), 4, p)
      ensures !LiveAt(SmallProgram(), 6, p)
    {
      SmallRegister(p);
    }
  }

  lemma SmallMachineBehaves()
    ensures WellBehaved(SmallMachine())
  {
    hide InfoType, Exec;
    forall ins: Ins | IsMereWrite(ins.op)
      ensures Pure(SmallMachine(), ins)
    {
      WriteTypes(ins.op);
      WritesNoMore(ins.op);
      forall s
        ensures Exec(SmallMachine(), ins, s).core == s.core
      {
        MereWrite(ins, s);
      }
    }
  }

  lemma WritesNoMore(op: int)
    requires OnlyWrites(InfoType(op)) && op != Op.LdGRdR4 && op != Op.FREE && op != Op.STOREOBJ && op != Op.RefCpyV
    ensures ByAddress(op) ==> op == Op.RDR4
    ensures KeepsCore(op) || (!IsPush(op) && !Rearranges(op) && !LoadsReg(op) && op != Op.PopRPtr && op != Op.CpyVtoG4)
    ensures op != Op.SetG4 && op != Op.LOADOBJ && !GivesReg(op)
  {
  }

  lemma MereWrite(ins: Ins, s: State)
    requires IsMereWrite(ins.op)
    ensures Exec(SmallMachine(), ins, s).core == s.core
  {
    hide InfoType, Value;
    WritesNoMore(ins.op);
  }

  lemma SmallJump()
    ensures Turn(SmallProgram(), 3, {6, 7}).Changed?
  {
    hide LiveAt, InfoType, Postpone;
    SmallTypes();
  }

  lemma SmallIncrement()
    ensures Turn(SmallProgram(), 4, {6, 7}).Changed?
  {
    hide LiveAt, InfoType, Postpone;
    SmallTypes();
    assert ClobbersReg(SmallProgram()[8].op);
  }

  lemma SmallConstant()
    ensures Turn(SmallProgram(), 6, {6, 7}).Changed?
  {
    hide LiveAt, InfoType, Postpone, Sequence;
    var code := SmallProgram();
    SmallTypes();
    LiveHere(code, 7, Var(6));
    if LiveAt(code, 8, Var(6)) {
      var _ := LiveUnfold(code, 8, Var(6));
      var _ := LiveUnfold(code, 9, Var(6));
      assert false;
    }
  }

  /** And the optimizer has a jump to fuse, a variable to increment directly and a constant to fold in that
      program. */
  lemma SmallTurns()
    ensures Turn(SmallProgram(), 3, {6, 7}).Changed? && Turn(SmallProgram(), 4, {6, 7}).Changed?
    ensures Turn(SmallProgram(), 6, {6, 7}).Changed?
  {
    hide Turn;
    SmallJump();
    SmallIncrement();
    SmallConstant();
  }

  /** No exception of the program can be lost. */
  lemma SmallStrict(vm: VM)
    ensures AllStrict(vm, SmallProgram())
  {
    hide InfoType, NeverFaults;
    SmallTypes();
  }

  /** The requirements of `OptimizeAndAssemble` can be met together, by a program with a loop. */
  lemma RequirementsMet(noLineCues: bool)
    ensures var vm, code, temps := SmallMachine(), SmallProgram(), {6, 7};
      Good(code) && HasLevels(code) && Writable(code, noLineCues) && WellBehaved(vm) && Fit(vm, code, temps)
  {
    hide Good, HasLevels, Writable, Disciplined, WellBehaved, InfoType;
    SmallTypes();
    SmallShape(noLineCues);
    SmallLevels();
    SmallMachineBehaves();
    SmallDisciplined();
  }
}
