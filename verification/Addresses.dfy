/** The sequences of the optimizer that go through addresses of variables, objects and handles: what
    takes their place has the same runs. */
module Addresses {
  import Op
  import opened Tables
  import opened Instructions
  import opened Machine
  import opened Liveness
  import opened Windows
  import opened Blocks
  import opened UnusedValues
  import opened SequencesKept
  import opened Sequences

  // ----- straight sequences that do exactly the same -----

  // The same registers, stack, memory and values of all variables.
  ghost predicate Same(s: State, s': State) {
    s.core == s'.core && forall y :: Read(s.vars, y) == Read(s'.vars, y)
  }

  ghost predicate SameExit(e: Exit, e': Exit) {
    match (e, e')
    case (Fall(s), Fall(s')) => Same(s, s')
    case _ => e == e' && e.Halt?
  }

  lemma RelIsSame(vm: VM, code: seq<Ins>, i: nat, s: State, s': State)
    ensures Rel(vm, code, i, s, s', {}) <==> Same(s, s')
  {
    hide LiveAt;
  }

  lemma ExecSame(vm: VM, ins: Ins, s: State, s': State)
    requires Same(s, s') && Straight(ins.op)
    ensures Same(Exec(vm, ins, s), Exec(vm, ins, s')) && (Faults(vm, ins, s) <==> Faults(vm, ins, s'))
  {
    hide Exec, Faults, Rel, Same;
    RelIsSame(vm, [ins], 0, s, s');
    NothingDiscarded(vm, [ins]);
    ExecRelated(vm, [ins], 0, s, s', {});
    FaultsRelated(vm, [ins], 0, s, s', {});
    RelIsSame(vm, [ins], 1, Exec(vm, ins, s), Exec(vm, ins, s'));
  }

  ghost predicate AllStraight(b: seq<Ins>) {
    forall i :: 0 <= i < |b| ==> Straight(b[i].op)
  }

  lemma BlockStep(vm: VM, c: Ins, rest: seq<Ins>, s: State)
    requires Straight(c.op)
    ensures Block(vm, [c] + rest, s) ==
      if Faults(vm, c, s) then Halt(Exec(vm, c, s).core.world) else Block(vm, rest, Exec(vm, c, s))
  {
    hide Exec, Faults;
    assert ([c] + rest)[1..] == rest;
  }

  lemma {:induction false} BlockSame(vm: VM, b: seq<Ins>, s: State, s': State)
    requires AllStraight(b) && Same(s, s')
    ensures SameExit(Block(vm, b, s), Block(vm, b, s'))
    decreases |b|
  {
    hide Exec, Faults, Same;
    if b != [] {
      ExecSame(vm, b[0], s, s');
      SameWorld(Exec(vm, b[0], s), Exec(vm, b[0], s'));
      BlockSame(vm, b[1..], Exec(vm, b[0], s), Exec(vm, b[0], s'));
    }
  }

  lemma SameWorld(s: State, s': State)
    requires Same(s, s')
    ensures s.core.world == s'.core.world
  {
  }

  lemma SameExitTrans(e: Exit, e': Exit, e'': Exit)
    requires SameExit(e, e') && SameExit(e', e'')
    ensures SameExit(e, e'')
  {
  }

  /** From every state the two sequences end alike. */
  ghost predicate Alike(vm: VM, a: seq<Ins>, b: seq<Ins>) {
    forall s {:trigger Block(vm, a, s)} :: SameExit(Block(vm, a, s), Block(vm, b, s))
  }

  /** Sequences that end alike can take each other's place anywhere. */
  lemma AlikeReplaces(vm: VM, code: seq<Ins>, k: nat, a: seq<Ins>, b: seq<Ins>)
    requires a != [] && k + |a| <= |code| && code[k..k + |a|] == a && AllStraight(a) && AllStraight(b)
    requires TablesFull(code) && Alike(vm, a, b)
    ensures Equivalent(vm, code, Splice(code, k, |a|, b), {})
  {
    hide Block, Same, SameExit, Rel, TablesFull, TablesClear, Equivalent, Discards;
    var la := |a|;
    NothingDiscarded(vm, code);
    WindowClear(code, k, a);
    StraightIsBlock(a);
    StraightIsBlock(b);
    forall s, s' | Rel(vm, code, k, s, s', {})
      ensures ExitRel(vm, code, k + la, Block(vm, code[k..k + la], s), Block(vm, b, s'), {})
    {
      RelIsSame(vm, code, k, s, s');
      BlockSame(vm, b, s, s');
      SameExitTrans(Block(vm, a, s), Block(vm, b, s), Block(vm, b, s'));
      ExitsRelated(vm, code, k + la, Block(vm, a, s), Block(vm, b, s'));
    }
    if b == [] {
      forall s
        ensures Block(vm, a, s).Fall?
      {
        NothingFalls(vm, s);
        OnlyFalls(Block(vm, a, s), Block(vm, b, s));
      }
    }
    BlockReplaces(vm, code, k, la, b, {});
  }

  lemma OnlyFalls(e: Exit, e': Exit)
    requires SameExit(e, e') && e'.Fall?
    ensures e.Fall?
  {
  }

  lemma ExitsRelated(vm: VM, code: seq<Ins>, end: nat, e: Exit, e': Exit)
    requires 0 < end <= |code| && SameExit(e, e')
    ensures ExitRel(vm, code, end, e, e', {})
  {
    hide Same, Rel;
    if e.Fall? {
      RelIsSame(vm, code, end, e.s, e'.s);
    }
  }

  lemma StraightIsBlock(b: seq<Ins>)
    requires AllStraight(b)
    ensures IsBlock(b)
  {
  }

  lemma WindowClear(code: seq<Ins>, k: nat, a: seq<Ins>)
    requires a != [] && k + |a| <= |code| && code[k..k + |a|] == a && AllStraight(a) && TablesFull(code)
    ensures TablesClear(code, k, |a|)
  {
    hide TablesFull, TablesClear;
    forall j | k <= j < k + |a|
      ensures code[j].op != Op.JMP && code[j].op != Op.JMPP
    {
      assert code[j] == a[j - k];
    }
    TablesAreClear(code, k, |a|);
  }

  // ----- the stack -----

  lemma Stacked(stack: seq<Cell>, v: Cell, w: int)
    ensures var s := PushValue(stack, v, PTR_SIZE);
      && Top(s) == v.value && Popped(s) == stack && Below(s, 0) == v
      && SetBelow(s, 0, w) == PushValue(stack, Word(w), PTR_SIZE)
  {
  }

  lemma StackedTwice(stack: seq<Cell>, u: Cell, v: Cell, w: int)
    ensures var s := PushValue(PushValue(stack, u, PTR_SIZE), v, PTR_SIZE);
      && Below(s, PTR_SIZE) == u
      && SetBelow(s, PTR_SIZE, w) == PushValue(PushValue(stack, Word(w), PTR_SIZE), v, PTR_SIZE)
  {
  }

  // ----- what the instructions do -----

  predicate IsPointerPush(op: int) {
    op in {Op.PSF, Op.PshVPtr, Op.PGA, Op.PshGPtr, Op.PshNull, Op.VAR, Op.PshRPtr}
  }

  function PointerPushed(vm: VM, ins: Ins, s: State): Cell {
    Pushed(vm, ins, Read(s.vars, ins.w0), s.core)
  }

  function OnStack(s: State, v: Cell): State {
    s.(core := s.core.(stack := PushValue(s.core.stack, v, PTR_SIZE)))
  }

  lemma PointerTypes()
    ensures InfoType(Op.PSF) == rW_ARG && InfoType(Op.PshVPtr) == rW_ARG && InfoType(Op.VAR) == rW_ARG
    ensures InfoType(Op.PGA) == PTR_ARG && InfoType(Op.PshGPtr) == PTR_ARG
    ensures InfoType(Op.PshNull) == NO_ARG && InfoType(Op.PshRPtr) == NO_ARG
  {
  }

  lemma ExecPointerPush(vm: VM, ins: Ins, s: State)
    requires IsPointerPush(ins.op)
    ensures Exec(vm, ins, s) == OnStack(s, PointerPushed(vm, ins, s)) && !Faults(vm, ins, s) && Straight(ins.op)
  {
    hide InfoType, PushValue;
    PointerTypes();
  }

  lemma StackOpTypes()
    ensures InfoType(Op.PopPtr) == NO_ARG && InfoType(Op.SwapPtr) == NO_ARG && InfoType(Op.ADDSi) == W_DW_ARG
    ensures InfoType(Op.GETREF) == W_ARG && InfoType(Op.PopRPtr) == NO_ARG
  {
  }

  lemma ExecStackOp(vm: VM, ins: Ins, s: State)
    requires Rearranges(ins.op) || ins.op == Op.PopRPtr
    ensures Rearranges(ins.op) ==> Exec(vm, ins, s) == s.(core := s.core.(stack := Rearranged(vm, ins, s.core.stack)))
    ensures ins.op == Op.PopRPtr ==>
      Exec(vm, ins, s) == s.(core := s.core.(reg := Top(s.core.stack), stack := Popped(s.core.stack)))
    ensures Faults(vm, ins, s) <==>
      (ins.op == Op.ADDSi && Top(s.core.stack) == 0) || (ins.op == Op.GETREF && !Below(s.core.stack, ins.w0).Offset?)
    ensures Straight(ins.op)
  {
    hide InfoType, Rearranged, Popped, Below, Top;
    StackOpTypes();
  }

  lemma CheckTypes()
    ensures InfoType(Op.CHKREF) == NO_ARG && InfoType(Op.ChkRefS) == NO_ARG && InfoType(Op.ChkNullV) == rW_ARG
  {
  }

  lemma ExecCheck(vm: VM, ins: Ins, s: State)
    requires ins.op in {Op.CHKREF, Op.ChkRefS, Op.ChkNullV}
    ensures Exec(vm, ins, s) == s && Straight(ins.op)
    ensures Faults(vm, ins, s) <==>
      (if ins.op == Op.CHKREF then Top(s.core.stack)
       else if ins.op == Op.ChkRefS then Fetch(vm, s, Top(s.core.stack))
       else Read(s.vars, ins.w0)) == 0
  {
    hide InfoType, Fetch;
    CheckTypes();
  }

  lemma RegisterLoadTypes()
    ensures InfoType(Op.LDV) == rW_ARG && InfoType(Op.LoadThisR) == W_DW_ARG
    ensures InfoType(Op.LoadRObjR) == rW_W_DW_ARG && InfoType(Op.LoadVObjR) == rW_W_DW_ARG
  {
  }

  lemma ExecRegisterLoad(vm: VM, ins: Ins, s: State)
    requires ins.op in {Op.LDV, Op.LoadThisR, Op.LoadRObjR, Op.LoadVObjR}
    ensures var a := Read(s.vars, if ins.op == Op.LoadThisR then 0 else ins.w0);
      && Exec(vm, ins, s) == s.(core := s.core.(reg := LoadedReg(vm, ins, a, 0, s.core.reg)))
      && (Faults(vm, ins, s) <==> ins.op in {Op.LoadThisR, Op.LoadRObjR} && a == 0)
    ensures Straight(ins.op)
  {
    hide InfoType;
    RegisterLoadTypes();
  }

  lemma ExecAccess(vm: VM, ins: Ins, s: State)
    requires ByAddress(ins.op)
    ensures Exec(vm, ins, s) == ExecByAddress(vm, ins, s) && Straight(ins.op)
    ensures Faults(vm, ins, s) <==>
      || (ins.op == Op.RDSPtr && Top(s.core.stack) == 0)
      || (ins.op == Op.GETOBJREF && !Below(s.core.stack, ins.w0).Offset?)
  {
    hide InfoType, ExecByAddress;
  }

  lemma HandleTypes()
    ensures InfoType(Op.FREE) == wW_PTR_ARG && InfoType(Op.STOREOBJ) == wW_ARG && InfoType(Op.ClrVPtr) == wW_ARG
  {
  }

  lemma ExecHandle(vm: VM, ins: Ins, s: State)
    requires ins.op in {Op.FREE, Op.STOREOBJ, Op.ClrVPtr}
    ensures ins.op == Op.FREE ==> Exec(vm, ins, s) == State(s.vars[ins.w0 := 0],
      s.core.(world := Freed(vm, s.core.world, Read(s.vars, ins.w0), PtrArg(ins))))
    ensures ins.op == Op.STOREOBJ ==> Exec(vm, ins, s) == State(s.vars[ins.w0 := s.core.obj], s.core.(obj := 0))
    ensures ins.op == Op.ClrVPtr ==> Exec(vm, ins, s) == s.(vars := s.vars[ins.w0 := 0])
    ensures !Faults(vm, ins, s) && Straight(ins.op)
  {
    hide InfoType, Freed, PtrArg;
    HandleTypes();
  }

  // The address of a variable that is reached by address leads to the variable.
  lemma AddressFound(vm: VM, x: int)
    requires vm.addressed(x)
    ensures IsLocal(vm, Address(vm, x)) && VariableAt(vm, Address(vm, x)) == x
  {
  }

  lemma FetchVariable(vm: VM, s: State, x: int)
    requires vm.addressed(x)
    ensures Fetch(vm, s, Address(vm, x)) == Read(s.vars, x)
  {
    AddressFound(vm, x);
  }
}
