/** Access to a global through its address in the value register, replaced by direct access. */
module GlobalAccess {
  import Op
  import opened Tables
  import opened Instructions
  import opened Machine
  import opened Liveness
  import opened Windows
  import opened Blocks
  import opened Discipline
  import opened UnusedValues

  // What takes the place of LDG and the access at once.
  function DirectAccess(c: Ins, d: Ins, op: int): Ins {
    c.(op := op, size := TypeSize(InfoType(op)), w0 := d.w0)
  }

  lemma ExecThroughRegister(vm: VM, ins: Ins, s: State)
    requires (ins.op == Op.WRTV4 || ins.op == Op.RDR4) && !IsLocal(vm, s.core.reg)
    ensures ins.op == Op.WRTV4 ==>
      Exec(vm, ins, s) == s.(core := s.core.(world := vm.store(s.core.world, s.core.reg, Read(s.vars, ins.w0))))
    ensures ins.op == Op.RDR4 ==> Exec(vm, ins, s) == s.(vars := s.vars[ins.w0 := vm.load(s.core.world, s.core.reg)])
  {
    hide IsLocal, InfoType;
  }

  // The same variables and memory; the register may differ where nobody asks for it.
  lemma RegisterLeft(vm: VM, code: seq<Ins>, j: nat, t: State, t': State)
    requires RegisterFree(vm, code, j, {Register}) && SameOutside(t.core, t'.core)
    requires forall y :: Read(t.vars, y) == Read(t'.vars, y)
    ensures Rel(vm, code, j, t, t', {Register})
  {
    hide LiveAt;
  }

  lemma SameUpdate(vars: map<int, int>, vars': map<int, int>, x: int, v: int, u: map<int, int>, u': map<int, int>)
    requires (forall y :: Read(vars, y) == Read(vars', y)) && u == vars[x := v] && u' == vars'[x := v]
    ensures forall y :: Read(u, y) == Read(u', y)
  {
    forall y
      ensures Read(u, y) == Read(u', y)
    {
      assert Read(vars, y) == Read(vars', y);
    }
  }

  /** LDG x, WRTV4 y -> CpyVtoG4 y, x when the register is not used afterwards. */
  lemma WriteDirectPreserves(vm: VM, code: seq<Ins>, k: nat, temps: set<int>)
    requires k + 1 < |code| && TablesFull(code) && Disciplined(code, temps, vm.hasResult)
    requires code[k].op == Op.LDG && IsGlobal(vm, PtrArg(code[k])) && code[k + 1].op == Op.WRTV4
    requires !RegUsedAfter(code, k + 1)
    ensures Equivalent(vm, code, Splice(code, k, 2, [DirectAccess(code[k], code[k + 1], Op.CpyVtoG4)]), {Register})
  {
    hide Faults, NeverFaults;
    hide InfoType, TablesFull, LiveAt, Exec, Equivalent, Splice, PtrArg, Disciplined, RegUsedAfter, Rel, RegisterFree;
    var c, d, X := code[k], code[k + 1], {Register};
    var n := DirectAccess(c, d, Op.CpyVtoG4);
    FreeAfterAccess(vm, code, k + 1, temps);
    SamePointer(c, n);
    assert Discards(vm, code, X);
    forall s, s' | Rel(vm, code, k, s, s', X)
      ensures Rel(vm, code, k + 2, Exec(vm, d, Exec(vm, c, s)), Exec(vm, n, s'), X)
    {
      ExecAddress(vm, c, s);
      ExecThroughRegister(vm, d, Exec(vm, c, s));
      ExecStores(vm, n, s');
      RelOutside(vm, code, k, s, s');
      RegisterLeft(vm, code, k + 2, Exec(vm, d, Exec(vm, c, s)), Exec(vm, n, s'));
    }
    CalmNeverFaults(vm, c);
    CalmNeverFaults(vm, d);
    CalmNeverFaults(vm, n);
    TwoReplaced(vm, code, k, [n], X);
  }

  lemma SamePointer(c: Ins, n: Ins)
    requires n.a0 == c.a0 && n.a1 == c.a1
    ensures PtrArg(n) == PtrArg(c)
  {
  }

  lemma RelOutside(vm: VM, code: seq<Ins>, k: nat, s: State, s': State)
    requires Rel(vm, code, k, s, s', {Register})
    ensures SameOutside(s.core, s'.core) && forall y :: Read(s.vars, y) == Read(s'.vars, y)
  {
    hide LiveAt;
  }

  lemma FreeAfterAccess(vm: VM, code: seq<Ins>, i: nat, temps: set<int>)
    requires i < |code| && Disciplined(code, temps, vm.hasResult) && AccessesThrough(code[i].op)
    requires !RegUsedAfter(code, i)
    ensures RegisterFree(vm, code, i + 1, {Register})
  {
    hide LiveAt, Disciplined, RegUsedAfter;
    RegisterUnused(code, i, temps, vm.hasResult);
    AddressNotKept(code, i, temps, vm.hasResult);
  }

  /** LDG x, RDR4 y -> CpyGtoV4 y, x when the register is not used afterwards. */
  lemma ReadDirectPreserves(vm: VM, code: seq<Ins>, k: nat, temps: set<int>)
    requires k + 1 < |code| && TablesFull(code) && Disciplined(code, temps, vm.hasResult)
    requires code[k].op == Op.LDG && IsGlobal(vm, PtrArg(code[k])) && code[k + 1].op == Op.RDR4
    requires !RegUsedAfter(code, k + 1)
    ensures Equivalent(vm, code, Splice(code, k, 2, [DirectAccess(code[k], code[k + 1], Op.CpyGtoV4)]), {Register})
  {
    hide Faults, NeverFaults;
    hide InfoType, TablesFull, LiveAt, Exec, Equivalent, Splice, PtrArg, Disciplined, RegUsedAfter, Rel, RegisterFree;
    var c, d, X := code[k], code[k + 1], {Register};
    var n := DirectAccess(c, d, Op.CpyGtoV4);
    FreeAfterAccess(vm, code, k + 1, temps);
    SamePointer(c, n);
    assert Discards(vm, code, X);
    forall s, s' | Rel(vm, code, k, s, s', X)
      ensures Rel(vm, code, k + 2, Exec(vm, d, Exec(vm, c, s)), Exec(vm, n, s'), X)
    {
      ExecAddress(vm, c, s);
      ExecThroughRegister(vm, d, Exec(vm, c, s));
      ExecLoad(vm, n, s');
      RelOutside(vm, code, k, s, s');
      SameUpdate(s.vars, s'.vars, d.w0, Loaded(vm, n, s.core), Exec(vm, d, Exec(vm, c, s)).vars, Exec(vm, n, s').vars);
      RegisterLeft(vm, code, k + 2, Exec(vm, d, Exec(vm, c, s)), Exec(vm, n, s'));
    }
    CalmNeverFaults(vm, c);
    CalmNeverFaults(vm, d);
    CalmNeverFaults(vm, n);
    TwoReplaced(vm, code, k, [n], X);
  }

  /** LDG x, RDR4 y -> LdGRdR4 y, x, which leaves the address in the register. */
  lemma ReadKeepingPreserves(vm: VM, code: seq<Ins>, k: nat)
    requires k + 1 < |code| && TablesFull(code)
    requires code[k].op == Op.LDG && IsGlobal(vm, PtrArg(code[k])) && code[k + 1].op == Op.RDR4
    ensures Equivalent(vm, code, Splice(code, k, 2, [DirectAccess(code[k], code[k + 1], Op.LdGRdR4)]), {})
  {
    hide Faults, NeverFaults;
    hide InfoType, TablesFull, LiveAt, Exec, Equivalent, Splice, PtrArg;
    var c, d := code[k], code[k + 1];
    var n := DirectAccess(c, d, Op.LdGRdR4);
    SamePointer(c, n);
    forall s, s' | Rel(vm, code, k, s, s', {})
      ensures Rel(vm, code, k + 2, Exec(vm, d, Exec(vm, c, s)), Exec(vm, n, s'), {})
    {
      ExecAddress(vm, c, s);
      ExecThroughRegister(vm, d, Exec(vm, c, s));
      ExecLoadAndAddress(vm, n, s');
    }
    CalmNeverFaults(vm, c);
    CalmNeverFaults(vm, d);
    CalmNeverFaults(vm, n);
    TwoReplaced(vm, code, k, [n], {});
  }
}
