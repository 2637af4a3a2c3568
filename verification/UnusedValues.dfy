/** `RemoveUnusedValue` and `PostponeInitOfTemp` as functions on instruction lists, and the proof
    that they preserve meaning, with the exact conditions under which they do. */
module UnusedValues {
  import Op
  import opened Tables
  import opened Instructions
  import opened Machine
  import opened Liveness
  import opened Windows
  import opened Blocks
  import opened Discipline

  datatype Rewrite = Keep | Replace(at: nat, len: nat, put: seq<Ins>)

  ghost predicate Fits(code: seq<Ins>, w: Rewrite) {
    w.Replace? ==> 0 < w.len && w.at + w.len <= |code|
  }

  ghost function Apply(code: seq<Ins>, w: Rewrite): seq<Ins>
    requires Fits(code, w)
  {
    if w.Keep? then code else Splice(code, w.at, w.len, w.put)
  }

  // ----- the conditions -----

  // The instruction types that only write their first operand.
  predicate OnlyWrites(t: BCType) {
    t in {wW_rW_rW_ARG, wW_rW_ARG, wW_rW_DW_ARG, wW_ARG, wW_DW_ARG, wW_QW_ARG}
  }

  // The variable is a temporary that is never read after the instruction at `k`.
  ghost predicate LastUse(code: seq<Ins>, k: nat, x: int, temps: set<int>) {
    x in temps && !LiveAt(code, k + 1, Var(x))
  }

  /** The variable is read neither after the instruction at `k` nor behind a SUSPEND nor by address. */
  ghost predicate Spent(vm: VM, code: seq<Ins>, k: nat, x: int) {
    !LiveAt(code, k + 1, Var(x)) && Discards(vm, code, {Var(x)})
  }

  // ----- the rewrites -----

  function ImmediateOp(op: int): int {
    if op == Op.CMPi then Op.CMPIi
    else if op == Op.CMPf then Op.CMPIf
    else if op == Op.CMPu then Op.CMPIu
    else if op == Op.ADDi then Op.ADDIi
    else if op == Op.SUBi then Op.SUBIi
    else if op == Op.MULi then Op.MULIi
    else if op == Op.ADDf then Op.ADDIf
    else if op == Op.SUBf then Op.SUBIf
    else Op.MULIf
  }

  // The user `d` of a constant, with the constant that `c` loads as its immediate operand.
  function WithImmediate(c: Ins, d: Ins): Ins {
    d.(op := ImmediateOp(d.op),
       size := TypeSize(InfoType(if IsCompare(d.op) then Op.CMPIi else Op.ADDIi)),
       a0 := c.a0, a1 := c.a1)
  }

  predicate Commutes(op: int) {
    op in {Op.ADDi, Op.MULi, Op.ADDf, Op.MULf}
  }

  // The constant of `c` stored in the global that `d` copies to.
  function SetGlobal(c: Ins, d: Ins): Ins {
    var i := c.(op := Op.SetG4, size := TypeSize(InfoType(Op.SetG4)), a0 := d.a0);
    if PTR_SIZE == 1 then i.(a1 := c.a0)
    else i.(a1 := d.a1, w0 := Signed16(c.a0), w1 := Signed16(c.a0 / 0x1_0000))
  }

  ghost function FoldConstant(code: seq<Ins>, k: nat, temps: set<int>): Rewrite
    requires k + 1 < |code|
  {
    var c, d, x := code[k], code[k + 1], code[k].w0;
    var last := LastUse(code, k + 1, x, temps);
    if IsCompare(d.op) && d.w1 == x && last then
      Replace(k, 2, [WithImmediate(c, d)])
    else if IsArith(d.op) && d.w2 == x && (d.w0 == x || last) then
      Replace(k, 2, [WithImmediate(c, d)])
    else if Commutes(d.op) && d.w1 == x && (d.w0 == x || last) then
      Replace(k, 2, [WithImmediate(c, d).(w1 := d.w2)])
    else if d.op == Op.CpyVtoV4 && d.w1 == x && last then
      Replace(k, 2, [c.(w0 := d.w0)])
    else if d.op == Op.PshV4 && d.w0 == x && last then
      Replace(k, 2, [c.(op := Op.PshC4, stackInc := InfoStackInc(Op.PshC4))])
    else if d.op == Op.CpyVtoG4 && d.w0 == x && last then
      Replace(k, 2, [SetGlobal(c, d)])
    else Keep
  }

  ghost function JoinPair(code: seq<Ins>, k: nat, temps: set<int>): Rewrite
    requires k + 1 < |code|
  {
    var c, d, x := code[k], code[k + 1], code[k].w0;
    var last := LastUse(code, k + 1, x, temps);
    if InfoType(c.op) in {wW_rW_rW_ARG, wW_rW_DW_ARG} && d.op == Op.CpyVtoV4 && d.w1 == x && last then
      Replace(k, 2, [c.(w0 := d.w0)])
    else if c.op == Op.CpyRtoV4 && d.op == Op.CpyVtoR4 && d.w0 == x && last then
      Replace(k, 2, [])
    else if c.op == Op.CpyGtoV4 && d.op == Op.PshV4 && d.w0 == x && last then
      Replace(k, 2, [c.(op := Op.PshG4, size := TypeSize(InfoType(Op.PshG4)), stackInc := InfoStackInc(Op.PshG4))])
    else if c.op == Op.SetV8 && d.op == Op.PshV8 && d.w0 == x && last then
      Replace(k, 2, [c.(op := Op.PshC8, stackInc := InfoStackInc(Op.PshC8))])
    else Keep
  }

  // The value written at `k` is not used for anything.
  ghost predicate DeadStore(code: seq<Ins>, k: nat, temps: set<int>)
    requires k < |code|
  {
    code[k].op != Op.FREE && OnlyWrites(InfoType(code[k].op)) && LastUse(code, k, code[k].w0, temps)
  }

  /** What `RemoveUnusedValue` does to the instruction at `k`. */
  ghost function Unused(code: seq<Ins>, k: nat, temps: set<int>): (w: Rewrite)
    requires k < |code|
    ensures Fits(code, w) && (w.Replace? ==> w.at == k)
  {
    if DeadStore(code, k, temps) then
      Replace(k, 1, if code[k].op == Op.LdGRdR4 && RegUsedAfter(code, k) then [code[k].(op := Op.LDG)] else [])
    else if k + 1 == |code| then Keep
    else if code[k].op == Op.SetV4 then FoldConstant(code, k, temps)
    else JoinPair(code, k, temps)
  }

  // ----- when they are meaningful -----

  // An instruction without side effects other than an exception.
  ghost predicate Pure(vm: VM, ins: Ins) {
    forall s :: Exec(vm, ins, s).core == s.core
  }

  // An instruction that raises no exception.
  ghost predicate NeverFaults(vm: VM, ins: Ins) {
    forall s :: !Faults(vm, ins, s)
  }

  // The variable is both operands of a calculation or comparison.
  predicate BothOperands(ins: Ins, x: int) {
    (IsArith(ins.op) && ins.w1 == x == ins.w2) || (IsCompare(ins.op) && ins.w0 == x == ins.w1)
  }

  // And a constant in it may be folded, since the variable is temporary or takes the result.
  predicate Repeats(ins: Ins, x: int, temps: set<int>) {
    BothOperands(ins, x) && (x in temps || (IsArith(ins.op) && ins.w0 == x))
  }

  // What a rewrite may leave different is not reached by address.
  predicate Hidden(vm: VM, ins: Ins, temps: set<int>) {
    OnlyWrites(InfoType(ins.op)) && ins.op != Op.FREE && ins.w0 in temps ==> !vm.addressed(ins.w0)
  }

  /** What a rewrite relies on beyond liveness: a removed store has no side effect, the user of a
      folded constant does not use the constant twice, and swapped operands commute. */
  ghost predicate Sound(vm: VM, code: seq<Ins>, k: nat, temps: set<int>)
    requires k < |code|
  {
    && Hidden(vm, code[k], temps)
    && if DeadStore(code, k, temps) then code[k].op == Op.LdGRdR4 || Pure(vm, code[k])
       else
         (k + 1 < |code| && code[k].op == Op.SetV4 ==>
           !Repeats(code[k + 1], code[k].w0, temps) && CommutesFor(vm, code[k + 1].op))
  }

  /** And no exception is lost with a removed store. */
  ghost predicate Quiet(vm: VM, code: seq<Ins>, k: nat, temps: set<int>)
    requires k < |code|
  {
    DeadStore(code, k, temps) ==> code[k].op == Op.LdGRdR4 || NeverFaults(vm, code[k])
  }

  ghost predicate CommutesFor(vm: VM, op: int) {
    op in {Op.ADDf, Op.MULf} ==> forall a, b :: vm.floatOp(op, a, b) == vm.floatOp(op, b, a)
  }

  predicate Word32(n: int) {
    -0x8000_0000 <= n < 0x8000_0000
  }

  // ----- what the instructions of the fragment do -----

  lemma FragmentTypes(op: int)
    ensures IsArith(op) ==> InfoType(op) == wW_rW_rW_ARG
    ensures IsArithImm(op) ==> InfoType(op) == wW_rW_DW_ARG
    ensures IsCompare(op) ==> InfoType(op) == rW_rW_ARG
    ensures IsCompareImm(op) ==> InfoType(op) == rW_DW_ARG
  {
  }

  lemma ExecSetV4(vm: VM, ins: Ins, s: State)
    requires ins.op == Op.SetV4
    ensures Exec(vm, ins, s) == State(s.vars[ins.w0 := ins.a0], s.core)
  {
  }

  lemma ExecArith(vm: VM, ins: Ins, s: State)
    requires IsArith(ins.op)
    ensures Exec(vm, ins, s) ==
      s.(vars := s.vars[ins.w0 := Arith(vm, ins.op, Read(s.vars, ins.w1), Read(s.vars, ins.w2))])
  {
    hide InfoType;
    FragmentTypes(ins.op);
  }

  lemma ExecArithImm(vm: VM, ins: Ins, s: State)
    requires IsArithImm(ins.op)
    ensures Exec(vm, ins, s) == s.(vars := s.vars[ins.w0 := Arith(vm, ins.op, Read(s.vars, ins.w1), ins.a0)])
  {
    hide InfoType;
    FragmentTypes(ins.op);
  }

  lemma ExecCompare(vm: VM, ins: Ins, s: State)
    requires IsCompare(ins.op)
    ensures Exec(vm, ins, s) ==
      s.(core := s.core.(reg := CompareAs(vm, ins.op, Read(s.vars, ins.w0), Read(s.vars, ins.w1))))
  {
    hide InfoType;
    FragmentTypes(ins.op);
  }

  lemma ExecCompareImm(vm: VM, ins: Ins, s: State)
    requires IsCompareImm(ins.op)
    ensures Exec(vm, ins, s) == s.(core := s.core.(reg := CompareAs(vm, ins.op, Read(s.vars, ins.w0), ins.a0)))
  {
    hide InfoType;
    FragmentTypes(ins.op);
  }

  // ----- one and two instructions replaced -----

  lemma TablesAreClear(code: seq<Ins>, k: nat, la: nat)
    requires TablesFull(code) && 0 < la && k + la <= |code|
    requires forall j :: k <= j < k + la ==> code[j].op != Op.JMP && code[j].op != Op.JMPP
    ensures TablesClear(code, k, la)
  {
    assert code[k].op != Op.JMP;
    forall i | 0 <= i < k + la && i < |code| && code[i].op == Op.JMPP
      ensures i + 1 + code[i].a0 <= k
    {
      assert 0 <= code[i].a0 ==> InTable(code, i + 1, i + 1 + code[i].a0);
    }
  }

  lemma CalmNeverFaults(vm: VM, ins: Ins)
    requires Calm(ins.op)
    ensures NeverFaults(vm, ins)
  {
    hide InfoType, FirstOperand, SecondOperand, Operation, Seen;
  }

  lemma CalculationIsCalm(vm: VM, ins: Ins)
    requires ins.op == Op.SetV4 || IsArith(ins.op) || IsArithImm(ins.op) || IsCompare(ins.op) || IsCompareImm(ins.op)
    ensures NeverFaults(vm, ins) && Straight(ins.op)
  {
    hide NeverFaults;
    CalmNeverFaults(vm, ins);
  }

  lemma OneReplaced(vm: VM, code: seq<Ins>, k: nat, put: seq<Ins>, X: set<Place>)
    requires k < |code| && Straight(code[k].op) && |put| <= 1 && (|put| == 1 ==> Straight(put[0].op))
    requires NeverFaults(vm, code[k]) && (put != [] ==> NeverFaults(vm, put[0]))
    requires TablesFull(code) && Discards(vm, code, X)
    requires forall s, s' :: Rel(vm, code, k, s, s', X) ==>
      Rel(vm, code, k + 1, Exec(vm, code[k], s), if put == [] then s' else Exec(vm, put[0], s'), X)
    ensures Equivalent(vm, code, Splice(code, k, 1, put), X)
  {
    hide Exec, Rel, Equivalent, TablesFull, Splice, Faults, Discards;
    assert code[k..k + 1] == [code[k]];
    TablesAreClear(code, k, 1);
    forall s, s' | Rel(vm, code, k, s, s', X)
      ensures ExitRel(vm, code, k + 1, Block(vm, code[k..k + 1], s), Block(vm, put, s'), X)
    {
      OneStep(vm, code[k], s);
      if put != [] {
        assert put == [put[0]];
        OneStep(vm, put[0], s');
      }
    }
    assert AlwaysFalls(vm, [code[k]]) by {
      forall s
        ensures Block(vm, [code[k]], s).Fall?
      {
        OneStep(vm, code[k], s);
      }
    }
    BlockReplaces(vm, code, k, 1, put, X);
  }

  lemma BlockOfTwo(vm: VM, c: Ins, d: Ins, s: State)
    requires Straight(c.op)
    ensures Block(vm, [c, d], s) ==
      if Faults(vm, c, s) then Halt(Exec(vm, c, s).core.world) else Block(vm, [d], Exec(vm, c, s))
  {
    hide Exec, Faults;
    assert [c, d][1..] == [d];
  }

  // The one instruction raises an exception exactly if the other does, and the same.
  predicate SameFault(vm: VM, c: Ins, s: State, n: Ins, s': State) {
    && (Faults(vm, c, s) <==> Faults(vm, n, s'))
    && (Faults(vm, c, s) ==> Exec(vm, c, s).core.world == Exec(vm, n, s').core.world)
  }

  lemma TwoReplaced(vm: VM, code: seq<Ins>, k: nat, put: seq<Ins>, X: set<Place>)
    requires k + 1 < |code| && Straight(code[k].op) && Straight(code[k + 1].op)
    requires |put| <= 1 && (|put| == 1 ==> Straight(put[0].op))
    requires NeverFaults(vm, code[k]) && NeverFaults(vm, code[k + 1]) && (put != [] ==> NeverFaults(vm, put[0]))
    requires TablesFull(code) && Discards(vm, code, X)
    requires forall s, s' :: Rel(vm, code, k, s, s', X) ==>
      Rel(vm, code, k + 2, Exec(vm, code[k + 1], Exec(vm, code[k], s)),
          if put == [] then s' else Exec(vm, put[0], s'), X)
    ensures Equivalent(vm, code, Splice(code, k, 2, put), X)
  {
    hide Exec, Rel, Equivalent, TablesFull, Splice, Faults, Discards;
    assert code[k..k + 2] == [code[k], code[k + 1]];
    TablesAreClear(code, k, 2);
    forall s, s' | Rel(vm, code, k, s, s', X)
      ensures ExitRel(vm, code, k + 2, Block(vm, code[k..k + 2], s), Block(vm, put, s'), X)
    {
      BlockOfTwo(vm, code[k], code[k + 1], s);
      OneStep(vm, code[k + 1], Exec(vm, code[k], s));
      if put != [] {
        assert put == [put[0]];
        OneStep(vm, put[0], s');
      }
    }
    assert AlwaysFalls(vm, [code[k], code[k + 1]]) by {
      var pair := [code[k], code[k + 1]];
      forall s
        ensures Block(vm, pair, s).Fall?
      {
        BlockOfTwo(vm, code[k], code[k + 1], s);
        OneStep(vm, code[k + 1], Exec(vm, code[k], s));
      }
    }
    BlockReplaces(vm, code, k, 2, put, X);
  }

  // The second instruction raises nothing, and what takes the place of both raises what the first does.
  lemma PairReplaced(vm: VM, code: seq<Ins>, k: nat, n: Ins, X: set<Place>)
    requires k + 1 < |code| && Straight(code[k].op) && Straight(code[k + 1].op) && Straight(n.op)
    requires NeverFaults(vm, code[k + 1]) && TablesFull(code) && Discards(vm, code, X)
    requires forall s, s' :: Rel(vm, code, k, s, s', X) ==>
      && SameFault(vm, code[k], s, n, s')
      && Rel(vm, code, k + 2, Exec(vm, code[k + 1], Exec(vm, code[k], s)), Exec(vm, n, s'), X)
    ensures Equivalent(vm, code, Splice(code, k, 2, [n]), X)
  {
    hide Exec, Rel, Equivalent, TablesFull, Splice, Faults, Discards;
    assert code[k..k + 2] == [code[k], code[k + 1]];
    TablesAreClear(code, k, 2);
    forall s, s' | Rel(vm, code, k, s, s', X)
      ensures ExitRel(vm, code, k + 2, Block(vm, code[k..k + 2], s), Block(vm, [n], s'), X)
    {
      BlockOfTwo(vm, code[k], code[k + 1], s);
      OneStep(vm, code[k + 1], Exec(vm, code[k], s));
      OneStep(vm, n, s');
    }
    BlockReplaces(vm, code, k, 2, [n], X);
  }

  // ----- dead stores -----

  /** Dead-store removal: deleting a side-effect-free write to a temporary that is not read again
      preserves the meaning of the whole list, on any control flow. */
  lemma DeadStorePreserves(vm: VM, code: seq<Ins>, k: nat)
    requires k < |code| && TablesFull(code) && OnlyWrites(InfoType(code[k].op)) && Pure(vm, code[k])
    requires NeverFaults(vm, code[k]) && Spent(vm, code, k, code[k].w0)
    ensures Equivalent(vm, code, Splice(code, k, 1, []), {Var(code[k].w0)})
  {
    hide InfoType, TablesFull, LiveAt, Exec, Rel, Equivalent, NeverFaults;
    var ins, X := code[k], {Var(code[k].w0)};
    OnlyWritesStraight(ins);
    forall s, s' | Rel(vm, code, k, s, s', X)
      ensures Rel(vm, code, k + 1, Exec(vm, ins, s), s', X)
    {
      DeadStoreRelated(vm, code, k, s, s');
    }
    OneReplaced(vm, code, k, [], X);
  }

  /** And if it may raise an exception, up to that exception. */
  lemma DeadStoreUpholds(vm: VM, code: seq<Ins>, k: nat)
    requires k < |code| && TablesFull(code) && OnlyWrites(InfoType(code[k].op)) && Pure(vm, code[k])
    requires Spent(vm, code, k, code[k].w0)
    ensures Upholds(vm, code, Splice(code, k, 1, []), {Var(code[k].w0)})
  {
    hide InfoType, TablesFull, LiveAt, Exec, Rel, Upholds, Faults;
    var ins, X := code[k], {Var(code[k].w0)};
    OnlyWritesStraight(ins);
    TablesAreClear(code, k, 1);
    forall s, s' | Rel(vm, code, k, s, s', X)
      ensures Rel(vm, code, k + 1, Exec(vm, ins, s), s', X)
    {
      DeadStoreRelated(vm, code, k, s, s');
    }
    DropUpholds(vm, code, k, X);
  }

  lemma DeadStoreRelated(vm: VM, code: seq<Ins>, k: nat, s: State, s': State)
    requires k < |code| && OnlyWrites(InfoType(code[k].op)) && Pure(vm, code[k])
    requires !LiveAt(code, k + 1, Var(code[k].w0)) && Rel(vm, code, k, s, s', {Var(code[k].w0)})
    ensures Rel(vm, code, k + 1, Exec(vm, code[k], s), s', {Var(code[k].w0)})
  {
    hide InfoType, LiveAt, Exec;
    var ins, t := code[k], Exec(vm, code[k], s);
    WritesOneVariable(vm, ins, s);
    assert t.core == s.core;
  }

  lemma WritesOneVariable(vm: VM, ins: Ins, s: State)
    requires OnlyWrites(InfoType(ins.op))
    ensures forall y :: y != ins.w0 ==> Read(Exec(vm, ins, s).vars, y) == Read(s.vars, y)
  {
    hide InfoType, Value, Effect, Store, Fetch;
    OnlyWritesStraight(ins);
  }

  lemma UnusedLoadRelated(vm: VM, code: seq<Ins>, k: nat, s: State, s': State, X: set<Place>)
    requires k < |code| && code[k].op == Op.LdGRdR4 && !LiveAt(code, k + 1, Var(code[k].w0))
    requires X == {Var(code[k].w0), Register} && Rel(vm, code, k, s, s', X)
    requires RegisterFree(vm, code, k + 1, {Register})
    ensures Rel(vm, code, k + 1, Exec(vm, code[k], s), s', X)
  {
    hide LiveAt;
    forall y | y != code[k].w0
      ensures Read(Exec(vm, code[k], s).vars, y) == Read(s'.vars, y)
    {
      assert Var(y) !in X;
    }
  }

  lemma OnlyWritesStraight(ins: Ins)
    requires OnlyWrites(InfoType(ins.op))
    ensures Straight(ins.op) && !IsNop(ins.op) && ins.op != Op.SUSPEND
    ensures ByAddress(ins.op) ==> ins.op == Op.RDR4 || ins.op == Op.RefCpyV
  {
  }

  lemma ExecAddress(vm: VM, ins: Ins, s: State)
    requires ins.op == Op.LDG
    ensures Exec(vm, ins, s) == s.(core := s.core.(reg := PtrArg(ins)))
  {
    hide PtrArg;
  }

  lemma ExecLoadAndAddress(vm: VM, ins: Ins, s: State)
    requires ins.op == Op.LdGRdR4
    ensures Exec(vm, ins, s) ==
      State(s.vars[ins.w0 := vm.load(s.core.world, PtrArg(ins))], s.core.(reg := PtrArg(ins)))
  {
    hide PtrArg;
  }

  lemma LoadOfGlobalPreserves(vm: VM, code: seq<Ins>, k: nat)
    requires k < |code| && TablesFull(code) && code[k].op == Op.LdGRdR4 && Spent(vm, code, k, code[k].w0)
    ensures Equivalent(vm, code, Splice(code, k, 1, [code[k].(op := Op.LDG)]), {Var(code[k].w0)})
  {
    hide TablesFull, LiveAt, Exec, InfoType, PtrArg, Splice, Equivalent;
    var ins, x := code[k], code[k].w0;
    var n := ins.(op := Op.LDG);
    SameAddress(ins);
    forall s, s' | Rel(vm, code, k, s, s', {Var(x)})
      ensures Rel(vm, code, k + 1, Exec(vm, ins, s), Exec(vm, n, s'), {Var(x)})
    {
      ExecLoadAndAddress(vm, ins, s);
      ExecAddress(vm, n, s');
    }
    OneReplaced(vm, code, k, [n], {Var(x)});
  }

  lemma SameAddress(ins: Ins)
    ensures PtrArg(ins.(op := Op.LDG)) == PtrArg(ins)
  {
  }

  /** Nor is the address wanted that LdGRdR4 leaves in the value register. */
  lemma UnusedLoadPreserves(vm: VM, code: seq<Ins>, k: nat)
    requires k < |code| && TablesFull(code) && code[k].op == Op.LdGRdR4 && Spent(vm, code, k, code[k].w0)
    requires RegisterFree(vm, code, k + 1, {Register})
    ensures Equivalent(vm, code, Splice(code, k, 1, []), {Var(code[k].w0), Register})
  {
    hide TablesFull, LiveAt;
    var ins, X := code[k], {Var(code[k].w0), Register};
    assert Discards(vm, code, X);
    forall s, s' | Rel(vm, code, k, s, s', X)
      ensures Rel(vm, code, k + 1, Exec(vm, ins, s), s', X)
    {
      UnusedLoadRelated(vm, code, k, s, s', X);
    }
    OneReplaced(vm, code, k, [], X);
  }

  // ----- folded constants -----

  lemma CompareFoldPreserves(vm: VM, code: seq<Ins>, k: nat)
    requires k + 1 < |code| && TablesFull(code) && code[k].op == Op.SetV4 && IsCompare(code[k + 1].op)
    requires code[k + 1].w1 == code[k].w0 && Spent(vm, code, k + 1, code[k].w0)
    requires code[k + 1].w0 != code[k + 1].w1
    ensures Equivalent(vm, code, Splice(code, k, 2, [WithImmediate(code[k], code[k + 1])]), {Var(code[k].w0)})
  {
    hide Faults, NeverFaults, Calm, Straight;
    hide InfoType, TablesFull, LiveAt, Exec, Equivalent, Splice, CompareAs;
    var c, d, X := code[k], code[k + 1], {Var(code[k].w0)};
    var n := WithImmediate(c, d);
    forall s, s' | Rel(vm, code, k, s, s', X)
      ensures Rel(vm, code, k + 2, Exec(vm, d, Exec(vm, c, s)), Exec(vm, n, s'), X)
    {
      ExecSetV4(vm, c, s);
      ExecCompare(vm, d, Exec(vm, c, s));
      ExecCompareImm(vm, n, s');
      SameComparison(vm, d.op, Read(s.vars, d.w0), c.a0);
    }
    CalculationIsCalm(vm, c);
    CalculationIsCalm(vm, d);
    CalculationIsCalm(vm, n);
    TwoReplaced(vm, code, k, [n], X);
  }

  lemma SameComparison(vm: VM, op: int, a: int, b: int)
    requires IsCompare(op)
    ensures CompareAs(vm, op, a, b) == CompareAs(vm, ImmediateOp(op), a, b)
  {
  }

  lemma SameArithmetic(vm: VM, op: int, a: int, b: int)
    requires IsArith(op)
    ensures Arith(vm, op, a, b) == Arith(vm, ImmediateOp(op), a, b)
    ensures Commutes(op) && CommutesFor(vm, op) ==> Arith(vm, op, b, a) == Arith(vm, op, a, b)
  {
  }

  lemma ArithFoldRelated(vm: VM, code: seq<Ins>, k: nat, swapped: bool, X: set<Place>, s: State, s': State)
    requires k + 1 < |code| && code[k].op == Op.SetV4 && IsArith(code[k + 1].op)
    requires if swapped then Commutes(code[k + 1].op) && CommutesFor(vm, code[k + 1].op) && code[k + 1].w1 == code[k].w0
             else code[k + 1].w2 == code[k].w0
    requires code[k + 1].w1 != code[k + 1].w2
    requires || (X == {} && code[k + 1].w0 == code[k].w0)
             || (X == {Var(code[k].w0)} && !LiveAt(code, k + 2, Var(code[k].w0)))
    requires Rel(vm, code, k, s, s', X)
    ensures var c, d, n := code[k], code[k + 1], WithImmediate(code[k], code[k + 1]);
      Rel(vm, code, k + 2, Exec(vm, d, Exec(vm, c, s)), Exec(vm, if swapped then n.(w1 := d.w2) else n, s'), X)
  {
    hide InfoType, LiveAt, Exec, Arith, CommutesFor, Commutes;
    var c, d := code[k], code[k + 1];
    var n := if swapped then WithImmediate(c, d).(w1 := d.w2) else WithImmediate(c, d);
    ExecSetV4(vm, c, s);
    ExecArith(vm, d, Exec(vm, c, s));
    ExecArithImm(vm, n, s');
    SameArithmetic(vm, d.op, Read(s.vars, if swapped then d.w2 else d.w1), c.a0);
  }

  /** The constant is the second source operand, or (`swapped`) the first one of a commutative
      instruction. `X` is empty when the temporary is overwritten by the result. */
  lemma ArithFoldPreserves(vm: VM, code: seq<Ins>, k: nat, swapped: bool, X: set<Place>)
    requires k + 1 < |code| && TablesFull(code) && code[k].op == Op.SetV4 && IsArith(code[k + 1].op)
    requires if swapped then Commutes(code[k + 1].op) && CommutesFor(vm, code[k + 1].op) && code[k + 1].w1 == code[k].w0
             else code[k + 1].w2 == code[k].w0
    requires code[k + 1].w1 != code[k + 1].w2
    requires (X == {} && code[k + 1].w0 == code[k].w0) || (X == {Var(code[k].w0)} && Spent(vm, code, k + 1, code[k].w0))
    ensures var n := WithImmediate(code[k], code[k + 1]);
      Equivalent(vm, code, Splice(code, k, 2, [if swapped then n.(w1 := code[k + 1].w2) else n]), X)
  {
    hide InfoType, TablesFull, LiveAt, Exec, Equivalent, Splice, CommutesFor, Commutes, Faults;
    hide NeverFaults, Rel, Discards;
    hide Calm, Straight;
    var c, d := code[k], code[k + 1];
    var n := if swapped then WithImmediate(c, d).(w1 := d.w2) else WithImmediate(c, d);
    CalculationIsCalm(vm, c);
    CalculationIsCalm(vm, d);
    CalculationIsCalm(vm, n);
    assert Discards(vm, code, X) by {
      NothingDiscarded(vm, code);
    }
    forall s, s' | Rel(vm, code, k, s, s', X)
      ensures Rel(vm, code, k + 2, Exec(vm, d, Exec(vm, c, s)), Exec(vm, n, s'), X)
    {
      ArithFoldRelated(vm, code, k, swapped, X, s, s');
    }
    TwoReplaced(vm, code, k, [n], X);
  }

  lemma ExecCopy(vm: VM, ins: Ins, s: State)
    requires ins.op == Op.CpyVtoV4
    ensures Exec(vm, ins, s) == s.(vars := s.vars[ins.w0 := Read(s.vars, ins.w1)])
  {
  }

  lemma ExecPush(vm: VM, ins: Ins, s: State)
    requires ins.op == Op.PshV4 || ins.op == Op.PshV8
    ensures Exec(vm, ins, s) ==
      s.(core := s.core.(stack := PushValue(s.core.stack, Word(Read(s.vars, ins.w0)), PushSize(ins.op))))
  {
  }

  /** The result of an instruction goes straight to where it is copied next. */
  lemma CopyPreserves(vm: VM, code: seq<Ins>, k: nat)
    requires k + 1 < |code| && TablesFull(code)
    requires code[k].op == Op.SetV4 || InfoType(code[k].op) in {wW_rW_rW_ARG, wW_rW_DW_ARG}
    requires code[k + 1].op == Op.CpyVtoV4 && code[k + 1].w1 == code[k].w0
    requires Spent(vm, code, k + 1, code[k].w0)
    ensures Equivalent(vm, code, Splice(code, k, 2, [code[k].(w0 := code[k + 1].w0)]), {Var(code[k].w0)})
  {
    hide TablesFull, LiveAt, Exec, Equivalent, Splice, InfoType, Faults, NeverFaults;
    var c, d, X := code[k], code[k + 1], {Var(code[k].w0)};
    var n := c.(w0 := d.w0);
    WritesOnly(c);
    OnlyWritesStraight(c);
    CalmNeverFaults(vm, d);
    forall s, s' | Rel(vm, code, k, s, s', X)
      ensures SameFault(vm, c, s, n, s')
      ensures Rel(vm, code, k + 2, Exec(vm, d, Exec(vm, c, s)), Exec(vm, n, s'), X)
    {
      ExecCopy(vm, d, Exec(vm, c, s));
      OperandsAgree(vm, code, k, s, s', X);
      SameResult(vm, c, d.w0, s, s');
    }
    PairReplaced(vm, code, k, n, X);
  }

  // An instruction computes the same wherever it puts its result.
  lemma SameResult(vm: VM, ins: Ins, w: int, s: State, s': State)
    requires ins.op == Op.SetV4 || InfoType(ins.op) in {wW_rW_rW_ARG, wW_rW_DW_ARG}
    requires s.core == s'.core
    requires FirstOperand(ins, s.vars) == FirstOperand(ins, s'.vars)
    requires SecondOperand(ins, s.vars) == SecondOperand(ins, s'.vars)
    ensures var t := Exec(vm, ins, s); var t' := Exec(vm, ins.(w0 := w), s');
      var v := Read(t.vars, ins.w0);
      t == State(s.vars[ins.w0 := v], t.core) && t' == State(s'.vars[w := v], t.core)
    ensures Faults(vm, ins, s) <==> Faults(vm, ins.(w0 := w), s')
  {
    hide InfoType, Value, Effect;
    var a, b := FirstOperand(ins, s.vars), SecondOperand(ins, s.vars);
    WritesOnly(ins);
    WritersWrite(ins.op);
    OnlyWritesStraight(ins);
    assert Operation(ins.(w0 := w)) == Operation(ins);
    SameElsewhere(vm, ins, w, a, b, s.core);
  }

  lemma WritesOnly(ins: Ins)
    requires ins.op == Op.SetV4 || InfoType(ins.op) in {wW_rW_rW_ARG, wW_rW_DW_ARG}
    ensures OnlyWrites(InfoType(ins.op)) && WritesFirst(InfoType(ins.op)) && ins.op != Op.LoadThisR && ins.op != Op.FREE
    ensures !ReadsFirst(InfoType(ins.op)) && !ByAddress(ins.op) && !Checks(ins.op) && IsPlainWrite(ins.op)
  {
  }

  // What it does depends on no variable that it names only as its result.
  predicate IsPlainWrite(op: int) {
    KeepsCore(op) || (!IsPush(op) && !Rearranges(op) && !LoadsReg(op) && op != Op.SetG4)
  }

  lemma SameElsewhere(vm: VM, ins: Ins, w: int, a: int, b: int, c: Core)
    requires WritesFirst(InfoType(ins.op)) && IsPlainWrite(ins.op)
    ensures Value(vm, ins.(w0 := w), a, b, c) == Value(vm, ins, a, b, c)
    ensures Effect(vm, ins.(w0 := w), a, b, c) == Effect(vm, ins, a, b, c)
  {
    hide InfoType, Arith, CompareAs, PushValue, Pushed, Rearranged, LoadedReg, Freed;
    assert Operation(ins.(w0 := w)) == Operation(ins);
  }

  // A constant or a global pushed by way of a temporary is pushed directly.
  lemma PushPreserves(vm: VM, code: seq<Ins>, k: nat, n: Ins)
    requires k + 1 < |code| && TablesFull(code)
    requires code[k + 1].w0 == code[k].w0 && Spent(vm, code, k + 1, code[k].w0)
    requires var c, d := code[k], code[k + 1];
      || (c.op == Op.SetV4 && d.op == Op.PshV4 && n.op == Op.PshC4 && n.a0 == c.a0)
      || (c.op == Op.SetV8 && d.op == Op.PshV8 && n.op == Op.PshC8 && QuadArg(n) == QuadArg(c))
      || (c.op == Op.CpyGtoV4 && d.op == Op.PshV4 && n.op == Op.PshG4 && PtrArg(n) == PtrArg(c))
    ensures Equivalent(vm, code, Splice(code, k, 2, [n]), {Var(code[k].w0)})
  {
    hide Faults, NeverFaults;
    hide TablesFull, LiveAt, Exec, Equivalent, Splice, InfoType, PtrArg, QuadArg;
    var c, d, X := code[k], code[k + 1], {Var(code[k].w0)};
    forall s, s' | Rel(vm, code, k, s, s', X)
      ensures Rel(vm, code, k + 2, Exec(vm, d, Exec(vm, c, s)), Exec(vm, n, s'), X)
    {
      ExecLoad(vm, c, s);
      ExecPush(vm, d, Exec(vm, c, s));
      ExecPushDirect(vm, n, s');
    }
    CalmNeverFaults(vm, c);
    CalmNeverFaults(vm, d);
    CalmNeverFaults(vm, n);
    TwoReplaced(vm, code, k, [n], X);
  }

  // The value that an instruction loads from its operand, not from a variable.
  function Loaded(vm: VM, ins: Ins, c: Core): int {
    if ins.op == Op.SetV4 || ins.op == Op.PshC4 then ins.a0
    else if ins.op == Op.SetV8 || ins.op == Op.PshC8 then QuadArg(ins)
    else vm.load(c.world, PtrArg(ins))
  }

  lemma ExecLoad(vm: VM, ins: Ins, s: State)
    requires ins.op == Op.SetV4 || ins.op == Op.SetV8 || ins.op == Op.CpyGtoV4
    ensures Exec(vm, ins, s) == s.(vars := s.vars[ins.w0 := Loaded(vm, ins, s.core)])
  {
  }

  lemma ExecPushDirect(vm: VM, ins: Ins, s: State)
    requires ins.op == Op.PshC4 || ins.op == Op.PshC8 || ins.op == Op.PshG4
    ensures Exec(vm, ins, s) ==
      s.(core := s.core.(stack := PushValue(s.core.stack, Word(Loaded(vm, ins, s.core)), PushSize(ins.op))))
  {
    hide InfoType, PtrArg, QuadArg;
    PushDirectTypes();
  }

  lemma PushDirectTypes()
    ensures InfoType(Op.PshC4) == DW_ARG && InfoType(Op.PshC8) == QW_ARG && InfoType(Op.PshG4) == PTR_ARG
  {
  }

  /** A constant copied to a global by way of a temporary is stored there directly. */
  lemma SetGlobalPreserves(vm: VM, code: seq<Ins>, k: nat)
    requires k + 1 < |code| && TablesFull(code) && code[k].op == Op.SetV4 && Word32(code[k].a0)
    requires code[k + 1].op == Op.CpyVtoG4 && code[k + 1].w0 == code[k].w0
    requires Spent(vm, code, k + 1, code[k].w0)
    ensures Equivalent(vm, code, Splice(code, k, 2, [SetGlobal(code[k], code[k + 1])]), {Var(code[k].w0)})
  {
    hide Faults, NeverFaults;
    hide TablesFull, LiveAt, Exec, Equivalent, Splice, InfoType, PtrArg, SetGlobal;
    var c, d, X := code[k], code[k + 1], {Var(code[k].w0)};
    var n := SetGlobal(c, d);
    SetGlobalOperands(c, d);
    forall s, s' | Rel(vm, code, k, s, s', X)
      ensures Rel(vm, code, k + 2, Exec(vm, d, Exec(vm, c, s)), Exec(vm, n, s'), X)
    {
      ExecSetV4(vm, c, s);
      ExecStores(vm, d, Exec(vm, c, s));
      ExecStores(vm, n, s');
    }
    CalmNeverFaults(vm, c);
    CalmNeverFaults(vm, d);
    CalmNeverFaults(vm, n);
    TwoReplaced(vm, code, k, [n], X);
  }

  lemma SetGlobalOperands(c: Ins, d: Ins)
    requires Word32(c.a0)
    ensures var n := SetGlobal(c, d); n.op == Op.SetG4 && PtrArg(n) == PtrArg(d) && WordAfterPtr(n) == c.a0
  {
    hide InfoType, Signed16, Signed32;
    WordInHalves(c.a0);
  }

  lemma WordInHalves(a: int)
    requires Word32(a)
    ensures Signed32(Signed16(a) % 0x1_0000 + 0x1_0000 * (Signed16(a / 0x1_0000) % 0x1_0000)) == a
  {
    hide Signed32;
    HalfBack(a);
    HalfBack(a / 0x1_0000);
    var u := a % 0x1_0000 + 0x1_0000 * ((a / 0x1_0000) % 0x1_0000);
    assert u == a || u == a + 0x1_0000_0000;
    WordBack(a, u);
  }

  lemma HalfBack(a: int)
    ensures Signed16(a) % 0x1_0000 == a % 0x1_0000
  {
  }

  lemma WordBack(a: int, u: int)
    requires Word32(a) && (u == a || u == a + 0x1_0000_0000)
    ensures Signed32(u) == a
  {
  }

  lemma ExecStores(vm: VM, ins: Ins, s: State)
    requires ins.op == Op.CpyVtoG4 || ins.op == Op.SetG4
    ensures ins.op == Op.CpyVtoG4 ==>
      Exec(vm, ins, s) == s.(core := s.core.(world := vm.store(s.core.world, PtrArg(ins), Read(s.vars, ins.w0))))
    ensures ins.op == Op.SetG4 ==>
      (Exec(vm, ins, s) == s.(core := s.core.(world := vm.store(s.core.world, PtrArg(ins), WordAfterPtr(ins)))))
  {
    hide PtrArg, WordAfterPtr, InfoType;
    StoreTypes();
  }

  lemma StoreTypes()
    ensures InfoType(Op.CpyVtoG4) == rW_PTR_ARG && InfoType(Op.SetG4) == PTR_DW_ARG
  {
  }

  /** The register copied to a temporary and straight back. */
  lemma RegisterRoundTripPreserves(vm: VM, code: seq<Ins>, k: nat)
    requires k + 1 < |code| && TablesFull(code) && code[k].op == Op.CpyRtoV4 && code[k + 1].op == Op.CpyVtoR4
    requires code[k + 1].w0 == code[k].w0 && Spent(vm, code, k + 1, code[k].w0)
    ensures Equivalent(vm, code, Splice(code, k, 2, []), {Var(code[k].w0)})
  {
    hide Faults, NeverFaults;
    hide TablesFull, LiveAt, Exec, Equivalent, Splice, InfoType;
    var c, d, X := code[k], code[k + 1], {Var(code[k].w0)};
    forall s, s' | Rel(vm, code, k, s, s', X)
      ensures Rel(vm, code, k + 2, Exec(vm, d, Exec(vm, c, s)), s', X)
    {
      ExecRegister(vm, c, s);
      ExecRegister(vm, d, Exec(vm, c, s));
    }
    CalmNeverFaults(vm, c);
    CalmNeverFaults(vm, d);
    TwoReplaced(vm, code, k, [], X);
  }

  lemma ExecRegister(vm: VM, ins: Ins, s: State)
    requires ins.op == Op.CpyRtoV4 || ins.op == Op.CpyVtoR4
    ensures ins.op == Op.CpyRtoV4 ==> Exec(vm, ins, s) == s.(vars := s.vars[ins.w0 := s.core.reg])
    ensures ins.op == Op.CpyVtoR4 ==> Exec(vm, ins, s) == s.(core := s.core.(reg := Read(s.vars, ins.w0)))
  {
  }

  // ----- all rewrites together -----

  lemma LastUseSpent(vm: VM, code: seq<Ins>, k: nat, x: int, temps: set<int>, hasResult: bool)
    requires Disciplined(code, temps, hasResult) && LastUse(code, k, x, temps) && !vm.addressed(x)
    ensures Spent(vm, code, k, x) && {Var(x)} <= Loose(temps) && {Var(x), Register} <= Loose(temps)
  {
    hide LiveAt, Disciplined;
    DisciplineDiscards(vm, code, temps, hasResult, {Var(x)});
  }

  /** `RemoveUnusedValue` preserves the meaning of a disciplined list whenever `Sound` holds, except that
      an exception may be lost with a removed store. */
  lemma UnusedPreserves(vm: VM, code: seq<Ins>, k: nat, temps: set<int>)
    requires k < |code| && TablesFull(code) && Word32(code[k].a0)
    requires Disciplined(code, temps, vm.hasResult) && Sound(vm, code, k, temps)
    ensures Upholds(vm, code, Apply(code, Unused(code, k, temps)), Loose(temps))
    ensures Quiet(vm, code, k, temps) ==> Equivalent(vm, code, Apply(code, Unused(code, k, temps)), Loose(temps))
  {
    hide TablesFull, LiveAt, Equivalent, Splice, Disciplined, InfoType, Sound, DeadStore, LastUse, FoldConstant;
    hide JoinPair, Upholds, Quiet;
    var code' := Apply(code, Unused(code, k, temps));
    if DeadStore(code, k, temps) {
      DeadStoreTurn(vm, code, k, temps);
    } else {
      if Unused(code, k, temps).Keep? {
        EquivalentRefl(vm, code, Loose(temps));
      } else if code[k].op == Op.SetV4 {
        FoldPreserves(vm, code, k, temps);
      } else {
        SoundHides(vm, code, k, temps);
        JoinPreserves(vm, code, k, temps);
      }
      EquivalentUpholds(vm, code, code', Loose(temps));
    }
  }

  lemma DeadStoreTurn(vm: VM, code: seq<Ins>, k: nat, temps: set<int>)
    requires k < |code| && TablesFull(code) && Disciplined(code, temps, vm.hasResult)
    requires DeadStore(code, k, temps) && Sound(vm, code, k, temps)
    ensures Upholds(vm, code, Apply(code, Unused(code, k, temps)), Loose(temps))
    ensures Quiet(vm, code, k, temps) ==> Equivalent(vm, code, Apply(code, Unused(code, k, temps)), Loose(temps))
  {
    hide TablesFull, LiveAt, Equivalent, Splice, Disciplined, InfoType, LastUse, Pure, RegUsedAfter, Spent, Upholds;
    hide NeverFaults;
    var x, X := code[k].w0, {Var(code[k].w0)};
    var code' := Apply(code, Unused(code, k, temps));
    LastUseIsTemp(code, k, x, temps);
    LastUseSpent(vm, code, k, x, temps, vm.hasResult);
    if code[k].op == Op.LdGRdR4 {
      if RegUsedAfter(code, k) {
        LoadOfGlobalPreserves(vm, code, k);
      } else {
        X := {Var(x), Register};
        RegisterUnused(code, k, temps, vm.hasResult);
        AddressNotKept(code, k, temps, vm.hasResult);
        UnusedLoadPreserves(vm, code, k);
      }
      EquivalentWeakens(vm, code, code', X, Loose(temps));
      EquivalentUpholds(vm, code, code', Loose(temps));
    } else {
      if NeverFaults(vm, code[k]) {
        DeadStorePreserves(vm, code, k);
        EquivalentWeakens(vm, code, code', X, Loose(temps));
      }
      DeadStoreUpholds(vm, code, k);
      UpholdsWeakens(vm, code, code', X, Loose(temps));
    }
  }

  lemma SoundHides(vm: VM, code: seq<Ins>, k: nat, temps: set<int>)
    requires k < |code| && Sound(vm, code, k, temps)
    ensures Hidden(vm, code[k], temps)
  {
    hide DeadStore, InfoType;
  }

  lemma LastUseIsTemp(code: seq<Ins>, k: nat, x: int, temps: set<int>)
    requires LastUse(code, k, x, temps)
    ensures x in temps
  {
    hide LiveAt;
  }

  // Behind an access through the register, the address in it is neither a result nor incremented there.
  lemma AddressNotKept(code: seq<Ins>, k: nat, temps: set<int>, hasResult: bool)
    requires Disciplined(code, temps, hasResult) && k < |code| && AccessesThrough(code[k].op)
    ensures forall p: Place :: Counts(p, hasResult) && !p.Var? && p != Register ==> !LiveAt(code, k + 1, p)
  {
    hide LiveAt;
    forall p: Place | Counts(p, hasResult) && !p.Var? && p != Register
      ensures !LiveAt(code, k + 1, p)
    {
      if LiveAt(code, k + 1, p) {
        LiveInside(code, k + 1, p);
        assert Flow(code, k, k + 1);
        var sheds := Sheds(code[k], p, temps, hasResult);
      }
    }
  }

  lemma FoldPreserves(vm: VM, code: seq<Ins>, k: nat, temps: set<int>)
    requires k + 1 < |code| && TablesFull(code) && Word32(code[k].a0) && code[k].op == Op.SetV4
    requires Disciplined(code, temps, vm.hasResult) && !DeadStore(code, k, temps) && Sound(vm, code, k, temps)
    ensures var w := FoldConstant(code, k, temps);
      w.Replace? ==> Equivalent(vm, code, Apply(code, w), Loose(temps))
  {
    hide TablesFull, LiveAt, Equivalent, Splice, Pure, SetGlobal, WithImmediate, InfoType, DeadStore, Word32;
    hide Disciplined;
    hide Spent, LastUse;
    var c, d, x, X := code[k], code[k + 1], code[k].w0, {Var(code[k].w0)};
    var last := LastUse(code, k + 1, x, temps);
    var w := FoldConstant(code, k, temps);
    SetTypes();
    if last {
      LastUseIsTemp(code, k + 1, x, temps);
      LastUseSpent(vm, code, k + 1, x, temps, vm.hasResult);
    }
    if IsCompare(d.op) && d.w1 == x && last {
      CompareFoldPreserves(vm, code, k);
    } else if IsArith(d.op) && d.w2 == x && (d.w0 == x || last) {
      X := if last then {Var(x)} else {};
      NothingDiscarded(vm, code);
      ArithFoldPreserves(vm, code, k, false, X);
    } else if Commutes(d.op) && d.w1 == x && (d.w0 == x || last) {
      X := if last then {Var(x)} else {};
      NothingDiscarded(vm, code);
      ArithFoldPreserves(vm, code, k, true, X);
    } else if d.op == Op.CpyVtoV4 && d.w1 == x && last {
      CopyPreserves(vm, code, k);
    } else if d.op == Op.PshV4 && d.w0 == x && last {
      PushPreserves(vm, code, k, c.(op := Op.PshC4, stackInc := InfoStackInc(Op.PshC4)));
    } else if d.op == Op.CpyVtoG4 && d.w0 == x && last {
      SetGlobalPreserves(vm, code, k);
    }
    if w.Replace? {
      EquivalentWeakens(vm, code, Apply(code, w), X, Loose(temps));
    }
  }

  lemma SetTypes()
    ensures OnlyWrites(InfoType(Op.SetV4)) && OnlyWrites(InfoType(Op.SetV8)) && OnlyWrites(InfoType(Op.CpyRtoV4))
    ensures OnlyWrites(InfoType(Op.CpyGtoV4))
  {
  }

  lemma NothingDiscarded(vm: VM, code: seq<Ins>)
    ensures Discards(vm, code, {})
  {
  }

  lemma JoinPreserves(vm: VM, code: seq<Ins>, k: nat, temps: set<int>)
    requires k + 1 < |code| && TablesFull(code) && code[k].op != Op.SetV4 && Disciplined(code, temps, vm.hasResult)
    requires Hidden(vm, code[k], temps)
    ensures var w := JoinPair(code, k, temps);
      w.Replace? ==> Equivalent(vm, code, Apply(code, w), Loose(temps))
  {
    hide TablesFull, LiveAt, Equivalent, Splice, InfoType, Disciplined, LastUse, Spent;
    var c, d, x, w := code[k], code[k + 1], code[k].w0, JoinPair(code, k, temps);
    SetTypes();
    if w.Replace? {
      if InfoType(c.op) in {wW_rW_rW_ARG, wW_rW_DW_ARG} {
        WritesOnly(c);
      }
      LastUseIsTemp(code, k + 1, x, temps);
      LastUseSpent(vm, code, k + 1, x, temps, vm.hasResult);
      if InfoType(c.op) in {wW_rW_rW_ARG, wW_rW_DW_ARG} && d.op == Op.CpyVtoV4 && d.w1 == x {
        CopyPreserves(vm, code, k);
      } else if c.op == Op.CpyRtoV4 && d.op == Op.CpyVtoR4 && d.w0 == x {
        RegisterRoundTripPreserves(vm, code, k);
      } else if c.op == Op.CpyGtoV4 && d.op == Op.PshV4 && d.w0 == x {
        PushPreserves(vm, code, k, w.put[0]);
      } else if c.op == Op.SetV8 && d.op == Op.PshV8 && d.w0 == x {
        PushPreserves(vm, code, k, w.put[0]);
      }
      EquivalentWeakens(vm, code, Apply(code, w), {Var(x)}, Loose(temps));
    }
  }

  lemma UpholdsWeakens(vm: VM, code: seq<Ins>, code': seq<Ins>, X: set<Place>, Y: set<Place>)
    requires Upholds(vm, code, code', X) && X <= Y
    ensures Upholds(vm, code, code', Y)
  {
    hide Run, SameEnd;
    forall s, n | !Run(vm, code, At(0, s), n).At?
      ensures exists m :: Follows(Run(vm, code, At(0, s), n), Run(vm, code', At(0, s), m), Y)
    {
      var m :| Follows(Run(vm, code, At(0, s), n), Run(vm, code', At(0, s), m), X);
      FollowsWeakens(Run(vm, code, At(0, s), n), Run(vm, code', At(0, s), m), X, Y);
    }
    forall s, m | !Run(vm, code', At(0, s), m).At?
      ensures exists n :: Follows(Run(vm, code, At(0, s), n), Run(vm, code', At(0, s), m), Y)
    {
      var n :| Follows(Run(vm, code, At(0, s), n), Run(vm, code', At(0, s), m), X);
      FollowsWeakens(Run(vm, code, At(0, s), n), Run(vm, code', At(0, s), m), X, Y);
    }
  }

  lemma FollowsWeakens(r: Res, r': Res, X: set<Place>, Y: set<Place>)
    requires Follows(r, r', X) && X <= Y
    ensures Follows(r, r', Y)
  {
  }

  lemma EquivalentWeakens(vm: VM, code: seq<Ins>, code': seq<Ins>, X: set<Place>, Y: set<Place>)
    requires Equivalent(vm, code, code', X) && X <= Y
    ensures Equivalent(vm, code, code', Y)
  {
    RefinesWeakens(vm, code, code', X, Y);
    RefinesWeakens(vm, code', code, X, Y);
  }

  lemma RefinesWeakens(vm: VM, code: seq<Ins>, code': seq<Ins>, X: set<Place>, Y: set<Place>)
    requires Refines(vm, code, code', X) && X <= Y
    ensures Refines(vm, code, code', Y)
  {
    hide Run;
    forall s, n | !Run(vm, code, At(0, s), n).At?
      ensures exists m :: SameEnd(Run(vm, code, At(0, s), n), Run(vm, code', At(0, s), m), Y)
    {
      var m :| SameEnd(Run(vm, code, At(0, s), n), Run(vm, code', At(0, s), m), X);
      assert SameEnd(Run(vm, code, At(0, s), n), Run(vm, code', At(0, s), m), Y);
    }
  }

  // ----- a constant used twice -----

  // From every state, the constant `c` and its user `d` do the same as `n`, but for the temporary.
  ghost predicate SameEffect(vm: VM, c: Ins, d: Ins, n: Ins) {
    forall s :: Agree(Exec(vm, d, Exec(vm, c, s)), Exec(vm, n, s), {Var(c.w0)} - {Var(d.w0)})
  }

  /** Folding a constant into integer arithmetic is right exactly when the other source operand is
      a different variable, or the instruction multiplies by zero. */
  lemma ArithFoldExact(vm: VM, c: Ins, d: Ins, core: Core)
    requires c.op == Op.SetV4 && Word32(c.a0) && d.op in {Op.ADDi, Op.SUBi, Op.MULi} && d.w2 == c.w0
    ensures SameEffect(vm, c, d, WithImmediate(c, d)) <==> d.w1 != d.w2 || (d.op == Op.MULi && c.a0 == 0)
  {
    hide InfoType, Exec, SameEffect, Arith, Signed32;
    var n := WithImmediate(c, d);
    if d.w1 != d.w2 || (d.op == Op.MULi && c.a0 == 0) {
      forall s
        ensures Agree(Exec(vm, d, Exec(vm, c, s)), Exec(vm, n, s), {Var(c.w0)} - {Var(d.w0)})
      {
        BothExec(vm, c, d, s);
        TimesZero(vm, d.op, c.a0, Read(s.vars, c.w0));
      }
      SameEffectIs(vm, c, d, n);
    } else {
      var v := StaleValue(vm, d.op, c.a0);
      var s := State(map[c.w0 := v], core);
      BothExec(vm, c, d, s);
      if SameEffect(vm, c, d, n) {
        SameEffectAt(vm, c, d, n, s);
        assert false;
      }
    }
  }

  lemma SameEffectIs(vm: VM, c: Ins, d: Ins, n: Ins)
    requires forall s :: Agree(Exec(vm, d, Exec(vm, c, s)), Exec(vm, n, s), {Var(c.w0)} - {Var(d.w0)})
    ensures SameEffect(vm, c, d, n)
  {
    hide Exec;
  }

  lemma SameEffectAt(vm: VM, c: Ins, d: Ins, n: Ins, s: State)
    requires SameEffect(vm, c, d, n)
    ensures Agree(Exec(vm, d, Exec(vm, c, s)), Exec(vm, n, s), {Var(c.w0)} - {Var(d.w0)})
  {
    hide Exec, Agree;
  }

  lemma BothExec(vm: VM, c: Ins, d: Ins, s: State)
    requires c.op == Op.SetV4 && IsArith(d.op)
    ensures var n := WithImmediate(c, d); var vars := s.vars[c.w0 := c.a0];
      && Exec(vm, d, Exec(vm, c, s)) == State(vars[d.w0 := Arith(vm, d.op, Read(vars, d.w1), Read(vars, d.w2))], s.core)
      && Exec(vm, n, s) == State(s.vars[d.w0 := Arith(vm, d.op, Read(s.vars, d.w1), c.a0)], s.core)
  {
    hide InfoType, Exec, Arith;
    ExecSetV4(vm, c, s);
    ExecArith(vm, d, Exec(vm, c, s));
    ExecArithImm(vm, WithImmediate(c, d), s);
    SameArithmetic(vm, d.op, Read(s.vars, d.w1), c.a0);
  }

  lemma TimesZero(vm: VM, op: int, c: int, v: int)
    ensures op == Op.MULi && c == 0 ==> Arith(vm, op, c, c) == Arith(vm, op, v, c)
  {
  }

  // A value the temporary may have been left with, for which the folded instruction goes wrong.
  lemma StaleValue(vm: VM, op: int, c: int) returns (v: int)
    requires op in {Op.ADDi, Op.SUBi} || (op == Op.MULi && c != 0)
    requires Word32(c)
    ensures Arith(vm, op, v, c) != Arith(vm, op, c, c)
  {
    if op == Op.MULi {
      v := if Arith(vm, op, c, c) == 0 then 1 else 0;
    } else {
      v := c + 1;
    }
  }

  /** Folding a constant into a comparison is right exactly when it compares another variable. */
  lemma CompareFoldExact(vm: VM, c: Ins, d: Ins, core: Core)
    requires c.op == Op.SetV4 && Word32(c.a0) && (d.op == Op.CMPi || d.op == Op.CMPu) && d.w1 == c.w0
    ensures (forall s :: Exec(vm, d, Exec(vm, c, s)).core == Exec(vm, WithImmediate(c, d), s).core) <==> d.w0 != d.w1
  {
    hide InfoType, Exec, CompareAs;
    var n := WithImmediate(c, d);
    forall s
      ensures d.w0 != d.w1 ==> Exec(vm, d, Exec(vm, c, s)).core == Exec(vm, n, s).core
    {
      ExecSetV4(vm, c, s);
      ExecCompare(vm, d, Exec(vm, c, s));
      ExecCompareImm(vm, n, s);
      SameComparison(vm, d.op, Read(s.vars, d.w0), c.a0);
    }
    if d.w0 == d.w1 {
      var s := State(map[c.w0 := c.a0 + 1], core);
      ExecSetV4(vm, c, s);
      ExecCompare(vm, d, Exec(vm, c, s));
      ExecCompareImm(vm, n, s);
      SuccessorDiffers(vm, d.op, c.a0);
      assert Exec(vm, d, Exec(vm, c, s)).core != Exec(vm, n, s).core;
    }
  }

  lemma SuccessorDiffers(vm: VM, op: int, c: int)
    requires op == Op.CMPi || op == Op.CMPu
    ensures CompareAs(vm, op, c, c) != CompareAs(vm, ImmediateOp(op), c + 1, c)
  {
  }

  function RepeatedOperand(): seq<Ins> {
    [Ins(Op.SetV4, 5, 0, 1, 0, 0, 2, 0), Ins(Op.ADDi, 0, 0, 2, 1, 1, 2, 0),
     Ins(Op.CpyVtoR4, 0, 0, 2, 0, 0, 1, 0), Ins(Op.RET, 0, 0, 0, 0, 0, 1, 0)]
  }

  /** A list on which the fold goes wrong: `t = 5; y = t + t; return y` with `t` a temporary. The
      optimizer turns the addition into `t + 5`, but no longer sets `t`. */
  lemma FoldOfRepeatedOperandFails(vm: VM, world: World)
    requires vm.hasResult
    ensures var code := RepeatedOperand();
      && Unused(code, 0, {1}) == Replace(0, 2, [WithImmediate(code[0], code[1])])
      && !Equivalent(vm, code, Apply(code, Unused(code, 0, {1})), Loose({1}))
  {
    hide Run, LiveAt, Exec, InfoType;
    var code, s := RepeatedOperand(), State(map[], Core(0, 0, [], world));
    var code' := FoldedOperand();
    RepeatedOperandLiveness();
    assert Splice(code, 0, 2, [WithImmediate(code[0], code[1])]) == code';
    RunsOfRepeatedOperand(vm, s);
    if Refines(vm, code, code', Loose({1})) {
      var m :| SameEnd(Run(vm, code, At(0, s), 4), Run(vm, code', At(0, s), m), Loose({1}));
      if m <= 3 {
        RunDone(vm, code', At(0, s), m, 3);
      } else {
        RunDone(vm, code', At(0, s), 3, m);
      }
      assert false;
    }
  }

  lemma RepeatedOperandLiveness()
    ensures LiveAt(RepeatedOperand(), 1, Var(1)) && !LiveAt(RepeatedOperand(), 2, Var(1))
  {
    hide LiveAt;
    var code := RepeatedOperand();
    LiveHere(code, 1, Var(1));
    if LiveAt(code, 2, Var(1)) {
      var j := LiveUnfold(code, 2, Var(1));
      var _ := LiveUnfold(code, 3, Var(1));
      assert false;
    }
  }

  lemma RunsOfRepeatedOperand(vm: VM, s: State)
    requires s.vars == map[] && vm.hasResult
    ensures var code, code' := RepeatedOperand(), FoldedOperand();
      && Run(vm, code, At(0, s), 4) == Returned(0, 10, s.core.obj, s.core.world)
      && Run(vm, code', At(0, s), 3) == Returned(0, 5, s.core.obj, s.core.world)
  {
    hide Exec, InfoType, Faults;
    var code, code' := RepeatedOperand(), FoldedOperand();
    BothExec(vm, code[0], code[1], s);
    var t, t' := Exec(vm, code[1], Exec(vm, code[0], s)), Exec(vm, code'[0], s);
    CalmSteps(vm, code, code', s, t, t');
    ExecRegister(vm, code[2], t);
    ExecRegister(vm, code[2], t');
    assert Run(vm, code, At(2, t), 2) == Returned(0, 10, s.core.obj, s.core.world);
    assert Run(vm, code', At(1, t'), 2) == Returned(0, 5, s.core.obj, s.core.world);
    assert Step(vm, code, 0, s) == At(1, Exec(vm, code[0], s));
  }

  function FoldedOperand(): seq<Ins> {
    var code := RepeatedOperand();
    [WithImmediate(code[0], code[1]), code[2], code[3]]
  }

  lemma CalmSteps(vm: VM, code: seq<Ins>, code': seq<Ins>, s: State, t: State, t': State)
    requires code == RepeatedOperand() && code' == FoldedOperand()
    ensures !Faults(vm, code[0], s) && !Faults(vm, code[1], Exec(vm, code[0], s)) && !Faults(vm, code[2], t)
    ensures !Faults(vm, code'[0], s) && !Faults(vm, code'[1], t')
  {
    hide Faults, Exec, InfoType;
    CalmNeverFaults(vm, code[0]);
    CalmNeverFaults(vm, code[1]);
    CalmNeverFaults(vm, code[2]);
    CalmNeverFaults(vm, code'[0]);
  }
}
