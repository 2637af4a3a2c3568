/** The rewrites of the optimizer ask for no value that was not asked for before, so they keep the
    discipline of the list. */
module DisciplineKept {
  import Op
  import opened Tables
  import opened Instructions
  import opened CodeLists
  import opened Machine
  import opened Liveness
  import opened Windows
  import opened Blocks
  import opened Discipline
  import opened UnusedValues
  import opened GlobalAccess

  // ----- windows of one and two instructions -----

  lemma SmallWindows(b: seq<Ins>, p: Place)
    ensures |b| == 0 ==> !ReadBy(b, p) && PassedBy(b, p)
    ensures |b| == 1 ==> (ReadBy(b, p) <==> Reads(b[0], p)) && (PassedBy(b, p) <==> Passes(b[0], p))
    ensures |b| == 2 ==>
      (ReadBy(b, p) <==> Reads(b[0], p) || (Passes(b[0], p) && Reads(b[1], p)))
    ensures |b| == 2 ==> (PassedBy(b, p) <==> Passes(b[0], p) && Passes(b[1], p))
  {
    hide Reads, Overwrites, ReadBy, PassedBy;
    PassedByNone(b, p);
    if |b| > 0 {
      ReadByFirst(b, p);
      PassedByNone(b[1..], p);
    }
    if |b| == 2 {
      ReadByFirst(b[1..], p);
      PassedByNone(b[1..][1..], p);
    }
  }

  lemma SmallSheds(code: seq<Ins>, k: nat, la: nat, put: seq<Ins>, temps: set<int>, hasResult: bool)
    requires 0 < la && k + la <= |code| && |put| <= 1
    requires forall p :: put != [] && Sheds(put[0], p, temps, hasResult) ==> DeadBeyond(code, k, la, p)
    ensures ShedsInside(code, k, la, put, temps, hasResult)
  {
    hide ReadBy, PassedBy, DeadBeyond, Sheds;
    forall m, p | 0 <= m < |put| && Sheds(put[m], p, temps, hasResult)
      ensures !ReadBy(put[m + 1..], p) && (PassedBy(put[m + 1..], p) ==> DeadBeyond(code, k, la, p))
    {
      assert put[m] == put[0];
      SmallWindows(put[m + 1..], p);
    }
  }

  /** One instruction replaced by at most one other. */
  lemma OneKeeps(code: seq<Ins>, k: nat, put: seq<Ins>, temps: set<int>, hasResult: bool)
    requires k < |code| && TablesClosed(code) && Disciplined(code, temps, hasResult) && Straight(code[k].op)
    requires |put| <= 1 && (put != [] ==> Straight(put[0].op))
    requires forall p :: put != [] && Reads(put[0], p) ==> Reads(code[k], p)
    requires forall p :: Counts(p, hasResult) && (put != [] ==> Passes(put[0], p)) ==>
      Reads(code[k], p) || Passes(code[k], p) || !LiveAt(code, k + 1, p)
    requires forall p :: put != [] && Sheds(put[0], p, temps, hasResult) ==> !LiveAt(code, k + 1, p)
    ensures Disciplined(Splice(code, k, 1, put), temps, hasResult)
  {
    hide Reads, Overwrites, ReadBy, PassedBy, Disciplined, Sheds, LiveAt, TablesClosed, Splice, InfoType, DeadBeyond;
    hide Passes;
    hide IsWindow;
    var a := code[k..k + 1];
    assert a == [code[k]];
    PlainOne(code, k, put);
    forall p | Counts(p, hasResult)
      ensures AsksNoMore(code, k, 1, put, p)
    {
      SmallWindows(a, p);
      SmallWindows(put, p);
    }
    SmallSheds(code, k, 1, put, temps, hasResult);
    SpliceKeepsDiscipline(code, k, 1, put, temps, hasResult);
  }

  lemma PlainOne(code: seq<Ins>, k: nat, put: seq<Ins>)
    requires k < |code| && TablesClosed(code) && Straight(code[k].op)
    requires |put| <= 1 && (put != [] ==> Straight(put[0].op))
    ensures SameExits(code, k, 1, put)
    ensures forall p :: !LiveAt(code, k + 1, p) ==> DeadBeyond(code, k, 1, p)
  {
    hide TablesClosed, LiveAt;
    assert code[k..k + 1] == [code[k]];
  }

  // A pair of instructions reads a place before it overwrites it.
  predicate PairReads(c: Ins, d: Ins, p: Place) {
    Reads(c, p) || (Passes(c, p) && Reads(d, p))
  }

  /** Two instructions replaced by at most one. */
  lemma TwoKeeps(code: seq<Ins>, k: nat, put: seq<Ins>, temps: set<int>, hasResult: bool)
    requires SameExits(code, k, 2, put) && Disciplined(code, temps, hasResult) && |put| <= 1
    requires forall p :: put != [] && Reads(put[0], p) ==> PairReads(code[k], code[k + 1], p)
    requires forall p :: Counts(p, hasResult) && (put != [] ==> Passes(put[0], p)) ==>
      || PairReads(code[k], code[k + 1], p)
      || (Passes(code[k], p) && Passes(code[k + 1], p))
      || DeadBeyond(code, k, 2, p)
    requires forall p :: put != [] && Sheds(put[0], p, temps, hasResult) ==> DeadBeyond(code, k, 2, p)
    ensures Disciplined(Splice(code, k, 2, put), temps, hasResult)
  {
    hide Reads, Overwrites, ReadBy, PassedBy, Disciplined, Sheds, LiveAt, TablesClosed, Splice, InfoType, DeadBeyond;
    hide Passes;
    hide IsWindow;
    var a := code[k..k + 2];
    assert a == [code[k], code[k + 1]];
    forall p | Counts(p, hasResult)
      ensures AsksNoMore(code, k, 2, put, p)
    {
      SmallWindows(a, p);
      SmallWindows(put, p);
    }
    SmallSheds(code, k, 2, put, temps, hasResult);
    SpliceKeepsDiscipline(code, k, 2, put, temps, hasResult);
  }

  lemma PlainPair(code: seq<Ins>, k: nat, put: seq<Ins>)
    requires k + 1 < |code| && TablesClosed(code) && Straight(code[k].op) && Straight(code[k + 1].op)
    requires |put| <= 1 && (put != [] ==> Straight(put[0].op))
    ensures SameExits(code, k, 2, put)
    ensures forall p :: !LiveAt(code, k + 2, p) ==> DeadBeyond(code, k, 2, p)
  {
    hide TablesClosed, LiveAt;
    assert code[k..k + 2] == [code[k], code[k + 1]];
  }

  // ----- what the instructions ask for and change -----

  // Calculations and comparisons, with two variables or with a constant.
  lemma CalculationUses(ins: Ins, p: Place)
    ensures IsArith(ins.op) ==> (Reads(ins, p) <==> p == Var(ins.w1) || p == Var(ins.w2))
    ensures IsArithImm(ins.op) ==> (Reads(ins, p) <==> p == Var(ins.w1))
    ensures IsArith(ins.op) || IsArithImm(ins.op) ==> (Overwrites(ins, p) <==> p == Var(ins.w0))
    ensures IsCompare(ins.op) ==> (Reads(ins, p) <==> p == Var(ins.w0) || p == Var(ins.w1))
    ensures IsCompareImm(ins.op) ==> (Reads(ins, p) <==> p == Var(ins.w0))
    ensures IsCompare(ins.op) || IsCompareImm(ins.op) ==> (Overwrites(ins, p) <==> !p.Var?)
  {
    hide InfoType;
    FragmentTypes(ins.op);
  }

  // Loads, which put a value into a variable.
  lemma LoadTypes()
    ensures InfoType(Op.SetV4) == wW_DW_ARG && InfoType(Op.SetV8) == wW_QW_ARG && InfoType(Op.RDR4) == wW_ARG
    ensures InfoType(Op.CpyGtoV4) == wW_PTR_ARG && InfoType(Op.LdGRdR4) == wW_PTR_ARG
    ensures InfoType(Op.CpyRtoV4) == wW_ARG && InfoType(Op.CpyVtoV4) == wW_rW_ARG
  {
    hide InfoType;
    ConstantLoadTypes();
    CopyTypes();
  }

  lemma ConstantLoadTypes()
    ensures InfoType(Op.SetV4) == wW_DW_ARG && InfoType(Op.SetV8) == wW_QW_ARG && InfoType(Op.RDR4) == wW_ARG
    ensures InfoType(Op.CpyRtoV4) == wW_ARG
  {
  }

  lemma CopyTypes()
    ensures InfoType(Op.CpyGtoV4) == wW_PTR_ARG && InfoType(Op.LdGRdR4) == wW_PTR_ARG
    ensures InfoType(Op.CpyVtoV4) == wW_rW_ARG
  {
  }

  lemma LoadUse(ins: Ins, p: Place)
    requires ins.op in {Op.SetV4, Op.SetV8, Op.CpyGtoV4, Op.LdGRdR4, Op.CpyRtoV4, Op.CpyVtoV4, Op.RDR4}
    ensures Reads(ins, p) <==>
      || (ins.op == Op.CpyRtoV4 && !p.Var?) || (ins.op == Op.RDR4 && p == Register)
      || (ins.op == Op.CpyVtoV4 && p == Var(ins.w1))
    ensures Overwrites(ins, p) <==> p == Var(ins.w0) || (ins.op == Op.LdGRdR4 && !p.Var?)
  {
    hide InfoType;
    LoadTypes();
  }

  // Instructions that take a value from a variable, or from nowhere, and put it elsewhere.
  lemma TakeTypes()
    ensures InfoType(Op.PshV4) == rW_ARG && InfoType(Op.PshV8) == rW_ARG && InfoType(Op.CpyVtoR4) == rW_ARG
    ensures InfoType(Op.CpyVtoG4) == rW_PTR_ARG && InfoType(Op.WRTV4) == rW_ARG
  {
  }

  lemma ConstantTypes()
    ensures InfoType(Op.PshC4) == DW_ARG && InfoType(Op.PshC8) == QW_ARG && InfoType(Op.PshG4) == PTR_ARG
    ensures InfoType(Op.LDG) == PTR_ARG && InfoType(Op.SetG4) == PTR_DW_ARG
  {
  }

  lemma StoreUse(ins: Ins, p: Place)
    requires ins.op in {Op.PshV4, Op.PshV8, Op.CpyVtoG4, Op.CpyVtoR4, Op.WRTV4}
    ensures Reads(ins, p) <==> p == Var(ins.w0) || (ins.op == Op.WRTV4 && p == Register)
    ensures Overwrites(ins, p) <==> ins.op == Op.CpyVtoR4 && !p.Var?
  {
    hide InfoType;
    TakeTypes();
  }

  lemma ConstantUse(ins: Ins, p: Place)
    requires ins.op in {Op.PshC4, Op.PshC8, Op.PshG4, Op.SetG4, Op.LDG}
    ensures !Reads(ins, p)
    ensures Overwrites(ins, p) <==> ins.op == Op.LDG && !p.Var?
  {
    hide InfoType;
    ConstantTypes();
  }

  lemma RegisterTypes(op: int)
    ensures IsTest(op) || op == Op.ClrHi ==> InfoType(op) == NO_ARG
    ensures IsCondJump(op) ==> InfoType(op) == DW_ARG
  {
  }

  lemma TestUse(ins: Ins, p: Place)
    requires IsTest(ins.op) || ins.op == Op.ClrHi || IsCondJump(ins.op)
    ensures Reads(ins, p) <==> p == Register && ins.op != Op.ClrHi
    ensures Overwrites(ins, p) <==> IsTest(ins.op) && !p.Var?
  {
    hide InfoType;
    RegisterTypes(ins.op);
  }

  // Nothing of this sheds anything.
  lemma ShedsNothing(ins: Ins, p: Place, temps: set<int>, hasResult: bool)
    requires Straight(ins.op) && ins.op != Op.SUSPEND && !AccessesThrough(ins.op)
    ensures !Sheds(ins, p, temps, hasResult)
  {
  }

  // ----- unused values -----

  lemma DeadStoreKeeps(code: seq<Ins>, k: nat, temps: set<int>, hasResult: bool)
    requires k < |code| && TablesClosed(code) && Disciplined(code, temps, hasResult) && DeadStore(code, k, temps)
    ensures Disciplined(Apply(code, Unused(code, k, temps)), temps, hasResult)
  {
    hide LiveAt, TablesClosed, InfoType, Disciplined, RegUsedAfter, Splice;
    var c, put := code[k], Unused(code, k, temps).put;
    OnlyWritesStraight(c);
    if c.op == Op.LdGRdR4 {
      AddressNotKept(code, k, temps, hasResult);
      if !RegUsedAfter(code, k) {
        RegisterUnused(code, k, temps, hasResult);
      }
    }
    forall p
      ensures put != [] ==> !Reads(put[0], p) && !Sheds(put[0], p, temps, hasResult)
      ensures Counts(p, hasResult) && (put != [] ==> Passes(put[0], p)) ==>
        Reads(c, p) || Passes(c, p) || !LiveAt(code, k + 1, p)
    {
      WriteUse(c, p);
      if put != [] {
        ConstantUse(put[0], p);
      }
    }
    OneKeeps(code, k, put, temps, hasResult);
  }

  lemma WriteUse(ins: Ins, p: Place)
    requires OnlyWrites(InfoType(ins.op))
    ensures Overwrites(ins, p) <==> p == Var(ins.w0) || (ins.op == Op.LdGRdR4 && !p.Var?)
  {
    hide InfoType;
    WriteTypes(ins.op);
  }

  lemma WriteTypes(op: int)
    ensures OnlyWrites(InfoType(op)) && op != Op.LdGRdR4 ==> !GivesReg(op) && op != Op.SUSPEND && op != Op.RET
    ensures OnlyWrites(InfoType(Op.LdGRdR4)) ==> GivesReg(Op.LdGRdR4)
  {
  }

  // The instruction `n` asks for what `c` and `d` ask for, and changes what they change, but for `x`.
  ghost predicate StandsFor(c: Ins, d: Ins, n: Ins, x: int) {
    forall p :: StandsForAt(c, d, n, x, p)
  }

  predicate StandsForAt(c: Ins, d: Ins, n: Ins, x: int, p: Place) {
    && (Reads(n, p) ==> PairReads(c, d, p))
    && (Passes(n, p) && p != Var(x) ==> PairReads(c, d, p) || (Passes(c, p) && Passes(d, p)))
  }

  lemma PairKeeps(code: seq<Ins>, k: nat, n: Ins, temps: set<int>, hasResult: bool)
    requires k + 1 < |code| && TablesClosed(code) && Disciplined(code, temps, hasResult)
    requires Straight(code[k].op) && Straight(code[k + 1].op) && Straight(n.op)
    requires n.op != Op.SUSPEND && !AccessesThrough(n.op)
    requires StandsFor(code[k], code[k + 1], n, code[k].w0)
    requires !LiveAt(code, k + 2, Var(code[k].w0)) || Overwrites(n, Var(code[k].w0))
    ensures Disciplined(Splice(code, k, 2, [n]), temps, hasResult)
  {
    hide LiveAt, TablesClosed, InfoType, Disciplined, Splice, Reads, Overwrites, PairReads, Straight, SameExits;
    hide DeadBeyond, Sheds;
    PlainPair(code, k, [n]);
    var c, d := code[k], code[k + 1];
    forall p
      ensures Reads(n, p) ==> PairReads(c, d, p)
      ensures Passes(n, p) ==> PairReads(c, d, p) || (Passes(c, p) && Passes(d, p)) || DeadBeyond(code, k, 2, p)
      ensures !Sheds(n, p, temps, hasResult)
    {
      ShedsNothing(n, p, temps, hasResult);
      assert StandsForAt(c, d, n, c.w0, p);
    }
    TwoKeeps(code, k, [n], temps, hasResult);
  }

  lemma FoldedCompare(c: Ins, d: Ins)
    requires c.op == Op.SetV4 && IsCompare(d.op) && d.w1 == c.w0 && d.w0 != d.w1
    ensures StandsFor(c, d, WithImmediate(c, d), c.w0) && Straight(d.op) && Straight(WithImmediate(c, d).op)
  {
    hide InfoType, Reads, Overwrites;
    forall p
      ensures StandsForAt(c, d, WithImmediate(c, d), c.w0, p)
    {
      LoadUse(c, p);
      CalculationUses(d, p);
      CalculationUses(WithImmediate(c, d), p);
    }
  }

  lemma FoldedArith(c: Ins, d: Ins, n: Ins)
    requires c.op == Op.SetV4 && IsArith(d.op) && d.w1 != d.w2 && IsArithImm(n.op) && n.w0 == d.w0
    requires (d.w2 == c.w0 && n.w1 == d.w1) || (d.w1 == c.w0 && n.w1 == d.w2)
    ensures StandsFor(c, d, n, c.w0) && Straight(d.op) && Straight(n.op)
    ensures Overwrites(n, Var(d.w0))
  {
    hide InfoType, Reads, Overwrites;
    CalculationUses(n, Var(d.w0));
    forall p
      ensures StandsForAt(c, d, n, c.w0, p)
    {
      LoadUse(c, p);
      CalculationUses(d, p);
      CalculationUses(n, p);
    }
  }

  lemma LoadedThrough(c: Ins, d: Ins, n: Ins)
    requires c.op in {Op.SetV4, Op.SetV8, Op.CpyGtoV4} && d.op in {Op.PshV4, Op.PshV8, Op.CpyVtoG4} && d.w0 == c.w0
    requires n.op in {Op.PshC4, Op.PshC8, Op.PshG4, Op.SetG4}
    ensures StandsFor(c, d, n, c.w0)
  {
    hide InfoType, Reads, Overwrites;
    forall p
      ensures StandsForAt(c, d, n, c.w0, p)
    {
      LoadUse(c, p);
      StoreUse(d, p);
      ConstantUse(n, p);
    }
  }

  // An instruction reads the same wherever it puts its result.
  lemma ResultMoved(c: Ins, y: int, p: Place)
    requires c.op == Op.SetV4 || InfoType(c.op) in {wW_rW_rW_ARG, wW_rW_DW_ARG}
    ensures Reads(c.(w0 := y), p) <==> Reads(c, p)
    ensures Overwrites(c, p) <==> p == Var(c.w0)
    ensures Overwrites(c.(w0 := y), p) <==> p == Var(y)
  {
    hide InfoType;
    LoadTypes();
    ResultTypes(c.op);
  }

  lemma ResultTypes(op: int)
    ensures InfoType(op) in {wW_rW_rW_ARG, wW_rW_DW_ARG} ==>
      && !GivesReg(op) && Straight(op)
      && op !in {Op.SUSPEND, Op.RET, Op.FREE, Op.LoadThisR, Op.CpyRtoV4} && !AccessesThrough(op)
  {
  }

  lemma CopiedThrough(c: Ins, d: Ins)
    requires c.op == Op.SetV4 || InfoType(c.op) in {wW_rW_rW_ARG, wW_rW_DW_ARG}
    requires d.op == Op.CpyVtoV4 && d.w1 == c.w0
    ensures StandsFor(c, d, c.(w0 := d.w0), c.w0)
  {
    hide InfoType, Reads, Overwrites;
    forall p
      ensures StandsForAt(c, d, c.(w0 := d.w0), c.w0, p)
    {
      ResultMoved(c, d.w0, p);
      LoadUse(d, p);
    }
  }

  lemma FoldKeeps(code: seq<Ins>, k: nat, temps: set<int>, hasResult: bool)
    requires k + 1 < |code| && TablesClosed(code) && Disciplined(code, temps, hasResult) && code[k].op == Op.SetV4
    requires !Repeats(code[k + 1], code[k].w0, temps)
    ensures Disciplined(Apply(code, FoldConstant(code, k, temps)), temps, hasResult)
  {
    hide LiveAt, TablesClosed, InfoType, Disciplined, Splice, Reads, Overwrites, StandsFor;
    var w := FoldConstant(code, k, temps);
    if w.Replace? {
      var c, d, n := code[k], code[k + 1], w.put[0];
      if IsCompare(d.op) {
        FoldedCompare(c, d);
      } else if IsArith(d.op) {
        FoldedArith(c, d, n);
      } else if d.op == Op.CpyVtoV4 {
        CopiedThrough(c, d);
      } else {
        LoadedThrough(c, d, n);
      }
      PairKeeps(code, k, n, temps, hasResult);
    }
  }

  // A value copied out of the register and straight back.
  lemma RoundTripKeeps(code: seq<Ins>, k: nat, temps: set<int>, hasResult: bool)
    requires k + 1 < |code| && TablesClosed(code) && Disciplined(code, temps, hasResult)
    requires code[k].op == Op.CpyRtoV4 && code[k + 1].op == Op.CpyVtoR4 && code[k + 1].w0 == code[k].w0
    requires !LiveAt(code, k + 2, Var(code[k].w0))
    ensures Disciplined(Splice(code, k, 2, []), temps, hasResult)
  {
    hide LiveAt, TablesClosed, InfoType, Disciplined, Splice, Reads, Overwrites, SameExits, DeadBeyond, Sheds;
    var c, d := code[k], code[k + 1];
    PlainPair(code, k, []);
    forall p
      ensures PairReads(c, d, p) || (Passes(c, p) && Passes(d, p)) || DeadBeyond(code, k, 2, p)
    {
      LoadUse(c, p);
      StoreUse(d, p);
    }
    TwoKeeps(code, k, [], temps, hasResult);
  }

  lemma JoinKeeps(code: seq<Ins>, k: nat, temps: set<int>, hasResult: bool)
    requires k + 1 < |code| && TablesClosed(code) && Disciplined(code, temps, hasResult)
    ensures Disciplined(Apply(code, JoinPair(code, k, temps)), temps, hasResult)
  {
    hide LiveAt, TablesClosed, InfoType, Disciplined, Splice, Reads, Overwrites, StandsFor;
    var w := JoinPair(code, k, temps);
    if w.Replace? {
      var c, d := code[k], code[k + 1];
      if InfoType(c.op) in {wW_rW_rW_ARG, wW_rW_DW_ARG} && d.op == Op.CpyVtoV4 {
        ResultTypes(c.op);
        CopiedThrough(c, d);
        PairKeeps(code, k, w.put[0], temps, hasResult);
      } else if c.op == Op.CpyRtoV4 {
        RoundTripKeeps(code, k, temps, hasResult);
      } else {
        LoadedThrough(c, d, w.put[0]);
        PairKeeps(code, k, w.put[0], temps, hasResult);
      }
    }
  }

  /** `RemoveUnusedValue` keeps a list disciplined, provided it folds no constant that is used twice. */
  lemma UnusedKeepsDiscipline(vm: VM, code: seq<Ins>, k: nat, temps: set<int>)
    requires k < |code| && TablesClosed(code) && Disciplined(code, temps, vm.hasResult) && Sound(vm, code, k, temps)
    ensures Disciplined(Apply(code, Unused(code, k, temps)), temps, vm.hasResult)
  {
    hide LiveAt, TablesClosed, InfoType, Disciplined, Splice, DeadStore, FoldConstant, JoinPair;
    if DeadStore(code, k, temps) {
      DeadStoreKeeps(code, k, temps, vm.hasResult);
    } else if k + 1 < |code| {
      if code[k].op == Op.SetV4 {
        FoldKeeps(code, k, temps, vm.hasResult);
      } else {
        JoinKeeps(code, k, temps, vm.hasResult);
      }
    }
  }

  // ----- jumps and accesses through the register -----

  lemma FusedSameExits(code: seq<Ins>, k: nat, op: int)
    requires k + 1 < |code| && TablesClosed(code) && Straight(code[k].op) && IsCondJump(code[k + 1].op)
    requires IsCondJump(op)
    ensures SameExits(code, k, 2, [code[k + 1].(op := op)])
  {
    hide TablesClosed;
    assert code[k..k + 2] == [code[k], code[k + 1]];
  }

  lemma ConditionalJumpSheds(code: seq<Ins>, k: nat, p: Place, temps: set<int>, hasResult: bool)
    requires k + 1 < |code| && IsCondJump(code[k + 1].op) && Disciplined(code, temps, hasResult)
    requires Counts(p, hasResult) && !p.Var?
    ensures DeadBeyond(code, k, 2, p)
  {
    hide LiveAt, Target;
    forall j: nat | LeavesFor(code, k, 2, j)
      ensures !LiveAt(code, j, p)
    {
      assert Flow(code, k + 1, j) && Sheds(code[k + 1], p, temps, hasResult);
    }
  }

  /** A jump that stands for a test, or ClrHi, and a jump. */
  lemma FusedJumpKeeps(code: seq<Ins>, k: nat, op: int, temps: set<int>, hasResult: bool)
    requires k + 1 < |code| && TablesClosed(code) && Disciplined(code, temps, hasResult)
    requires (IsTest(code[k].op) || code[k].op == Op.ClrHi) && IsCondJump(code[k + 1].op) && IsCondJump(op)
    ensures Disciplined(Splice(code, k, 2, [code[k + 1].(op := op)]), temps, hasResult)
  {
    hide LiveAt, TablesClosed, InfoType, Disciplined, Splice, Reads, Overwrites, SameExits, DeadBeyond, Sheds;
    var c, d, n := code[k], code[k + 1], code[k + 1].(op := op);
    FusedSameExits(code, k, op);
    forall p
      ensures Reads(n, p) ==> PairReads(c, d, p)
      ensures Counts(p, hasResult) && Passes(n, p) ==>
        PairReads(c, d, p) || (Passes(c, p) && Passes(d, p)) || DeadBeyond(code, k, 2, p)
      ensures Sheds(n, p, temps, hasResult) ==> DeadBeyond(code, k, 2, p)
    {
      TestUse(c, p);
      TestUse(d, p);
      TestUse(n, p);
      JumpShedsOnly(n, p, temps, hasResult);
      if Counts(p, hasResult) && !p.Var? {
        ConditionalJumpSheds(code, k, p, temps, hasResult);
      }
    }
    TwoKeeps(code, k, [n], temps, hasResult);
  }

  lemma JumpShedsOnly(n: Ins, p: Place, temps: set<int>, hasResult: bool)
    requires IsCondJump(n.op)
    ensures Sheds(n, p, temps, hasResult) ==> Counts(p, hasResult) && !p.Var?
  {
  }

  // T??, ClrHi -> T??
  lemma ClearKeeps(code: seq<Ins>, k: nat, temps: set<int>, hasResult: bool)
    requires k < |code| && TablesClosed(code) && Disciplined(code, temps, hasResult) && code[k].op == Op.ClrHi
    ensures Disciplined(Splice(code, k, 1, []), temps, hasResult)
  {
    hide LiveAt, TablesClosed, InfoType, Disciplined, Splice, Reads, Overwrites;
    forall p
      ensures Passes(code[k], p)
    {
      TestUse(code[k], p);
    }
    OneKeeps(code, k, [], temps, hasResult);
  }

  /** Direct access to a global instead of access through the register. */
  lemma AccessKeeps(code: seq<Ins>, k: nat, op: int, temps: set<int>, hasResult: bool)
    requires k + 1 < |code| && TablesClosed(code) && Disciplined(code, temps, hasResult) && code[k].op == Op.LDG
    requires || (code[k + 1].op == Op.WRTV4 && op == Op.CpyVtoG4)
             || (code[k + 1].op == Op.RDR4 && op in {Op.CpyGtoV4, Op.LdGRdR4})
    requires op == Op.LdGRdR4 || !RegUsedAfter(code, k + 1)
    ensures Disciplined(Splice(code, k, 2, [DirectAccess(code[k], code[k + 1], op)]), temps, hasResult)
  {
    hide LiveAt, TablesClosed, InfoType, Disciplined, Splice, Reads, Overwrites, SameExits, DeadBeyond, RegUsedAfter;
    var c, d, n := code[k], code[k + 1], DirectAccess(code[k], code[k + 1], op);
    PlainPair(code, k, [n]);
    AddressNotKept(code, k + 1, temps, hasResult);
    if op != Op.LdGRdR4 {
      RegisterUnused(code, k + 1, temps, hasResult);
    }
    forall p
      ensures Reads(n, p) ==> PairReads(c, d, p)
      ensures Counts(p, hasResult) && Passes(n, p) ==>
        PairReads(c, d, p) || (Passes(c, p) && Passes(d, p)) || DeadBeyond(code, k, 2, p)
      ensures Sheds(n, p, temps, hasResult) ==> DeadBeyond(code, k, 2, p)
    {
      ConstantUse(c, p);
      AccessUse(d, n, p);
    }
    TwoKeeps(code, k, [n], temps, hasResult);
  }

  lemma AccessUse(d: Ins, n: Ins, p: Place)
    requires n.w0 == d.w0
    requires (d.op == Op.WRTV4 && n.op == Op.CpyVtoG4) || (d.op == Op.RDR4 && n.op in {Op.CpyGtoV4, Op.LdGRdR4})
    ensures Reads(n, p) ==> p.Var? && Reads(d, p)
    ensures Overwrites(n, p) <==> Overwrites(d, p) || (n.op == Op.LdGRdR4 && !p.Var?)
  {
    hide InfoType, Reads, Overwrites;
    if d.op == Op.WRTV4 {
      StoreUse(d, p);
      StoreUse(n, p);
    } else {
      LoadUse(d, p);
      LoadUse(n, p);
    }
  }
}
