/** `RemoveUnusedValue` and `PostponeInitOfTemp` keep what every local rewrite keeps. */
module UnusedKept {
  import Op
  import opened Tables
  import opened Instructions
  import opened Machine
  import opened Liveness
  import opened Blocks
  import opened Discipline
  import opened UnusedValues
  import opened Postponement
  import opened Skeletons
  import opened DepthKept
  import opened Layout
  import opened Peephole

  lemma OnlyWritesPlain(op: int)
    ensures OnlyWrites(InfoType(op)) ==>
      !IsMark(op) && InfoStackInc(op) == 0 && 0 <= op < Op.MAXBYTECODE && !VariableStackInc(op)
  {
  }

  // What the tables say about the instructions that fold or join.
  lemma FoldTypes(op: int)
    ensures IsCompare(op) || IsArith(op) ==>
      !IsMark(op) && InfoStackInc(op) == 0 && TypeSize(InfoType(op)) == 2 && !VariableStackInc(op)
    ensures IsCompareImm(op) ==>
      TypeSize(InfoType(op)) == 2 && InfoStackInc(op) == 0 && !VariableStackInc(op) && !IsMark(op)
    ensures IsArithImm(op) ==>
      TypeSize(InfoType(op)) == 3 && InfoStackInc(op) == 0 && !VariableStackInc(op) && !IsMark(op)
  {
  }

  lemma WithImmediateConforms(c: Ins, d: Ins)
    requires (IsCompare(d.op) || IsArith(d.op)) && Conforms(d)
    ensures var n := WithImmediate(c, d); Conforms(n) && !IsMark(n.op) && n.stackInc == d.stackInc == 0 && !IsMark(d.op)
    ensures var n := WithImmediate(c, d); Conforms(n.(w1 := d.w2)) && n.op != Op.TryBlock
  {
    hide InfoType, InfoStackInc;
    FoldTypes(d.op);
    FoldTypes(WithImmediate(c, d).op);
    FoldTypes(Op.CMPIi);
    FoldTypes(Op.ADDIi);
  }

  // Both instructions of a pair replaced by one with their joint effect.
  lemma PairRewrote(code: seq<Ins>, k: nat, n: Ins)
    requires Good(code) && k + 1 < |code| && Conforms(n) && !IsMark(n.op)
    requires !IsMark(code[k].op) && !IsMark(code[k + 1].op) && n.stackInc == code[k].stackInc + code[k + 1].stackInc
    requires Fuses([code[k], code[k + 1]], n) && n.op != Op.TryBlock
    ensures Progress(code, Splice(code, k, 2, [n]))
  {
    hide Good, Progress, Conforms, IsMark, Splice, Fuses, Slimmer;
    assert code[k..k + 2] == [code[k], code[k + 1]];
    FusesIsSlimmer([code[k], code[k + 1]], n);
    Rewrote(code, k, 2, [n]);
  }

  // ----- sizes and fields -----

  lemma FuseTypes()
    ensures InfoType(Op.SetV4) == wW_DW_ARG && InfoType(Op.PshC4) == DW_ARG
    ensures InfoType(Op.SetG4) == PTR_DW_ARG && InfoType(Op.CpyVtoG4) == rW_PTR_ARG
  {
  }

  lemma Halves16(n: int)
    ensures Signed16(Signed16(n)) == Signed16(n)
  {
  }

  // From the sizes and fields of two instructions to those of the one that takes their place.
  lemma PairFuses(c: Ins, d: Ins, n: Ins)
    requires forall noLineCues: bool :: Sized(c, noLineCues) && Sized(d, noLineCues) && InRange(c) && InRange(d) ==>
      Sized(n, noLineCues) && InRange(n) && n.size <= c.size + d.size
    ensures Fuses([c, d], n)
  {
    hide Sized, InRange;
    Sizes([c, d]);
    forall noLineCues: bool | PartWritable([c, d], noLineCues)
      ensures Sized(n, noLineCues) && InRange(n) && n.size <= c.size + d.size
    {
      assert [c, d][0] == c && [c, d][1] == d;
    }
  }

  lemma CalculationSizes(op: int)
    ensures IsCompare(op) || IsArith(op) ==> TypeSize(InfoType(op)) == 2 && op < Op.MAXBYTECODE
    ensures IsCompareImm(op) ==> TypeSize(InfoType(op)) == 2 && 0 <= op < Op.MAXBYTECODE
    ensures IsArithImm(op) ==> TypeSize(InfoType(op)) == 3 && 0 <= op < Op.MAXBYTECODE
  {
    hide InfoType;
    FoldTypes(op);
  }

  lemma FoldFuses(c: Ins, d: Ins)
    requires c.op == Op.SetV4 && (IsCompare(d.op) || IsArith(d.op))
    ensures Fuses([c, d], WithImmediate(c, d)) && Fuses([c, d], WithImmediate(c, d).(w1 := d.w2))
  {
    hide InfoType, Signed16, Signed32;
    FuseTypes();
    CalculationSizes(d.op);
    CalculationSizes(WithImmediate(c, d).op);
    CalculationSizes(Op.CMPIi);
    CalculationSizes(Op.ADDIi);
    PairFuses(c, d, WithImmediate(c, d));
    PairFuses(c, d, WithImmediate(c, d).(w1 := d.w2));
  }

  lemma LoadPairFuses(c: Ins, d: Ins)
    requires c.op == Op.SetV4 && d.op in {Op.CpyVtoV4, Op.PshV4, Op.CpyVtoG4}
    ensures d.op == Op.CpyVtoV4 ==> Fuses([c, d], c.(w0 := d.w0))
    ensures d.op == Op.PshV4 ==> Fuses([c, d], c.(op := Op.PshC4, stackInc := InfoStackInc(Op.PshC4)))
    ensures d.op == Op.CpyVtoG4 ==> Fuses([c, d], SetGlobal(c, d))
  {
    hide InfoType, InfoStackInc, Signed16, Signed32;
    FuseTypes();
    if d.op == Op.CpyVtoV4 {
      PairFuses(c, d, c.(w0 := d.w0));
    } else if d.op == Op.PshV4 {
      PairFuses(c, d, c.(op := Op.PshC4, stackInc := InfoStackInc(Op.PshC4)));
    } else {
      Halves16(c.a0);
      Halves16(c.a0 / 0x1_0000);
      PairFuses(c, d, SetGlobal(c, d));
    }
  }

  lemma JoinFuses(c: Ins, d: Ins)
    ensures InfoType(c.op) in {wW_rW_rW_ARG, wW_rW_DW_ARG} && d.op == Op.CpyVtoV4 ==> Fuses([c, d], c.(w0 := d.w0))
    ensures c.op == Op.CpyGtoV4 && d.op == Op.PshV4 ==>
      Fuses([c, d], c.(op := Op.PshG4, size := TypeSize(InfoType(Op.PshG4)), stackInc := InfoStackInc(Op.PshG4)))
    ensures c.op == Op.SetV8 && d.op == Op.PshV8 ==>
      Fuses([c, d], c.(op := Op.PshC8, stackInc := InfoStackInc(Op.PshC8)))
  {
    hide InfoType, InfoStackInc, Signed16, Signed32;
    JoinTypes(c.op);
    if InfoType(c.op) in {wW_rW_rW_ARG, wW_rW_DW_ARG} && d.op == Op.CpyVtoV4 {
      DirectivesHaveNoType(c.op);
      PairFuses(c, d, c.(w0 := d.w0));
    }
    if c.op == Op.CpyGtoV4 && d.op == Op.PshV4 {
      PairFuses(c, d, c.(op := Op.PshG4, size := TypeSize(InfoType(Op.PshG4)), stackInc := InfoStackInc(Op.PshG4)));
    }
    if c.op == Op.SetV8 && d.op == Op.PshV8 {
      PairFuses(c, d, c.(op := Op.PshC8, stackInc := InfoStackInc(Op.PshC8)));
    }
  }

  lemma DirectivesHaveNoType(op: int)
    ensures op == Op.LINE || op == Op.TryBlock ==> InfoType(op) == if op == Op.TryBlock then DW_ARG else INFO
    ensures InfoType(op) in {wW_rW_rW_ARG, wW_rW_DW_ARG} ==> 0 <= op < Op.MAXBYTECODE
  {
  }

  lemma FoldKept(code: seq<Ins>, k: nat, temps: set<int>)
    requires Good(code) && k + 1 < |code| && code[k].op == Op.SetV4
    ensures var w := FoldConstant(code, k, temps); w.Replace? ==> Progress(code, Apply(code, w))
  {
    hide Good, Progress, InfoType, InfoStackInc, LastUse, Splice, WithImmediate, SetGlobal;
    var c, d, w := code[k], code[k + 1], FoldConstant(code, k, temps);
    ConformAt(code, k);
    ConformAt(code, k + 1);
    if w.Replace? {
      OnlyWritesPlain(Op.SetV4);
      SetV4Plain();
      if IsCompare(d.op) || IsArith(d.op) {
        WithImmediateConforms(c, d);
        FoldFuses(c, d);
      } else {
        LoadPairConforms(c, d);
        LoadPairFuses(c, d);
      }
      PairRewrote(code, k, w.put[0]);
    }
  }

  lemma SetV4Plain()
    ensures OnlyWrites(InfoType(Op.SetV4))
  {
  }

  // A constant that is copied, pushed or stored, and the instruction that does both at once.
  lemma LoadPairConforms(c: Ins, d: Ins)
    requires c.op == Op.SetV4 && Conforms(c) && Conforms(d) && d.op in {Op.CpyVtoV4, Op.PshV4, Op.CpyVtoG4}
    ensures !IsMark(d.op) && c.stackInc == 0
    ensures d.op == Op.CpyVtoV4 ==> d.stackInc == 0 && Conforms(c.(w0 := d.w0))
    ensures var n := c.(op := Op.PshC4, stackInc := InfoStackInc(Op.PshC4));
      d.op == Op.PshV4 ==> Conforms(n) && n.stackInc == d.stackInc && !IsMark(n.op)
    ensures var n := SetGlobal(c, d);
      d.op == Op.CpyVtoG4 ==> Conforms(n) && n.stackInc == d.stackInc && !IsMark(n.op) && n.op != Op.TryBlock
  {
  }

  lemma JoinKept(code: seq<Ins>, k: nat, temps: set<int>)
    requires Good(code) && k + 1 < |code|
    ensures var w := JoinPair(code, k, temps); w.Replace? ==> Progress(code, Apply(code, w))
  {
    hide Good, Progress, InfoType, InfoStackInc, LastUse, Splice, Conforms;
    var c, d, w := code[k], code[k + 1], JoinPair(code, k, temps);
    ConformAt(code, k);
    ConformAt(code, k + 1);
    if w.Replace? {
      OnlyWritesPlain(c.op);
      JoinConforms(c, d);
      JoinFuses(c, d);
      if w.put == [] {
        assert AllConform([]);
        NothingIsSlimmer(code[k..k + 2]);
        Rewrote(code, k, 2, []);
      } else {
        PairRewrote(code, k, w.put[0]);
      }
    }
  }

  lemma JoinConforms(c: Ins, d: Ins)
    requires Conforms(c) && Conforms(d)
    ensures InfoType(c.op) in {wW_rW_rW_ARG, wW_rW_DW_ARG} && d.op == Op.CpyVtoV4 ==>
      !IsMark(c.op) && !IsMark(d.op) && d.stackInc == 0 && Conforms(c.(w0 := d.w0))
    ensures c.op == Op.CpyRtoV4 && d.op == Op.CpyVtoR4 ==> c.stackInc == d.stackInc == 0
    ensures c.op == Op.CpyGtoV4 && d.op == Op.PshV4 ==>
      var n := c.(op := Op.PshG4, size := TypeSize(InfoType(Op.PshG4)), stackInc := InfoStackInc(Op.PshG4));
      Conforms(n) && n.stackInc == c.stackInc + d.stackInc
    ensures c.op == Op.SetV8 && d.op == Op.PshV8 ==>
      var n := c.(op := Op.PshC8, stackInc := InfoStackInc(Op.PshC8));
      Conforms(n) && n.stackInc == c.stackInc + d.stackInc
  {
    hide InfoType;
    JoinTypes(c.op);
  }

  lemma JoinTypes(op: int)
    ensures InfoType(op) in {wW_rW_rW_ARG, wW_rW_DW_ARG} ==> !IsMark(op)
    ensures InfoType(Op.CpyVtoV4) == wW_rW_ARG
    ensures InfoType(Op.CpyGtoV4) == wW_PTR_ARG && InfoType(Op.PshG4) == PTR_ARG
    ensures InfoType(Op.SetV8) == wW_QW_ARG && InfoType(Op.PshC8) == QW_ARG
  {
  }

  /** `RemoveUnusedValue` makes progress, and shortens the list unless it strips an LdGRdR4. */
  lemma UnusedProgress(code: seq<Ins>, k: nat, temps: set<int>)
    requires Good(code) && k < |code|
    ensures var w := Unused(code, k, temps);
      w.Replace? ==> Progress(code, Apply(code, w)) && (code[k].op != Op.LdGRdR4 ==> |w.put| < w.len)
  {
    hide Good, Progress, InfoType, InfoStackInc, LastUse, Splice, Conforms, FoldConstant, JoinPair, RegUsedAfter;
    var w := Unused(code, k, temps);
    ConformAt(code, k);
    if DeadStore(code, k, temps) {
      OnlyWritesPlain(code[k].op);
      if w.put == [] {
        assert AllConform([]);
        PlainIncrement(code[k]);
        NothingIsSlimmer(code[k..k + 1]);
        Rewrote(code, k, 1, []);
      } else {
        StripKept(code, k);
      }
    } else if k + 1 < |code| {
      if code[k].op == Op.SetV4 {
        FoldKept(code, k, temps);
        FoldShrinks(code, k, temps);
      } else {
        JoinKept(code, k, temps);
        FoldShrinks(code, k, temps);
      }
    }
  }

  lemma FoldShrinks(code: seq<Ins>, k: nat, temps: set<int>)
    requires k + 1 < |code|
    ensures var w := FoldConstant(code, k, temps); w.Replace? ==> |w.put| < w.len
    ensures JoinPair(code, k, temps).Replace? ==> |JoinPair(code, k, temps).put| < JoinPair(code, k, temps).len
  {
    hide InfoType, LastUse;
  }

  lemma PlainIncrement(ins: Ins)
    requires Conforms(ins) && 0 <= ins.op < Op.MAXBYTECODE && InfoStackInc(ins.op) == 0 && !VariableStackInc(ins.op)
    ensures ins.stackInc == 0
  {
    hide InfoType, InfoStackInc;
  }

  lemma StripKept(code: seq<Ins>, k: nat)
    requires Good(code) && k < |code| && code[k].op == Op.LdGRdR4
    ensures Progress(code, Splice(code, k, 1, [code[k].(op := Op.LDG)]))
  {
    hide Good, InfoType, Skeleton, Smaller;
    var n := code[k].(op := Op.LDG);
    ConformAt(code, k);
    StripConforms(code[k]);
    Shapes(code[k..k + 1]);
    Shapes([n]);
    assert code[k..k + 1] == [code[k]];
    StripSlimmer(code[k]);
    NoForksKept(code[k..k + 1], [n]);
    WindowKept(code, k, 1, [n]);
    OneLowers(code, k, n);
  }

  lemma StripSlimmer(c: Ins)
    requires c.op == Op.LdGRdR4
    ensures Slimmer([c], [c.(op := Op.LDG)])
  {
    hide InfoType, Signed16, Signed32;
    StripTypes();
    forall noLineCues: bool | PartWritable([c], noLineCues)
      ensures PartWritable([c.(op := Op.LDG)], noLineCues) && Size([c.(op := Op.LDG)]) <= Size([c])
    {
      assert [c][0] == c && [c][1..] == [] && [c.(op := Op.LDG)][1..] == [];
    }
  }

  lemma StripTypes()
    ensures InfoType(Op.LdGRdR4) == wW_PTR_ARG && InfoType(Op.LDG) == PTR_ARG
  {
  }

  lemma StripConforms(c: Ins)
    requires Conforms(c) && c.op == Op.LdGRdR4
    ensures Conforms(c.(op := Op.LDG))
  {
  }

  /** `PostponeInitOfTemp` makes progress too. */
  lemma PostponeProgress(code: seq<Ins>, k: nat, temps: set<int>)
    requires Good(code) && k < |code| && CanPostpone(code, k, temps)
    ensures Progress(code, Postpone(code, k, temps))
  {
    hide Good, Skeleton, InfoType, Unused, FirstUse, Potential, Passes, HasLevels, Writable;
    var u := FirstUse(code, k + 1, code[k].w0);
    var moved := MovedDown(code, k, u);
    MoveKept(code, k, u);
    UnusedProgress(moved, u - 1, temps);
  }

  lemma MoveKept(code: seq<Ins>, k: nat, u: nat)
    requires Good(code) && k < u <= |code| && code[k].op in {Op.SetV4, Op.SetV8}
    requires forall m :: k < m < u ==> Passes(code[m], Var(code[k].w0)) && !IsJmpOrLabel(code[m].op)
    ensures Good(MovedDown(code, k, u)) && Skeleton(MovedDown(code, k, u), 0) == Skeleton(code, 0)
    ensures StaysComplete(code, MovedDown(code, k, u))
  {
    hide Good, Skeleton, MovedDown, Splice, SameShape, StaysComplete, ForksKept, Slimmer, Conforms, Passes;
    var c, b := code[k], code[k + 1..u];
    MovedIsSplice(code, k, u);
    MoveKeepsShape(code, k, u);
    assert c.stackInc == 0 by {
      ConformAt(code, k);
      LoadPlain(c);
    }
    MoveKeepsForks(c, b);
    MoveSlimmer(c, b);
    WindowKept(code, k, u - k, b + [c]);
  }

  lemma LoadPlain(c: Ins)
    requires Conforms(c) && c.op in {Op.SetV4, Op.SetV8}
    ensures c.stackInc == 0
  {
    hide InfoType;
  }

  lemma MoveKeepsForks(c: Ins, b: seq<Ins>)
    requires c.stackInc == 0 && c.op != Op.TryBlock
    ensures ForksKept([c] + b, b + [c])
  {
    hide Net;
    var a, b' := [c] + b, b + [c];
    forall m | 0 <= m < |b'| && b'[m].op == Op.TryBlock
      ensures ForkFrom(a, b', m)
    {
      assert m < |b| && a[m + 1] == b'[m];
      assert a[..m + 1] == [c] + b[..m] && b'[..m] == b[..m];
      NetFirstOf(c, b[..m]);
    }
  }

  lemma NetFirstOf(c: Ins, b: seq<Ins>)
    ensures Net([c] + b) == c.stackInc + Net(b)
  {
    assert ([c] + b)[1..] == b;
  }

  lemma MoveSlimmer(c: Ins, b: seq<Ins>)
    ensures Slimmer([c] + b, b + [c])
  {
    hide Sized, InRange, Size;
    SizeOfSum([c], b);
    SizeOfSum(b, [c]);
    forall noLineCues: bool | PartWritable([c] + b, noLineCues)
      ensures PartWritable(b + [c], noLineCues)
    {
      assert ([c] + b)[0] == c;
      assert forall i :: 0 <= i < |b| ==> b[i] == ([c] + b)[i + 1];
    }
  }

  lemma MoveKeepsShape(code: seq<Ins>, k: nat, u: nat)
    requires Good(code) && k < u <= |code| && code[k].op in {Op.SetV4, Op.SetV8}
    requires forall m :: k < m < u ==> Passes(code[m], Var(code[k].w0)) && !IsJmpOrLabel(code[m].op)
    ensures SameShape(code[k..u], code[k + 1..u] + [code[k]]) && AllConform(code[k + 1..u] + [code[k]])
  {
    hide InfoType, Conforms, ReadsVar, TablesOk, Net;
    var c, b := code[k], code[k + 1..u];
    assert code[k..u] == [c] + b;
    assert forall i :: 0 <= i < |b| ==> b[i] == code[k + 1 + i];
    NetOfSum([c], b);
    NetOfSum(b, [c]);
    assert Unmarked([c] + b) && Unmarked(b + [c]);
  }

  lemma {:induction false} NetOfSum(a: seq<Ins>, b: seq<Ins>)
    ensures Net(a + b) == Net(a) + Net(b)
  {
    if a == [] {
      assert a + b == b;
    } else {
      assert (a + b)[1..] == a[1..] + b;
      NetOfSum(a[1..], b);
    }
  }
}
