/** The rules on addresses ask for no temporary and for no register that was not asked for before, so
    they keep the discipline of the list. */
module AddressesKept {
  import Op
  import opened Tables
  import opened Instructions
  import opened CodeLists
  import opened Machine
  import opened Liveness
  import opened Windows
  import opened Blocks
  import opened Discipline
  import opened UnusedValues
  import opened SequencesKept
  import opened Sequences
  import opened DisciplineKept

  // ----- what the instructions ask for and change -----

  predicate AsksForOperand(op: int) {
    || op in {Op.PSF, Op.PshVPtr, Op.VAR, Op.LDV, Op.ChkNullV, Op.LoadRObjR, Op.LoadVObjR, Op.IncVi, Op.DecVi}
    || op == Op.FREE
  }

  predicate AsksForRegister(op: int) {
    op in {Op.PshRPtr, Op.INCi, Op.DECi}
  }

  predicate AsksForNothing(op: int) {
    || op in {Op.PshNull, Op.PGA, Op.PshGPtr, Op.SwapPtr, Op.PopPtr, Op.PopRPtr, Op.RDSPtr, Op.ADDSi, Op.REFCPY}
    || op in {Op.CHKREF, Op.ChkRefS, Op.GETREF, Op.GETOBJREF, Op.RefCpyV}
  }

  predicate OnAddresses(op: int) {
    AsksForOperand(op) || AsksForRegister(op) || AsksForNothing(op) || op == Op.LoadThisR
  }

  lemma OperandTypes(op: int)
    ensures AsksForOperand(op) && op != Op.FREE ==> InfoType(op) in {rW_ARG, rW_W_DW_ARG}
    ensures InfoType(Op.FREE) == wW_PTR_ARG && InfoType(Op.RefCpyV) == wW_PTR_ARG
  {
  }

  lemma OtherTypes(op: int)
    ensures AsksForRegister(op) || (AsksForNothing(op) && op != Op.RefCpyV) ==>
      InfoType(op) in {NO_ARG, PTR_ARG, W_ARG, W_DW_ARG}
    ensures InfoType(Op.LoadThisR) == W_DW_ARG
  {
  }

  lemma AddressUse(ins: Ins, p: Place)
    requires OnAddresses(ins.op)
    ensures Reads(ins, p) <==>
      || (AsksForOperand(ins.op) && p == Var(ins.w0))
      || (AsksForRegister(ins.op) && p == Register)
      || (ins.op == Op.LoadThisR && p == Var(0))
    ensures Overwrites(ins, p) <==>
      || (ins.op in {Op.FREE, Op.RefCpyV} && p == Var(ins.w0))
      || (ins.op in {Op.LDV, Op.PopRPtr, Op.LoadThisR, Op.LoadRObjR, Op.LoadVObjR} && !p.Var?)
    ensures Straight(ins.op)
  {
    hide InfoType;
    OperandTypes(ins.op);
    OtherTypes(ins.op);
  }

  // ----- windows of such instructions -----

  ghost predicate AllOnAddresses(b: seq<Ins>) {
    forall i :: 0 <= i < |b| ==> OnAddresses(b[i].op)
  }

  // Reading and passing a place, instruction by instruction.
  predicate Asks(b: seq<Ins>, p: Place) {
    b != [] && (Reads(b[0], p) || (Passes(b[0], p) && Asks(b[1..], p)))
  }

  predicate Lets(b: seq<Ins>, p: Place) {
    b == [] || (Passes(b[0], p) && Lets(b[1..], p))
  }

  lemma {:induction false} AsksIsRead(b: seq<Ins>, p: Place)
    ensures Asks(b, p) <==> ReadBy(b, p)
    ensures Lets(b, p) <==> PassedBy(b, p)
    decreases |b|
  {
    hide Reads, Overwrites, ReadBy, PassedBy;
    if b == [] {
      PassedByNone(b, p);
    } else {
      ReadByFirst(b, p);
      AsksIsRead(b[1..], p);
    }
  }

  lemma AsksFirst(c: Ins, rest: seq<Ins>, p: Place)
    ensures Asks([c] + rest, p) <==> Reads(c, p) || (Passes(c, p) && Asks(rest, p))
    ensures Lets([c] + rest, p) <==> Passes(c, p) && Lets(rest, p)
  {
    hide Reads, Overwrites, Passes;
    assert ([c] + rest)[1..] == rest;
  }

  lemma AsksOf(c: Ins, d: Ins, e: Ins, p: Place)
    ensures !Asks([], p) && Lets([], p)
    ensures Asks([c], p) <==> Reads(c, p)
    ensures Lets([c], p) <==> Passes(c, p)
    ensures Asks([c, d], p) <==> Reads(c, p) || (Passes(c, p) && Reads(d, p))
    ensures Lets([c, d], p) <==> Passes(c, p) && Passes(d, p)
    ensures Asks([c, d, e], p) <==> Reads(c, p) || (Passes(c, p) && (Reads(d, p) || (Passes(d, p) && Reads(e, p))))
    ensures Lets([c, d, e], p) <==> Passes(c, p) && Passes(d, p) && Passes(e, p)
  {
    hide Reads, Overwrites, Passes, Asks, Lets;
    AsksNone(p);
    assert [c] + [] == [c] && [d] + [] == [d] && [e] + [] == [e];
    AsksFirst(c, [], p);
    AsksFirst(d, [], p);
    AsksFirst(e, [], p);
    assert [c] + [d] == [c, d] && [d] + [e] == [d, e] && [c] + [d, e] == [c, d, e];
    AsksFirst(c, [d], p);
    AsksFirst(d, [e], p);
    AsksFirst(c, [d, e], p);
  }

  lemma AsksNone(p: Place)
    ensures !Asks([], p) && Lets([], p)
  {
  }

  /** The window `b` asks for no more than the window `a`. */
  ghost predicate NoMore(a: seq<Ins>, b: seq<Ins>, temps: set<int>) {
    forall p: Place {:trigger Asks(b, p)} :: (p.Var? ==> p.x in temps) ==>
      (Asks(b, p) ==> Asks(a, p)) && (Lets(b, p) ==> Asks(a, p) || Lets(a, p))
  }

  lemma WindowKeeps(code: seq<Ins>, k: nat, a: seq<Ins>, b: seq<Ins>, temps: set<int>, hasResult: bool)
    requires a != [] && k + |a| <= |code| && code[k..k + |a|] == a && AllOnAddresses(a) && AllOnAddresses(b)
    requires TablesClosed(code) && Disciplined(code, temps, hasResult) && NoMore(a, b, temps)
    requires forall i :: 0 <= i < |b| ==> !AccessesThrough(b[i].op)
    ensures Disciplined(Splice(code, k, |a|, b), temps, hasResult)
  {
    hide Reads, Overwrites, ReadBy, PassedBy, IsWindow, DeadBeyond, Disciplined, TablesClosed, Sheds;
    hide Asks, Lets, Splice;
    WindowOf(a);
    WindowOf(b);
    forall p: Place | MayBeShed(p, temps, hasResult)
      ensures AsksNoMore(code, k, |a|, b, p)
    {
      AsksIsRead(a, p);
      AsksIsRead(b, p);
    }
    forall m, p | 0 <= m < |b|
      ensures !Sheds(b[m], p, temps, hasResult)
    {
      AddressShedsNothing(b[m], p, temps, hasResult);
    }
    ExitsOf(code, k, a, b);
    SpliceKeepsDiscipline(code, k, |a|, b, temps, hasResult);
  }

  lemma WindowOf(b: seq<Ins>)
    requires AllOnAddresses(b)
    ensures IsWindow(b) && forall i :: 0 <= i < |b| ==> !IsCondJump(b[i].op)
  {
  }

  lemma ExitsOf(code: seq<Ins>, k: nat, a: seq<Ins>, b: seq<Ins>)
    requires a != [] && k + |a| <= |code| && code[k..k + |a|] == a && IsWindow(a) && IsWindow(b) && TablesClosed(code)
    requires forall i :: 0 <= i < |b| ==> !IsCondJump(b[i].op)
    ensures SameExits(code, k, |a|, b)
  {
    hide TablesClosed, IsWindow;
  }

  lemma AddressShedsNothing(ins: Ins, p: Place, temps: set<int>, hasResult: bool)
    requires OnAddresses(ins.op) && !AccessesThrough(ins.op)
    ensures !Sheds(ins, p, temps, hasResult)
  {
  }

  // ----- the rules -----

  /** One of the rules on addresses. */
  lemma RuleKeeps(code: seq<Ins>, w: Rewrite, temps: set<int>, hasResult: bool)
    requires w.Replace? && Fits(code, w) && TablesClosed(code) && Disciplined(code, temps, hasResult)
    requires var a := code[w.at..w.at + w.len]; AllOnAddresses(a) && AllOnAddresses(w.put) && NoMore(a, w.put, temps)
    requires forall i :: 0 <= i < |w.put| ==> !AccessesThrough(w.put[i].op)
    ensures Disciplined(Apply(code, w), temps, hasResult)
  {
    hide AllOnAddresses, NoMore, Disciplined, TablesClosed;
    WindowKeeps(code, w.at, code[w.at..w.at + w.len], w.put, temps, hasResult);
  }

  lemma SwapKeeps(code: seq<Ins>, k: nat, temps: set<int>, hasResult: bool)
    requires k < |code| && code[k].op == Op.SwapPtr && SwapRule(code, k).Replace?
    requires TablesClosed(code) && Disciplined(code, temps, hasResult)
    ensures Disciplined(Apply(code, SwapRule(code, k)), temps, hasResult)
  {
    hide Disciplined, TablesClosed, Reads, Overwrites, Asks, Lets;
    var c, d, e := code[k - 2], code[k - 1], code[k];
    assert code[k - 2..k + 1] == [c, d, e];
    forall p: Place
      ensures (Asks([d, c], p) ==> Asks([c, d, e], p)) && (Lets([d, c], p) ==> Lets([c, d, e], p))
    {
      AddressUse(c, p);
      AddressUse(d, p);
      AddressUse(e, p);
      AsksOf(c, d, e, p);
      AsksOf(d, c, e, p);
    }
    RuleKeeps(code, SwapRule(code, k), temps, hasResult);
  }

  // An instruction taken out that asks for nothing.
  lemma DropKeeps(code: seq<Ins>, k: nat, temps: set<int>, hasResult: bool)
    requires k < |code| && code[k].op in {Op.CHKREF, Op.RDSPtr}
    requires TablesClosed(code) && Disciplined(code, temps, hasResult)
    ensures Disciplined(Splice(code, k, 1, []), temps, hasResult)
  {
    hide Disciplined, TablesClosed, Reads, Overwrites, Asks, Lets, Splice;
    var c := code[k];
    assert code[k..k + 1] == [c];
    forall p: Place
      ensures !Asks([], p) && Lets([c], p)
    {
      AddressUse(c, p);
      AsksOf(c, c, c, p);
    }
    RuleKeeps(code, Replace(k, 1, []), temps, hasResult);
  }

  // Two or three instructions replaced by one that asks for and changes what they do.
  predicate Covers(a: seq<Ins>, n: Ins, p: Place) {
    (Reads(n, p) ==> Asks(a, p)) && (Passes(n, p) ==> Asks(a, p) || Lets(a, p))
  }

  ghost predicate CoversAll(a: seq<Ins>, n: Ins, temps: set<int>) {
    forall p: Place :: (p.Var? ==> p.x in temps) ==> Covers(a, n, p)
  }

  lemma OneCovers(code: seq<Ins>, k: nat, la: nat, n: Ins, temps: set<int>, hasResult: bool)
    requires 0 < la && k + la <= |code| && AllOnAddresses(code[k..k + la]) && OnAddresses(n.op)
    requires !AccessesThrough(n.op) && TablesClosed(code) && Disciplined(code, temps, hasResult)
    requires CoversAll(code[k..k + la], n, temps)
    ensures Disciplined(Splice(code, k, la, [n]), temps, hasResult)
  {
    hide Disciplined, TablesClosed, Reads, Overwrites, Asks, Lets, Splice, AllOnAddresses;
    var a := code[k..k + la];
    forall p: Place | p.Var? ==> p.x in temps
      ensures (Asks([n], p) ==> Asks(a, p)) && (Lets([n], p) ==> Asks(a, p) || Lets(a, p))
    {
      AsksOf(n, n, n, p);
      assert Covers(a, n, p);
    }
    OneOnAddresses(n);
    RuleKeeps(code, Replace(k, la, [n]), temps, hasResult);
  }

  lemma OneOnAddresses(n: Ins)
    requires OnAddresses(n.op)
    ensures AllOnAddresses([n])
  {
  }

  // Two instructions c and d become n.
  lemma PairCovers(c: Ins, d: Ins, n: Ins, p: Place)
    requires OnAddresses(c.op) && OnAddresses(d.op) && OnAddresses(n.op)
    requires || (c.op == Op.PGA && d.op == Op.RDSPtr && n.op == Op.PshGPtr)
             || (c.op == Op.PSF && d.op == Op.RDSPtr && n.op == Op.PshVPtr && n.w0 == c.w0)
             || (c.op == Op.PSF && d.op == Op.REFCPY && n.op == Op.RefCpyV && n.w0 == c.w0)
             || (c.op == Op.VAR && d.op in {Op.GETREF, Op.GETOBJREF} && n.op in {Op.PSF, Op.PshVPtr} && n.w0 == c.w0)
    ensures Covers([c, d], n, p)
  {
    hide Reads, Overwrites, Asks, Lets;
    AddressUse(c, p);
    AddressUse(d, p);
    AddressUse(n, p);
    AsksOf(c, d, d, p);
  }

  // Three instructions c, d and e become n.
  lemma TripleCovers(c: Ins, d: Ins, e: Ins, n: Ins, p: Place, temps: set<int>)
    requires OnAddresses(c.op) && OnAddresses(d.op) && OnAddresses(e.op) && OnAddresses(n.op)
    requires || (c.op in {Op.PSF, Op.PshVPtr} && d.op in {Op.ChkRefS, Op.CHKREF} && e.op == Op.PopPtr
                 && n.op == Op.ChkNullV && n.w0 == c.w0)
             || (c.op == Op.PshNull && d.op == Op.RefCpyV && e.op == Op.PopPtr && n.op == Op.FREE && n.w0 !in temps)
             || (c.op == Op.PshVPtr && d.op == Op.ADDSi && e.op == Op.PopRPtr && n.op == Op.LoadThisR && c.w0 == 0)
             || (c.op in {Op.PSF, Op.PshVPtr} && d.op == Op.ADDSi && e.op == Op.PopRPtr
                 && n.op in {Op.LoadRObjR, Op.LoadVObjR} && n.w0 == c.w0)
    requires d.op == Op.RefCpyV ==> n.w0 == d.w0
    requires p.Var? ==> p.x in temps
    ensures Covers([c, d, e], n, p)
  {
    hide Reads, Overwrites, Asks, Lets;
    AddressUse(c, p);
    AddressUse(d, p);
    AddressUse(e, p);
    AddressUse(n, p);
    AsksOf(c, d, e, p);
  }

  lemma TwoBecomeOne(code: seq<Ins>, k: nat, n: Ins, temps: set<int>, hasResult: bool)
    requires k + 1 < |code| && TablesClosed(code) && Disciplined(code, temps, hasResult)
    requires OnAddresses(code[k].op) && OnAddresses(code[k + 1].op) && OnAddresses(n.op) && !AccessesThrough(n.op)
    requires CoversAll([code[k], code[k + 1]], n, temps)
    ensures Disciplined(Splice(code, k, 2, [n]), temps, hasResult)
  {
    hide Disciplined, TablesClosed, Covers, Splice;
    assert code[k..k + 2] == [code[k], code[k + 1]];
    OneCovers(code, k, 2, n, temps, hasResult);
  }

  lemma ThreeBecomeOne(code: seq<Ins>, k: nat, n: Ins, temps: set<int>, hasResult: bool)
    requires k + 2 < |code| && TablesClosed(code) && Disciplined(code, temps, hasResult)
    requires OnAddresses(code[k].op) && OnAddresses(code[k + 1].op) && OnAddresses(code[k + 2].op)
    requires OnAddresses(n.op) && !AccessesThrough(n.op)
    requires CoversAll([code[k], code[k + 1], code[k + 2]], n, temps)
    ensures Disciplined(Splice(code, k, 3, [n]), temps, hasResult)
  {
    hide Disciplined, TablesClosed, Covers, Splice;
    assert code[k..k + 3] == [code[k], code[k + 1], code[k + 2]];
    OneCovers(code, k, 3, n, temps, hasResult);
  }

  lemma ReadKeeps(code: seq<Ins>, k: nat, temps: set<int>, hasResult: bool)
    requires k < |code| && code[k].op == Op.RDSPtr && RDSPtrRule(code, k).Replace?
    requires TablesClosed(code) && Disciplined(code, temps, hasResult)
    ensures Disciplined(Apply(code, RDSPtrRule(code, k)), temps, hasResult)
  {
    hide Disciplined, TablesClosed, Reads, Overwrites, Asks, Lets, Splice, Covers;
    var c, d, put := code[k - 1], code[k], RDSPtrRule(code, k).put;
    if c.op == Op.ChkRefS {
      assert code[k - 1..k + 1] == [c, d];
      forall p: Place
        ensures !Asks(put, p) && Lets([c, d], p)
      {
        AddressUse(c, p);
        AddressUse(d, p);
        AddressUse(put[0], p);
        AddressUse(put[1], p);
        AsksOf(c, d, d, p);
        AsksOf(put[0], put[1], d, p);
      }
      RuleKeeps(code, RDSPtrRule(code, k), temps, hasResult);
    } else {
      assert CoversAll([c, d], put[0], temps) by {
        forall p: Place
          ensures Covers([c, d], put[0], p)
        {
          PairCovers(c, d, put[0], p);
        }
      }
      TwoBecomeOne(code, k - 1, put[0], temps, hasResult);
    }
  }

  lemma MemberKeeps(code: seq<Ins>, k: nat, temps: set<int>, hasResult: bool)
    requires k < |code| && code[k].op == Op.PopRPtr && PopRPtrRule(code, k).Replace?
    requires TablesClosed(code) && Disciplined(code, temps, hasResult)
    ensures Disciplined(Apply(code, PopRPtrRule(code, k)), temps, hasResult)
  {
    hide Disciplined, TablesClosed, Reads, Overwrites, Asks, Lets, Splice, Covers, InfoType, InfoStackInc;
    var c, d, e, n := code[k - 2], code[k - 1], code[k], PopRPtrRule(code, k).put[0];
    forall p: Place | p.Var? ==> p.x in temps
      ensures Covers([c, d, e], n, p)
    {
      TripleCovers(c, d, e, n, p, temps);
    }
    ThreeBecomeOne(code, k - 2, n, temps, hasResult);
  }

  lemma HandleCopyKeeps(code: seq<Ins>, k: nat, temps: set<int>, hasResult: bool)
    requires k < |code| && code[k].op == Op.REFCPY && REFCPYRule(code, k).Replace?
    requires TablesClosed(code) && Disciplined(code, temps, hasResult)
    ensures Disciplined(Apply(code, REFCPYRule(code, k)), temps, hasResult)
  {
    hide Disciplined, TablesClosed, Reads, Overwrites, Asks, Lets, Splice, Covers, InfoStackInc;
    var c, d, n := code[k - 1], code[k], REFCPYRule(code, k).put[0];
    assert CoversAll([c, d], n, temps) by {
      forall p: Place
        ensures Covers([c, d], n, p)
      {
        PairCovers(c, d, n, p);
      }
    }
    TwoBecomeOne(code, k - 1, n, temps, hasResult);
  }

  lemma ReleaseKeeps(code: seq<Ins>, k: nat, temps: set<int>, hasResult: bool)
    requires k < |code| && code[k].op == Op.FREE && FREERule(code, k).Replace?
    requires TablesClosed(code) && Disciplined(code, temps, hasResult)
    ensures Disciplined(Apply(code, FREERule(code, k)), temps, hasResult)
  {
    hide Disciplined, TablesClosed, Reads, Overwrites, Asks, Lets;
    var c, d := code[k - 1], code[k];
    assert code[k - 1..k + 1] == [c, d];
    forall p: Place
      ensures (Asks([d, c], p) ==> Asks([c, d], p)) && (Lets([d, c], p) ==> Lets([c, d], p))
    {
      AddressUse(c, p);
      AddressUse(d, p);
      AsksOf(c, d, d, p);
      AsksOf(d, c, c, p);
    }
    RuleKeeps(code, FREERule(code, k), temps, hasResult);
  }

  lemma NamedKeeps(code: seq<Ins>, k: nat, temps: set<int>, hasResult: bool)
    requires k < |code| && code[k].op == Op.VAR && VarRule(code, k).Replace?
    requires TablesClosed(code) && Disciplined(code, temps, hasResult)
    ensures Disciplined(Apply(code, VarRule(code, k)), temps, hasResult)
  {
    hide Disciplined, TablesClosed, Reads, Overwrites, Asks, Lets, Splice, Covers;
    if PushedThen(code, k, Op.GETOBJREF) {
      BelowKeeps(code, k, VarRule(code, k), temps, hasResult);
    } else {
      var c, d, n := code[k], code[k + 1], VarRule(code, k).put[0];
      assert CoversAll([c, d], n, temps) by {
        forall p: Place
          ensures Covers([c, d], n, p)
        {
          PairCovers(c, d, n, p);
        }
      }
      TwoBecomeOne(code, k, n, temps, hasResult);
    }
  }

  // VAR, PSF, GET... -> ..., PSF
  lemma BelowKeeps(code: seq<Ins>, k: nat, w: Rewrite, temps: set<int>, hasResult: bool)
    requires k + 2 < |code| && code[k].op in {Op.VAR, Op.PSF, Op.PshVPtr} && code[k + 1].op == Op.PSF
    requires code[k + 2].op in {Op.GETREF, Op.GETOBJREF}
    requires w.Replace? && w.at == k && w.len == 3 && |w.put| == 2 && w.put[1] == code[k + 1]
    requires w.put[0].op in {Op.PSF, Op.PshVPtr} && w.put[0].w0 == code[k].w0
    requires TablesClosed(code) && Disciplined(code, temps, hasResult)
    ensures Disciplined(Apply(code, w), temps, hasResult)
  {
    hide Disciplined, TablesClosed, Reads, Overwrites, Asks, Lets;
    var c, d, e, n := code[k], code[k + 1], code[k + 2], w.put[0];
    assert code[k..k + 3] == [c, d, e] && w.put == [n, d];
    forall p: Place
      ensures (Asks([n, d], p) ==> Asks([c, d, e], p)) && (Lets([n, d], p) ==> Lets([c, d, e], p))
    {
      AddressUse(c, p);
      AddressUse(d, p);
      AddressUse(e, p);
      AddressUse(n, p);
      AsksOf(c, d, e, p);
      AsksOf(n, d, d, p);
    }
    RuleKeeps(code, w, temps, hasResult);
  }

  lemma PopKeeps(code: seq<Ins>, k: nat, temps: set<int>, hasResult: bool)
    requires k < |code| && code[k].op == Op.PopPtr && PopPtrRule(code, k, temps).Replace? && code[k - 1].op != Op.FREE
    requires code[k - 1].op == Op.RefCpyV ==> code[k - 1].w0 !in temps
    requires TablesClosed(code) && Disciplined(code, temps, hasResult)
    ensures Disciplined(Apply(code, PopPtrRule(code, k, temps)), temps, hasResult)
  {
    hide Disciplined, TablesClosed, Reads, Overwrites, Asks, Lets, Splice, Covers, StoredHandleRule;
    var d, e := code[k - 1], code[k];
    if d.op == Op.RDSPtr {
      DropKeeps(code, k - 1, temps, hasResult);
    } else if k > 1 && d.op in {Op.RefCpyV, Op.ChkRefS, Op.CHKREF} {
      var c, n := code[k - 2], PopPtrRule(code, k, temps).put[0];
      forall p: Place | p.Var? ==> p.x in temps
        ensures Covers([c, d, e], n, p)
      {
        TripleCovers(c, d, e, n, p, temps);
      }
      ThreeBecomeOne(code, k - 2, n, temps, hasResult);
    } else {
      assert code[k - 1..k + 1] == [d, e];
      forall p: Place
        ensures !Asks([], p) && (Asks([d, e], p) || Lets([d, e], p))
      {
        AddressUse(d, p);
        AddressUse(e, p);
        AsksOf(d, e, e, p);
      }
      RuleKeeps(code, Replace(k - 1, 2, []), temps, hasResult);
    }
  }

  /** LDV x, INCi -> IncVi x and LDV x, DECi -> DecVi x */
  lemma IncrementKeeps(code: seq<Ins>, k: nat, temps: set<int>, hasResult: bool)
    requires k < |code| && code[k].op == Op.LDV && LDVRule(code, k).Replace?
    requires TablesClosed(code) && Disciplined(code, temps, hasResult)
    ensures Disciplined(Apply(code, LDVRule(code, k)), temps, hasResult)
  {
    hide LiveAt, TablesClosed, InfoType, Disciplined, Splice, Reads, Overwrites, SameExits, DeadBeyond, RegUsedAfter;
    var c, d, n := code[k], code[k + 1], LDVRule(code, k).put[0];
    IncrementsStraight(c, d, n);
    PlainPair(code, k, [n]);
    AddressNotKept(code, k + 1, temps, hasResult);
    RegisterUnused(code, k + 1, temps, hasResult);
    forall p
      ensures Reads(n, p) ==> PairReads(c, d, p)
      ensures Counts(p, hasResult) && Passes(n, p) ==>
        PairReads(c, d, p) || (Passes(c, p) && Passes(d, p)) || DeadBeyond(code, k, 2, p)
      ensures !Sheds(n, p, temps, hasResult)
    {
      AddressUse(c, p);
      AddressUse(d, p);
      AddressUse(n, p);
      AddressShedsNothing(n, p, temps, hasResult);
    }
    TwoKeeps(code, k, [n], temps, hasResult);
  }

  lemma IncrementsStraight(c: Ins, d: Ins, n: Ins)
    requires c.op == Op.LDV && d.op in {Op.INCi, Op.DECi} && n.op in {Op.IncVi, Op.DecVi}
    ensures Straight(c.op) && Straight(d.op) && Straight(n.op)
  {
  }
}
