/** The rules of the optimizer on addresses, objects and handles, one by one: each preserves every run
    of the list. */
module AddressRules {
  import Op
  import opened Tables
  import opened Instructions
  import opened CodeLists
  import opened Machine
  import opened Liveness
  import opened Windows
  import opened Blocks
  import opened Discipline
  import opened UnusedValues
  import opened GlobalAccess
  import opened SequencesKept
  import opened Sequences
  import opened Addresses

  // Blocks of up to three instructions.
  lemma ShortBlocks(vm: VM, c: Ins, d: Ins, e: Ins, s: State)
    requires Straight(c.op) && Straight(d.op) && Straight(e.op)
    ensures Block(vm, [], s) == Fall(s)
    ensures Block(vm, [c], s) == if Faults(vm, c, s) then Halt(Exec(vm, c, s).core.world) else Fall(Exec(vm, c, s))
    ensures Block(vm, [c, d], s) ==
      if Faults(vm, c, s) then Halt(Exec(vm, c, s).core.world) else Block(vm, [d], Exec(vm, c, s))
    ensures Block(vm, [c, d, e], s) ==
      if Faults(vm, c, s) then Halt(Exec(vm, c, s).core.world) else Block(vm, [d, e], Exec(vm, c, s))
  {
    hide Exec, Faults;
    NothingFalls(vm, s);
    OneStep(vm, c, s);
    BlockOfTwo(vm, c, d, s);
    assert [c, d, e] == [c] + [d, e];
    BlockStep(vm, c, [d, e], s);
  }

  // ----- SwapPtr -----

  lemma SwapAlike(vm: VM, x: Ins, y: Ins, w: Ins)
    requires PushesPointer(x.op) && PushesPointer(y.op) && w.op == Op.SwapPtr
    ensures Alike(vm, [x, y, w], [y, x]) && AllStraight([x, y, w]) && AllStraight([y, x])
  {
    hide Exec, Faults, Block, PushValue, Popped, Top, InfoType;
    forall s
      ensures SameExit(Block(vm, [x, y, w], s), Block(vm, [y, x], s))
    {
      ExecPointerPush(vm, x, s);
      ExecPointerPush(vm, y, s);
      var t, u := Exec(vm, x, s), Exec(vm, y, s);
      ExecPointerPush(vm, y, t);
      ExecPointerPush(vm, x, u);
      var t', u' := Exec(vm, y, t), Exec(vm, x, u);
      ExecStackOp(vm, w, t');
      ShortBlocks(vm, x, y, w, s);
      ShortBlocks(vm, y, w, w, t);
      ShortBlocks(vm, w, w, w, t');
      ShortBlocks(vm, y, x, x, s);
      ShortBlocks(vm, x, x, x, u);
      Stacked(s.core.stack, PointerPushed(vm, x, s), 0);
      Stacked(t.core.stack, PointerPushed(vm, y, s), 0);
    }
  }

  /** XXX x, YYY y, SwapPtr -> YYY y, XXX x */
  lemma SwapPreserves(vm: VM, code: seq<Ins>, k: nat)
    requires k < |code| && TablesFull(code) && code[k].op == Op.SwapPtr && SwapRule(code, k).Replace?
    ensures Equivalent(vm, code, Apply(code, SwapRule(code, k)), {})
  {
    hide Alike, AllStraight, Equivalent, TablesFull;
    SwapAlike(vm, code[k - 2], code[k - 1], code[k]);
    assert code[k - 2..k + 1] == [code[k - 2], code[k - 1], code[k]];
    AlikeReplaces(vm, code, k - 2, [code[k - 2], code[k - 1], code[k]], [code[k - 1], code[k - 2]]);
  }

  // ----- CHKREF -----

  // Adding an offset to a pointer that is not null never gives null.
  ghost predicate StaysNonNull(vm: VM) {
    forall p, n :: p != 0 ==> vm.plus(p, n) != 0
  }

  // The pointer that these push is not null.
  predicate PushesNonNull(vm: VM, ins: Ins) {
    (ins.op == Op.PGA ==> PtrArg(ins) != 0) && (ins.op == Op.PSF ==> Address(vm, ins.w0) != 0)
  }

  lemma CheckBeforeAlike(vm: VM, c: Ins, n: Ins)
    requires c.op == Op.CHKREF && n.op in {Op.ADDSi, Op.RDSPtr}
    ensures Alike(vm, [c, n], [n]) && AllStraight([c, n]) && AllStraight([n])
  {
    hide Exec, Faults, Block, InfoType, SetBelow, Top, Rearranged, Fetch;
    forall s
      ensures SameExit(Block(vm, [c, n], s), Block(vm, [n], s))
    {
      ExecCheck(vm, c, s);
      if n.op == Op.ADDSi {
        ExecStackOp(vm, n, s);
      } else {
        ExecAccess(vm, n, s);
      }
      ShortBlocks(vm, c, n, n, s);
      ShortBlocks(vm, n, n, n, s);
    }
  }

  lemma CheckAfterAlike(vm: VM, n: Ins, c: Ins)
    requires c.op == Op.CHKREF && n.op in {Op.ADDSi, Op.PGA, Op.PSF} && PushesNonNull(vm, n) && StaysNonNull(vm)
    ensures Alike(vm, [n, c], [n]) && AllStraight([n, c]) && AllStraight([n])
  {
    hide Exec, Faults, Block, InfoType, PushValue, Top, SetBelow;
    forall s
      ensures SameExit(Block(vm, [n, c], s), Block(vm, [n], s))
    {
      var t := Exec(vm, n, s);
      if n.op == Op.ADDSi {
        ExecStackOp(vm, n, s);
        TopChanged(s.core.stack, vm.plus(Top(s.core.stack), n.w0));
      } else {
        ExecPointerPush(vm, n, s);
        Stacked(s.core.stack, PointerPushed(vm, n, s), 0);
      }
      ExecCheck(vm, c, t);
      ShortBlocks(vm, n, c, c, s);
      ShortBlocks(vm, c, c, c, t);
    }
  }

  lemma TopChanged(stack: seq<Cell>, v: int)
    ensures Top(stack) != 0 ==> Top(SetBelow(stack, 0, v)) == v
  {
  }

  lemma CheckTwiceAlike(vm: VM, n: Ins, r: Ins, c: Ins)
    requires n.op == Op.PGA && r.op == Op.ChkRefS && c.op == Op.CHKREF && PtrArg(n) != 0
    ensures Alike(vm, [n, r, c], [n, r]) && AllStraight([n, r, c]) && AllStraight([n, r])
  {
    hide Exec, Faults, Block, InfoType, PushValue, Top, Fetch, PtrArg;
    forall s
      ensures SameExit(Block(vm, [n, r, c], s), Block(vm, [n, r], s))
    {
      var t := Exec(vm, n, s);
      ExecPointerPush(vm, n, s);
      Stacked(s.core.stack, PointerPushed(vm, n, s), 0);
      ExecCheck(vm, r, t);
      ExecCheck(vm, c, t);
      ShortBlocks(vm, n, r, c, s);
      ShortBlocks(vm, r, c, c, t);
      ShortBlocks(vm, c, c, c, t);
    }
  }

  // One of two or three instructions taken out.
  lemma TakenOut(code: seq<Ins>, k: nat)
    requires k < |code|
    ensures k + 1 < |code| ==>
      code[k..k + 2] == [code[k], code[k + 1]] && Splice(code, k, 2, [code[k + 1]]) == Splice(code, k, 1, [])
    ensures k > 0 ==>
      code[k - 1..k + 1] == [code[k - 1], code[k]] && Splice(code, k - 1, 2, [code[k - 1]]) == Splice(code, k, 1, [])
    ensures k > 1 ==>
      && code[k - 2..k + 1] == [code[k - 2], code[k - 1], code[k]]
      && Splice(code, k - 2, 3, [code[k - 2], code[k - 1]]) == Splice(code, k, 1, [])
  {
  }

  /** A null check that cannot fail, or whose failure the next instruction finds too. */
  lemma CheckPreserves(vm: VM, code: seq<Ins>, k: nat)
    requires k < |code| && TablesFull(code) && code[k].op == Op.CHKREF && CHKREFRule(code, k).Replace?
    requires StaysNonNull(vm) && forall i :: 0 <= i < |code| ==> PushesNonNull(vm, code[i])
    ensures Equivalent(vm, code, Apply(code, CHKREFRule(code, k)), {})
  {
    hide Alike, AllStraight, Equivalent, TablesFull, Splice, PushesNonNull, StaysNonNull;
    TakenOut(code, k);
    if k + 1 < |code| && code[k + 1].op in {Op.ADDSi, Op.RDSPtr} {
      CheckBeforeAlike(vm, code[k], code[k + 1]);
      AlikeReplaces(vm, code, k, [code[k], code[k + 1]], [code[k + 1]]);
    } else if k > 0 && code[k - 1].op in {Op.ADDSi, Op.PGA, Op.PSF} {
      CheckAfterAlike(vm, code[k - 1], code[k]);
      AlikeReplaces(vm, code, k - 1, [code[k - 1], code[k]], [code[k - 1]]);
    } else {
      PushedNonNull(vm, code[k - 2]);
      CheckTwiceAlike(vm, code[k - 2], code[k - 1], code[k]);
      AlikeReplaces(vm, code, k - 2, [code[k - 2], code[k - 1], code[k]], [code[k - 2], code[k - 1]]);
    }
  }

  lemma PushedNonNull(vm: VM, ins: Ins)
    requires PushesNonNull(vm, ins) && ins.op == Op.PGA
    ensures PtrArg(ins) != 0
  {
  }

  // ----- PopPtr -----

  lemma PushPopAlike(vm: VM, x: Ins, p: Ins)
    requires x.op in {Op.PshRPtr, Op.PSF, Op.VAR, Op.PshVPtr, Op.PshNull} && p.op == Op.PopPtr
    ensures Alike(vm, [x, p], []) && AllStraight([x, p])
  {
    hide Exec, Faults, Block, InfoType, PushValue, Popped;
    forall s
      ensures SameExit(Block(vm, [x, p], s), Block(vm, [], s))
    {
      var t := Exec(vm, x, s);
      ExecPointerPush(vm, x, s);
      ExecStackOp(vm, p, t);
      Stacked(s.core.stack, PointerPushed(vm, x, s), 0);
      ShortBlocks(vm, x, p, p, s);
      ShortBlocks(vm, p, p, p, t);
    }
  }

  lemma CheckedPopAlike(vm: VM, x: Ins, c: Ins, p: Ins, n: Ins)
    requires p.op == Op.PopPtr && n.op == Op.ChkNullV && n.w0 == x.w0
    requires || (x.op == Op.PSF && c.op == Op.ChkRefS && vm.addressed(x.w0))
             || (x.op == Op.PshVPtr && c.op == Op.CHKREF)
    ensures Alike(vm, [x, c, p], [n]) && AllStraight([x, c, p]) && AllStraight([n])
  {
    hide Exec, Faults, Block, InfoType, PushValue, Popped, Top, Fetch, Address;
    forall s
      ensures SameExit(Block(vm, [x, c, p], s), Block(vm, [n], s))
    {
      var t := Exec(vm, x, s);
      ExecPointerPush(vm, x, s);
      ExecCheck(vm, c, t);
      ExecCheck(vm, n, s);
      ExecStackOp(vm, p, t);
      if x.op == Op.PSF {
        FetchVariable(vm, t, x.w0);
      }
      Stacked(s.core.stack, PointerPushed(vm, x, s), 0);
      ShortBlocks(vm, x, c, p, s);
      ShortBlocks(vm, c, p, p, t);
      ShortBlocks(vm, p, p, p, t);
      ShortBlocks(vm, n, n, n, s);
    }
  }

  lemma ClearedHandleAlike(vm: VM, x: Ins, r: Ins, p: Ins, n: Ins)
    requires x.op == Op.PshNull && r.op == Op.RefCpyV && p.op == Op.PopPtr && n == r.(op := Op.FREE)
    requires vm.addressed(r.w0) && vm.handling(PtrArg(r)) != ByValue
    ensures Alike(vm, [x, r, p], [n]) && AllStraight([x, r, p]) && AllStraight([n])
  {
    hide Exec, Faults, Block, InfoType, PushValue, Popped, Top, Fetch, PtrArg, Address;
    SamePtr(r, Op.FREE);
    forall s
      ensures SameExit(Block(vm, [x, r, p], s), Block(vm, [n], s))
    {
      var t := Exec(vm, x, s);
      var u := Exec(vm, r, t);
      ExecPointerPush(vm, x, s);
      ExecAccess(vm, r, t);
      ExecStackOp(vm, p, u);
      ExecHandle(vm, n, s);
      FetchVariable(vm, t, r.w0);
      Stacked(s.core.stack, PointerPushed(vm, x, s), 0);
      ShortBlocks(vm, x, r, p, s);
      ShortBlocks(vm, r, p, p, t);
      ShortBlocks(vm, p, p, p, u);
      ShortBlocks(vm, n, n, n, s);
    }
  }

  lemma SamePtr(ins: Ins, op: int)
    ensures PtrArg(ins.(op := op)) == PtrArg(ins)
  {
  }

  // A pointer read from memory only to be popped: what is left is the check of the address.
  lemma ReadPopAlike(vm: VM, r: Ins, p: Ins)
    requires r.op == Op.RDSPtr && p.op == Op.PopPtr
    ensures Alike(vm, [r, p], [r.(op := Op.CHKREF), p]) && AllStraight([r, p]) && AllStraight([r.(op := Op.CHKREF), p])
  {
    hide Exec, Faults, Block, InfoType, Fetch;
    var c := r.(op := Op.CHKREF);
    forall s
      ensures SameExit(Block(vm, [r, p], s), Block(vm, [c, p], s))
    {
      var t := Exec(vm, r, s);
      ExecAccess(vm, r, s);
      ExecCheck(vm, c, s);
      ExecStackOp(vm, p, t);
      ExecStackOp(vm, p, s);
      assert Popped(SetBelow(s.core.stack, 0, Fetch(vm, s, Top(s.core.stack)))) == Popped(s.core.stack);
      ShortBlocks(vm, r, p, p, s);
      ShortBlocks(vm, c, p, p, s);
      ShortBlocks(vm, p, p, p, t);
      ShortBlocks(vm, p, p, p, s);
    }
  }

  // Instead of reading the pointer, check the address.
  lemma ReadChecked(vm: VM, code: seq<Ins>, k: nat)
    requires k + 1 < |code| && TablesFull(code) && code[k].op == Op.RDSPtr && code[k + 1].op == Op.PopPtr
    ensures Equivalent(vm, code, code[k := code[k].(op := Op.CHKREF)], {})
  {
    hide Alike, AllStraight, Equivalent, TablesFull;
    var c := code[k].(op := Op.CHKREF);
    ReadPopAlike(vm, code[k], code[k + 1]);
    assert code[k..k + 2] == [code[k], code[k + 1]];
    AlikeReplaces(vm, code, k, [code[k], code[k + 1]], [c, code[k + 1]]);
    assert Splice(code, k, 2, [c, code[k + 1]]) == code[k := c];
  }

  /** RDSPtr, PopPtr -> PopPtr preserves all runs in which the pointer to read is not null. */
  lemma ReadPopUpholds(vm: VM, code: seq<Ins>, k: nat)
    requires k + 1 < |code| && TablesFull(code) && code[k].op == Op.RDSPtr && code[k + 1].op == Op.PopPtr
    ensures Upholds(vm, code, Splice(code, k, 1, []), {})
  {
    hide TablesFull, Upholds, Equivalent, Rel, Exec, Faults, Discards, TablesClear;
    var c := code[k].(op := Op.CHKREF);
    var mid := code[k := c];
    ReadChecked(vm, code, k);
    EquivalentUpholds(vm, code, mid, {});
    SameTables(code, k, c);
    NothingDiscarded(vm, mid);
    OneStraight(c);
    WindowClear(mid, k, [c]);
    forall s, s' | Rel(vm, mid, k, s, s', {}) && !Faults(vm, c, s)
      ensures Rel(vm, mid, k + 1, Exec(vm, c, s), s', {})
    {
      ExecCheck(vm, c, s);
      RelIsSame(vm, mid, k, s, s');
      RelIsSame(vm, mid, k + 1, s, s');
    }
    DropUpholds(vm, mid, k, {});
    assert Splice(mid, k, 1, []) == Splice(code, k, 1, []);
    UpholdsTrans(vm, code, mid, Splice(code, k, 1, []), {});
  }

  lemma OneStraight(c: Ins)
    requires c.op == Op.CHKREF
    ensures AllStraight([c])
  {
  }

  lemma SameTables(code: seq<Ins>, k: nat, c: Ins)
    requires k < |code| && TablesFull(code) && code[k].op == Op.RDSPtr && c.op == Op.CHKREF
    ensures TablesFull(code[k := c]) && code[k := c][k..k + 1] == [c]
  {
    var mid := code[k := c];
    forall i | 0 <= i < |mid| && mid[i].op == Op.JMPP && 0 <= mid[i].a0
      ensures InTable(mid, i + 1, i + 1 + mid[i].a0)
    {
      assert InTable(code, i + 1, i + 1 + code[i].a0);
    }
  }

  // ----- RDSPtr -----

  lemma ReadAlike(vm: VM, x: Ins, r: Ins, n: Ins)
    requires r.op == Op.RDSPtr
    requires || (x.op == Op.PGA && n == x.(op := Op.PshGPtr) && IsGlobal(vm, PtrArg(x)))
             || (x.op == Op.PSF && n == x.(op := Op.PshVPtr) && vm.addressed(x.w0) && Address(vm, x.w0) != 0)
    ensures Alike(vm, [x, r], [n]) && AllStraight([x, r]) && AllStraight([n])
  {
    hide Exec, Faults, Block, InfoType, PushValue, Top, SetBelow, PtrArg, Address, IsLocal;
    SamePtr(x, n.op);
    forall s
      ensures SameExit(Block(vm, [x, r], s), Block(vm, [n], s))
    {
      var t := Exec(vm, x, s);
      ExecPointerPush(vm, x, s);
      ExecPointerPush(vm, n, s);
      ExecAccess(vm, r, t);
      Stacked(s.core.stack, PointerPushed(vm, x, s), Fetch(vm, t, PointerPushed(vm, x, s).value));
      if x.op == Op.PSF {
        FetchVariable(vm, t, x.w0);
      }
      ShortBlocks(vm, x, r, r, s);
      ShortBlocks(vm, r, r, r, t);
      ShortBlocks(vm, n, n, n, s);
    }
  }

  lemma CheckMovedAlike(vm: VM, c: Ins, r: Ins)
    requires c.op == Op.ChkRefS && r.op == Op.RDSPtr
    ensures var r', c' := c.(op := Op.RDSPtr), r.(op := Op.CHKREF);
      Alike(vm, [c, r], [r', c']) && AllStraight([c, r]) && AllStraight([r', c'])
  {
    hide Exec, Faults, Block, InfoType, Fetch;
    var r', c' := c.(op := Op.RDSPtr), r.(op := Op.CHKREF);
    forall s
      ensures SameExit(Block(vm, [c, r], s), Block(vm, [r', c'], s))
    {
      var t := Exec(vm, r', s);
      ExecCheck(vm, c, s);
      ExecAccess(vm, r, s);
      ExecAccess(vm, r', s);
      ExecCheck(vm, c', t);
      ShortBlocks(vm, c, r, r, s);
      ShortBlocks(vm, r, r, r, s);
      ShortBlocks(vm, r', c', c', s);
      ShortBlocks(vm, c', c', c', t);
    }
  }

  /** PGA, RDSPtr -> PshGPtr and PSF, RDSPtr -> PshVPtr and ChkRefS, RDSPtr -> RDSPtr, CHKREF */
  lemma ReadPreserves(vm: VM, code: seq<Ins>, k: nat)
    requires k < |code| && TablesFull(code) && code[k].op == Op.RDSPtr && RDSPtrRule(code, k).Replace?
    requires code[k - 1].op == Op.PGA ==> IsGlobal(vm, PtrArg(code[k - 1]))
    requires code[k - 1].op == Op.PSF ==> vm.addressed(code[k - 1].w0) && Address(vm, code[k - 1].w0) != 0
    ensures Equivalent(vm, code, Apply(code, RDSPtrRule(code, k)), {})
  {
    hide Alike, AllStraight, Equivalent, TablesFull, IsGlobal, PtrArg, Address;
    var x, r := code[k - 1], code[k];
    assert code[k - 1..k + 1] == [x, r];
    if x.op == Op.ChkRefS {
      CheckMovedAlike(vm, x, r);
      AlikeReplaces(vm, code, k - 1, [x, r], [x.(op := Op.RDSPtr), r.(op := Op.CHKREF)]);
    } else {
      var n := x.(op := if x.op == Op.PGA then Op.PshGPtr else Op.PshVPtr);
      ReadAlike(vm, x, r, n);
      AlikeReplaces(vm, code, k - 1, [x, r], [n]);
    }
  }

  // ----- PopRPtr -----

  lemma MemberAlike(vm: VM, x: Ins, d: Ins, p: Ins, n: Ins)
    requires d.op == Op.ADDSi && p.op == Op.PopRPtr
    requires || (x.op == Op.PshVPtr && x.w0 == 0 && n.op == Op.LoadThisR && n.w0 == d.w0)
             || (x.op == Op.PshVPtr && n.op == Op.LoadRObjR && n.w0 == x.w0 && n.w1 == d.w0)
             || (x.op == Op.PSF && n.op == Op.LoadVObjR && n.w0 == x.w0 && n.w1 == d.w0 && Address(vm, x.w0) != 0)
    ensures Alike(vm, [x, d, p], [n]) && AllStraight([x, d, p]) && AllStraight([n])
  {
    hide Exec, Faults, Block, InfoType, PushValue, Popped, Top, SetBelow, Address;
    forall s
      ensures SameExit(Block(vm, [x, d, p], s), Block(vm, [n], s))
    {
      var t := Exec(vm, x, s);
      var u := Exec(vm, d, t);
      ExecPointerPush(vm, x, s);
      ExecStackOp(vm, d, t);
      ExecStackOp(vm, p, u);
      ExecRegisterLoad(vm, n, s);
      Stacked(s.core.stack, PointerPushed(vm, x, s), vm.plus(PointerPushed(vm, x, s).value, d.w0));
      Stacked(s.core.stack, Word(vm.plus(PointerPushed(vm, x, s).value, d.w0)), 0);
      ShortBlocks(vm, x, d, p, s);
      ShortBlocks(vm, d, p, p, t);
      ShortBlocks(vm, p, p, p, u);
      ShortBlocks(vm, n, n, n, s);
    }
  }

  /** PshVPtr x, ADDSi, PopRPtr -> LoadThisR or LoadRObjR x and PSF x, ADDSi, PopRPtr -> LoadVObjR x */
  lemma MemberPreserves(vm: VM, code: seq<Ins>, k: nat)
    requires k < |code| && TablesFull(code) && code[k].op == Op.PopRPtr && PopRPtrRule(code, k).Replace?
    requires PushesNonNull(vm, code[k - 2])
    ensures Equivalent(vm, code, Apply(code, PopRPtrRule(code, k)), {})
  {
    hide Alike, AllStraight, Equivalent, TablesFull, Address, InfoType, InfoStackInc;
    var x, d, p, n := code[k - 2], code[k - 1], code[k], PopRPtrRule(code, k).put[0];
    assert code[k - 2..k + 1] == [x, d, p];
    MemberAlike(vm, x, d, p, n);
    AlikeReplaces(vm, code, k - 2, [x, d, p], [n]);
  }

  // ----- REFCPY -----

  lemma HandleCopyAlike(vm: VM, x: Ins, r: Ins, n: Ins)
    requires x.op == Op.PSF && r.op == Op.REFCPY && n.op == Op.RefCpyV && n.w0 == x.w0 && PtrArg(n) == PtrArg(r)
    requires vm.addressed(x.w0)
    ensures Alike(vm, [x, r], [n]) && AllStraight([x, r]) && AllStraight([n])
  {
    hide Exec, Faults, Block, InfoType, PushValue, Popped, Top, Address, PtrArg, Assigned, IsLocal;
    AddressFound(vm, x.w0);
    forall s
      ensures SameExit(Block(vm, [x, r], s), Block(vm, [n], s))
    {
      var t := Exec(vm, x, s);
      ExecPointerPush(vm, x, s);
      ExecAccess(vm, r, t);
      ExecAccess(vm, n, s);
      Stacked(s.core.stack, PointerPushed(vm, x, s), 0);
      ShortBlocks(vm, x, r, r, s);
      ShortBlocks(vm, r, r, r, t);
      ShortBlocks(vm, n, n, n, s);
    }
  }

  /** PSF x, REFCPY -> RefCpyV x */
  lemma HandleCopyPreserves(vm: VM, code: seq<Ins>, k: nat)
    requires k < |code| && TablesFull(code) && code[k].op == Op.REFCPY && REFCPYRule(code, k).Replace?
    requires vm.addressed(code[k - 1].w0)
    ensures Equivalent(vm, code, Apply(code, REFCPYRule(code, k)), {})
  {
    hide Alike, AllStraight, Equivalent, TablesFull, InfoStackInc;
    var x, r, n := code[k - 1], code[k], REFCPYRule(code, k).put[0];
    assert code[k - 1..k + 1] == [x, r];
    HandleCopyAlike(vm, x, r, n);
    AlikeReplaces(vm, code, k - 1, [x, r], [n]);
  }

  // ----- FREE -----

  lemma ReleaseAlike(vm: VM, x: Ins, r: Ins)
    requires x.op in {Op.PSF, Op.VAR} && r.op == Op.FREE
    ensures Alike(vm, [x, r], [r, x]) && AllStraight([x, r]) && AllStraight([r, x])
  {
    hide Exec, Faults, Block, InfoType, PushValue, Address, PtrArg, Freed;
    forall s
      ensures SameExit(Block(vm, [x, r], s), Block(vm, [r, x], s))
    {
      var t, u := Exec(vm, x, s), Exec(vm, r, s);
      ExecPointerPush(vm, x, s);
      ExecHandle(vm, r, s);
      ExecHandle(vm, r, t);
      ExecPointerPush(vm, x, u);
      ShortBlocks(vm, x, r, r, s);
      ShortBlocks(vm, r, x, x, s);
      ShortBlocks(vm, r, r, r, t);
      ShortBlocks(vm, x, x, x, u);
    }
  }

  /** PSF, FREE -> FREE, PSF and VAR, FREE -> FREE, VAR */
  lemma ReleasePreserves(vm: VM, code: seq<Ins>, k: nat)
    requires k < |code| && TablesFull(code) && code[k].op == Op.FREE && FREERule(code, k).Replace?
    ensures Equivalent(vm, code, Apply(code, FREERule(code, k)), {})
  {
    hide Alike, AllStraight, Equivalent, TablesFull;
    var x, r := code[k - 1], code[k];
    assert code[k - 1..k + 1] == [x, r];
    ReleaseAlike(vm, x, r);
    AlikeReplaces(vm, code, k - 1, [x, r], [r, x]);
  }

  // ----- VAR -----

  lemma NamedAlike(vm: VM, x: Ins, g: Ins, n: Ins)
    requires x.op == Op.VAR && g.w0 == 0 && n.w0 == x.w0
    requires || (g.op == Op.GETREF && n.op == Op.PSF)
             || (g.op == Op.GETOBJREF && n.op == Op.PshVPtr && vm.addressed(x.w0))
    ensures Alike(vm, [x, g], [n]) && AllStraight([x, g]) && AllStraight([n])
  {
    hide Exec, Faults, Block, InfoType, PushValue, Below, SetBelow, Address, Fetch;
    forall s
      ensures SameExit(Block(vm, [x, g], s), Block(vm, [n], s))
    {
      var t := Exec(vm, x, s);
      ExecPointerPush(vm, x, s);
      ExecPointerPush(vm, n, s);
      if g.op == Op.GETREF {
        ExecStackOp(vm, g, t);
      } else {
        ExecAccess(vm, g, t);
        FetchVariable(vm, t, x.w0);
      }
      Stacked(s.core.stack, Offset(x.w0), PointerPushed(vm, n, s).value);
      ShortBlocks(vm, x, g, g, s);
      ShortBlocks(vm, g, g, g, t);
      ShortBlocks(vm, n, n, n, s);
    }
  }

  lemma NamedBelowAlike(vm: VM, x: Ins, y: Ins, g: Ins, n: Ins)
    requires x.op == Op.VAR && y.op == Op.PSF && g.w0 == PTR_SIZE && n.w0 == x.w0
    requires || (g.op == Op.GETREF && n.op == Op.PSF)
             || (g.op == Op.GETOBJREF && n.op == Op.PshVPtr && vm.addressed(x.w0))
    ensures Alike(vm, [x, y, g], [n, y]) && AllStraight([x, y, g]) && AllStraight([n, y])
  {
    hide Exec, Faults, Block, InfoType, PushValue, Below, SetBelow, Address, Fetch;
    forall s
      ensures SameExit(Block(vm, [x, y, g], s), Block(vm, [n, y], s))
    {
      var t := Exec(vm, x, s);
      var u, v := Exec(vm, y, t), Exec(vm, n, s);
      ExecPointerPush(vm, x, s);
      ExecPointerPush(vm, y, t);
      ExecPointerPush(vm, n, s);
      ExecPointerPush(vm, y, v);
      if g.op == Op.GETREF {
        ExecStackOp(vm, g, u);
      } else {
        ExecAccess(vm, g, u);
        FetchVariable(vm, u, x.w0);
      }
      StackedTwice(s.core.stack, Offset(x.w0), PointerPushed(vm, y, s), PointerPushed(vm, n, s).value);
      ShortBlocks(vm, x, y, g, s);
      ShortBlocks(vm, y, g, g, t);
      ShortBlocks(vm, g, g, g, u);
      ShortBlocks(vm, n, y, y, s);
      ShortBlocks(vm, y, y, y, v);
    }
  }

  /** VAR, PSF, GETOBJREF -> PshVPtr, PSF and VAR a, GETREF 0 -> PSF a and VAR a, GETOBJREF 0 -> PshVPtr a */
  lemma NamedPreserves(vm: VM, code: seq<Ins>, k: nat)
    requires k < |code| && TablesFull(code) && code[k].op == Op.VAR && VarRule(code, k).Replace?
    requires (exists i :: 0 <= i < |code| && code[i].op == Op.GETOBJREF) ==> vm.addressed(code[k].w0)
    ensures Equivalent(vm, code, Apply(code, VarRule(code, k)), {})
  {
    hide Alike, AllStraight, Equivalent, TablesFull;
    var x, n := code[k], VarRule(code, k).put[0];
    if PushedThen(code, k, Op.GETOBJREF) {
      assert code[k..k + 3] == [x, code[k + 1], code[k + 2]];
      NamedBelowAlike(vm, x, code[k + 1], code[k + 2], n);
      AlikeReplaces(vm, code, k, [x, code[k + 1], code[k + 2]], [n, code[k + 1]]);
    } else {
      assert code[k..k + 2] == [x, code[k + 1]];
      NamedAlike(vm, x, code[k + 1], n);
      AlikeReplaces(vm, code, k, [x, code[k + 1]], [n]);
    }
  }

  /** VAR, PSF, GETREF -> PSF, PSF; it is tried last, whatever instruction the rules before it left. */
  lemma NamedReferencePreserves(vm: VM, code: seq<Ins>, k: nat)
    requires k < |code| && TablesFull(code) && code[k].op == Op.VAR && VarRefRule(code, k).Replace?
    ensures Equivalent(vm, code, Apply(code, VarRefRule(code, k)), {})
  {
    hide Alike, AllStraight, Equivalent, TablesFull;
    var x, n := code[k], VarRefRule(code, k).put[0];
    assert code[k..k + 3] == [x, code[k + 1], code[k + 2]];
    NamedBelowAlike(vm, x, code[k + 1], code[k + 2], n);
    AlikeReplaces(vm, code, k, [x, code[k + 1], code[k + 2]], [n, code[k + 1]]);
  }

  // ----- PopPtr, all rules -----

  /** A pointer pushed and popped: all rules but the one for a stored handle. */
  lemma PopPreserves(vm: VM, code: seq<Ins>, k: nat, temps: set<int>)
    requires k < |code| && TablesFull(code) && code[k].op == Op.PopPtr && PopPtrRule(code, k, temps).Replace?
    requires code[k - 1].op != Op.RDSPtr && code[k - 1].op != Op.FREE
    requires k > 1 && code[k - 2].op == Op.PSF && code[k - 1].op == Op.ChkRefS ==> vm.addressed(code[k - 2].w0)
    requires code[k - 1].op == Op.RefCpyV ==>
      vm.addressed(code[k - 1].w0) && vm.handling(PtrArg(code[k - 1])) != ByValue
    ensures Equivalent(vm, code, Apply(code, PopPtrRule(code, k, temps)), {})
  {
    hide Alike, AllStraight, Equivalent, TablesFull, PtrArg, StoredHandleRule;
    var p, x := code[k], code[k - 1];
    var put := PopPtrRule(code, k, temps).put;
    if k > 1 && x.op in {Op.RefCpyV, Op.ChkRefS, Op.CHKREF} {
      assert code[k - 2..k + 1] == [code[k - 2], x, p];
      if x.op == Op.RefCpyV {
        ClearedHandleAlike(vm, code[k - 2], x, p, put[0]);
      } else {
        CheckedPopAlike(vm, code[k - 2], x, p, put[0]);
      }
      AlikeReplaces(vm, code, k - 2, [code[k - 2], x, p], [put[0]]);
    } else {
      assert code[k - 1..k + 1] == [x, p];
      PushPopAlike(vm, x, p);
      NoneStraight();
      AlikeReplaces(vm, code, k - 1, [x, p], []);
    }
  }

  lemma NoneStraight()
    ensures AllStraight([])
  {
  }

  // ----- LDV -----

  lemma IncrementTypes()
    ensures InfoType(Op.IncVi) == rW_ARG && InfoType(Op.DecVi) == rW_ARG
  {
  }

  lemma ExecIncrement(vm: VM, ins: Ins, s: State)
    requires ins.op == Op.IncVi || ins.op == Op.DecVi
    ensures Exec(vm, ins, s) ==
      s.(vars := s.vars[ins.w0 := Signed32(Read(s.vars, ins.w0) + (if ins.op == Op.IncVi then 1 else -1))])
  {
    hide InfoType, Signed32;
    IncrementTypes();
  }

  // The variable whose address is in the register goes up or down by one.
  lemma ExecThroughAddress(vm: VM, l: Ins, i: Ins, s: State)
    requires l.op == Op.LDV && i.op in {Op.INCi, Op.DECi} && vm.addressed(l.w0)
    ensures Exec(vm, i, Exec(vm, l, s)) == State(
      s.vars[l.w0 := Signed32(Read(s.vars, l.w0) + (if i.op == Op.INCi then 1 else -1))],
      s.core.(reg := Address(vm, l.w0)))
  {
    hide InfoType, Signed32, IsLocal, Address;
    AddressFound(vm, l.w0);
    ExecRegisterLoad(vm, l, s);
    ExecAccess(vm, i, Exec(vm, l, s));
  }

  /** LDV x, INCi -> IncVi x and LDV x, DECi -> DecVi x when the register is not used afterwards. */
  lemma IncrementPreserves(vm: VM, code: seq<Ins>, k: nat, temps: set<int>)
    requires k < |code| && TablesFull(code) && Disciplined(code, temps, vm.hasResult)
    requires code[k].op == Op.LDV && LDVRule(code, k).Replace? && vm.addressed(code[k].w0)
    ensures Equivalent(vm, code, Apply(code, LDVRule(code, k)), {Register})
  {
    hide InfoType, TablesFull, LiveAt, Exec, Equivalent, Disciplined, RegUsedAfter, Rel, RegisterFree, Faults;
    hide NeverFaults, Signed32, Splice;
    var l, i, n, X := code[k], code[k + 1], LDVRule(code, k).put[0], {Register};
    FreeAfterAccess(vm, code, k + 1, temps);
    assert Discards(vm, code, X);
    forall s, s' | Rel(vm, code, k, s, s', X)
      ensures Rel(vm, code, k + 2, Exec(vm, i, Exec(vm, l, s)), Exec(vm, n, s'), X)
    {
      ExecThroughAddress(vm, l, i, s);
      ExecIncrement(vm, n, s');
      RelOutside(vm, code, k, s, s');
      SameUpdate(s.vars, s'.vars, l.w0, Signed32(Read(s.vars, l.w0) + (if i.op == Op.INCi then 1 else -1)),
                 Exec(vm, i, Exec(vm, l, s)).vars, Exec(vm, n, s').vars);
      RegisterLeft(vm, code, k + 2, Exec(vm, i, Exec(vm, l, s)), Exec(vm, n, s'));
    }
    IncrementIsCalm(vm, l, i, n);
    TwoReplaced(vm, code, k, [n], X);
  }

  lemma IncrementIsCalm(vm: VM, l: Ins, i: Ins, n: Ins)
    requires l.op == Op.LDV && i.op in {Op.INCi, Op.DECi} && n.op in {Op.IncVi, Op.DecVi}
    ensures Straight(l.op) && Straight(i.op) && Straight(n.op)
    ensures NeverFaults(vm, l) && NeverFaults(vm, i) && NeverFaults(vm, n)
  {
    hide NeverFaults;
    CalmNeverFaults(vm, l);
    CalmNeverFaults(vm, i);
    CalmNeverFaults(vm, n);
  }

  // ----- a stored handle -----

  // Taking a reference and giving it up again changes nothing.
  ghost predicate CountsBalance(vm: VM, t: int) {
    forall w, p :: vm.release(vm.addRef(w, p, t), p, t) == w
  }

  lemma Balanced(vm: VM, w: World, was: int, p: int, t: int)
    requires CountsBalance(vm, t) && vm.handling(t) != ByValue
    ensures Freed(vm, Assigned(vm, w, was, p, t), p, t) == Freed(vm, w, was, t)
  {
  }

  // STOREOBJ y, PSF y, RDSPtr, PSF x, REFCPY: the handle is in both variables, and counted once more.
  lemma HandleStored(vm: VM, so: Ins, py: Ins, rd: Ins, px: Ins, rc: Ins, s: State) returns (t: State)
    requires so.op == Op.STOREOBJ && py.op == Op.PSF && rd.op == Op.RDSPtr && px.op == Op.PSF && rc.op == Op.REFCPY
    requires so.w0 == py.w0 != px.w0 && vm.addressed(py.w0) && vm.addressed(px.w0) && Address(vm, py.w0) != 0
    ensures var p := s.core.obj;
      && t.core == s.core.(obj := 0, stack := PushValue(s.core.stack, Word(p), PTR_SIZE),
           world := Assigned(vm, s.core.world, Read(s.vars, px.w0), p, PtrArg(rc)))
      && t.vars == s.vars[so.w0 := p][px.w0 := p]
    ensures forall rest :: Block(vm, [so, py, rd, px, rc] + rest, s) == Block(vm, rest, t)
  {
    hide InfoType, Exec, Faults, Block, PushValue, Popped, Top, Address, IsLocal, PtrArg, Assigned, SetBelow;
    var s1 := Exec(vm, so, s);
    ExecHandle(vm, so, s);
    var s2 := Exec(vm, py, s1);
    ExecPointerPush(vm, py, s1);
    Stacked(s.core.stack, PointerPushed(vm, py, s1), s.core.obj);
    AddressFound(vm, py.w0);
    var s3 := Exec(vm, rd, s2);
    ExecAccess(vm, rd, s2);
    var s4 := Exec(vm, px, s3);
    ExecPointerPush(vm, px, s3);
    Stacked(s3.core.stack, PointerPushed(vm, px, s3), 0);
    Stacked(s.core.stack, Word(s.core.obj), 0);
    AddressFound(vm, px.w0);
    ExecAccess(vm, rc, s4);
    t := Exec(vm, rc, s4);
    forall rest
      ensures Block(vm, [so, py, rd, px, rc] + rest, s) == Block(vm, rest, t)
    {
      FiveSteps(vm, so, py, rd, px, rc, rest, s);
    }
  }

  lemma FiveSteps(vm: VM, a: Ins, b: Ins, c: Ins, d: Ins, e: Ins, rest: seq<Ins>, s: State)
    requires Straight(a.op) && Straight(b.op) && Straight(c.op) && Straight(d.op) && Straight(e.op)
    requires !Faults(vm, a, s)
    requires var s1 := Exec(vm, a, s); !Faults(vm, b, s1)
    requires var s2 := Exec(vm, b, Exec(vm, a, s)); !Faults(vm, c, s2)
    requires var s3 := Exec(vm, c, Exec(vm, b, Exec(vm, a, s))); !Faults(vm, d, s3)
    requires var s4 := Exec(vm, d, Exec(vm, c, Exec(vm, b, Exec(vm, a, s)))); !Faults(vm, e, s4)
    ensures Block(vm, [a, b, c, d, e] + rest, s) ==
      Block(vm, rest, Exec(vm, e, Exec(vm, d, Exec(vm, c, Exec(vm, b, Exec(vm, a, s))))))
  {
    hide Exec, Faults, Block;
    var s1 := Exec(vm, a, s);
    var s2 := Exec(vm, b, s1);
    var s3 := Exec(vm, c, s2);
    assert [a, b, c, d, e] + rest == [a] + ([b, c, d, e] + rest);
    BlockStep(vm, a, [b, c, d, e] + rest, s);
    assert [b, c, d, e] + rest == [b] + ([c, d, e] + rest);
    BlockStep(vm, b, [c, d, e] + rest, s1);
    assert [c, d, e] + rest == [c] + ([d, e] + rest);
    BlockStep(vm, c, [d, e] + rest, s2);
    assert [d, e] + rest == [d] + ([e] + rest);
    BlockStep(vm, d, [e] + rest, s3);
    BlockStep(vm, e, rest, Exec(vm, d, s3));
  }

  // FREE y, PopPtr behind it, and the three instructions that do the same as all.
  lemma StoredHandleAlike(vm: VM, a: seq<Ins>, b: seq<Ins>)
    requires |a| == 7 && |b| == 3
    requires a[0].op == Op.STOREOBJ && a[1].op == Op.PSF && a[2].op == Op.RDSPtr && a[3].op == Op.PSF
    requires a[4].op == Op.REFCPY && a[5].op == Op.FREE && a[6].op == Op.PopPtr
    requires a[0].w0 == a[1].w0 == a[5].w0 != a[3].w0 && PtrArg(a[5]) == PtrArg(a[4])
    requires b[0] == a[5].(w0 := a[3].w0) && b[1].op == Op.STOREOBJ && b[1].w0 == a[3].w0
    requires b[2].op == Op.ClrVPtr && b[2].w0 == a[0].w0
    requires vm.addressed(a[0].w0) && vm.addressed(a[3].w0) && Address(vm, a[0].w0) != 0
    requires CountsBalance(vm, PtrArg(a[4])) && vm.handling(PtrArg(a[4])) != ByValue
    ensures Alike(vm, a, b) && AllStraight(a) && AllStraight(b)
  {
    hide InfoType, Exec, Faults, Block, PushValue, Popped, Address, IsLocal, PtrArg, Assigned, Freed, CountsBalance;
    assert a == [a[0], a[1], a[2], a[3], a[4]] + [a[5], a[6]];
    assert b == [b[0], b[1], b[2]];
    FreeOf(a[5], a[3].w0);
    forall s
      ensures SameExit(Block(vm, a, s), Block(vm, b, s))
    {
      var p, x, y := s.core.obj, a[3].w0, a[0].w0;
      var t := HandleStored(vm, a[0], a[1], a[2], a[3], a[4], s);
      var t' := Exec(vm, a[5], t);
      ExecHandle(vm, a[5], t);
      ExecStackOp(vm, a[6], t');
      Stacked(s.core.stack, Word(p), 0);
      ShortBlocks(vm, a[5], a[6], a[6], t);
      ShortBlocks(vm, a[6], a[6], a[6], t');
      var u := Exec(vm, b[0], s);
      ExecHandle(vm, b[0], s);
      var v := Exec(vm, b[1], u);
      ExecHandle(vm, b[1], u);
      ExecHandle(vm, b[2], v);
      ShortBlocks(vm, b[0], b[1], b[2], s);
      ShortBlocks(vm, b[1], b[2], b[2], u);
      ShortBlocks(vm, b[2], b[2], b[2], v);
      Balanced(vm, s.core.world, Read(s.vars, x), p, PtrArg(a[4]));
    }
  }

  lemma FreeOf(ins: Ins, x: int)
    ensures PtrArg(ins.(w0 := x)) == PtrArg(ins)
  {
  }

  // What else has to hold of the seven instructions.
  ghost predicate HandleMoves(vm: VM, code: seq<Ins>, k: nat)
    requires 6 <= k < |code|
  {
    var x, y, t := code[k - 3].w0, code[k - 5].w0, PtrArg(code[k - 2]);
    && x != y && code[k - 1].w0 == y && PtrArg(code[k - 1]) == t
    && vm.addressed(x) && vm.addressed(y) && Address(vm, y) != 0
    && CountsBalance(vm, t) && vm.handling(t) != ByValue
  }

  /** STOREOBJ y, PSF y, RDSPtr, PSF x, REFCPY, FREE y, PopPtr -> FREE x, STOREOBJ x, but for the temporary
      y, which the seven instructions leave cleared. */
  lemma StoredHandlePreserves(vm: VM, code: seq<Ins>, k: nat, temps: set<int>, c: Ins)
    requires 0 < k < |code| && TablesFull(code) && code[k].op == Op.PopPtr && code[k - 1].op == Op.FREE
    requires StoredHandleRule(code, k, temps).Replace? && HandleMoves(vm, code, k)
    requires c.op == Op.ClrVPtr && c.w0 == code[k - 5].w0
    ensures Equivalent(vm, code, Splice(code, k - 6, 7, StoredHandleRule(code, k, temps).put + [c]), {})
  {
    hide Alike, AllStraight, Equivalent, TablesFull, PtrArg, Address, CountsBalance, LiveAt;
    var a, b := code[k - 6..k + 1], StoredHandleRule(code, k, temps).put + [c];
    StoredHandleAlike(vm, a, b);
    AlikeReplaces(vm, code, k - 6, a, b);
  }

  /** The rule does not look at the variable that is released: if that is a third one, its release is
      lost. */
  lemma OtherReleaseLost(vm: VM, a: seq<Ins>, b: seq<Ins>, world: World, p: int)
    requires |a| == 7 && |b| == 3
    requires a[0].op == Op.STOREOBJ && a[1].op == Op.PSF && a[2].op == Op.RDSPtr && a[3].op == Op.PSF
    requires a[4].op == Op.REFCPY && a[5].op == Op.FREE && a[6].op == Op.PopPtr
    requires a[0].w0 == a[1].w0 != a[3].w0 && a[5].w0 !in {a[0].w0, a[3].w0}
    requires b[0] == a[5].(w0 := a[3].w0) && b[1].op == Op.STOREOBJ && b[1].w0 == a[3].w0
    requires b[2].op == Op.ClrVPtr && b[2].w0 == a[0].w0
    requires vm.addressed(a[0].w0) && vm.addressed(a[3].w0) && Address(vm, a[0].w0) != 0
    requires p != 0 && vm.handling(PtrArg(a[5])) == Counted && vm.release(world, p, PtrArg(a[5])) != world
    ensures !Alike(vm, a, b)
  {
    hide InfoType, Exec, Faults, Block, PushValue, Popped, Address, IsLocal, PtrArg;
    assert a == [a[0], a[1], a[2], a[3], a[4]] + [a[5], a[6]];
    assert b == [b[0], b[1], b[2]];
    var s := State(map[a[5].w0 := p], Core(0, 0, [], world));
    var t := HandleStored(vm, a[0], a[1], a[2], a[3], a[4], s);
    var t' := Exec(vm, a[5], t);
    ExecHandle(vm, a[5], t);
    ExecStackOp(vm, a[6], t');
    ShortBlocks(vm, a[5], a[6], a[6], t);
    ShortBlocks(vm, a[6], a[6], a[6], t');
    var u := Exec(vm, b[0], s);
    ExecHandle(vm, b[0], s);
    var v := Exec(vm, b[1], u);
    ExecHandle(vm, b[1], u);
    ExecHandle(vm, b[2], v);
    ShortBlocks(vm, b[0], b[1], b[2], s);
    ShortBlocks(vm, b[1], b[2], b[2], u);
    ShortBlocks(vm, b[2], b[2], b[2], v);
    assert !SameExit(Block(vm, a, s), Block(vm, b, s));
  }

  /** RDSPtr, PopPtr -> PopPtr loses an exception: without RDSPtr a null pointer goes unnoticed. */
  lemma NullReadLost(vm: VM, r: Ins, p: Ins, world: World)
    requires r.op == Op.RDSPtr && p.op == Op.PopPtr
    ensures var s := State(map[], Core(0, 0, [Word(0)], world));
      Block(vm, [r, p], s) == Halt(world) && Block(vm, [p], s).Fall?
    ensures !Alike(vm, [r, p], [p])
  {
    hide InfoType, Exec, Faults, Block, Fetch;
    var s := State(map[], Core(0, 0, [Word(0)], world));
    ExecAccess(vm, r, s);
    ExecStackOp(vm, p, s);
    ShortBlocks(vm, r, p, p, s);
    ShortBlocks(vm, p, p, p, s);
    assert !SameExit(Block(vm, [r, p], s), Block(vm, [p], s));
  }

  /** VAR, PSF, GETREF -> PSF, PSF where a rule before it has already resolved the VAR: the GETREF would
      resolve it again. */
  lemma ResolvedTwiceUpholds(vm: VM, code: seq<Ins>, k: nat)
    requires k < |code| && TablesFull(code) && code[k].op in {Op.PSF, Op.PshVPtr} && VarRefRule(code, k).Replace?
    ensures Upholds(vm, code, Apply(code, VarRefRule(code, k)), {})
  {
    hide TablesFull, TablesClear, Upholds, Block, Rel, ExitRel, Discards, AllStraight, IsBlock;
    var x, y, g, put := code[k], code[k + 1], code[k + 2], VarRefRule(code, k).put;
    var a := [x, y, g];
    assert code[k..k + 3] == a;
    NothingDiscarded(vm, code);
    ResolvedTwiceStraight(x, y, g, put);
    WindowClear(code, k, a);
    StraightIsBlock(a);
    StraightIsBlock(put);
    forall s
      ensures Block(vm, a, s).Halt?
    {
      ResolvedTwiceHalts(vm, x, y, g, s);
    }
    BlockUpholds(vm, code, k, 3, put, {});
  }

  lemma ResolvedTwiceStraight(x: Ins, y: Ins, g: Ins, put: seq<Ins>)
    requires x.op in {Op.PSF, Op.PshVPtr} && y.op == Op.PSF && g.op == Op.GETREF && put == [x.(op := Op.PSF), y]
    ensures AllStraight([x, y, g]) && AllStraight(put)
  {
  }

  lemma ResolvedTwiceHalts(vm: VM, x: Ins, y: Ins, g: Ins, s: State)
    requires x.op in {Op.PSF, Op.PshVPtr} && y.op == Op.PSF && g.op == Op.GETREF && g.w0 == PTR_SIZE
    ensures Block(vm, [x, y, g], s).Halt?
  {
    hide Exec, Faults, Block, InfoType, PushValue, Below, SetBelow, Address;
    var t := Exec(vm, x, s);
    var u := Exec(vm, y, t);
    ExecPointerPush(vm, x, s);
    ExecPointerPush(vm, y, t);
    ExecStackOp(vm, g, u);
    StackedTwice(s.core.stack, PointerPushed(vm, x, s), PointerPushed(vm, y, t), 0);
    ShortBlocks(vm, x, y, g, s);
    ShortBlocks(vm, y, g, g, t);
    ShortBlocks(vm, g, g, g, u);
  }
}
