/** The short sequences that the optimizer replaces: each replacement has the stack effect of what
    it replaces and agrees with the instruction tables. */
module SequencesKept {
  import Op
  import opened Tables
  import opened Instructions
  import opened Machine
  import opened Blocks
  import opened Skeletons
  import opened DepthKept
  import opened Layout
  import opened Peephole

  // ----- what the tables say -----

  lemma VariableTypes()
    ensures InfoType(Op.PSF) == rW_ARG && InfoType(Op.VAR) == rW_ARG
    ensures InfoType(Op.PshVPtr) == rW_ARG && InfoType(Op.ChkNullV) == rW_ARG
  {
  }

  lemma CheckTypes()
    ensures InfoType(Op.RDSPtr) == NO_ARG && InfoType(Op.CHKREF) == NO_ARG && InfoType(Op.ChkRefS) == NO_ARG
    ensures InfoType(Op.STOREOBJ) == wW_ARG
  {
  }

  lemma PointerTypes()
    ensures InfoType(Op.PGA) == PTR_ARG && InfoType(Op.PshGPtr) == PTR_ARG && InfoType(Op.REFCPY) == PTR_ARG
  {
  }

  lemma HandleTypes()
    ensures InfoType(Op.RefCpyV) == wW_PTR_ARG && InfoType(Op.FREE) == wW_PTR_ARG
  {
  }

  lemma StackTypes()
    ensures InfoType(Op.PSF) == rW_ARG && InfoType(Op.VAR) == rW_ARG
    ensures InfoType(Op.PshVPtr) == rW_ARG && InfoType(Op.ChkNullV) == rW_ARG
    ensures InfoType(Op.RDSPtr) == NO_ARG && InfoType(Op.CHKREF) == NO_ARG && InfoType(Op.ChkRefS) == NO_ARG
    ensures InfoType(Op.STOREOBJ) == wW_ARG
    ensures InfoType(Op.PGA) == PTR_ARG && InfoType(Op.PshGPtr) == PTR_ARG && InfoType(Op.REFCPY) == PTR_ARG
    ensures InfoType(Op.RefCpyV) == wW_PTR_ARG && InfoType(Op.FREE) == wW_PTR_ARG
  {
    hide InfoType;
    VariableTypes();
    CheckTypes();
    PointerTypes();
    HandleTypes();
  }

  lemma IncrementTypes()
    ensures InfoType(Op.LDV) == rW_ARG && InfoType(Op.IncVi) == rW_ARG && InfoType(Op.DecVi) == rW_ARG
  {
  }

  lemma GlobalTypes()
    ensures InfoType(Op.CpyVtoG4) == rW_PTR_ARG
    ensures InfoType(Op.CpyGtoV4) == wW_PTR_ARG && InfoType(Op.LdGRdR4) == wW_PTR_ARG
  {
  }

  lemma OffsetTypes()
    ensures InfoType(Op.ADDSi) == W_DW_ARG && InfoType(Op.LoadThisR) == W_DW_ARG
    ensures InfoType(Op.LoadRObjR) == rW_W_DW_ARG && InfoType(Op.LoadVObjR) == rW_W_DW_ARG
  {
  }

  lemma JumpTypes(op: int)
    requires IsCondJump(op)
    ensures InfoType(op) == DW_ARG && InfoStackInc(op) == 0 && !VariableStackInc(op) && 0 <= op < Op.MAXBYTECODE
  {
  }

  lemma TestTypes(op: int)
    requires IsTest(op) || op == Op.ClrHi
    ensures InfoStackInc(op) == 0 && !VariableStackInc(op) && !IsMark(op) && 0 <= op < Op.MAXBYTECODE
  {
  }

  // ----- sizes and fields -----

  // Up to three instructions replaced by one or two.
  lemma ShortSlimmer(a: seq<Ins>, put: seq<Ins>)
    requires 2 <= |a| <= 3 && 1 <= |put| <= 2
    requires forall noLineCues: bool :: PartWritable(a, noLineCues) ==>
      && (forall i :: 0 <= i < |put| ==> Sized(put[i], noLineCues) && InRange(put[i]))
      && put[0].size + (if |put| == 2 then put[1].size else 0)
        <= a[0].size + a[1].size + (if |a| == 3 then a[2].size else 0)
    ensures Slimmer(a, put)
  {
    hide Sized, InRange, Size;
    Sizes(a);
    Sizes(put);
    if |put| == 1 {
      assert put == [put[0]];
      SizeOfOne(put[0]);
    }
    forall noLineCues: bool | PartWritable(a, noLineCues)
      ensures PartWritable(put, noLineCues) && Size(put) <= Size(a)
    {
    }
  }

  lemma SwapSizes(a: Ins, b: Ins, c: Ins)
    ensures Slimmer([a, b, c], [b, a]) && Slimmer([a, b], [b, a])
  {
    hide InRange, InfoType;
    forall noLineCues: bool | PartWritable([a, b, c], noLineCues)
      ensures Sized(b, noLineCues) && InRange(b) && Sized(a, noLineCues) && InRange(a) && c.size >= 0
    {
      assert [a, b, c][0] == a && [a, b, c][1] == b && [a, b, c][2] == c;
    }
    forall noLineCues: bool | PartWritable([a, b], noLineCues)
      ensures Sized(b, noLineCues) && InRange(b) && Sized(a, noLineCues) && InRange(a)
    {
      assert [a, b][0] == a && [a, b][1] == b;
    }
    ShortSlimmer([a, b, c], [b, a]);
    ShortSlimmer([a, b], [b, a]);
  }

  lemma JumpSizes(t: Ins, j: Ins, op: int)
    requires IsCondJump(j.op) && IsCondJump(op)
    ensures Slimmer([t, j], [j.(op := op)])
  {
    hide InfoType, Signed16, Signed32;
    JumpTypes(j.op);
    JumpTypes(op);
    forall noLineCues: bool | PartWritable([t, j], noLineCues)
      ensures Sized(j.(op := op), noLineCues) && InRange(j.(op := op)) && t.size >= 0
    {
      assert [t, j][0] == t && [t, j][1] == j;
    }
    ShortSlimmer([t, j], [j.(op := op)]);
  }

  // The operands of an instruction taken from others.
  predicate FieldsOf(n: Ins, c: Ins, d: Ins) {
    && (n.a0 == c.a0 || n.a0 == d.a0) && n.a1 == c.a1
    && (n.w0 == c.w0 || n.w0 == d.w0) && (n.w1 == c.w1 || n.w1 == d.w0) && n.w2 == c.w2
  }

  lemma RegisterSizes(c: Ins, d: Ins, n: Ins)
    requires FieldsOf(n, c, d)
    requires
      || (c.op == Op.LDV && n.op in {Op.IncVi, Op.DecVi} && n.size == c.size)
      || (c.op == Op.LDG && n.op in {Op.CpyVtoG4, Op.CpyGtoV4, Op.LdGRdR4} && n.size == TypeSize(InfoType(n.op)))
    ensures Slimmer([c, d], [n])
  {
    hide InfoType, Signed16, Signed32;
    IncrementTypes();
    GlobalTypes();
    AddressType();
    forall noLineCues: bool | PartWritable([c, d], noLineCues)
      ensures Sized(n, noLineCues) && InRange(n) && n.size <= c.size + d.size
    {
      assert [c, d][0] == c && [c, d][1] == d;
    }
    ShortSlimmer([c, d], [n]);
  }

  lemma AddressType()
    ensures InfoType(Op.LDG) == PTR_ARG
  {
  }

  lemma PopSizes(a: Ins, b: Ins, c: Ins, n: Ins)
    requires
      || (b.op == Op.RefCpyV && n == b.(op := Op.FREE))
      || (a.op in {Op.PSF, Op.PshVPtr} && n == a.(op := Op.ChkNullV, stackInc := 0))
    ensures Slimmer([a, b, c], [n])
  {
    hide InfoType, Signed16, Signed32;
    StackTypes();
    forall noLineCues: bool | PartWritable([a, b, c], noLineCues)
      ensures Sized(n, noLineCues) && InRange(n) && n.size <= a.size + b.size + c.size
    {
      assert [a, b, c][0] == a && [a, b, c][1] == b && [a, b, c][2] == c;
    }
    ShortSlimmer([a, b, c], [n]);
  }

  lemma PopRSizes(a: Ins, b: Ins, c: Ins, n: Ins)
    requires a.op in {Op.PshVPtr, Op.PSF} && b.op == Op.ADDSi && c.op == Op.PopRPtr
    requires n == b.(op := Op.LoadThisR)
      || (n.op in {Op.LoadRObjR, Op.LoadVObjR} && n.size == TypeSize(InfoType(n.op)) && FieldsOf(n, a, b))
    ensures Slimmer([a, b, c], [n])
  {
    hide InfoType, Signed16, Signed32;
    StackTypes();
    OffsetTypes();
    PopRType();
    forall noLineCues: bool | PartWritable([a, b, c], noLineCues)
      ensures Sized(n, noLineCues) && InRange(n) && n.size <= a.size + b.size + c.size
    {
      assert [a, b, c][0] == a && [a, b, c][1] == b && [a, b, c][2] == c;
    }
    ShortSlimmer([a, b, c], [n]);
  }

  lemma PopRType()
    ensures InfoType(Op.PopRPtr) == NO_ARG
  {
  }

  lemma StackSizes(a: Ins, b: Ins, n: Ins)
    requires
      || (a.op == Op.PGA && n == a.(op := Op.PshGPtr))
      || (a.op in {Op.PSF, Op.VAR} && n.op in {Op.PshVPtr, Op.PSF} && n == a.(op := n.op))
      || (b.op == Op.REFCPY && n == b.(op := Op.RefCpyV, w0 := a.w0, stackInc := n.stackInc))
    ensures Slimmer([a, b], [n])
  {
    hide InfoType, Signed16, Signed32;
    StackTypes();
    forall noLineCues: bool | PartWritable([a, b], noLineCues)
      ensures Sized(n, noLineCues) && InRange(n) && n.size <= a.size + b.size
    {
      assert [a, b][0] == a && [a, b][1] == b;
    }
    ShortSlimmer([a, b], [n]);
  }

  lemma CheckSizes(a: Ins, b: Ins)
    requires a.op == Op.ChkRefS && b.op == Op.RDSPtr
    ensures Slimmer([a, b], [a.(op := Op.RDSPtr), b.(op := Op.CHKREF)])
  {
    hide InfoType, Signed16, Signed32;
    StackTypes();
    var put := [a.(op := Op.RDSPtr), b.(op := Op.CHKREF)];
    forall noLineCues: bool | PartWritable([a, b], noLineCues)
      ensures forall i :: 0 <= i < 2 ==> Sized(put[i], noLineCues) && InRange(put[i])
    {
      assert [a, b][0] == a && [a, b][1] == b;
    }
    ShortSlimmer([a, b], put);
  }

  lemma GetRefSizes(a: Ins, b: Ins, c: Ins, op: int)
    requires a.op in {Op.VAR, Op.PshVPtr, Op.PSF} && op in {Op.PshVPtr, Op.PSF}
    ensures Slimmer([a, b, c], [a.(op := op), b])
  {
    hide InfoType, Signed16, Signed32;
    StackTypes();
    forall noLineCues: bool | PartWritable([a, b, c], noLineCues)
      ensures Sized(a.(op := op), noLineCues) && InRange(a.(op := op)) && Sized(b, noLineCues) && InRange(b)
      ensures c.size >= 0
    {
      assert [a, b, c][0] == a && [a, b, c][1] == b && [a, b, c][2] == c;
    }
    ShortSlimmer([a, b, c], [a.(op := op), b]);
  }

  // ----- the replacements -----

  lemma SwapKept(code: seq<Ins>, curr: nat)
    requires Good(code) && 2 <= curr < |code| && code[curr].op == Op.SwapPtr
    requires code[curr - 1].op in {Op.PshNull, Op.PshVPtr, Op.PSF}
    requires code[curr - 2].op in {Op.PshNull, Op.PshVPtr, Op.PSF}
    ensures Progress(code, Splice(code, curr - 2, 3, [code[curr - 1], code[curr - 2]]))
  {
    hide Good, Progress, InfoType;
    ConformAt(code, curr);
    ConformAt(code, curr - 1);
    ConformAt(code, curr - 2);
    assert code[curr - 2..curr + 1] == [code[curr - 2], code[curr - 1], code[curr]];
    SwapSizes(code[curr - 2], code[curr - 1], code[curr]);
    Rewrote(code, curr - 2, 3, [code[curr - 1], code[curr - 2]]);
  }

  lemma DropKept(code: seq<Ins>, k: nat)
    requires Good(code) && k < |code| && code[k].op in {Op.ClrHi, Op.CHKREF, Op.RDSPtr}
    ensures Progress(code, Splice(code, k, 1, []))
  {
    hide Good, Progress, InfoType;
    ConformAt(code, k);
    assert AllConform([]);
    NothingIsSlimmer(code[k..k + 1]);
    Rewrote(code, k, 1, []);
  }

  // A test or ClrHi joined with the conditional jump behind it.
  lemma JumpKept(code: seq<Ins>, k: nat, op: int)
    requires Good(code) && k + 1 < |code| && (IsTest(code[k].op) || code[k].op == Op.ClrHi)
    requires IsCondJump(code[k + 1].op) && IsCondJump(op)
    ensures Progress(code, Splice(code, k, 2, [code[k + 1].(op := op)]))
  {
    hide Good, Progress, InfoType, InfoStackInc, IsCondJump, VariableStackInc;
    var t, j := code[k], code[k + 1];
    var n := j.(op := op);
    ConformAt(code, k);
    ConformAt(code, k + 1);
    TestTypes(t.op);
    JumpTypes(j.op);
    JumpTypes(op);
    var a := code[k..k + 2];
    assert a == [t, j] && a[..1] == [t] && [n][..0] == [];
    Shapes([t]);
    assert SameShape(a, [n]);
    JumpSizes(t, j, op);
    NoForksKept(a, [n]);
    Shrunk(code, k, 2, [n]);
  }

  // Conditional jumps that read only the low byte of the register.
  function LowJump(op: int): int {
    if op == Op.JZ then Op.JLowZ else Op.JLowNZ
  }

  // The jump that does what a test followed by a jump on its result does; -1 if there is none.
  function TestAndJump(test: int, jump: int): int {
    var onZero, onOne := jump == Op.JZ || jump == Op.JLowZ, jump == Op.JNZ || jump == Op.JLowNZ;
    if (test == Op.TZ && onZero) || (test == Op.TNZ && onOne) then Op.JNZ
    else if (test == Op.TNZ && onZero) || (test == Op.TZ && onOne) then Op.JZ
    else if (test == Op.TS && onZero) || (test == Op.TNS && onOne) then Op.JNS
    else if (test == Op.TNS && onZero) || (test == Op.TS && onOne) then Op.JS
    else if (test == Op.TP && onZero) || (test == Op.TNP && onOne) then Op.JNP
    else if (test == Op.TNP && onZero) || (test == Op.TP && onOne) then Op.JP
    else -1
  }

  lemma RegisterConforms(c: Ins, n: Ins)
    requires Conforms(c) && n.stackInc == c.stackInc
    requires (c.op == Op.LDV && n.op in {Op.IncVi, Op.DecVi} && n.size == c.size)
      || (c.op == Op.LDG && n.op in {Op.CpyVtoG4, Op.CpyGtoV4, Op.LdGRdR4} && n.size == TypeSize(InfoType(n.op)))
    ensures Conforms(n)
  {
    hide InfoType;
    IncrementTypes();
  }

  // An access through the value register, joined with the load of the register.
  lemma RegisterKept(code: seq<Ins>, k: nat, n: Ins)
    requires Good(code) && k + 1 < |code| && n.stackInc == code[k].stackInc && FieldsOf(n, code[k], code[k + 1])
    requires
      || (code[k].op == Op.LDV && code[k + 1].op in {Op.INCi, Op.DECi} && n.op in {Op.IncVi, Op.DecVi}
          && n.size == code[k].size)
      || (code[k].op == Op.LDG && code[k + 1].op == Op.WRTV4 && n.op == Op.CpyVtoG4
          && n.size == TypeSize(InfoType(Op.CpyVtoG4)))
      || (code[k].op == Op.LDG && code[k + 1].op == Op.RDR4 && n.op in {Op.CpyGtoV4, Op.LdGRdR4}
          && n.size == TypeSize(InfoType(Op.CpyGtoV4)))
    ensures Progress(code, Splice(code, k, 2, [n]))
  {
    hide Good, Progress, InfoType;
    IncrementTypes();
    GlobalTypes();
    ConformAt(code, k);
    ConformAt(code, k + 1);
    RegisterConforms(code[k], n);
    assert code[k..k + 2] == [code[k], code[k + 1]];
    RegisterSizes(code[k], code[k + 1], n);
    Rewrote(code, k, 2, [n]);
  }

  lemma PushPopKept(code: seq<Ins>, curr: nat)
    requires Good(code) && 0 < curr < |code| && code[curr].op == Op.PopPtr
    requires code[curr - 1].op in {Op.PshRPtr, Op.PSF, Op.VAR, Op.PshVPtr, Op.PshNull}
    ensures Progress(code, Splice(code, curr - 1, 2, []))
  {
    hide Good, Progress, InfoType;
    ConformAt(code, curr);
    ConformAt(code, curr - 1);
    assert AllConform([]);
    NothingIsSlimmer(code[curr - 1..curr + 1]);
    Rewrote(code, curr - 1, 2, []);
  }

  // A pointer pushed, used in place, and popped.
  lemma PopKept(code: seq<Ins>, curr: nat, n: Ins)
    requires Good(code) && 2 <= curr < |code| && code[curr].op == Op.PopPtr
    requires var a, b := code[curr - 2], code[curr - 1];
      || (a.op == Op.PshNull && b.op == Op.RefCpyV && n == b.(op := Op.FREE))
      || (a.op == Op.PSF && b.op == Op.ChkRefS && n == a.(op := Op.ChkNullV, stackInc := 0))
      || (a.op == Op.PshVPtr && b.op == Op.CHKREF && n == a.(op := Op.ChkNullV, stackInc := 0))
    ensures Progress(code, Splice(code, curr - 2, 3, [n]))
  {
    hide Good, Progress, InfoType;
    StackTypes();
    ConformAt(code, curr);
    ConformAt(code, curr - 1);
    ConformAt(code, curr - 2);
    assert code[curr - 2..curr + 1] == [code[curr - 2], code[curr - 1], code[curr]];
    PopSizes(code[curr - 2], code[curr - 1], code[curr], n);
    Rewrote(code, curr - 2, 3, [n]);
  }

  // A handle stored in a temporary `y`, copied from there and released.
  predicate IsStoredHandle(code: seq<Ins>, curr: nat)
    requires 6 <= curr < |code|
  {
    && code[curr - 2].op == Op.REFCPY
    && code[curr - 3].op == Op.PSF
    && code[curr - 4].op == Op.RDSPtr
    && code[curr - 5].op == Op.PSF
    && code[curr - 6].op == Op.STOREOBJ && code[curr - 6].w0 == code[curr - 5].w0
  }

  function StoreAs(ins: Ins, x: int, size: int): Ins {
    ins.(op := Op.STOREOBJ, stackInc := 0, w0 := x, size := size)
  }

  lemma StoredHandleKept(code: seq<Ins>, curr: nat)
    requires Good(code) && 6 <= curr < |code| && IsStoredHandle(code, curr)
    requires code[curr].op == Op.PopPtr && code[curr - 1].op == Op.FREE
    ensures var x := code[curr - 3].w0;
      Progress(code, Splice(code, curr - 6, 7, [code[curr - 1].(w0 := x), StoreAs(code[curr], x, code[curr - 6].size)]))
  {
    hide Good, Progress, InfoType, SameShape, Slimmer, ForksKept;
    var k, x := curr - 6, code[curr - 3].w0;
    var put := [code[curr - 1].(w0 := x), StoreAs(code[curr], x, code[k].size)];
    StackTypes();
    ConformAt(code, k);
    ConformAt(code, k + 1);
    ConformAt(code, k + 2);
    ConformAt(code, k + 3);
    ConformAt(code, k + 4);
    ConformAt(code, k + 5);
    ConformAt(code, k + 6);
    NetOfSeven(code, k);
    Shapes(put);
    SevenUnmarked(code, k);
    PlainShape(code[k..k + 7], put);
    StoredHandleSlimmer(code, curr);
    NoForksKept(code[k..k + 7], put);
    Shrunk(code, k, 7, put);
  }

  lemma StoredHandleSlimmer(code: seq<Ins>, curr: nat)
    requires 6 <= curr < |code| && IsStoredHandle(code, curr)
    requires code[curr].op == Op.PopPtr && code[curr - 1].op == Op.FREE
    ensures var x := code[curr - 3].w0;
      Slimmer(code[curr - 6..curr + 1], [code[curr - 1].(w0 := x), StoreAs(code[curr], x, code[curr - 6].size)])
  {
    hide InfoType, Signed16, Signed32, Size;
    var k, x := curr - 6, code[curr - 3].w0;
    var a, put := code[k..k + 7], [code[curr - 1].(w0 := x), StoreAs(code[curr], x, code[k].size)];
    StackTypes();
    Sizes(put);
    forall noLineCues: bool | PartWritable(a, noLineCues)
      ensures PartWritable(put, noLineCues) && Size(put) <= Size(a)
    {
      assert a[0] == code[k] && a[3] == code[curr - 3] && a[5] == code[curr - 1] && a[6] == code[curr];
      PartSize(a, noLineCues, 0, 5);
    }
  }

  // Two of the instructions take up no more words than all.
  lemma PartSize(a: seq<Ins>, noLineCues: bool, i: nat, j: nat)
    requires PartWritable(a, noLineCues) && i < j < |a|
    ensures a[i].size + a[j].size <= Size(a)
  {
    hide Sized, InRange, Size;
    assert a == a[..i] + [a[i]] + a[i + 1..j] + [a[j]] + a[j + 1..];
    SizeOfSum(a[..i] + [a[i]] + a[i + 1..j] + [a[j]], a[j + 1..]);
    SizeOfSum(a[..i] + [a[i]] + a[i + 1..j], [a[j]]);
    SizeOfSum(a[..i] + [a[i]], a[i + 1..j]);
    SizeOfSum(a[..i], [a[i]]);
    SizeIsNat(a[..i], noLineCues);
    SizeIsNat(a[i + 1..j], noLineCues);
    SizeIsNat(a[j + 1..], noLineCues);
    SizeOfOne(a[i]);
    SizeOfOne(a[j]);
  }

  lemma SizeOfOne(n: Ins)
    ensures Size([n]) == n.size
  {
    assert [n][1..] == [];
  }

  lemma PlainShape(a: seq<Ins>, b: seq<Ins>)
    requires Unmarked(a) && Unmarked(b) && Net(a) == Net(b)
    ensures SameShape(a, b)
  {
  }

  lemma SevenUnmarked(code: seq<Ins>, k: nat)
    requires k + 7 <= |code| && IsStoredHandle(code, k + 6) && code[k + 5].op == Op.FREE && code[k + 6].op == Op.PopPtr
    ensures Unmarked(code[k..k + 7])
  {
    assert code[k..k + 7] == [code[k], code[k + 1], code[k + 2], code[k + 3], code[k + 4], code[k + 5], code[k + 6]];
  }

  lemma NetOfSeven(code: seq<Ins>, k: nat)
    requires k + 7 <= |code|
    ensures Net(code[k..k + 7]) == code[k].stackInc + code[k + 1].stackInc + code[k + 2].stackInc + code[k + 3].stackInc
      + code[k + 4].stackInc + code[k + 5].stackInc + code[k + 6].stackInc
  {
    NetFirst(code, k, k + 7);
    NetFirst(code, k + 1, k + 7);
    NetFirst(code, k + 2, k + 7);
    NetFirst(code, k + 3, k + 7);
    NetFirst(code, k + 4, k + 7);
    NetFirst(code, k + 5, k + 7);
    NetFirst(code, k + 6, k + 7);
  }

  lemma NetFirst(code: seq<Ins>, k: nat, u: nat)
    requires k < u <= |code|
    ensures Net(code[k..u]) == code[k].stackInc + Net(code[k + 1..u])
  {
    assert code[k..u][1..] == code[k + 1..u];
  }

  lemma DereferenceKept(code: seq<Ins>, curr: nat, n: Ins)
    requires Good(code) && 0 < curr < |code| && code[curr].op == Op.RDSPtr
    requires (code[curr - 1].op == Op.PGA && n == code[curr - 1].(op := Op.PshGPtr))
      || (code[curr - 1].op == Op.PSF && n == code[curr - 1].(op := Op.PshVPtr))
    ensures Progress(code, Splice(code, curr - 1, 2, [n]))
  {
    hide Good, Progress, InfoType;
    StackTypes();
    ConformAt(code, curr);
    ConformAt(code, curr - 1);
    assert code[curr - 1..curr + 1] == [code[curr - 1], code[curr]];
    StackSizes(code[curr - 1], code[curr], n);
    Rewrote(code, curr - 1, 2, [n]);
  }

  lemma CheckKept(code: seq<Ins>, curr: nat)
    requires Good(code) && 0 < curr < |code| && code[curr].op == Op.RDSPtr && code[curr - 1].op == Op.ChkRefS
    ensures Progress(code, Splice(code, curr - 1, 2, [code[curr - 1].(op := Op.RDSPtr), code[curr].(op := Op.CHKREF)]))
  {
    hide Good, Progress, InfoType;
    StackTypes();
    ConformAt(code, curr);
    ConformAt(code, curr - 1);
    var put := [code[curr - 1].(op := Op.RDSPtr), code[curr].(op := Op.CHKREF)];
    Shapes(code[curr - 1..curr + 1]);
    Shapes(put);
    assert code[curr - 1..curr + 1] == [code[curr - 1], code[curr]];
    CheckSizes(code[curr - 1], code[curr]);
    NoForksKept(code[curr - 1..curr + 1], put);
    Reordered(code, curr - 1, put);
  }

  lemma PopRKept(code: seq<Ins>, curr: nat, n: Ins)
    requires Good(code) && 2 <= curr < |code| && code[curr].op == Op.PopRPtr && code[curr - 1].op == Op.ADDSi
    requires code[curr - 2].op in {Op.PshVPtr, Op.PSF}
    requires n == code[curr - 1].(op := Op.LoadThisR)
      || (n.op in {Op.LoadRObjR, Op.LoadVObjR} && n.size == TypeSize(InfoType(n.op)) && n.stackInc == InfoStackInc(n.op)
          && FieldsOf(n, code[curr - 2], code[curr - 1]))
    ensures Progress(code, Splice(code, curr - 2, 3, [n]))
  {
    hide Good, Progress, InfoType;
    StackTypes();
    OffsetTypes();
    ConformAt(code, curr);
    ConformAt(code, curr - 1);
    ConformAt(code, curr - 2);
    assert code[curr - 2..curr + 1] == [code[curr - 2], code[curr - 1], code[curr]];
    PopRSizes(code[curr - 2], code[curr - 1], code[curr], n);
    Rewrote(code, curr - 2, 3, [n]);
  }

  lemma RefCopyKept(code: seq<Ins>, curr: nat, n: Ins)
    requires Good(code) && 0 < curr < |code| && code[curr].op == Op.REFCPY && code[curr - 1].op == Op.PSF
    requires n == code[curr].(op := Op.RefCpyV, w0 := code[curr - 1].w0, stackInc := InfoStackInc(Op.LoadVObjR))
    ensures Progress(code, Splice(code, curr - 1, 2, [n]))
  {
    hide Good, Progress, InfoType;
    StackTypes();
    ConformAt(code, curr);
    ConformAt(code, curr - 1);
    assert code[curr - 1..curr + 1] == [code[curr - 1], code[curr]];
    StackSizes(code[curr - 1], code[curr], n);
    Rewrote(code, curr - 1, 2, [n]);
  }

  lemma FreeKept(code: seq<Ins>, curr: nat)
    requires Good(code) && 0 < curr < |code| && code[curr].op == Op.FREE && code[curr - 1].op in {Op.PSF, Op.VAR}
    ensures Progress(code, Splice(code, curr - 1, 2, [code[curr], code[curr - 1]]))
  {
    hide Good, Progress, InfoType, Conforms, InfoStackInc;
    ConformAt(code, curr);
    ConformAt(code, curr - 1);
    var put := [code[curr], code[curr - 1]];
    Shapes(code[curr - 1..curr + 1]);
    Shapes(put);
    assert code[curr - 1..curr + 1] == [code[curr - 1], code[curr]];
    SwapSizes(code[curr - 1], code[curr], code[curr]);
    NoForksKept(code[curr - 1..curr + 1], put);
    Reordered(code, curr - 1, put);
  }

  lemma GetRefKept(code: seq<Ins>, curr: nat, n: Ins)
    requires Good(code) && curr + 1 < |code| && code[curr].op == Op.VAR
    requires code[curr + 1].op in {Op.GETREF, Op.GETOBJREF}
    requires n == code[curr].(op := Op.PSF) || n == code[curr].(op := Op.PshVPtr)
    ensures Progress(code, Splice(code, curr, 2, [n]))
  {
    hide Good, Progress, InfoType;
    StackTypes();
    ConformAt(code, curr);
    ConformAt(code, curr + 1);
    assert code[curr..curr + 2] == [code[curr], code[curr + 1]];
    StackSizes(code[curr], code[curr + 1], n);
    Rewrote(code, curr, 2, [n]);
  }

  lemma GetRefBehindKept(code: seq<Ins>, curr: nat, op: int)
    requires Good(code) && curr + 2 < |code| && code[curr].op in {Op.VAR, Op.PshVPtr, Op.PSF}
    requires op in {Op.PshVPtr, Op.PSF}
    requires code[curr + 1].op == Op.PSF && code[curr + 2].op in {Op.GETREF, Op.GETOBJREF}
    ensures Progress(code, Splice(code, curr, 3, [code[curr].(op := op), code[curr + 1]]))
  {
    hide Good, Progress, InfoType;
    StackTypes();
    ConformAt(code, curr);
    ConformAt(code, curr + 1);
    ConformAt(code, curr + 2);
    assert code[curr..curr + 3] == [code[curr], code[curr + 1], code[curr + 2]];
    GetRefSizes(code[curr], code[curr + 1], code[curr + 2], op);
    Rewrote(code, curr, 3, [code[curr].(op := op), code[curr + 1]]);
  }

  lemma ProgressTwice(c0: seq<Ins>, c1: seq<Ins>, c2: seq<Ins>)
    requires Progress(c0, c1) && Progress(c1, c2)
    ensures Progress(c0, c2)
  {
    hide Good, Skeleton, Potential, HasLevels, Writable;
  }
}
