/** The short sequences that the main loop of the optimizer looks for, and what it puts in their
    place. */
module Sequences {
  import Op
  import opened Tables
  import opened Instructions
  import opened Discipline
  import opened UnusedValues
  import opened Postponement
  import opened SequencesKept

  predicate PushesPointer(op: int) {
    op in {Op.PshNull, Op.PshVPtr, Op.PSF}
  }

  // XXX x, YYY y, SwapPtr -> YYY y, XXX x
  function SwapRule(code: seq<Ins>, k: nat): (w: Rewrite)
    requires k < |code|
    ensures Fits(code, w)
  {
    if k >= 2 && PushesPointer(code[k - 2].op) && PushesPointer(code[k - 1].op)
    then Replace(k - 2, 3, [code[k - 1], code[k - 2]])
    else Keep
  }

  // T??, ClrHi -> T??, and ClrHi, JZ -> JLowZ and ClrHi, JNZ -> JLowNZ
  function ClrHiRule(code: seq<Ins>, k: nat): (w: Rewrite)
    requires k < |code|
    ensures Fits(code, w)
  {
    if k > 0 && IsTest(code[k - 1].op) then Replace(k, 1, [])
    else if k + 1 < |code| && (code[k + 1].op == Op.JZ || code[k + 1].op == Op.JNZ)
    then Replace(k, 2, [code[k + 1].(op := LowJump(code[k + 1].op))])
    else Keep
  }

  // LDV x, INCi -> IncVi x and LDV x, DECi -> DecVi x
  ghost function LDVRule(code: seq<Ins>, k: nat): (w: Rewrite)
    requires k < |code|
    ensures Fits(code, w)
  {
    if k + 1 < |code| && (code[k + 1].op == Op.INCi || code[k + 1].op == Op.DECi) && !RegUsedAfter(code, k + 1)
    then Replace(k, 2, [code[k].(op := if code[k + 1].op == Op.INCi then Op.IncVi else Op.DecVi)])
    else Keep
  }

  // LDG x, WRTV4 y -> CpyVtoG4 y, x and LDG x, RDR4 y -> CpyGtoV4 y, x or LdGRdR4 y, x
  ghost function LDGRule(code: seq<Ins>, k: nat): (w: Rewrite)
    requires k < |code|
    ensures Fits(code, w)
  {
    if k + 1 < |code| && code[k + 1].op == Op.WRTV4 && !RegUsedAfter(code, k + 1) then
      Replace(k, 2, [code[k].(op := Op.CpyVtoG4, size := TypeSize(InfoType(Op.CpyVtoG4)), w0 := code[k + 1].w0)])
    else if k + 1 < |code| && code[k + 1].op == Op.RDR4 then
      Replace(k, 2, [code[k].(op := if RegUsedAfter(code, k + 1) then Op.LdGRdR4 else Op.CpyGtoV4,
                              size := TypeSize(InfoType(Op.CpyGtoV4)), w0 := code[k + 1].w0)])
    else Keep
  }

  // A check of a pointer that is known to be valid, or is checked again.
  function CHKREFRule(code: seq<Ins>, k: nat): (w: Rewrite)
    requires k < |code|
    ensures Fits(code, w)
  {
    if (k + 1 < |code| && code[k + 1].op in {Op.ADDSi, Op.RDSPtr})
       || (k > 0 && code[k - 1].op in {Op.ADDSi, Op.PGA, Op.PSF})
       || (k > 1 && code[k - 1].op == Op.ChkRefS && code[k - 2].op == Op.PGA)
    then Replace(k, 1, [])
    else Keep
  }

  // A pointer that is pushed, used in place and popped.
  ghost function PopPtrRule(code: seq<Ins>, k: nat, temps: set<int>): (w: Rewrite)
    requires k < |code|
    ensures Fits(code, w)
  {
    if k > 0 && code[k - 1].op == Op.RDSPtr then Replace(k - 1, 1, [])
    else if k > 1 && code[k - 1].op == Op.RefCpyV && code[k - 2].op == Op.PshNull then
      Replace(k - 2, 3, [code[k - 1].(op := Op.FREE)])
    else if k > 0 && code[k - 1].op in {Op.PshRPtr, Op.PSF, Op.VAR, Op.PshVPtr, Op.PshNull} then
      Replace(k - 1, 2, [])
    else if k > 1 && ((code[k - 1].op == Op.ChkRefS && code[k - 2].op == Op.PSF)
                      || (code[k - 1].op == Op.CHKREF && code[k - 2].op == Op.PshVPtr)) then
      Replace(k - 2, 3, [code[k - 2].(op := Op.ChkNullV, stackInc := 0)])
    else if k > 0 && code[k - 1].op == Op.FREE then StoredHandleRule(code, k, temps)
    else Keep
  }

  // STOREOBJ y, PSF y, RDSPtr, PSF x, REFCPY, FREE y, PopPtr -> FREE x, STOREOBJ x
  ghost function StoredHandleRule(code: seq<Ins>, k: nat, temps: set<int>): (w: Rewrite)
    requires 0 < k < |code|
    ensures Fits(code, w)
  {
    if k >= 6 && IsStoredHandle(code, k) && LastUse(code, k, code[k - 5].w0, temps) then
      Replace(k - 6, 7, [code[k - 1].(w0 := code[k - 3].w0), StoreAs(code[k], code[k - 3].w0, code[k - 6].size)])
    else Keep
  }

  // PGA, RDSPtr -> PshGPtr and PSF, RDSPtr -> PshVPtr and ChkRefS, RDSPtr -> RDSPtr, CHKREF
  function RDSPtrRule(code: seq<Ins>, k: nat): (w: Rewrite)
    requires k < |code|
    ensures Fits(code, w)
  {
    if k > 0 && code[k - 1].op == Op.PGA then Replace(k - 1, 2, [code[k - 1].(op := Op.PshGPtr)])
    else if k > 0 && code[k - 1].op == Op.PSF then Replace(k - 1, 2, [code[k - 1].(op := Op.PshVPtr)])
    else if k > 0 && code[k - 1].op == Op.ChkRefS then
      Replace(k - 1, 2, [code[k - 1].(op := Op.RDSPtr), code[k].(op := Op.CHKREF)])
    else Keep
  }

  // PshVPtr x, ADDSi, PopRPtr -> LoadThisR or LoadRObjR x and PSF x, ADDSi, PopRPtr -> LoadVObjR x
  function PopRPtrRule(code: seq<Ins>, k: nat): (w: Rewrite)
    requires k < |code|
    ensures Fits(code, w)
  {
    if k > 1 && code[k - 1].op == Op.ADDSi && code[k - 2].op in {Op.PshVPtr, Op.PSF} then
      var a, b := code[k - 2], code[k - 1];
      if a.op == Op.PshVPtr && a.w0 == 0 then Replace(k - 2, 3, [b.(op := Op.LoadThisR)])
      else
        var o := if a.op == Op.PshVPtr then Op.LoadRObjR else Op.LoadVObjR;
        Replace(k - 2, 3, [a.(op := o, size := TypeSize(InfoType(o)), stackInc := InfoStackInc(o),
                              w1 := b.w0, a0 := b.a0)])
    else Keep
  }

  // PSF x, REFCPY -> RefCpyV x
  function REFCPYRule(code: seq<Ins>, k: nat): (w: Rewrite)
    requires k < |code|
    ensures Fits(code, w)
  {
    if k > 0 && code[k - 1].op == Op.PSF then
      Replace(k - 1, 2, [code[k].(op := Op.RefCpyV, w0 := code[k - 1].w0, stackInc := InfoStackInc(Op.LoadVObjR))])
    else Keep
  }

  // T**, J** +x -> J** +x
  function JumpRule(code: seq<Ins>, k: nat): (w: Rewrite)
    requires k < |code|
    ensures Fits(code, w)
  {
    if k > 0 && TestAndJump(code[k - 1].op, code[k].op) != -1 then
      Replace(k - 1, 2, [code[k].(op := TestAndJump(code[k - 1].op, code[k].op))])
    else Keep
  }

  // PSF, FREE -> FREE, PSF and VAR, FREE -> FREE, VAR
  function FREERule(code: seq<Ins>, k: nat): (w: Rewrite)
    requires k < |code|
    ensures Fits(code, w)
  {
    if k > 0 && code[k - 1].op in {Op.PSF, Op.VAR} then Replace(k - 1, 2, [code[k], code[k - 1]]) else Keep
  }

  predicate PushedThen(code: seq<Ins>, k: nat, op: int) {
    k + 2 < |code| && code[k + 1].op == Op.PSF && code[k + 2].op == op && code[k + 2].w0 == PTR_SIZE
  }

  // VAR, PSF, GETOBJREF -> PshVPtr, PSF and VAR a, GETREF 0 -> PSF a and VAR a, GETOBJREF 0 -> PshVPtr a
  function VarRule(code: seq<Ins>, k: nat): (w: Rewrite)
    requires k < |code|
    ensures Fits(code, w) && (w.Replace? ==> w.at == k && |w.put| > 0)
  {
    if PushedThen(code, k, Op.GETOBJREF) then Replace(k, 3, [code[k].(op := Op.PshVPtr), code[k + 1]])
    else if k + 1 < |code| && code[k + 1].op in {Op.GETREF, Op.GETOBJREF} && code[k + 1].w0 == 0 then
      Replace(k, 2, [code[k].(op := if code[k + 1].op == Op.GETREF then Op.PSF else Op.PshVPtr)])
    else Keep
  }

  // VAR, PSF, GETREF -> PSF, PSF, which is tried after the others
  function VarRefRule(code: seq<Ins>, k: nat): (w: Rewrite)
    requires k < |code|
    ensures Fits(code, w)
  {
    if PushedThen(code, k, Op.GETREF) then Replace(k, 3, [code[k].(op := Op.PSF), code[k + 1]]) else Keep
  }

  /** What becomes of the list when the instruction at `k` is looked at. */
  datatype Outcome = Unchanged | Changed(code: seq<Ins>)

  ghost function AsOutcome(code: seq<Ins>, w: Rewrite): Outcome
    requires Fits(code, w)
  {
    if w.Replace? then Changed(Apply(code, w)) else Unchanged
  }

  ghost function VarOutcome(code: seq<Ins>, k: nat): Outcome
    requires k < |code|
  {
    var first := VarRule(code, k);
    var code' := Apply(code, first);
    var second := VarRefRule(code', k);
    if first.Keep? && second.Keep? then Unchanged else Changed(Apply(code', second))
  }

  ghost function Sequence(code: seq<Ins>, k: nat, temps: set<int>): Outcome
    requires k < |code|
  {
    var op := code[k].op;
    if op == Op.SwapPtr then AsOutcome(code, SwapRule(code, k))
    else if op == Op.ClrHi then AsOutcome(code, ClrHiRule(code, k))
    else if op == Op.LDV then AsOutcome(code, LDVRule(code, k))
    else if op == Op.LDG then AsOutcome(code, LDGRule(code, k))
    else if op == Op.CHKREF then AsOutcome(code, CHKREFRule(code, k))
    else if op == Op.PopPtr then AsOutcome(code, PopPtrRule(code, k, temps))
    else if op == Op.RDSPtr then AsOutcome(code, RDSPtrRule(code, k))
    else if op == Op.PopRPtr then AsOutcome(code, PopRPtrRule(code, k))
    else if op == Op.REFCPY then AsOutcome(code, REFCPYRule(code, k))
    else if IsCondJump(op) then AsOutcome(code, JumpRule(code, k))
    else if op == Op.FREE then AsOutcome(code, FREERule(code, k))
    else if op == Op.VAR then VarOutcome(code, k)
    else Unchanged
  }

  /** One turn of the main loop at `k`: an unused value removed, a constant postponed, or a sequence
      replaced, in this order. */
  ghost function Turn(code: seq<Ins>, k: nat, temps: set<int>): Outcome
    requires k < |code|
  {
    var w := Unused(code, k, temps);
    if w.Replace? then Changed(Apply(code, w))
    else if CanPostpone(code, k, temps) then Changed(Postpone(code, k, temps))
    else Sequence(code, k, temps)
  }

  /** Nothing can be optimized anywhere. */
  ghost predicate Irreducible(code: seq<Ins>, temps: set<int>) {
    forall k :: 0 <= k < |code| ==> Turn(code, k, temps) == Unchanged
  }

  ghost predicate OneTurn(code: seq<Ins>, code': seq<Ins>, temps: set<int>) {
    exists k: nat :: k < |code| && Turn(code, k, temps) == Changed(code')
  }

  /** A sequence of lists, each made from the one before by one turn. */
  ghost predicate Turns(lists: seq<seq<Ins>>, temps: set<int>) {
    |lists| > 0 && forall i :: 0 <= i < |lists| - 1 ==> OneTurn(lists[i], lists[i + 1], temps)
  }
}
