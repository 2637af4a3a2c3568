/** The lists on which the local optimizer is right: what their instructions may look like, and that
    what the optimizer puts into such a list looks like that too. */
module PlainLists {
  import Op
  import opened Tables
  import opened Instructions
  import opened Machine
  import opened Liveness
  import opened Blocks
  import opened Discipline
  import opened UnusedValues
  import opened Postponement
  import opened SequencesKept
  import opened JumpFusion
  import opened GlobalAccess
  import opened Sequences
  import opened AddressRules

  // ----- single instructions -----

  // Instructions that write a variable, and count references, move a handle or allocate memory.
  predicate HandlesObject(op: int) {
    op in {Op.STOREOBJ, Op.RefCpyV, Op.AllocMem}
  }

  /** A 32-bit constant; the addresses of globals and variables are what they are for; a temporary that
      is only written is not reached by address, and holds no handle; and handles are not to types that
      are held by value. */
  predicate Plain(vm: VM, ins: Ins, temps: set<int>) {
    && Word32(ins.a0) && Hidden(vm, ins, temps)
    && (ins.op in {Op.LDG, Op.LdGRdR4, Op.PGA} ==> IsGlobal(vm, PtrArg(ins)))
    && (ins.op in {Op.PSF, Op.VAR} ==> Address(vm, ins.w0) != 0)
    && (ins.op == Op.LDV ==> vm.addressed(ins.w0))
    && (HandlesObject(ins.op) ==> ins.w0 !in temps)
    && (ins.op == Op.RefCpyV ==> vm.addressed(ins.w0))
    && (ins.op in {Op.RefCpyV, Op.REFCPY} ==> vm.handling(PtrArg(ins)) != ByValue)
  }

  ghost predicate AllPlain(vm: VM, code: seq<Ins>, temps: set<int>) {
    forall i :: 0 <= i < |code| ==> Plain(vm, code[i], temps)
  }

  // Instructions that only write a variable.
  predicate IsMereWrite(op: int) {
    OnlyWrites(InfoType(op)) && !HandlesObject(op) && op != Op.FREE && op != Op.LdGRdR4
  }

  /** Instructions that only write a variable do nothing else but raise an exception; float addition and
      multiplication commute; and an offset makes no null pointer of one that is not null. */
  ghost predicate WellBehaved(vm: VM) {
    && (forall ins: Ins :: IsMereWrite(ins.op) ==> Pure(vm, ins))
    && CommutesFor(vm, Op.ADDf) && CommutesFor(vm, Op.MULf) && StaysNonNull(vm)
  }

  // ----- pairs of instructions -----

  /** What `load` puts into its variable might be folded into `use`, which has that variable for both
      operands: a constant, or a copy that the optimizer may turn into a constant. */
  predicate Clash(load: Ins, use: Ins, temps: set<int>) {
    || (load.op == Op.SetV4 && Repeats(use, load.w0, temps))
    || (load.op == Op.CpyVtoV4 && BothOperands(use, load.w0))
  }

  // Instructions that read memory at an address on the stack, and those that push one.
  predicate FollowsAddress(op: int) {
    op in {Op.RDSPtr, Op.ChkRefS, Op.GETOBJREF, Op.REFCPY}
  }

  predicate GivesAddress(op: int) {
    op in {Op.PSF, Op.VAR}
  }

  /** `use` might follow the address that `ref` gives, of a variable that is not meant to be reached. */
  predicate Strays(vm: VM, use: Ins, ref: Ins, temps: set<int>) {
    && FollowsAddress(use.op) && GivesAddress(ref.op)
    && (!vm.addressed(ref.w0) || (use.op == Op.REFCPY && ref.w0 in temps))
  }

  predicate Conflict(vm: VM, a: Ins, b: Ins, temps: set<int>) {
    Clash(a, b, temps) || Strays(vm, a, b, temps)
  }

  ghost predicate NoConflict(vm: VM, code: seq<Ins>, temps: set<int>) {
    forall i, j {:trigger code[i], code[j]} ::
      0 <= i < |code| && 0 <= j < |code| ==> !Conflict(vm, code[i], code[j], temps)
  }

  /** The lists the theorem is about. */
  ghost predicate Fit(vm: VM, code: seq<Ins>, temps: set<int>) {
    AllPlain(vm, code, temps) && NoConflict(vm, code, temps) && Disciplined(code, temps, vm.hasResult)
  }

  // ----- what is put in has no conflict with the list or with itself -----

  ghost predicate Fresh(vm: VM, code: seq<Ins>, put: seq<Ins>, temps: set<int>) {
    && NoConflict(vm, put, temps)
    && forall i, j {:trigger code[i], put[j]} :: 0 <= i < |code| && 0 <= j < |put| ==>
      !Conflict(vm, code[i], put[j], temps) && !Conflict(vm, put[j], code[i], temps)
  }

  lemma FreshSplice(vm: VM, code: seq<Ins>, k: nat, la: nat, put: seq<Ins>, temps: set<int>)
    requires NoConflict(vm, code, temps) && Fresh(vm, code, put, temps) && k + la <= |code|
    ensures NoConflict(vm, Splice(code, k, la, put), temps)
  {
    hide Conflict;
  }

  // Instructions that conflict with none.
  predicate Inert(op: int) {
    && op !in {Op.SetV4, Op.CpyVtoV4} && !IsArith(op) && !IsCompare(op)
    && !FollowsAddress(op) && !GivesAddress(op)
  }

  // It has the same conflicts.
  predicate Like(n: Ins, e: Ins) {
    || n == e
    || (GivesAddress(n.op) && GivesAddress(e.op) && n.w0 == e.w0)
    || (n.op == Op.RDSPtr && e.op == Op.RDSPtr)
  }

  ghost predicate LikeSome(code: seq<Ins>, n: Ins) {
    Inert(n.op) || exists i :: 0 <= i < |code| && Like(n, code[i])
  }

  lemma LikeConflicts(vm: VM, n: Ins, e: Ins, u: Ins, temps: set<int>)
    requires Like(n, e)
    ensures (Conflict(vm, n, u, temps) ==> Conflict(vm, e, u, temps))
    ensures (Conflict(vm, u, n, temps) ==> Conflict(vm, u, e, temps))
  {
  }

  lemma InertConflicts(vm: VM, n: Ins, u: Ins, temps: set<int>)
    requires Inert(n.op)
    ensures !Conflict(vm, n, u, temps) && !Conflict(vm, u, n, temps)
  {
  }

  lemma LikeNoConflict(vm: VM, code: seq<Ins>, n: Ins, u: Ins, temps: set<int>)
    requires NoConflict(vm, code, temps) && LikeSome(code, n) && LikeSome(code, u)
    ensures !Conflict(vm, n, u, temps)
  {
    hide Conflict, Like, Inert;
    if Inert(n.op) {
      InertConflicts(vm, n, u, temps);
    } else if Inert(u.op) {
      InertConflicts(vm, u, n, temps);
    } else {
      var i, j :| 0 <= i < |code| && Like(n, code[i]) && 0 <= j < |code| && Like(u, code[j]);
      LikeConflicts(vm, n, code[i], u, temps);
      LikeConflicts(vm, u, code[j], code[i], temps);
    }
  }

  lemma LikeFresh(vm: VM, code: seq<Ins>, put: seq<Ins>, temps: set<int>)
    requires NoConflict(vm, code, temps) && forall j :: 0 <= j < |put| ==> LikeSome(code, put[j])
    ensures Fresh(vm, code, put, temps)
  {
    hide Conflict, Like, Inert, LikeSome;
    forall i, j | 0 <= i < |code| && 0 <= j < |put|
      ensures !Conflict(vm, code[i], put[j], temps) && !Conflict(vm, put[j], code[i], temps)
    {
      InListLike(code, i);
      LikeNoConflict(vm, code, put[j], code[i], temps);
      LikeNoConflict(vm, code, code[i], put[j], temps);
    }
    forall i, j | 0 <= i < |put| && 0 <= j < |put|
      ensures !Conflict(vm, put[i], put[j], temps)
    {
      LikeNoConflict(vm, code, put[i], put[j], temps);
    }
  }

  lemma InListLike(code: seq<Ins>, i: nat)
    requires i < |code|
    ensures LikeSome(code, code[i])
  {
    assert Like(code[i], code[i]);
  }

  // A result put straight where it was copied to.
  lemma MovedResultFresh(vm: VM, code: seq<Ins>, k: nat, temps: set<int>)
    requires NoConflict(vm, code, temps) && k + 1 < |code| && code[k + 1].op == Op.CpyVtoV4
    requires code[k].op == Op.SetV4 || InfoType(code[k].op) in {wW_rW_rW_ARG, wW_rW_DW_ARG}
    ensures Fresh(vm, code, [code[k].(w0 := code[k + 1].w0)], temps)
  {
    hide InfoType, Conflict;
    var c, d := code[k], code[k + 1];
    var n := c.(w0 := d.w0);
    ResultOp(c.op);
    MovedResult(vm, c, d, n, temps);
    assert !Conflict(vm, d, c, temps);
    forall i | 0 <= i < |code|
      ensures !Conflict(vm, code[i], n, temps) && !Conflict(vm, n, code[i], temps)
    {
      MovedResult(vm, c, d, code[i], temps);
    }
  }

  lemma ResultOp(op: int)
    ensures op == Op.SetV4 || InfoType(op) in {wW_rW_rW_ARG, wW_rW_DW_ARG} ==>
      op != Op.CpyVtoV4 && !IsCompare(op) && !FollowsAddress(op) && !GivesAddress(op)
  {
  }

  lemma MovedResult(vm: VM, c: Ins, d: Ins, e: Ins, temps: set<int>)
    requires d.op == Op.CpyVtoV4 && c.op != Op.CpyVtoV4 && !IsCompare(c.op)
    requires !FollowsAddress(c.op) && !GivesAddress(c.op)
    ensures var n := c.(w0 := d.w0);
      && (Conflict(vm, n, e, temps) ==> Conflict(vm, d, e, temps))
      && (Conflict(vm, e, n, temps) ==> Conflict(vm, e, c, temps) || Conflict(vm, d, c, temps))
  {
  }

  // What takes the place of an unused value is fresh.
  lemma FreshPut(vm: VM, code: seq<Ins>, k: nat, temps: set<int>)
    requires NoConflict(vm, code, temps) && k < |code|
    ensures var w := Unused(code, k, temps); w.Replace? ==> Fresh(vm, code, w.put, temps)
  {
    hide LiveAt, InfoType, LastUse, RegUsedAfter, NoConflict, Fresh, Like;
    var w := Unused(code, k, temps);
    if w.Replace? {
      if w.put == [] || Inert(w.put[0].op) {
        LikeFresh(vm, code, w.put, temps);
      } else {
        MovedResultFresh(vm, code, k, temps);
      }
    }
  }

  /** No constant comes to meet an instruction that uses it twice. */
  lemma NoConflictUnused(vm: VM, code: seq<Ins>, k: nat, temps: set<int>)
    requires NoConflict(vm, code, temps) && k < |code|
    ensures NoConflict(vm, Apply(code, Unused(code, k, temps)), temps)
  {
    hide LiveAt, InfoType, Splice, LastUse, RegUsedAfter, NoConflict, Fresh;
    var w := Unused(code, k, temps);
    if w.Replace? {
      FreshPut(vm, code, k, temps);
      FreshSplice(vm, code, w.at, w.len, w.put, temps);
    }
  }

  lemma NoConflictMoved(vm: VM, code: seq<Ins>, k: nat, u: nat, temps: set<int>)
    requires NoConflict(vm, code, temps) && k < u <= |code|
    ensures NoConflict(vm, MovedDown(code, k, u), temps)
  {
    hide Conflict;
    var r := MovedDown(code, k, u);
    forall i, j | 0 <= i < |r| && 0 <= j < |r|
      ensures !Conflict(vm, r[i], r[j], temps)
    {
      assert r[i] in code && r[j] in code;
    }
  }

  // ----- what is put in is plain -----

  lemma PlainSplice(vm: VM, code: seq<Ins>, k: nat, la: nat, put: seq<Ins>, temps: set<int>)
    requires AllPlain(vm, code, temps) && AllPlain(vm, put, temps) && k + la <= |code|
    ensures AllPlain(vm, Splice(code, k, la, put), temps)
  {
    hide Plain;
  }

  lemma WholeWord(c: Ins, d: Ins)
    requires Word32(c.a0) && Word32(d.a0)
    ensures Word32(SetGlobal(c, d).a0) && Word32(WithImmediate(c, d).a0)
  {
    hide InfoType;
  }

  // What takes the place of an unused value is plain again.
  lemma PlainUnused(vm: VM, code: seq<Ins>, k: nat, temps: set<int>)
    requires AllPlain(vm, code, temps) && k < |code|
    ensures AllPlain(vm, Apply(code, Unused(code, k, temps)), temps)
  {
    hide LiveAt, InfoType, Splice, LastUse, Word32, RegUsedAfter, AllPlain;
    var w := Unused(code, k, temps);
    if w.Replace? {
      PlainPut(vm, code, k, temps);
      PlainSplice(vm, code, w.at, w.len, w.put, temps);
    }
  }

  lemma PlainPut(vm: VM, code: seq<Ins>, k: nat, temps: set<int>)
    requires AllPlain(vm, code, temps) && k < |code|
    ensures var w := Unused(code, k, temps); w.Replace? ==> AllPlain(vm, w.put, temps)
  {
    hide LiveAt, InfoType, LastUse, RegUsedAfter, Plain;
    var w := Unused(code, k, temps);
    assert Plain(vm, code[k], temps);
    if k + 1 < |code| {
      assert Plain(vm, code[k + 1], temps);
    }
    if w.Replace? && w.put != [] {
      PutInPlace(vm, code, k, temps);
    }
  }

  lemma PutInPlace(vm: VM, code: seq<Ins>, k: nat, temps: set<int>)
    requires k < |code| && Plain(vm, code[k], temps) && (k + 1 < |code| ==> Plain(vm, code[k + 1], temps))
    requires Unused(code, k, temps).Replace? && Unused(code, k, temps).put != []
    ensures Plain(vm, Unused(code, k, temps).put[0], temps)
  {
    hide LiveAt, InfoType, LastUse, Word32, RegUsedAfter;
    var c, n := code[k], Unused(code, k, temps).put[0];
    FragmentTypes(c.op);
    PutTypes(n.op);
    if k + 1 < |code| {
      WholeWord(c, code[k + 1]);
      FragmentTypes(code[k + 1].op);
      FragmentTypes(n.op);
      ResultOp(c.op);
    }
  }

  // The instructions with a constant only read, but for the calculations.
  lemma PutTypes(op: int)
    ensures op in {Op.PshC4, Op.PshC8, Op.PshG4, Op.SetG4, Op.LDG} ==> !OnlyWrites(InfoType(op))
    ensures OnlyWrites(InfoType(Op.CpyVtoV4)) && !OnlyWrites(rW_DW_ARG)
    ensures InfoType(op) in {wW_rW_rW_ARG, wW_rW_DW_ARG} ==> op !in {Op.LdGRdR4, Op.PGA, Op.LDV} && !HandlesObject(op)
  {
  }

  lemma PlainMoved(vm: VM, code: seq<Ins>, k: nat, u: nat, temps: set<int>)
    requires AllPlain(vm, code, temps) && k < u <= |code|
    ensures AllPlain(vm, MovedDown(code, k, u), temps)
  {
    hide Plain;
  }

  lemma PlainAt(vm: VM, code: seq<Ins>, k: nat, temps: set<int>)
    requires AllPlain(vm, code, temps) && k < |code|
    ensures Plain(vm, code[k], temps)
  {
    hide Plain;
  }

  lemma PlainSound(vm: VM, code: seq<Ins>, k: nat, temps: set<int>)
    requires AllPlain(vm, code, temps) && NoConflict(vm, code, temps) && WellBehaved(vm) && k < |code|
    ensures Sound(vm, code, k, temps)
  {
    hide LiveAt, InfoType, Pure, Word32, Repeats, BothOperands, StaysNonNull, Strays;
    assert Plain(vm, code[k], temps);
    assert k + 1 < |code| ==> !Conflict(vm, code[k], code[k + 1], temps);
  }
}
