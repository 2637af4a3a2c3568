/** Replacing a window of instructions by another: when the two windows do the same, up to the
    value of dead variables, the two lists have the same runs. */
module Windows {
  import Op
  import opened Tables
  import opened Instructions
  import opened CodeLists
  import opened Machine
  import opened Liveness

  // ----- states that differ at most in what is dead -----

  // A result is asked for only if the function returns its value in the register.
  predicate Counts(p: Place, hasResult: bool) {
    p == Result ==> hasResult
  }

  // The value register may differ at `i`: it is neither an operand nor a result of what follows.
  ghost predicate RegisterFree(vm: VM, code: seq<Ins>, i: nat, X: set<Place>) {
    Register in X && forall p: Place :: Counts(p, vm.hasResult) && !p.Var? ==> !LiveAt(code, i, p)
  }

  predicate SameOutside(c: Core, c': Core) {
    c.stack == c'.stack && c.obj == c'.obj && c.world == c'.world
  }

  /** The two states agree on everything a run from `i` can see. */
  ghost predicate Rel(vm: VM, code: seq<Ins>, i: nat, s: State, s': State, X: set<Place>) {
    && SameOutside(s.core, s'.core)
    && (s.core.reg == s'.core.reg || RegisterFree(vm, code, i, X))
    && forall y :: Read(s.vars, y) == Read(s'.vars, y) || (Var(y) in X && !LiveAt(code, i, Var(y)))
  }

  ghost predicate Agree(s: State, s': State, X: set<Place>) {
    && SameOutside(s.core, s'.core)
    && (s.core.reg == s'.core.reg || Register in X)
    && forall y :: Read(s.vars, y) == Read(s'.vars, y) || Var(y) in X
  }

  // No variable in X is reached by address.
  ghost predicate Private(vm: VM, X: set<Place>) {
    forall x {:trigger vm.addressed(x)} {:trigger Var(x)} :: Var(x) in X ==> !vm.addressed(x)
  }

  /** Behind a SUSPEND none of the variables in X is read, and none is ever reached by address. */
  ghost predicate Discards(vm: VM, code: seq<Ins>, X: set<Place>) {
    && Private(vm, X)
    && forall i: nat, y {:trigger LiveAt(code, i, Var(y))} ::
      0 < i <= |code| && code[i - 1].op == Op.SUSPEND && Var(y) in X ==> !LiveAt(code, i, Var(y))
  }

  lemma OperandsAgree(vm: VM, code: seq<Ins>, i: nat, s: State, s': State, X: set<Place>)
    requires i < |code| && Rel(vm, code, i, s, s', X)
    ensures FirstOperand(code[i], s.vars) == FirstOperand(code[i], s'.vars)
    ensures SecondOperand(code[i], s.vars) == SecondOperand(code[i], s'.vars)
  {
    hide LiveAt;
    forall y | ReadsVar(code[i], y)
      ensures Read(s.vars, y) == Read(s'.vars, y)
    {
      LiveHere(code, i, Var(y));
    }
    OperandsRead(code[i], s.vars, s'.vars);
  }

  lemma OperandsRead(ins: Ins, vars: map<int, int>, vars': map<int, int>)
    requires forall y :: ReadsVar(ins, y) ==> Read(vars, y) == Read(vars', y)
    ensures FirstOperand(ins, vars) == FirstOperand(ins, vars')
    ensures SecondOperand(ins, vars) == SecondOperand(ins, vars')
  {
    hide InfoType;
    assert ReadsVar(ins, ins.w0) ==> Read(vars, ins.w0) == Read(vars', ins.w0);
    assert ReadsVar(ins, ins.w1) ==> Read(vars, ins.w1) == Read(vars', ins.w1);
    assert ReadsVar(ins, ins.w2) ==> Read(vars, ins.w2) == Read(vars', ins.w2);
    assert ReadsVar(ins, 0) ==> Read(vars, 0) == Read(vars', 0);
  }

  /** An instruction that does not read the value register computes the same whatever is in it. */
  lemma SameSeen(vm: VM, ins: Ins, a: int, b: int, c: Core, c': Core)
    requires SameOutside(c, c') && (TakesReg(ins.op) ==> c.reg == c'.reg)
    ensures Value(vm, ins, a, b, c) == Value(vm, ins, a, b, c')
    ensures SameOutside(Effect(vm, ins, a, b, c), Effect(vm, ins, a, b, c'))
    ensures GivesReg(ins.op) || c.reg == c'.reg ==> Effect(vm, ins, a, b, c).reg == Effect(vm, ins, a, b, c').reg
  {
    hide InfoType, Operation, Arith, CompareAs, PtrArg, QuadArg, WordAfterPtr, PushValue, Rearranged, Freed;
    assert Seen(ins.op, c) == Seen(ins.op, c');
    assert c.reg == c'.reg ==> c == c';
  }

  // What is not live behind an instruction that leaves it alone was not live in front of it.
  lemma StaysDead(code: seq<Ins>, i: nat, j: nat, p: Place)
    requires i < |code| && !LiveAt(code, i, p) && !Overwrites(code[i], p) && (Flow(code, i, j) || j >= |code|)
    ensures !LiveAt(code, j, p)
  {
    hide InfoType, Flow, Reads, Overwrites;
    if LiveAt(code, j, p) {
      LiveInside(code, j, p);
      if Reads(code[i], p) {
        LiveHere(code, i, p);
      }
      LiveNext(code, i, j, p);
    }
  }

  lemma LiveInside(code: seq<Ins>, i: nat, p: Place)
    requires LiveAt(code, i, p)
    ensures i < |code|
  {
    hide Flow, Reads, Overwrites;
  }

  lemma StillRelated(vm: VM, code: seq<Ins>, i: nat, j: nat, s: State, s': State, X: set<Place>)
    requires i < |code| && Rel(vm, code, i, s, s', X)
    requires Flow(code, i, j) || j >= |code|
    requires IsLabelJump(code[i].op) || code[i].op == Op.JMPP
    ensures Rel(vm, code, j, s, s', X)
  {
    hide InfoType, LiveAt, Flow;
    forall p | !LiveAt(code, i, p)
      ensures !LiveAt(code, j, p)
    {
      JumpOverwritesNothing(code[i], p);
      StaysDead(code, i, j, p);
    }
  }

  lemma JumpOverwritesNothing(ins: Ins, p: Place)
    requires IsLabelJump(ins.op) || ins.op == Op.JMPP
    ensures !Overwrites(ins, p)
  {
  }

  predicate Straight(op: int) {
    op != Op.RET && op != Op.JMPP && op != Op.LABEL && !IsLabelJump(op)
  }

  lemma NopWritesNothing(op: int)
    requires IsNop(op)
    ensures !WritesFirst(InfoType(op)) && !GivesReg(op) && !ByAddress(op)
  {
  }

  lemma WritersWrite(op: int)
    requires WritesFirst(InfoType(op))
    ensures !OnlyReads(op)
  {
  }

  /** One plain instruction keeps related states related. */
  lemma ExecRelated(vm: VM, code: seq<Ins>, i: nat, s: State, s': State, X: set<Place>)
    requires i < |code| && Rel(vm, code, i, s, s', X) && Discards(vm, code, X)
    requires Straight(code[i].op) || code[i].op == Op.LABEL
    ensures Rel(vm, code, i + 1, Exec(vm, code[i], s), Exec(vm, code[i], s'), X)
  {
    hide InfoType, Value, Effect, FirstOperand, SecondOperand, Flow, LiveAt, Discards, ExecByAddress;
    var ins, t, t' := code[i], Exec(vm, code[i], s), Exec(vm, code[i], s');
    OperandsAgree(vm, code, i, s, s', X);
    RegisterSeen(vm, code, i, s, s', X);
    if ByAddress(ins.op) {
      AccessRelated(vm, code, i, s, s', X);
    } else {
      SameSeen(vm, ins, FirstOperand(ins, s.vars), SecondOperand(ins, s.vars), s.core, s'.core);
    }
    if IsNop(ins.op) {
      NopWritesNothing(ins.op);
    }
    GoesOn(code, i);
    if WritesFirst(InfoType(ins.op)) {
      WritersWrite(ins.op);
    }
    forall y | Read(t.vars, y) != Read(t'.vars, y)
      ensures Var(y) in X && !LiveAt(code, i + 1, Var(y))
    {
      assert Read(s.vars, y) != Read(s'.vars, y);
      DeadBehind(vm, code, i, y, X);
    }
    if t.core.reg != t'.core.reg {
      assert s.core.reg != s'.core.reg && !GivesReg(ins.op);
      forall p: Place | Counts(p, vm.hasResult) && !p.Var?
        ensures !LiveAt(code, i + 1, p)
      {
        StaysDead(code, i, i + 1, p);
      }
    }
  }

  lemma RegisterSeen(vm: VM, code: seq<Ins>, i: nat, s: State, s': State, X: set<Place>)
    requires i < |code| && Rel(vm, code, i, s, s', X)
    ensures TakesReg(code[i].op) ==> s.core.reg == s'.core.reg
  {
    hide LiveAt, TakesReg, ReadsReg;
    ReadersKnown(code[i].op);
    if TakesReg(code[i].op) {
      LiveHere(code, i, if ReadsReg(code[i].op) then Register else Wide);
    }
  }

  // Whatever is found at an address is the same.
  lemma FetchRelated(vm: VM, code: seq<Ins>, i: nat, s: State, s': State, X: set<Place>, p: int)
    requires Rel(vm, code, i, s, s', X) && Private(vm, X)
    ensures Fetch(vm, s, p) == Fetch(vm, s', p)
  {
    hide LiveAt;
    if IsLocal(vm, p) {
      assert Var(VariableAt(vm, p)) !in X;
    }
  }

  // An access by address does the same: a variable that differs is not the one that is accessed.
  lemma AccessRelated(vm: VM, code: seq<Ins>, i: nat, s: State, s': State, X: set<Place>)
    requires i < |code| && ByAddress(code[i].op) && Rel(vm, code, i, s, s', X) && Discards(vm, code, X)
    requires TakesReg(code[i].op) ==> s.core.reg == s'.core.reg
    ensures var t, t' := ExecByAddress(vm, code[i], s), ExecByAddress(vm, code[i], s');
      && SameOutside(t.core, t'.core) && t.core.reg == s.core.reg && t'.core.reg == s'.core.reg
      && forall y :: Read(t.vars, y) != Read(t'.vars, y) ==>
        Read(s.vars, y) != Read(s'.vars, y) && !(WritesFirst(InfoType(code[i].op)) && code[i].w0 == y)
  {
    hide LiveAt, InfoType, IsLocal, Signed32;
    var ins, stack := code[i], s.core.stack;
    AccessTypes();
    FetchRelated(vm, code, i, s, s', X, s.core.reg);
    FetchRelated(vm, code, i, s, s', X, Top(stack));
    FetchRelated(vm, code, i, s, s', X, Address(vm, ins.w0));
    FetchRelated(vm, code, i, s, s', X, Address(vm, Below(stack, ins.w0).value));
    if ins.op == Op.WRTV4 {
      LiveHere(code, i, Var(ins.w0));
    }
  }

  lemma AccessTypes()
    ensures InfoType(Op.RDR4) == wW_ARG && InfoType(Op.WRTV4) == rW_ARG && InfoType(Op.RefCpyV) == wW_PTR_ARG
    ensures forall op :: ByAddress(op) && WritesFirst(InfoType(op)) ==> op == Op.RDR4 || op == Op.RefCpyV
  {
  }

  /** Related states raise the same exceptions. */
  lemma FaultsRelated(vm: VM, code: seq<Ins>, i: nat, s: State, s': State, X: set<Place>)
    requires i < |code| && Rel(vm, code, i, s, s', X) && Private(vm, X)
    ensures Faults(vm, code[i], s) <==> Faults(vm, code[i], s')
  {
    hide InfoType, LiveAt, FirstOperand, SecondOperand, TakesReg, Fetch, Calm, Operation;
    OperandsAgree(vm, code, i, s, s', X);
    RegisterSeen(vm, code, i, s, s', X);
    FetchRelated(vm, code, i, s, s', X, Top(s.core.stack));
  }

  ghost predicate PlainFlow(code: seq<Ins>, i: nat)
    requires i < |code|
  {
    Flow(code, i, i + 1) || i + 1 >= |code|
  }

  lemma GoesOn(code: seq<Ins>, i: nat)
    requires i < |code| && code[i].op != Op.JMP && code[i].op != Op.JMPP
    ensures PlainFlow(code, i)
  {
    hide Target;
  }

  lemma DeadBehind(vm: VM, code: seq<Ins>, i: nat, y: int, X: set<Place>)
    requires i < |code| && Discards(vm, code, X) && PlainFlow(code, i)
    requires Var(y) in X && !LiveAt(code, i, Var(y))
    requires code[i].op != Op.RET && !(WritesFirst(InfoType(code[i].op)) && code[i].w0 == y)
    ensures !LiveAt(code, i + 1, Var(y))
  {
    hide InfoType, Flow, LiveAt;
    if code[i].op != Op.SUSPEND {
      StaysDead(code, i, i + 1, Var(y));
    }
  }

  // ----- splicing -----

  /** `code'` is `code` with the `la` instructions at `k` replaced by `lb` others; none is a label. */
  ghost predicate Spliced(code: seq<Ins>, code': seq<Ins>, k: nat, la: nat, lb: nat) {
    && k + la <= |code|
    && |code'| == |code| - la + lb
    && (forall j :: 0 <= j < k ==> code'[j] == code[j])
    && (forall j {:trigger code[j]} :: k + la <= j < |code| ==> code'[j - la + lb] == code[j])
    && (forall j {:trigger code'[j]} :: k + lb <= j < |code'| ==> code[j - lb + la] == code'[j])
    && (forall j :: k <= j < k + la ==> code[j].op != Op.LABEL)
    && (forall j :: k <= j < k + lb ==> code'[j].op != Op.LABEL)
  }

  // Where an instruction outside the window has gone.
  function Moved(k: nat, la: nat, lb: nat, j: nat): int {
    if j < k then j else j - la + lb
  }

  // Where an instruction of the spliced list was before, if it is not in the window.
  function Home(k: nat, la: nat, lb: nat, j: nat): int {
    if j < k then j else j - lb + la
  }

  // Corresponding places to jump from: before the window, behind it, or its last instruction.
  ghost predicate SamePlace(k: nat, la: nat, lb: nat, from: nat, from': nat) {
    || (from < k && from' == from)
    || (from >= k + la && from' == from - la + lb)
    || (from == k + la - 1 && from' == k + lb - 1 && la > 0 && lb > 0)
  }

  lemma TargetMoves(code: seq<Ins>, code': seq<Ins>, k: nat, la: nat, lb: nat, from: nat, from': nat, lab: int)
    requires Spliced(code, code', k, la, lb) && SamePlace(k, la, lb, from, from') && from < |code| && from' < |code'|
    ensures var t := Target(code, from, lab); var t' := Target(code', from', lab);
      (t == -1 && t' == -1) || (t != -1 && (t < k || t >= k + la) && t' == Moved(k, la, lb, t))
  {
    hide FirstLabel, LastLabel, Spliced, SamePlace;
    AheadTargetMoves(code, code', k, la, lb, from, from', lab);
    BackTargetMoves(code, code', k, la, lb, from, from', lab);
  }

  lemma AheadTargetMoves(code: seq<Ins>, code': seq<Ins>, k: nat, la: nat, lb: nat, from: nat, from': nat, lab: int)
    requires Spliced(code, code', k, la, lb) && SamePlace(k, la, lb, from, from') && from < |code| && from' < |code'|
    ensures var t := FirstLabel(code, from + 1, lab); var t' := FirstLabel(code', from' + 1, lab);
      (t == -1 && t' == -1) || (t != -1 && (t < k || t >= k + la) && t' == Moved(k, la, lb, t))
  {
    hide Spliced;
    LabelAheadMoves(code, code', k, la, lb, from, from', lab);
    SplicedBack(code, code', k, la, lb);
    LabelAheadMoves(code', code, k, lb, la, from', from, lab);
  }

  // Undoing a splice is a splice.
  lemma SplicedBack(code: seq<Ins>, code': seq<Ins>, k: nat, la: nat, lb: nat)
    requires Spliced(code, code', k, la, lb)
    ensures Spliced(code', code, k, lb, la)
  {
  }

  // A label found ahead is not in the window, so the search in the other list gets no farther.
  lemma LabelAheadMoves(code: seq<Ins>, code': seq<Ins>, k: nat, la: nat, lb: nat, from: nat, from': nat, lab: int)
    requires Spliced(code, code', k, la, lb) && SamePlace(k, la, lb, from, from') && from < |code| && from' < |code'|
    ensures var t := FirstLabel(code, from + 1, lab); var t' := FirstLabel(code', from' + 1, lab);
      t != -1 ==> (t < k || t >= k + la) && t' != -1 && t' <= Moved(k, la, lb, t)
  {
    var t, t' := FirstLabel(code, from + 1, lab), FirstLabel(code', from' + 1, lab);
    hide FirstLabel;
    if t != -1 {
      LabelMoves(code, code', k, la, lb, t, lab);
    }
  }

  lemma LabelMoves(code: seq<Ins>, code': seq<Ins>, k: nat, la: nat, lb: nat, t: nat, lab: int)
    requires Spliced(code, code', k, la, lb) && t < |code| && IsLabel(code[t], lab)
    ensures (t < k || t >= k + la) && 0 <= Moved(k, la, lb, t) < |code'| && IsLabel(code'[Moved(k, la, lb, t)], lab)
  {
  }

  lemma BackTargetMoves(code: seq<Ins>, code': seq<Ins>, k: nat, la: nat, lb: nat, from: nat, from': nat, lab: int)
    requires Spliced(code, code', k, la, lb) && SamePlace(k, la, lb, from, from') && from < |code| && from' < |code'|
    ensures var t := LastLabel(code, from, lab); var t' := LastLabel(code', from', lab);
      (t == -1 && t' == -1) || (t != -1 && (t < k || t >= k + la) && t' == Moved(k, la, lb, t))
  {
    hide Spliced;
    LabelBehindMoves(code, code', k, la, lb, from, from', lab);
    SplicedBack(code, code', k, la, lb);
    LabelBehindMoves(code', code, k, lb, la, from', from, lab);
  }

  lemma LabelBehindMoves(code: seq<Ins>, code': seq<Ins>, k: nat, la: nat, lb: nat, from: nat, from': nat, lab: int)
    requires Spliced(code, code', k, la, lb) && SamePlace(k, la, lb, from, from') && from < |code| && from' < |code'|
    ensures var t := LastLabel(code, from, lab); var t' := LastLabel(code', from', lab);
      t != -1 ==> (t < k || t >= k + la) && t' != -1 && t' >= Moved(k, la, lb, t)
  {
    var t, t' := LastLabel(code, from, lab), LastLabel(code', from', lab);
    hide LastLabel;
    if t != -1 {
      LabelMoves(code, code', k, la, lb, t, lab);
    }
  }

  // ----- the simulation -----

  // No table of a JMPP in front of the window reaches past its first instruction.
  ghost predicate TablesClear(code: seq<Ins>, k: nat, la: nat) {
    forall i {:trigger code[i]} :: 0 <= i < k + la && i < |code| && code[i].op == Op.JMPP ==> i + 1 + code[i].a0 <= k
  }

  // Every entry a JMPP can select is one of the JMPs that follow it.
  ghost predicate TablesFull(code: seq<Ins>) {
    forall i {:trigger code[i]} :: 0 <= i < |code| && code[i].op == Op.JMPP && 0 <= code[i].a0 ==>
      InTable(code, i + 1, i + 1 + code[i].a0)
  }

  ghost predicate Match(vm: VM, code: seq<Ins>, k: nat, la: nat, lb: nat, r: Res, r': Res, X: set<Place>) {
    match (r, r')
    case (At(i, s), At(i', s')) =>
      Rel(vm, code, i, s, s', X) && ((i == k && i' == k) || ((i < k || i >= k + la) && i' == Moved(k, la, lb, i)))
    case (Leaves(lab, s), Leaves(lab', s')) => lab == lab' && Agree(s, s', X)
    case (Ends(s), Ends(s')) => Agree(s, s', X)
    case _ => r == r' && !r.At? && !r.Leaves? && !r.Ends?
  }

  lemma GoMatches(vm: VM, code: seq<Ins>, code': seq<Ins>, k: nat, la: nat, lb: nat, from: nat, from': nat, lab: int,
                  s: State, s': State, X: set<Place>)
    requires Spliced(code, code', k, la, lb) && SamePlace(k, la, lb, from, from') && from < |code| && from' < |code'|
    requires Agree(s, s', X)
    requires Target(code, from, lab) != -1 ==> Rel(vm, code, Target(code, from, lab), s, s', X)
    ensures Match(vm, code, k, la, lb, Go(code, from, lab, s), Go(code', from', lab, s'), X)
  {
    TargetMoves(code, code', k, la, lb, from, from', lab);
  }

  /** Away from the window the two lists run in step. */
  lemma StepMatches(vm: VM, code: seq<Ins>, code': seq<Ins>, k: nat, la: nat, lb: nat, i: nat, s: State, s': State,
                    X: set<Place>)
    requires Spliced(code, code', k, la, lb) && TablesClear(code, k, la)
    requires Discards(vm, code, X) && (X == {} || TablesFull(code))
    requires (i < k || i >= k + la) && Rel(vm, code, i, s, s', X)
    ensures Match(vm, code, k, la, lb, Step(vm, code, i, s), Step(vm, code', Moved(k, la, lb, i), s'), X)
  {
    hide InfoType, Exec, Target, LiveAt, Faults;
    if i < |code| {
      var ins, i' := code[i], Moved(k, la, lb, i);
      assert code'[i'] == ins;
      if ins.op == Op.RET {
        SameReturn(vm, code, i, s, s', X);
      } else if IsLabelJump(ins.op) {
        JumpMatches(vm, code, code', k, la, lb, i, s, s', X);
      } else if ins.op == Op.JMPP {
        TableMatches(vm, code, code', k, la, lb, i, s, s', X);
      } else {
        FaultsRelated(vm, code, i, s, s', X);
        ExecRelated(vm, code, i, s, s', X);
      }
    }
  }

  lemma SameReturn(vm: VM, code: seq<Ins>, i: nat, s: State, s': State, X: set<Place>)
    requires i < |code| && code[i].op == Op.RET && Rel(vm, code, i, s, s', X)
    ensures ReturnValue(vm, s.core) == ReturnValue(vm, s'.core)
    ensures s.core.obj == s'.core.obj && s.core.world == s'.core.world
  {
    hide LiveAt;
    LiveHere(code, i, Result);
  }

  lemma JumpMatches(vm: VM, code: seq<Ins>, code': seq<Ins>, k: nat, la: nat, lb: nat, i: nat, s: State, s': State,
                    X: set<Place>)
    requires Spliced(code, code', k, la, lb) && i < |code| && IsLabelJump(code[i].op)
    requires (i < k || i >= k + la) && Rel(vm, code, i, s, s', X)
    ensures Match(vm, code, k, la, lb, Step(vm, code, i, s), Step(vm, code', Moved(k, la, lb, i), s'), X)
  {
    hide InfoType, Exec, Target, LiveAt, Spliced;
    var ins, i' := code[i], Moved(k, la, lb, i);
    OutsideWindow(code, code', k, la, lb, i);
    if Target(code, i, ins.a0) != -1 {
      StillRelated(vm, code, i, Target(code, i, ins.a0), s, s', X);
    }
    GoMatches(vm, code, code', k, la, lb, i, i', ins.a0, s, s', X);
    if ins.op != Op.JMP {
      assert s.core.reg == s'.core.reg by {
        LiveHere(code, i, Register);
      }
      StillRelated(vm, code, i, i + 1, s, s', X);
    }
  }

  lemma OutsideWindow(code: seq<Ins>, code': seq<Ins>, k: nat, la: nat, lb: nat, i: nat)
    requires Spliced(code, code', k, la, lb) && i < |code| && (i < k || i >= k + la)
    ensures 0 <= Moved(k, la, lb, i) < |code'| && code'[Moved(k, la, lb, i)] == code[i]
    ensures SamePlace(k, la, lb, i, Moved(k, la, lb, i))
  {
  }

  lemma TableStep(vm: VM, code: seq<Ins>, i: nat, s: State)
    requires i < |code| && code[i].op == Op.JMPP
    ensures var v := Read(s.vars, code[i].w0);
      Step(vm, code, i, s) == if 0 <= v <= code[i].a0 then At(i + 1 + v, s) else Wild
  {
  }

  lemma JmppReads(ins: Ins)
    requires ins.op == Op.JMPP
    ensures Reads(ins, Var(ins.w0))
  {
  }

  lemma TableMatches(vm: VM, code: seq<Ins>, code': seq<Ins>, k: nat, la: nat, lb: nat, i: nat, s: State, s': State,
                     X: set<Place>)
    requires Spliced(code, code', k, la, lb) && TablesClear(code, k, la)
    requires X == {} || TablesFull(code)
    requires i < |code| && code[i].op == Op.JMPP && (i < k || i >= k + la) && Rel(vm, code, i, s, s', X)
    ensures Match(vm, code, k, la, lb, Step(vm, code, i, s), Step(vm, code', Moved(k, la, lb, i), s'), X)
  {
    TableStep(vm, code, i, s);
    TableStep(vm, code', Moved(k, la, lb, i), s');
    hide LiveAt, Step, InfoType, Exec, Faults, Target;
    var w := code[i].w0;
    assert Read(s.vars, w) == Read(s'.vars, w) by {
      if Var(w) in X {
        JmppReads(code[i]);
        LiveHere(code, i, Var(w));
      }
    }
    var v := Read(s.vars, w);
    if 0 <= v <= code[i].a0 {
      if X != {} {
        assert InTable(code, i + 1, i + 1 + v);
        StillRelated(vm, code, i, i + 1 + v, s, s', X);
      }
    }
  }

  // Matching places, or an exception that may be lost.
  ghost predicate Sim(vm: VM, code: seq<Ins>, k: nat, la: nat, lb: nat, r: Res, r': Res, X: set<Place>, lossy: bool) {
    Match(vm, code, k, la, lb, r, r', X) || (lossy && r.Raised?)
  }

  /** From the window's start, running through either window leads to matching places; a `lossy` window
      may go on where the original one raises an exception. */
  ghost predicate WindowSim(vm: VM, code: seq<Ins>, code': seq<Ins>, k: nat, la: nat, lb: nat, X: set<Place>,
                            lossy: bool) {
    forall s, s' :: Rel(vm, code, k, s, s', X) ==>
      Sim(vm, code, k, la, lb, Run(vm, code, At(k, s), la), Run(vm, code', At(k, s'), lb), X, lossy)
  }

  ghost predicate Behind(r: Res, p: nat, lossy: bool) {
    (r.At? && r.pc == p) || (lossy && r.Raised?)
  }

  ghost predicate Replaced(vm: VM, code: seq<Ins>, code': seq<Ins>, k: nat, la: nat, lb: nat, X: set<Place>,
                           lossy: bool) {
    && Spliced(code, code', k, la, lb) && TablesClear(code, k, la) && la > 0
    && Discards(vm, code, X) && (X == {} || TablesFull(code))
    && WindowSim(vm, code, code', k, la, lb, X, lossy)
    && (lb == 0 ==> forall s :: Behind(Run(vm, code, At(k, s), la), k + la, lossy))
  }

  lemma RunDone(vm: VM, code: seq<Ins>, r: Res, m: nat, n: nat)
    requires !Run(vm, code, r, m).At? && m <= n
    ensures Run(vm, code, r, n) == Run(vm, code, r, m)
  {
    RunAdds(vm, code, r, m, n - m);
  }

  // One step of both lists, or the whole window in both.
  lemma MacroStep(vm: VM, code: seq<Ins>, code': seq<Ins>, k: nat, la: nat, lb: nat, X: set<Place>, lossy: bool,
                  r: Res, r': Res)
    returns (a: nat, b: nat)
    requires Replaced(vm, code, code', k, la, lb, X, lossy) && Match(vm, code, k, la, lb, r, r', X) && r.At?
    ensures r'.At? && a > 0
    ensures Sim(vm, code, k, la, lb, Run(vm, code, r, a), Run(vm, code', r', b), X, lossy)
    ensures b == 0 ==> r.pc == k && Behind(Run(vm, code, r, a), k + la, lossy) && la > 0
  {
    hide InfoType, Spliced, TablesClear, TablesFull, Step, Rel;
    if r.pc == k {
      a, b := la, lb;
    } else {
      a, b := 1, 1;
      StepMatches(vm, code, code', k, la, lb, r.pc, r.s, r'.s, X);
      assert Run(vm, code, r, 1) == Step(vm, code, r.pc, r.s);
      assert Run(vm, code', r', 1) == Step(vm, code', r'.pc, r'.s);
    }
  }

  lemma {:induction false} Forward(vm: VM, code: seq<Ins>, code': seq<Ins>, k: nat, la: nat, lb: nat, X: set<Place>,
                                   lossy: bool, r: Res, r': Res, n: nat) returns (m: nat)
    requires Replaced(vm, code, code', k, la, lb, X, lossy) && Match(vm, code, k, la, lb, r, r', X)
    requires !Run(vm, code, r, n).At?
    ensures Sim(vm, code, k, la, lb, Run(vm, code, r, n), Run(vm, code', r', m), X, lossy)
    decreases n
  {
    hide Match, Replaced, Step, Behind;
    m := 0;
    if r.At? {
      var a, b := MacroStep(vm, code, code', k, la, lb, X, lossy, r, r');
      if n <= a {
        RunDone(vm, code, r, n, a);
        m := b;
      } else {
        RunAdds(vm, code, r, a, n - a);
        var mid := Run(vm, code, r, a);
        if Match(vm, code, k, la, lb, mid, Run(vm, code', r', b), X) {
          m := Forward(vm, code, code', k, la, lb, X, lossy, mid, Run(vm, code', r', b), n - a);
          RunAdds(vm, code', r', b, m);
        }
        m := b + m;
      }
    }
  }

  lemma {:induction false} Backward(vm: VM, code: seq<Ins>, code': seq<Ins>, k: nat, la: nat, lb: nat, X: set<Place>,
                                    lossy: bool, r: Res, r': Res, m: nat) returns (n: nat)
    requires Replaced(vm, code, code', k, la, lb, X, lossy) && Match(vm, code, k, la, lb, r, r', X)
    requires !Run(vm, code', r', m).At?
    ensures Sim(vm, code, k, la, lb, Run(vm, code, r, n), Run(vm, code', r', m), X, lossy)
    decreases m, if r.At? && r.pc == k then 1 else 0
  {
    hide Match, Replaced, Step;
    n := 0;
    if r.At? {
      var a, b := MacroStep(vm, code, code', k, la, lb, X, lossy, r, r');
      var mid := Run(vm, code, r, a);
      n := a;
      if !Match(vm, code, k, la, lb, mid, Run(vm, code', r', b), X) {
      } else if m <= b && b > 0 {
        RunDone(vm, code', r', m, b);
      } else {
        RunAdds(vm, code', r', b, m - b);
        if mid.At? || b > 0 {
          n := Backward(vm, code, code', k, la, lb, X, lossy, mid, Run(vm, code', r', b), m - b);
          RunAdds(vm, code, r, a, n);
          n := a + n;
        }
      }
    } else {
      MatchDone(vm, code, k, la, lb, r, r', X);
    }
  }

  lemma MatchDone(vm: VM, code: seq<Ins>, k: nat, la: nat, lb: nat, r: Res, r': Res, X: set<Place>)
    requires Match(vm, code, k, la, lb, r, r', X)
    ensures r.At? <==> r'.At?
  {
  }

  // ----- equivalence -----

  // The two runs finished the same way, with states equal up to the variables in X.
  ghost predicate SameEnd(r: Res, r': Res, X: set<Place>) {
    match (r, r')
    case (Leaves(lab, s), Leaves(lab', s')) => lab == lab' && Agree(s, s', X)
    case (Ends(s), Ends(s')) => Agree(s, s', X)
    case _ => r == r' && !r.At? && !r.Leaves? && !r.Ends?
  }

  /** Every run of `code` that finishes is matched by one of `code'` that finishes the same way. */
  ghost predicate Refines(vm: VM, code: seq<Ins>, code': seq<Ins>, X: set<Place>) {
    forall s, n :: !Run(vm, code, At(0, s), n).At? ==>
      exists m :: SameEnd(Run(vm, code, At(0, s), n), Run(vm, code', At(0, s), m), X)
  }

  /** The two lists have the same meaning, except that they may leave different values in X. */
  ghost predicate Equivalent(vm: VM, code: seq<Ins>, code': seq<Ins>, X: set<Place>) {
    Refines(vm, code, code', X) && Refines(vm, code', code, X)
  }

  // The second run finished as the first did, unless that raised an exception.
  ghost predicate Follows(r: Res, r': Res, X: set<Place>) {
    r.Raised? || SameEnd(r, r', X)
  }

  /** `code'` means the same as `code`, except that it may go on where `code` raises an exception. */
  ghost predicate Upholds(vm: VM, code: seq<Ins>, code': seq<Ins>, X: set<Place>) {
    && (forall s, n :: !Run(vm, code, At(0, s), n).At? ==>
      exists m :: Follows(Run(vm, code, At(0, s), n), Run(vm, code', At(0, s), m), X))
    && (forall s, m :: !Run(vm, code', At(0, s), m).At? ==>
      exists n :: Follows(Run(vm, code, At(0, s), n), Run(vm, code', At(0, s), m), X))
  }

  /** Replacing a window by one that simulates it preserves the meaning of the list. */
  lemma ReplacementPreserves(vm: VM, code: seq<Ins>, code': seq<Ins>, k: nat, la: nat, lb: nat, X: set<Place>)
    requires Replaced(vm, code, code', k, la, lb, X, false)
    ensures Equivalent(vm, code, code', X)
  {
    hide Replaced, Run, LiveAt;
    forall s, n | !Run(vm, code, At(0, s), n).At?
      ensures exists m :: SameEnd(Run(vm, code, At(0, s), n), Run(vm, code', At(0, s), m), X)
    {
      var m := Forward(vm, code, code', k, la, lb, X, false, At(0, s), At(0, s), n);
    }
    forall s, m | !Run(vm, code', At(0, s), m).At?
      ensures exists n :: SameEnd(Run(vm, code', At(0, s), m), Run(vm, code, At(0, s), n), X)
    {
      var n := Backward(vm, code, code', k, la, lb, X, false, At(0, s), At(0, s), m);
    }
  }

  /** And if exceptions may be lost, up to those. */
  lemma ReplacementUpholds(vm: VM, code: seq<Ins>, code': seq<Ins>, k: nat, la: nat, lb: nat, X: set<Place>)
    requires Replaced(vm, code, code', k, la, lb, X, true)
    ensures Upholds(vm, code, code', X)
  {
    hide Replaced, Run, LiveAt;
    forall s, n | !Run(vm, code, At(0, s), n).At?
      ensures exists m :: Follows(Run(vm, code, At(0, s), n), Run(vm, code', At(0, s), m), X)
    {
      var m := Forward(vm, code, code', k, la, lb, X, true, At(0, s), At(0, s), n);
      assert Follows(Run(vm, code, At(0, s), n), Run(vm, code', At(0, s), m), X);
    }
    forall s, m | !Run(vm, code', At(0, s), m).At?
      ensures exists n :: Follows(Run(vm, code, At(0, s), n), Run(vm, code', At(0, s), m), X)
    {
      var n := Backward(vm, code, code', k, la, lb, X, true, At(0, s), At(0, s), m);
      assert Follows(Run(vm, code, At(0, s), n), Run(vm, code', At(0, s), m), X);
    }
  }

  lemma RefinesTrans(vm: VM, c0: seq<Ins>, c1: seq<Ins>, c2: seq<Ins>, X: set<Place>)
    requires Refines(vm, c0, c1, X) && Refines(vm, c1, c2, X)
    ensures Refines(vm, c0, c2, X)
  {
    hide Run;
    forall s, n | !Run(vm, c0, At(0, s), n).At?
      ensures exists m :: SameEnd(Run(vm, c0, At(0, s), n), Run(vm, c2, At(0, s), m), X)
    {
      var k :| SameEnd(Run(vm, c0, At(0, s), n), Run(vm, c1, At(0, s), k), X);
      var m :| SameEnd(Run(vm, c1, At(0, s), k), Run(vm, c2, At(0, s), m), X);
      assert SameEnd(Run(vm, c0, At(0, s), n), Run(vm, c2, At(0, s), m), X);
    }
  }

  lemma EquivalentTrans(vm: VM, c0: seq<Ins>, c1: seq<Ins>, c2: seq<Ins>, X: set<Place>)
    requires Equivalent(vm, c0, c1, X) && Equivalent(vm, c1, c2, X)
    ensures Equivalent(vm, c0, c2, X)
  {
    hide Refines;
    RefinesTrans(vm, c0, c1, c2, X);
    RefinesTrans(vm, c2, c1, c0, X);
  }

  lemma EquivalentRefl(vm: VM, code: seq<Ins>, X: set<Place>)
    ensures Equivalent(vm, code, code, X)
  {
    hide Run;
    forall s, n | !Run(vm, code, At(0, s), n).At?
      ensures exists m :: SameEnd(Run(vm, code, At(0, s), n), Run(vm, code, At(0, s), m), X)
    {
      assert SameEnd(Run(vm, code, At(0, s), n), Run(vm, code, At(0, s), n), X);
    }
  }

  lemma EndsSymmetric(r: Res, r': Res, X: set<Place>)
    requires SameEnd(r, r', X)
    ensures SameEnd(r', r, X)
  {
  }

  lemma EquivalentUpholds(vm: VM, code: seq<Ins>, code': seq<Ins>, X: set<Place>)
    requires Equivalent(vm, code, code', X)
    ensures Upholds(vm, code, code', X)
  {
    hide Run, SameEnd;
    forall s, n | !Run(vm, code, At(0, s), n).At?
      ensures exists m :: Follows(Run(vm, code, At(0, s), n), Run(vm, code', At(0, s), m), X)
    {
      var m :| SameEnd(Run(vm, code, At(0, s), n), Run(vm, code', At(0, s), m), X);
      assert Follows(Run(vm, code, At(0, s), n), Run(vm, code', At(0, s), m), X);
    }
    forall s, m | !Run(vm, code', At(0, s), m).At?
      ensures exists n :: Follows(Run(vm, code, At(0, s), n), Run(vm, code', At(0, s), m), X)
    {
      var n :| SameEnd(Run(vm, code', At(0, s), m), Run(vm, code, At(0, s), n), X);
      EndsSymmetric(Run(vm, code', At(0, s), m), Run(vm, code, At(0, s), n), X);
      assert Follows(Run(vm, code, At(0, s), n), Run(vm, code', At(0, s), m), X);
    }
  }

  // A run that follows a finished one that raised nothing has finished too.
  lemma FollowsTrans(r: Res, r': Res, r'': Res, X: set<Place>)
    requires Follows(r, r', X) && Follows(r', r'', X)
    ensures Follows(r, r'', X)
    ensures !r.At? && (r.Raised? || !r'.At?)
  {
  }

  lemma UpholdsTrans(vm: VM, c0: seq<Ins>, c1: seq<Ins>, c2: seq<Ins>, X: set<Place>)
    requires Upholds(vm, c0, c1, X) && Upholds(vm, c1, c2, X)
    ensures Upholds(vm, c0, c2, X)
  {
    hide Run, SameEnd;
    forall s, n | !Run(vm, c0, At(0, s), n).At?
      ensures exists m :: Follows(Run(vm, c0, At(0, s), n), Run(vm, c2, At(0, s), m), X)
    {
      var k :| Follows(Run(vm, c0, At(0, s), n), Run(vm, c1, At(0, s), k), X);
      if Run(vm, c0, At(0, s), n).Raised? {
        assert Follows(Run(vm, c0, At(0, s), n), Run(vm, c2, At(0, s), 0), X);
      } else {
        EndsFinished(Run(vm, c0, At(0, s), n), Run(vm, c1, At(0, s), k), X);
        var m :| Follows(Run(vm, c1, At(0, s), k), Run(vm, c2, At(0, s), m), X);
        FollowsTrans(Run(vm, c0, At(0, s), n), Run(vm, c1, At(0, s), k), Run(vm, c2, At(0, s), m), X);
        assert Follows(Run(vm, c0, At(0, s), n), Run(vm, c2, At(0, s), m), X);
      }
    }
    forall s, m | !Run(vm, c2, At(0, s), m).At?
      ensures exists n :: Follows(Run(vm, c0, At(0, s), n), Run(vm, c2, At(0, s), m), X)
    {
      var k :| Follows(Run(vm, c1, At(0, s), k), Run(vm, c2, At(0, s), m), X);
      FollowedFinished(Run(vm, c1, At(0, s), k), Run(vm, c2, At(0, s), m), X);
      var n :| Follows(Run(vm, c0, At(0, s), n), Run(vm, c1, At(0, s), k), X);
      FollowsTrans(Run(vm, c0, At(0, s), n), Run(vm, c1, At(0, s), k), Run(vm, c2, At(0, s), m), X);
      assert Follows(Run(vm, c0, At(0, s), n), Run(vm, c2, At(0, s), m), X);
    }
  }

  lemma EndsFinished(r: Res, r': Res, X: set<Place>)
    requires Follows(r, r', X) && !r.Raised?
    ensures !r.At? && !r'.At?
  {
  }

  lemma FollowedFinished(r: Res, r': Res, X: set<Place>)
    requires Follows(r, r', X)
    ensures !r.At?
  {
  }
}
