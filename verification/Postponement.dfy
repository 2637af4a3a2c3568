/** `PostponeInitOfTemp`: a constant is loaded just before its use instead of ahead of it, when that
    lets `RemoveUnusedValue` combine the two. */
module Postponement {
  import Op
  import opened Tables
  import opened Instructions
  import opened CodeLists
  import opened Machine
  import opened Liveness
  import opened Windows
  import opened Blocks
  import opened Discipline
  import opened UnusedValues

  /** The first instruction from `i` on that reads `x`, provided no label, jump or write to `x` comes
      before it; -1 if there is none. */
  function FirstUse(code: seq<Ins>, i: nat, x: int): (u: int)
    ensures u == -1 || (i <= u < |code| && ReadsVar(code[u], x))
    ensures u != -1 ==> forall m :: i <= m < u ==> Passes(code[m], Var(x)) && !IsJmpOrLabel(code[m].op)
    decreases |code| - i
  {
    if i >= |code| then -1
    else if ReadsVar(code[i], x) then i
    else if OverwritesVar(code[i], x) || IsJmpOrLabel(code[i].op) then -1
    else FirstUse(code, i + 1, x)
  }

  // The instruction at `k` moved to just before the one at `u`.
  function MovedDown(code: seq<Ins>, k: nat, u: nat): (r: seq<Ins>)
    requires k < u <= |code|
    ensures |r| == |code| && r[u - 1] == code[k]
  {
    code[..k] + (code[k + 1..u] + [code[k]]) + code[u..]
  }

  ghost predicate CanPostpone(code: seq<Ins>, k: nat, temps: set<int>)
    requires k < |code|
  {
    && code[k].op in {Op.SetV4, Op.SetV8}
    && code[k].w0 in temps
    && FirstUse(code, k + 1, code[k].w0) > k + 1
    && var u := FirstUse(code, k + 1, code[k].w0);
    && Unused(MovedDown(code, k, u), u - 1, temps).Replace?
  }

  /** What `PostponeInitOfTemp` does to the instruction at `k`. */
  ghost function Postpone(code: seq<Ins>, k: nat, temps: set<int>): seq<Ins>
    requires k < |code| && CanPostpone(code, k, temps)
  {
    var u := FirstUse(code, k + 1, code[k].w0);
    var moved := MovedDown(code, k, u);
    Apply(moved, Unused(moved, u - 1, temps))
  }

  // ----- moving preserves meaning -----

  lemma LoadCommutes(vm: VM, c: Ins, m: Ins, s: State)
    requires c.op in {Op.SetV4, Op.SetV8} && Straight(m.op) && Passes(m, Var(c.w0)) && !vm.addressed(c.w0)
    ensures Exec(vm, m, Exec(vm, c, s)) == Exec(vm, c, Exec(vm, m, s))
    ensures SameFault(vm, m, Exec(vm, c, s), m, s)
  {
    hide InfoType, Value, Effect, FirstOperand, SecondOperand, Exec, Faults;
    ExecLoad(vm, c, s);
    ExecLoad(vm, c, Exec(vm, m, s));
    UpdateCommutes(vm, m, s, c.w0, if c.op == Op.SetV4 then c.a0 else QuadArg(c));
  }

  lemma UpdateCommutes(vm: VM, m: Ins, s: State, x: int, v: int)
    requires Straight(m.op) && Passes(m, Var(x)) && !vm.addressed(x)
    ensures var t := Exec(vm, m, s);
      Exec(vm, m, s.(vars := s.vars[x := v])) == t.(vars := t.vars[x := v])
    ensures SameFault(vm, m, s.(vars := s.vars[x := v]), m, s)
  {
    hide InfoType, Value, Effect, FirstOperand, SecondOperand, ExecByAddress;
    OperandsRead(m, s.vars, s.vars[x := v]);
    FetchElsewhere(vm, s, x, v, Top(s.core.stack));
    if ByAddress(m.op) {
      AccessCommutes(vm, m, s, x, v);
    }
  }

  lemma FetchElsewhere(vm: VM, s: State, x: int, v: int, p: int)
    requires !vm.addressed(x)
    ensures Fetch(vm, s.(vars := s.vars[x := v]), p) == Fetch(vm, s, p)
  {
  }

  lemma AccessCommutes(vm: VM, m: Ins, s: State, x: int, v: int)
    requires ByAddress(m.op) && Passes(m, Var(x)) && !vm.addressed(x)
    ensures var t := ExecByAddress(vm, m, s);
      ExecByAddress(vm, m, s.(vars := s.vars[x := v])) == t.(vars := t.vars[x := v])
  {
    hide InfoType, Signed32, Fetch;
    AccessTypes();
    var stack := s.core.stack;
    FetchElsewhere(vm, s, x, v, s.core.reg);
    FetchElsewhere(vm, s, x, v, Top(stack));
    FetchElsewhere(vm, s, x, v, Address(vm, m.w0));
    FetchElsewhere(vm, s, x, v, Address(vm, Below(stack, m.w0).value));
  }

  lemma {:induction false} BlockCommutes(vm: VM, c: Ins, b: seq<Ins>, s: State)
    requires c.op in {Op.SetV4, Op.SetV8} && !vm.addressed(c.w0)
    requires forall i :: 0 <= i < |b| ==> Straight(b[i].op) && Passes(b[i], Var(c.w0))
    ensures Block(vm, [c] + b, s) == Block(vm, b + [c], s)
    decreases |b|
  {
    hide InfoType, Exec, Faults;
    if b == [] {
      assert [c] + b == b + [c];
    } else {
      var m, rest := b[0], b[1..];
      LoadCommutes(vm, c, m, s);
      BlockCommutes(vm, c, rest, Exec(vm, m, s));
      CalmNeverFaults(vm, c);
      LoadFirst(vm, c, b, s);
      LoadFirst(vm, c, rest, Exec(vm, m, s));
      assert b == [m] + rest;
      assert (b + [c])[1..] == rest + [c];
    }
  }

  // A block that begins with the load of a constant.
  lemma LoadFirst(vm: VM, c: Ins, b: seq<Ins>, s: State)
    requires c.op in {Op.SetV4, Op.SetV8}
    ensures Block(vm, [c] + b, s) == Block(vm, b, Exec(vm, c, s))
  {
    hide Exec, Faults;
    CalmNeverFaults(vm, c);
    assert ([c] + b)[1..] == b;
  }

  lemma {:induction false} BlockRelated(vm: VM, code: seq<Ins>, k: nat, u: nat, s: State, s': State, X: set<Place>)
    requires 0 < u && k <= u <= |code| && (forall i :: k <= i < u ==> Straight(code[i].op))
    requires Rel(vm, code, k, s, s', X) && Discards(vm, code, X)
    ensures ExitRel(vm, code, u, Block(vm, code[k..u], s), Block(vm, code[k..u], s'), X)
    decreases u - k
  {
    hide InfoType, Exec, Rel, Faults;
    if k < u {
      FaultsRelated(vm, code, k, s, s', X);
      ExecRelated(vm, code, k, s, s', X);
      SameOutsideRelated(vm, code, k + 1, Exec(vm, code[k], s), Exec(vm, code[k], s'), X);
      assert code[k..u][0] == code[k] && code[k..u][1..] == code[k + 1..u];
      BlockRelated(vm, code, k + 1, u, Exec(vm, code[k], s), Exec(vm, code[k], s'), X);
    }
  }

  lemma SameOutsideRelated(vm: VM, code: seq<Ins>, i: nat, s: State, s': State, X: set<Place>)
    requires Rel(vm, code, i, s, s', X)
    ensures s.core.world == s'.core.world
  {
  }

  /** Moving a constant down to its use, over instructions that leave its variable alone. */
  lemma MovePreserves(vm: VM, code: seq<Ins>, k: nat, u: nat)
    requires k < u <= |code| && TablesFull(code) && code[k].op in {Op.SetV4, Op.SetV8}
    requires forall m :: k < m < u ==> Passes(code[m], Var(code[k].w0)) && !IsJmpOrLabel(code[m].op)
    requires !vm.addressed(code[k].w0)
    ensures Equivalent(vm, code, MovedDown(code, k, u), {})
  {
    hide InfoType, Exec, Rel, Equivalent, TablesFull, Block, LiveAt, ReadsVar;
    var c, b := code[k], code[k + 1..u];
    assert forall m :: k < m < u ==> Straight(code[m].op);
    assert code[k..u] == [c] + b;
    assert forall i :: 0 <= i < |b| ==> b[i] == code[k + 1 + i];
    TablesAreClear(code, k, u - k);
    forall s, s' | Rel(vm, code, k, s, s', {})
      ensures ExitRel(vm, code, u, Block(vm, code[k..u], s), Block(vm, b + [c], s'), {})
    {
      BlockRelated(vm, code, k, u, s, s', {});
      BlockCommutes(vm, c, b, s');
    }
    BlockReplaces(vm, code, k, u - k, b + [c], {});
  }

  lemma MoveKeepsTables(code: seq<Ins>, k: nat, u: nat)
    requires k < u <= |code| && TablesFull(code) && code[k].op in {Op.SetV4, Op.SetV8}
    requires forall m :: k < m < u ==> !IsJmpOrLabel(code[m].op)
    ensures TablesFull(MovedDown(code, k, u))
  {
    var r := MovedDown(code, k, u);
    assert forall j :: k <= j < u - 1 ==> r[j] == code[j + 1];
    assert forall j :: 0 <= j < |r| && !(k <= j < u) ==> r[j] == code[j];
    forall i | 0 <= i < |r| && r[i].op == Op.JMPP && 0 <= r[i].a0
      ensures InTable(r, i + 1, i + 1 + r[i].a0)
    {
      assert r[i] == code[i] && InTable(code, i + 1, i + 1 + code[i].a0);
    }
  }

  // ----- moving keeps the discipline -----

  // A constant load asks for nothing, and changes only its variable.
  lemma LoadUses(c: Ins, p: Place)
    requires c.op in {Op.SetV4, Op.SetV8}
    ensures !Reads(c, p) && (Overwrites(c, p) <==> p == Var(c.w0))
  {
  }

  lemma {:induction false} LoadBehind(b: seq<Ins>, c: Ins, p: Place)
    requires c.op in {Op.SetV4, Op.SetV8} && (p == Var(c.w0) ==> PassedBy(b, p))
    ensures ReadBy(b + [c], p) <==> ReadBy(b, p)
    ensures PassedBy(b + [c], p) <==> PassedBy(b, p) && p != Var(c.w0)
    decreases |b|
  {
    hide Reads, Overwrites, ReadBy, PassedBy;
    LoadUses(c, p);
    if b == [] {
      assert b + [c] == [c];
      PassedByNone(b, p);
      PassedByNone([], p);
      ReadByFirst([c], p);
    } else {
      var rest := b[1..];
      ReadByFirst(b, p);
      ReadByFirst(b + [c], p);
      assert (b + [c])[1..] == rest + [c];
      LoadBehind(rest, c, p);
    }
  }

  lemma LoadInFront(b: seq<Ins>, c: Ins, p: Place)
    requires c.op in {Op.SetV4, Op.SetV8}
    ensures ReadBy([c] + b, p) <==> ReadBy(b, p) && p != Var(c.w0)
    ensures PassedBy([c] + b, p) <==> PassedBy(b, p) && p != Var(c.w0)
  {
    hide Reads, Overwrites, ReadBy, PassedBy;
    LoadUses(c, p);
    ReadByFirst([c] + b, p);
    assert ([c] + b)[1..] == b;
  }

  lemma PassedNotRead(b: seq<Ins>, p: Place)
    requires PassedBy(b, p)
    ensures !ReadBy(b, p)
  {
    hide Reads, Overwrites;
  }

  ghost predicate CanMove(code: seq<Ins>, k: nat, u: nat) {
    && k < u <= |code| && code[k].op in {Op.SetV4, Op.SetV8}
    && forall m :: k < m < u ==> Passes(code[m], Var(code[k].w0)) && !IsJmpOrLabel(code[m].op)
  }

  lemma MovedIsSplice(code: seq<Ins>, k: nat, u: nat)
    requires k < u <= |code|
    ensures MovedDown(code, k, u) == Splice(code, k, u - k, code[k + 1..u] + [code[k]])
    ensures code[k..u] == [code[k]] + code[k + 1..u]
  {
  }

  lemma MoveIsWindow(code: seq<Ins>, k: nat, u: nat)
    requires CanMove(code, k, u)
    ensures IsWindow(code[k..u]) && IsWindow(code[k + 1..u] + [code[k]]) && IsWindow(code[k + 1..u])
    ensures PassedBy(code[k + 1..u], Var(code[k].w0))
    ensures Straight(code[u - 1].op)
  {
    hide InfoType, ReadsVar;
    assert forall m :: k < m < u ==> Straight(code[m].op);
  }

  lemma MoveAsksNoMore(code: seq<Ins>, k: nat, u: nat, p: Place)
    requires CanMove(code, k, u)
    ensures AsksNoMore(code, k, u - k, code[k + 1..u] + [code[k]], p)
  {
    hide Reads, Overwrites, ReadBy, PassedBy, IsWindow, DeadBeyond;
    MoveIsWindow(code, k, u);
    MovedIsSplice(code, k, u);
    LoadBehind(code[k + 1..u], code[k], p);
    LoadInFront(code[k + 1..u], code[k], p);
    if p == Var(code[k].w0) {
      PassedNotRead(code[k + 1..u], p);
    }
  }

  // What an instruction in the middle of the window sheds stays shed when the load moves behind it.
  lemma MoveSheds(code: seq<Ins>, k: nat, u: nat, m: nat, p: Place, temps: set<int>, hasResult: bool)
    requires CanMove(code, k, u) && Disciplined(code, temps, hasResult) && k < m < u
    requires Sheds(code[m], p, temps, hasResult)
    ensures var rest := code[m + 1..u] + [code[k]];
      !ReadBy(rest, p) && (PassedBy(rest, p) ==> DeadBeyond(code, k, u - k, p))
  {
    hide Reads, Overwrites, ReadBy, PassedBy, IsWindow, LiveAt, Flow, LeavesFor;
    var b := code[m + 1..u];
    MoveIsWindow(code, k, u);
    NotTheLoaded(code, k, u, m, p, temps, hasResult);
    LoadBehind(b, code[k], p);
    MoveFlow(code, k, u, m);
    if m + 1 == u {
      PassedByNone(b, p);
    } else {
      RestIsWindow(code, k, u, m + 1);
      if ReadBy(b, p) {
        ReadIsLive(code, m + 1, u - m - 1, p);
      }
    }
    forall j: nat | PassedBy(b, p) && LeavesFor(code, k, u - k, j)
      ensures !LiveAt(code, j, p)
    {
      OnlyAtEnd(code, k, u, j);
      if m + 1 < u && LiveAt(code, j, p) {
        RestPassed(code, m + 1, u, p);
        LeavesAtEnd(code, m + 1, u - m - 1);
        LiveThrough(code, m + 1, u - m - 1, 0, p, j);
      }
    }
  }

  // The discipline, where an instruction of the window sheds and control goes on behind it.
  lemma MoveFlow(code: seq<Ins>, k: nat, u: nat, m: nat)
    requires CanMove(code, k, u) && k <= m < u
    ensures m + 1 < |code| ==> Flow(code, m, m + 1)
  {
    hide InfoType, ReadsVar;
    assert m > k ==> !IsJmpOrLabel(code[m].op);
  }

  lemma NotTheLoaded(code: seq<Ins>, k: nat, u: nat, m: nat, p: Place, temps: set<int>, hasResult: bool)
    requires CanMove(code, k, u) && k < m < u && Sheds(code[m], p, temps, hasResult)
    ensures !p.Var? && code[m].op != Op.SUSPEND
  {
    hide InfoType, ReadsVar;
    assert Passes(code[m], Var(code[k].w0)) && !IsJmpOrLabel(code[m].op);
  }

  lemma RestIsWindow(code: seq<Ins>, k: nat, u: nat, m: nat)
    requires CanMove(code, k, u) && k < m < u
    ensures IsWindow(code[m..u])
  {
    hide InfoType, ReadsVar;
    assert forall i :: k < i < u ==> Straight(code[i].op);
  }

  lemma OnlyAtEnd(code: seq<Ins>, k: nat, u: nat, j: nat)
    requires CanMove(code, k, u) && LeavesFor(code, k, u - k, j)
    ensures j == u < |code|
  {
    hide InfoType, ReadsVar, Target;
    assert u - 1 > k ==> !IsJmpOrLabel(code[u - 1].op);
  }

  lemma RestPassed(code: seq<Ins>, m: nat, u: nat, p: Place)
    requires m < u <= |code| && PassedBy(code[m..u], p)
    ensures forall q :: m <= q < u ==> Passes(code[q], p)
  {
    hide Passes;
    forall q | m <= q < u
      ensures Passes(code[q], p)
    {
      assert code[m..u][q - m] == code[q];
    }
  }

  lemma MoveKeepsDiscipline(code: seq<Ins>, k: nat, u: nat, temps: set<int>, hasResult: bool)
    requires CanMove(code, k, u) && TablesClosed(code) && Disciplined(code, temps, hasResult)
    ensures Disciplined(MovedDown(code, k, u), temps, hasResult)
  {
    hide Reads, Overwrites, ReadBy, PassedBy, IsWindow, AsksNoMore, Disciplined, TablesClosed, Sheds, DeadBeyond;
    hide Splice, MovedDown;
    var c, b, la := code[k], code[k + 1..u] + [code[k]], u - k;
    MovedIsSplice(code, k, u);
    MoveIsWindow(code, k, u);
    forall p
      ensures AsksNoMore(code, k, la, b, p)
    {
      MoveAsksNoMore(code, k, u, p);
    }
    forall m, p | 0 <= m < |b| && Sheds(b[m], p, temps, hasResult)
      ensures !ReadBy(b[m + 1..], p) && (PassedBy(b[m + 1..], p) ==> DeadBeyond(code, k, u - k, p))
    {
      LoadShedsNothing(c, p, temps, hasResult);
      assert b[m] == code[k + 1 + m];
      MoveSheds(code, k, u, k + 1 + m, p, temps, hasResult);
      assert b[m + 1..] == code[k + 1 + m + 1..u] + [code[k]];
    }
    MoveSameExits(code, k, u);
    SpliceKeepsDiscipline(code, k, u - k, b, temps, hasResult);
  }

  lemma LoadShedsNothing(c: Ins, p: Place, temps: set<int>, hasResult: bool)
    requires c.op in {Op.SetV4, Op.SetV8}
    ensures !Sheds(c, p, temps, hasResult)
  {
  }

  lemma MoveSameExits(code: seq<Ins>, k: nat, u: nat)
    requires CanMove(code, k, u) && TablesClosed(code)
    ensures SameExits(code, k, u - k, code[k + 1..u] + [code[k]])
  {
    hide TablesClosed, IsWindow, Passes;
    MoveIsWindow(code, k, u);
  }

  /** `PostponeInitOfTemp` preserves the meaning of a disciplined list whenever the combination it
      makes is sound. */
  lemma PostponePreserves(vm: VM, code: seq<Ins>, k: nat, temps: set<int>)
    requires k < |code| && TablesFull(code) && TablesClosed(code) && CanPostpone(code, k, temps) && Word32(code[k].a0)
    requires Disciplined(code, temps, vm.hasResult)
    requires var u := FirstUse(code, k + 1, code[k].w0); Sound(vm, MovedDown(code, k, u), u - 1, temps)
    ensures Equivalent(vm, code, Postpone(code, k, temps), Loose(temps))
  {
    hide TablesFull, TablesClosed, Equivalent, Sound, Unused, MovedDown, Apply, InfoType, Disciplined, Passes, FirstUse;
    hide Upholds, Quiet, Hidden;
    var u, X := FirstUse(code, k + 1, code[k].w0), Loose(temps);
    var moved := MovedDown(code, k, u);
    LoadIsHidden(vm, moved, u - 1, temps);
    MovePreserves(vm, code, k, u);
    EquivalentWeakens(vm, code, moved, {}, X);
    MoveKeepsTables(code, k, u);
    MoveKeepsDiscipline(code, k, u, temps, vm.hasResult);
    LoadIsQuiet(vm, moved, u - 1, temps);
    UnusedPreserves(vm, moved, u - 1, temps);
    EquivalentTrans(vm, code, moved, Apply(moved, Unused(moved, u - 1, temps)), X);
  }

  lemma LoadIsHidden(vm: VM, code: seq<Ins>, k: nat, temps: set<int>)
    requires k < |code| && Sound(vm, code, k, temps) && code[k].op in {Op.SetV4, Op.SetV8} && code[k].w0 in temps
    ensures !vm.addressed(code[k].w0)
  {
    hide InfoType;
    SoundHides(vm, code, k, temps);
    SetTypes();
  }

  lemma LoadIsQuiet(vm: VM, code: seq<Ins>, k: nat, temps: set<int>)
    requires k < |code| && code[k].op in {Op.SetV4, Op.SetV8}
    ensures Quiet(vm, code, k, temps)
  {
    hide DeadStore, NeverFaults;
    CalmNeverFaults(vm, code[k]);
  }
}
