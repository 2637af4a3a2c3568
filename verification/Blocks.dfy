/** Windows of straight-line instructions: what they compute, and when one can stand for another. */
module Blocks {
  import Op
  import opened Tables
  import opened Instructions
  import opened CodeLists
  import opened Machine
  import opened Liveness
  import opened Windows

  // How a block is left: at its end, by its last instruction's jump, by its return, or by an exception.
  datatype Exit =
    | Fall(s: State)
    | Jump(lab: int, s: State)
    | Back(pop: int, reg: int, obj: int, world: World)
    | Halt(world: World)

  /** Plain instructions, of which the last may also be a jump or a return. */
  ghost predicate IsBlock(b: seq<Ins>) {
    && (forall i :: 0 <= i < |b| - 1 ==> Straight(b[i].op))
    && (b != [] ==> b[|b| - 1].op != Op.LABEL && b[|b| - 1].op != Op.JMPP)
  }

  function Block(vm: VM, b: seq<Ins>, s: State): Exit {
    if b == [] then Fall(s)
    else if b[0].op == Op.RET then Back(b[0].w0, ReturnValue(vm, s.core), s.core.obj, s.core.world)
    else if b[0].op == Op.JMP then Jump(b[0].a0, s)
    else if IsCondJump(b[0].op) then
      if Taken(b[0].op, s.core.reg) then Jump(b[0].a0, s) else Fall(s)
    else if Faults(vm, b[0], s) then Halt(Exec(vm, b[0], s).core.world)
    else Block(vm, b[1..], Exec(vm, b[0], s))
  }

  lemma {:induction false} RunBlock(vm: VM, code: seq<Ins>, k: nat, b: seq<Ins>, s: State)
    requires IsBlock(b) && k + |b| <= |code| && code[k..k + |b|] == b
    ensures Run(vm, code, At(k, s), |b|) ==
      match Block(vm, b, s)
      case Fall(t) => At(k + |b|, t)
      case Jump(lab, t) => if b != [] then Go(code, k + |b| - 1, lab, t) else Wild
      case Back(pop, reg, obj, world) => Returned(pop, reg, obj, world)
      case Halt(world) => Raised(world)
    decreases |b|
  {
    hide InfoType, Exec, Target, Faults;
    if b != [] {
      assert code[k] == b[0] && Step(vm, code, k, s) == Step(vm, code, At(k, s).pc, s);
      if Straight(b[0].op) {
        assert code[k + 1..k + 1 + |b[1..]|] == b[1..];
        assert IsBlock(b[1..]);
        RunBlock(vm, code, k + 1, b[1..], Exec(vm, b[0], s));
      } else {
        assert |b| == 1;
        assert Run(vm, code, At(k, s), 1) == Step(vm, code, k, s);
      }
    }
  }

  /** Two exits from a window that ends at `end`, which what follows cannot tell apart. */
  ghost predicate ExitRel(vm: VM, code: seq<Ins>, end: nat, e: Exit, e': Exit, X: set<Place>)
    requires 0 < end <= |code|
  {
    match (e, e')
    case (Fall(s), Fall(s')) => Rel(vm, code, end, s, s', X)
    case (Jump(lab, s), Jump(lab', s')) =>
      && lab == lab' && Agree(s, s', X)
      && (Target(code, end - 1, lab) != -1 ==> Rel(vm, code, Target(code, end - 1, lab), s, s', X))
    case _ => e == e' && (e.Back? || e.Halt?)
  }

  function Splice(code: seq<Ins>, k: nat, la: nat, b: seq<Ins>): seq<Ins>
    requires k + la <= |code|
  {
    code[..k] + b + code[k + la..]
  }

  // The block raises no exception and ends in no jump.
  ghost predicate AlwaysFalls(vm: VM, b: seq<Ins>) {
    forall s {:trigger Block(vm, b, s)} :: Block(vm, b, s).Fall?
  }

  /** A block that does the same as the `la` instructions at `k` can take their place. */
  lemma BlockReplaces(vm: VM, code: seq<Ins>, k: nat, la: nat, b: seq<Ins>, X: set<Place>)
    requires 0 < la && k + la <= |code| && IsBlock(code[k..k + la]) && IsBlock(b)
    requires TablesClear(code, k, la) && Discards(vm, code, X) && (X == {} || TablesFull(code))
    requires b == [] ==> AlwaysFalls(vm, code[k..k + la])
    requires forall s, s' :: Rel(vm, code, k, s, s', X) ==>
      ExitRel(vm, code, k + la, Block(vm, code[k..k + la], s), Block(vm, b, s'), X)
    ensures Equivalent(vm, code, Splice(code, k, la, b), X)
  {
    hide InfoType, Block, Run, LiveAt, Target, TablesClear, TablesFull, Discards, Rel, ExitRel, Match, Spliced;
    hide Splice, IsBlock;
    var code', lb, a := Splice(code, k, la, b), |b|, code[k..k + la];
    SpliceIsSpliced(code, k, la, b);
    forall s, s' | Rel(vm, code, k, s, s', X)
      ensures Match(vm, code, k, la, lb, Run(vm, code, At(k, s), la), Run(vm, code', At(k, s'), lb), X)
    {
      BlockMatches(vm, code, k, la, b, s, s', X);
    }
    if lb == 0 {
      forall s
        ensures Run(vm, code, At(k, s), la).At? && Run(vm, code, At(k, s), la).pc == k + la
      {
        RunBlock(vm, code, k, a, s);
      }
    }
    ReplacementPreserves(vm, code, code', k, la, lb, X);
  }

  // A block has no label in it, so the list with another one in its place is spliced from it.
  lemma SpliceIsSpliced(code: seq<Ins>, k: nat, la: nat, b: seq<Ins>)
    requires k + la <= |code| && IsBlock(code[k..k + la]) && IsBlock(b)
    ensures Spliced(code, Splice(code, k, la, b), k, la, |b|)
    ensures Splice(code, k, la, b)[k..k + |b|] == b
  {
    hide InfoType, IsBlock, Splice, Spliced;
    NoLabelInBlock(code[k..k + la]);
    NoLabelInBlock(b);
    SplicedWindow(code, k, la, b);
    SpliceAt(code, k, la, b);
  }

  ghost predicate NoLabel(b: seq<Ins>) {
    forall i :: 0 <= i < |b| ==> b[i].op != Op.LABEL
  }

  lemma SplicedWindow(code: seq<Ins>, k: nat, la: nat, b: seq<Ins>)
    requires k + la <= |code| && NoLabel(code[k..k + la]) && NoLabel(b)
    ensures Spliced(code, Splice(code, k, la, b), k, la, |b|)
  {
    hide Splice, NoLabel;
    var code' := Splice(code, k, la, b);
    SpliceAt(code, k, la, b);
    WindowHasNoLabel(code, k, la);
    WindowHasNoLabel(code', k, |b|);
  }

  lemma WindowHasNoLabel(code: seq<Ins>, k: nat, la: nat)
    requires k + la <= |code| && NoLabel(code[k..k + la])
    ensures forall j :: k <= j < k + la ==> code[j].op != Op.LABEL
  {
    forall j | k <= j < k + la
      ensures code[j].op != Op.LABEL
    {
      assert code[k..k + la][j - k] == code[j];
    }
  }

  lemma NoLabelInBlock(b: seq<Ins>)
    requires IsBlock(b)
    ensures NoLabel(b)
  {
    hide InfoType;
  }

  // Where each instruction of a spliced list comes from.
  lemma SpliceAt(code: seq<Ins>, k: nat, la: nat, b: seq<Ins>)
    requires k + la <= |code|
    ensures var code' := Splice(code, k, la, b);
      && |code'| == |code| - la + |b|
      && (forall j :: 0 <= j < k ==> code'[j] == code[j])
      && (forall j :: k <= j < k + |b| ==> code'[j] == b[j - k])
      && (forall j {:trigger code[j]} :: k + la <= j < |code| ==> code'[j - la + |b|] == code[j])
      && (forall j {:trigger code'[j]} :: k + |b| <= j < |code'| ==> code[j - |b| + la] == code'[j])
      && code'[k..k + |b|] == b
  {
  }

  lemma BlockMatches(vm: VM, code: seq<Ins>, k: nat, la: nat, b: seq<Ins>, s: State, s': State, X: set<Place>)
    requires 0 < la && k + la <= |code| && IsBlock(code[k..k + la]) && IsBlock(b)
    requires b == [] ==> Block(vm, code[k..k + la], s).Fall?
    requires ExitRel(vm, code, k + la, Block(vm, code[k..k + la], s), Block(vm, b, s'), X)
    ensures Match(vm, code, k, la, |b|, Run(vm, code, At(k, s), la), Run(vm, Splice(code, k, la, b), At(k, s'), |b|), X)
  {
    hide InfoType, Block, Run, LiveAt, Target, Rel, ExitRel, Match, Spliced, Splice, IsBlock;
    var code', a := Splice(code, k, la, b), code[k..k + la];
    SpliceIsSpliced(code, k, la, b);
    assert |code'| == |code| - la + |b| by {
      SpliceAt(code, k, la, b);
    }
    RunBlock(vm, code, k, a, s);
    RunBlock(vm, code', k, b, s');
    if b == [] {
      NothingFalls(vm, s');
    }
    ExitsMatch(vm, code, code', k, la, |b|, Block(vm, a, s), Block(vm, b, s'), X);
  }

  lemma NothingFalls(vm: VM, s: State)
    ensures Block(vm, [], s) == Fall(s)
  {
  }

  lemma ExitsMatch(vm: VM, code: seq<Ins>, code': seq<Ins>, k: nat, la: nat, lb: nat, e: Exit, e': Exit, X: set<Place>)
    requires Spliced(code, code', k, la, lb) && la > 0 && ExitRel(vm, code, k + la, e, e', X)
    requires e.Jump? ==> lb > 0
    ensures var r := match e
      case Fall(t) => At(k + la, t)
      case Jump(lab, t) => Go(code, k + la - 1, lab, t)
      case Back(pop, reg, obj, world) => Returned(pop, reg, obj, world)
      case Halt(world) => Raised(world);
      var r' := match e'
      case Fall(t) => At(k + lb, t)
      case Jump(lab, t) => if lb > 0 then Go(code', k + lb - 1, lab, t) else Wild
      case Back(pop, reg, obj, world) => Returned(pop, reg, obj, world)
      case Halt(world) => Raised(world);
      Match(vm, code, k, la, lb, r, r', X)
  {
    hide InfoType, LiveAt, Target;
    if e.Jump? {
      GoMatches(vm, code, code', k, la, lb, k + la - 1, k + lb - 1, e.lab, e.s, e'.s, X);
    }
  }

  /** A block that does the same, wherever the `la` instructions at `k` raise no exception, can take
      their place if exceptions may be lost. */
  lemma BlockUpholds(vm: VM, code: seq<Ins>, k: nat, la: nat, b: seq<Ins>, X: set<Place>)
    requires 0 < la && k + la <= |code| && IsBlock(code[k..k + la]) && IsBlock(b)
    requires TablesClear(code, k, la) && Discards(vm, code, X) && (X == {} || TablesFull(code))
    requires b == [] ==> FallsOrHalts(vm, code[k..k + la])
    requires forall s, s' :: Rel(vm, code, k, s, s', X) ==>
      || Block(vm, code[k..k + la], s).Halt?
      || ExitRel(vm, code, k + la, Block(vm, code[k..k + la], s), Block(vm, b, s'), X)
    ensures Upholds(vm, code, Splice(code, k, la, b), X)
  {
    hide InfoType, Block, Run, LiveAt, Target, TablesClear, TablesFull, Discards, Rel, ExitRel, Match, Spliced;
    hide Splice, IsBlock, Upholds;
    var code', lb, a := Splice(code, k, la, b), |b|, code[k..k + la];
    SpliceIsSpliced(code, k, la, b);
    forall s, s' | Rel(vm, code, k, s, s', X)
      ensures Sim(vm, code, k, la, lb, Run(vm, code, At(k, s), la), Run(vm, code', At(k, s'), lb), X, true)
    {
      RunBlock(vm, code, k, a, s);
      if !Block(vm, a, s).Halt? {
        NeverJumps(vm, a, b, s);
        BlockMatches(vm, code, k, la, b, s, s', X);
      }
    }
    if lb == 0 {
      forall s
        ensures Behind(Run(vm, code, At(k, s), la), k + la, true)
      {
        RunBlock(vm, code, k, a, s);
        NeverJumps(vm, a, b, s);
      }
    }
    ReplacementUpholds(vm, code, code', k, la, lb, X);
  }

  ghost predicate FallsOrHalts(vm: VM, b: seq<Ins>) {
    forall s {:trigger Block(vm, b, s)} :: Block(vm, b, s).Fall? || Block(vm, b, s).Halt?
  }

  lemma NeverJumps(vm: VM, a: seq<Ins>, b: seq<Ins>, s: State)
    requires b == [] ==> FallsOrHalts(vm, a)
    ensures b == [] && !Block(vm, a, s).Halt? ==> Block(vm, a, s).Fall?
  {
    hide Block;
  }

  /** An instruction that changes nothing but may raise an exception can be deleted, if exceptions may be
      lost. */
  lemma DropUpholds(vm: VM, code: seq<Ins>, k: nat, X: set<Place>)
    requires k < |code| && Straight(code[k].op) && TablesClear(code, k, 1)
    requires Discards(vm, code, X) && (X == {} || TablesFull(code))
    requires forall s, s' :: Rel(vm, code, k, s, s', X) && !Faults(vm, code[k], s) ==>
      Rel(vm, code, k + 1, Exec(vm, code[k], s), s', X)
    ensures Upholds(vm, code, Splice(code, k, 1, []), X)
  {
    hide Exec, Faults, Rel, Discards, TablesClear, TablesFull, Upholds, Splice, IsBlock, Block;
    var a := [code[k]];
    assert code[k..k + 1] == a;
    OneIsBlock(code[k]);
    forall s
      ensures Block(vm, a, s).Fall? || Block(vm, a, s).Halt?
    {
      OneStep(vm, code[k], s);
    }
    forall s, s' | Rel(vm, code, k, s, s', X)
      ensures Block(vm, a, s).Halt? || ExitRel(vm, code, k + 1, Block(vm, a, s), Block(vm, [], s'), X)
    {
      OneStep(vm, code[k], s);
      NothingFalls(vm, s');
    }
    BlockUpholds(vm, code, k, 1, [], X);
  }

  lemma OneIsBlock(ins: Ins)
    requires Straight(ins.op)
    ensures IsBlock([ins]) && IsBlock([])
  {
  }

  lemma OneStep(vm: VM, c: Ins, s: State)
    requires Straight(c.op)
    ensures Block(vm, [c], s) == if Faults(vm, c, s) then Halt(Exec(vm, c, s).core.world) else Fall(Exec(vm, c, s))
  {
    hide Exec, Faults;
    assert [c][1..] == [];
    NothingFalls(vm, Exec(vm, c, s));
  }
}
