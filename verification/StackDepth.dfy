/** `PostProcess`: which instructions can be reached, the stack depth at each of them, and the
    removal of the rest. */
module StackDepth {
  import Op
  import opened Tables
  import opened Instructions
  import opened CodeLists
  import opened Liveness
  import opened Machine
  import opened Windows

  predicate IsFork(op: int) {
    IsCondJump(op) || op == Op.TryBlock
  }

  /** The code paths PostProcess follows. A RET counts as falling through. */
  ghost predicate PathTo(code: seq<Ins>, i: nat, j: nat)
    requires i < |code|
  {
    && j < |code|
    && if code[i].op == Op.JMP then j == Target(code, i, code[i].a0)
       else if IsFork(code[i].op) then j == i + 1 || j == Target(code, i, code[i].a0)
       else if code[i].op == Op.JMPP then i < j <= i + 1 + code[i].a0
       else j == i + 1
  }

  ghost predicate IsPath(code: seq<Ins>, p: seq<nat>) {
    && |p| > 0 && p[0] == 0
    && (forall k :: 0 <= k < |p| ==> p[k] < |code|)
    && (forall k :: 0 <= k < |p| - 1 ==> PathTo(code, p[k], p[k + 1]))
  }

  ghost predicate Reachable(code: seq<Ins>, i: nat) {
    exists p :: IsPath(code, p) && p[|p| - 1] == i
  }

  lemma FirstReachable(code: seq<Ins>)
    requires |code| > 0
    ensures Reachable(code, 0)
  {
    var p: seq<nat> := [0];
    assert IsPath(code, p) && p[|p| - 1] == 0;
  }

  lemma NextReachable(code: seq<Ins>, i: nat, j: nat)
    requires i < |code| && Reachable(code, i) && PathTo(code, i, j)
    ensures Reachable(code, j)
  {
    hide Target;
    var p :| IsPath(code, p) && p[|p| - 1] == i;
    var q := p + [j];
    forall k | 0 <= k < |q| - 1
      ensures PathTo(code, q[k], q[k + 1])
    {
      assert q[k] == p[k] && (k + 1 < |p| ==> q[k + 1] == p[k + 1]);
    }
    assert IsPath(code, q) && q[|q| - 1] == j;
  }

  /** A set of instructions that contains the first and all that follow its members contains every
      reachable one. */
  lemma {:induction false} ReachableMarked(code: seq<Ins>, marked: seq<bool>, p: seq<nat>)
    requires |marked| == |code| && IsPath(code, p) && marked[0]
    requires forall i: nat, j: nat :: i < |code| && marked[i] && PathTo(code, i, j) ==> marked[j]
    ensures marked[p[|p| - 1]]
  {
    hide Target;
    if |p| > 1 {
      var q := p[..|p| - 1];
      assert forall k :: 0 <= k < |q| - 1 ==> PathTo(code, p[k], p[k + 1]);
      assert IsPath(code, q);
      ReachableMarked(code, marked, q);
      assert PathTo(code, p[|p| - 2], p[|p| - 1]);
    }
  }

  /** The jumps that can be reached have a destination, and those that may fall through a successor. */
  ghost predicate JumpsResolve(code: seq<Ins>) {
    forall i {:trigger code[i]} :: 0 <= i < |code| && Reachable(code, i) ==>
      && (IsLabelJump(code[i].op) || code[i].op == Op.TryBlock ==> Target(code, i, code[i].a0) != -1)
      && (IsFork(code[i].op) ==> i + 1 < |code|)
  }

  /** `depth` gives each reachable instruction one stack depth, whatever path leads there. */
  ghost predicate Consistent(code: seq<Ins>, depth: seq<int>) {
    && |depth| == |code|
    && (|code| > 0 ==> depth[0] == 0)
    && (forall i: nat, j: nat :: i < |code| && Reachable(code, i) && PathTo(code, i, j) ==>
          depth[j] == depth[i] + code[i].stackInc)
  }

  /** Each JMPP has an entry for every value, and the last two lead to different labels: so the
      compiler lays out its tables, one label for each case. */
  ghost predicate EndsDiffer(code: seq<Ins>, i: nat)
    requires i < |code|
  {
    var last := i + 1 + code[i].a0;
    && 0 <= code[i].a0 && InTable(code, i + 1, last)
    && (code[i].a0 > 0 ==> code[last - 1].a0 != code[last].a0)
  }

  ghost predicate AllEndsDiffer(code: seq<Ins>) {
    forall i {:trigger code[i]} :: 0 <= i < |code| && code[i].op == Op.JMPP ==> EndsDiffer(code, i)
  }

  // ----- keeping part of a list -----

  function Rank(keep: seq<bool>, n: nat): nat
    requires n <= |keep|
  {
    if n == 0 then 0 else Rank(keep, n - 1) + (if keep[n - 1] then 1 else 0)
  }

  /** The elements with a mark, in order. */
  function Kept<T>(code: seq<T>, keep: seq<bool>, n: nat): (r: seq<T>)
    requires n <= |code| == |keep|
    ensures |r| == Rank(keep, n)
  {
    if n == 0 then [] else Kept(code, keep, n - 1) + (if keep[n - 1] then [code[n - 1]] else [])
  }

  lemma {:induction false} RankOrder(keep: seq<bool>, i: nat, n: nat)
    requires i <= n <= |keep|
    ensures Rank(keep, i) <= Rank(keep, n)
    ensures i < n && keep[i] ==> Rank(keep, i) < Rank(keep, n)
    decreases n
  {
    if i < n {
      RankOrder(keep, i, n - 1);
    }
  }

  lemma {:induction false} KeptAt<T>(code: seq<T>, keep: seq<bool>, n: nat, i: nat)
    requires i < n <= |code| == |keep| && keep[i]
    ensures Rank(keep, i) < Rank(keep, n) && Kept(code, keep, n)[Rank(keep, i)] == code[i]
    decreases n
  {
    if i < n - 1 {
      KeptAt(code, keep, n - 1, i);
    }
  }

  // Which instruction ended up at position `m`.
  lemma {:induction false} Unrank(code: seq<Ins>, keep: seq<bool>, n: nat, m: nat) returns (i: nat)
    requires n <= |code| == |keep| && m < Rank(keep, n)
    ensures i < n && keep[i] && Rank(keep, i) == m && Kept(code, keep, n)[m] == code[i]
    decreases n
  {
    if m < Rank(keep, n - 1) {
      i := Unrank(code, keep, n - 1, m);
    } else {
      i := n - 1;
    }
  }

  /** A label search that found a kept label finds it again among the kept instructions. */
  lemma TargetKept(code: seq<Ins>, keep: seq<bool>, from: nat, lab: int)
    requires from < |code| == |keep| && keep[from] && Target(code, from, lab) != -1 && keep[Target(code, from, lab)]
    ensures var code' := Kept(code, keep, |code|);
      Rank(keep, from) < |code'| && Target(code', Rank(keep, from), lab) == Rank(keep, Target(code, from, lab))
  {
    var code', from', t := Kept(code, keep, |code|), Rank(keep, from), Target(code, from, lab);
    KeptAt(code, keep, |code|, from);
    KeptAt(code, keep, |code|, t);
    RankOrder(keep, if t > from then from else t, if t > from then t else from);
    var f := FirstLabel(code', from' + 1, lab);
    if f != -1 {
      var i := Unrank(code, keep, |code|, f);
      RankOrder(keep, if i > from then from else i, if i > from then i else from);
      RankOrder(keep, if i > t then t else i, if i > t then i else t);
    } else {
      var b := LastLabel(code', from', lab);
      if b != -1 {
        var i := Unrank(code, keep, |code|, b);
        RankOrder(keep, if i > from then from else i, if i > from then i else from);
        RankOrder(keep, if i > t then t else i, if i > t then i else t);
      }
    }
  }

  // ----- removing unreachable code preserves every run -----

  /** What PostProcess keeps: everything reachable, and the block markers. */
  ghost predicate KeepsReachable(code: seq<Ins>, keep: seq<bool>) {
    |keep| == |code| && forall i :: 0 <= i < |code| ==> (keep[i] <==> Reachable(code, i) || code[i].op == Op.Block)
  }

  ghost function ReachedMarks(code: seq<Ins>): (r: seq<bool>)
    ensures |r| == |code|
  {
    seq(|code|, i requires 0 <= i < |code| => Reachable(code, i) || code[i].op == Op.Block)
  }

  /** The list without its unreachable instructions. */
  ghost function ReachedCode(code: seq<Ins>): seq<Ins> {
    Kept(code, ReachedMarks(code), |code|)
  }

  lemma KeptIsReached(code: seq<Ins>, keep: seq<bool>)
    requires KeepsReachable(code, keep)
    ensures keep == ReachedMarks(code) && Kept(code, keep, |code|) == ReachedCode(code)
  {
    hide Reachable;
    assert forall i :: 0 <= i < |code| ==> keep[i] == ReachedMarks(code)[i];
  }

  // A run of the kept instructions stands where the run of the whole list stands.
  ghost predicate InStep(code: seq<Ins>, keep: seq<bool>, r: Res, r': Res)
    requires |keep| == |code|
  {
    if r.At? then
      && (r.pc < |code| ==> Reachable(code, r.pc))
      && r' == At(if r.pc <= |code| then Rank(keep, r.pc) else Rank(keep, |code|), r.s)
    else r' == r
  }

  lemma StepInStep(vm: VM, code: seq<Ins>, keep: seq<bool>, i: nat, s: State)
    requires KeepsReachable(code, keep) && JumpsResolve(code) && TablesFull(code)
    requires i < |code| && Reachable(code, i)
    ensures InStep(code, keep, Step(vm, code, i, s), Step(vm, Kept(code, keep, |code|), Rank(keep, i), s))
  {
    hide Exec, InfoType, Reachable, Target, Taken, JumpsResolve, TablesFull, Kept, Faults;
    KeptAt(code, keep, |code|, i);
    if IsLabelJump(code[i].op) {
      JumpInStep(vm, code, keep, i, s);
    } else if code[i].op == Op.JMPP {
      var v := Read(s.vars, code[i].w0);
      if 0 <= v <= code[i].a0 {
        TableEntryKept(code, keep, i, v);
      }
    } else if code[i].op != Op.RET {
      assert Rank(keep, i + 1) == Rank(keep, i) + 1;
      PlainReachable(code, i);
    }
  }

  lemma PlainReachable(code: seq<Ins>, i: nat)
    requires i < |code| && Reachable(code, i) && code[i].op != Op.JMP && code[i].op != Op.JMPP
    ensures i + 1 < |code| ==> Reachable(code, i + 1)
  {
    hide Target, Reachable;
    if i + 1 < |code| {
      NextReachable(code, i, i + 1);
    }
  }

  lemma JumpInStep(vm: VM, code: seq<Ins>, keep: seq<bool>, i: nat, s: State)
    requires KeepsReachable(code, keep) && JumpsResolve(code)
    requires i < |code| && Reachable(code, i) && IsLabelJump(code[i].op)
    ensures InStep(code, keep, Step(vm, code, i, s), Step(vm, Kept(code, keep, |code|), Rank(keep, i), s))
  {
    hide Exec, InfoType, Reachable, Target, Taken, Kept;
    KeptAt(code, keep, |code|, i);
    var t := Target(code, i, code[i].a0);
    NextReachable(code, i, t);
    TargetKept(code, keep, i, code[i].a0);
    if code[i].op != Op.JMP {
      PlainReachable(code, i);
      assert Rank(keep, i + 1) == Rank(keep, i) + 1;
    }
  }

  lemma {:induction false} TableEntryKept(code: seq<Ins>, keep: seq<bool>, i: nat, v: nat)
    requires KeepsReachable(code, keep) && TablesFull(code) && i < |code| && Reachable(code, i)
    requires code[i].op == Op.JMPP && v <= code[i].a0
    ensures i + 1 + v < |code| && Reachable(code, i + 1 + v) && Rank(keep, i + 1 + v) == Rank(keep, i) + 1 + v
  {
    hide Reachable;
    assert InTable(code, i + 1, i + 1 + code[i].a0);
    NextReachable(code, i, i + 1 + v);
    if v > 0 {
      TableEntryKept(code, keep, i, v - 1);
    }
  }

  /** Without its unreachable instructions a list runs exactly as before, step by step. */
  lemma {:induction false} RunsInStep(vm: VM, code: seq<Ins>, keep: seq<bool>, r: Res, r': Res, n: nat)
    requires |keep| == |code| && KeepsReachable(code, keep) && JumpsResolve(code) && TablesFull(code)
    requires InStep(code, keep, r, r')
    ensures InStep(code, keep, Run(vm, code, r, n), Run(vm, Kept(code, keep, |code|), r', n))
    decreases n
  {
    hide InfoType, Reachable, Step, KeepsReachable, JumpsResolve, TablesFull, Rank;
    if n > 0 && r.At? {
      if r.pc < |code| {
        StepInStep(vm, code, keep, r.pc, r.s);
      } else {
        StepAtEnd(vm, code, r.pc, r.s);
        StepAtEnd(vm, Kept(code, keep, |code|), r'.pc, r.s);
      }
      RunsInStep(vm, code, keep, Step(vm, code, r.pc, r.s), Step(vm, Kept(code, keep, |code|), r'.pc, r.s), n - 1);
    }
  }

  lemma StepAtEnd(vm: VM, code: seq<Ins>, i: nat, s: State)
    requires i >= |code|
    ensures Step(vm, code, i, s) == Ends(s)
  {
  }

  lemma DeadCodeRemovalPreserves(vm: VM, code: seq<Ins>, keep: seq<bool>)
    requires |keep| == |code| && KeepsReachable(code, keep) && JumpsResolve(code) && TablesFull(code)
    ensures Equivalent(vm, code, Kept(code, keep, |code|), {})
  {
    hide InfoType, Reachable, Run, KeepsReachable, JumpsResolve, TablesFull, Rank;
    var code' := Kept(code, keep, |code|);
    forall s, n
      ensures InStep(code, keep, Run(vm, code, At(0, s), n), Run(vm, code', At(0, s), n))
    {
      StartsInStep(code, keep, s);
      RunsInStep(vm, code, keep, At(0, s), At(0, s), n);
    }
    forall s, n | !Run(vm, code, At(0, s), n).At?
      ensures exists m :: SameEnd(Run(vm, code, At(0, s), n), Run(vm, code', At(0, s), m), {})
    {
      assert SameEnd(Run(vm, code, At(0, s), n), Run(vm, code', At(0, s), n), {});
    }
    forall s, n | !Run(vm, code', At(0, s), n).At?
      ensures exists m :: SameEnd(Run(vm, code', At(0, s), n), Run(vm, code, At(0, s), m), {})
    {
      assert InStep(code, keep, Run(vm, code, At(0, s), n), Run(vm, code', At(0, s), n));
      assert SameEnd(Run(vm, code', At(0, s), n), Run(vm, code, At(0, s), n), {});
    }
  }

  lemma StartsInStep(code: seq<Ins>, keep: seq<bool>, s: State)
    requires |keep| == |code|
    ensures InStep(code, keep, At(0, s), At(0, s))
  {
    if |code| > 0 {
      FirstReachable(code);
    }
  }
}
