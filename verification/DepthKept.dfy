/** A window replaced by another with the same stack effect: the list still has one stack depth for
    each instruction that can be reached, and its jumps still lead somewhere. */
module DepthKept {
  import Op
  import opened Instructions
  import opened CodeLists
  import opened Windows
  import opened Blocks
  import opened StackDepth
  import opened Skeletons

  ghost predicate EndsInReturn(code: seq<Ins>) {
    code != [] && code[|code| - 1].op == Op.RET
  }

  /** A list as the compiler completes it, with its stack depths. */
  ghost predicate Levelled(code: seq<Ins>, depth: seq<int>) {
    JumpsResolve(code) && Consistent(code, depth) && AllEndsDiffer(code) && EndsInReturn(code)
  }

  ghost predicate HasLevels(code: seq<Ins>) {
    exists depth :: Levelled(code, depth)
  }

  // The try blocks of `b` are in `a` too, at the same depth.
  ghost predicate ForksKept(a: seq<Ins>, b: seq<Ins>) {
    forall m :: 0 <= m < |b| && b[m].op == Op.TryBlock ==> ForkFrom(a, b, m)
  }

  ghost predicate ForkFrom(a: seq<Ins>, b: seq<Ins>, m: nat)
    requires m < |b|
  {
    exists q :: 0 <= q < |a| && a[q] == b[m] && Net(a[..q]) == Net(b[..m])
  }

  ghost predicate Swappable(code: seq<Ins>, k: nat, la: nat, b: seq<Ins>) {
    0 < la && k + la <= |code| && SameShape(code[k..k + la], b) && ForksKept(code[k..k + la], b)
  }

  // ----- the two windows -----

  // No label, return, JMP or JMPP, and a conditional jump only at the end.
  ghost predicate FallsThrough(b: seq<Ins>) {
    forall i :: 0 <= i < |b| ==>
      && b[i].op !in {Op.LABEL, Op.RET, Op.JMP, Op.JMPP}
      && (IsCondJump(b[i].op) ==> i == |b| - 1)
  }

  lemma UnmarkedFalls(b: seq<Ins>)
    requires Unmarked(b) || (b != [] && IsCondJump(b[|b| - 1].op) && Unmarked(b[..|b| - 1]))
    ensures FallsThrough(b)
  {
    if !Unmarked(b) {
      assert forall i :: 0 <= i < |b| - 1 ==> b[i] == b[..|b| - 1][i];
    }
  }

  lemma {:induction false} NetMore(b: seq<Ins>, m: nat)
    requires m < |b|
    ensures Net(b[..m + 1]) == Net(b[..m]) + b[m].stackInc
    decreases |b|
  {
    if m == 0 {
      assert b[..1] == [b[0]] && [b[0]][1..] == [];
    } else {
      NetMore(b[1..], m - 1);
      assert b[..m + 1][1..] == b[1..][..m] && b[..m][1..] == b[1..][..m - 1];
    }
  }

  lemma ShapeFalls(a: seq<Ins>, b: seq<Ins>)
    requires SameShape(a, b)
    ensures FallsThrough(a) && FallsThrough(b) && Net(a) == Net(b)
    ensures b != [] && IsCondJump(b[|b| - 1].op) ==>
      a != [] && IsCondJump(a[|a| - 1].op) && a[|a| - 1].a0 == b[|b| - 1].a0
  {
    UnmarkedFalls(a);
    UnmarkedFalls(b);
    if !(Unmarked(a) && Unmarked(b)) {
      NetMore(a, |a| - 1);
      NetMore(b, |b| - 1);
      assert a[..|a|] == a && b[..|b|] == b;
    }
  }

  lemma Inside(code: seq<Ins>, k: nat, la: nat, b: seq<Ins>)
    requires Swappable(code, k, la, b) && EndsInReturn(code)
    ensures k + la < |code| && FallsThrough(code[k..k + la]) && FallsThrough(b)
    ensures Spliced(code, Splice(code, k, la, b), k, la, |b|)
  {
    hide ForksKept, SameShape, FallsThrough, Splice, Spliced;
    var a := code[k..k + la];
    ShapeFalls(a, b);
    FallsPlain(a);
    FallsPlain(b);
    assert a[la - 1] == code[k + la - 1];
    SplicedWindow(code, k, la, b);
  }

  lemma FallsPlain(b: seq<Ins>)
    requires FallsThrough(b)
    ensures NoLabel(b) && forall i :: 0 <= i < |b| ==> b[i].op !in {Op.RET, Op.JMP, Op.JMPP}
  {
  }

  // ----- the depths of the new list -----

  function NewDepth(k: nat, la: nat, b: seq<Ins>, depth: seq<int>): seq<int>
    requires k + la <= |depth| && 0 < la
  {
    depth[..k] + seq(|b|, m requires 0 <= m < |b| => depth[k] + Net(b[..m])) + depth[k + la..]
  }

  lemma NewDepthAt(k: nat, la: nat, b: seq<Ins>, depth: seq<int>, j: nat)
    requires k + la <= |depth| && 0 < la && j < |depth| - la + |b|
    ensures |NewDepth(k, la, b, depth)| == |depth| - la + |b|
    ensures NewDepth(k, la, b, depth)[j] ==
      if k <= j < k + |b| then depth[k] + Net(b[..j - k]) else depth[Home(k, la, |b|, j)]
  {
    hide Net;
  }

  // The instruction, or the window that it is in, could be reached.
  ghost predicate Known(code: seq<Ins>, k: nat, la: nat, lb: nat, j: nat) {
    if k <= j < k + lb then Reachable(code, k)
    else 0 <= Home(k, la, lb, j) < |code| && Reachable(code, Home(k, la, lb, j))
  }

  lemma {:induction false} ThroughWindow(code: seq<Ins>, k: nat, la: nat, b: seq<Ins>, depth: seq<int>, m: nat)
    requires Levelled(code, depth) && Swappable(code, k, la, b) && Reachable(code, k) && m <= la
    ensures k + la < |code| && Reachable(code, k + m) && depth[k + m] == depth[k] + Net(code[k..k + la][..m])
    decreases m
  {
    hide Reachable, JumpsResolve, AllEndsDiffer, SameShape, ForksKept, Net, Target, Splice;
    Inside(code, k, la, b);
    var a := code[k..k + la];
    if m == 0 {
      assert a[..0] == [] && Net([]) == 0 by {
        NetNone();
      }
    } else {
      ThroughWindow(code, k, la, b, depth, m - 1);
      NetMore(a, m - 1);
      assert code[k + m - 1] == a[m - 1];
      GoesOnTo(code, k + m - 1);
      NextReachable(code, k + m - 1, k + m);
    }
  }

  lemma NetNone()
    ensures Net([]) == 0
  {
  }

  lemma GoesOnTo(code: seq<Ins>, i: nat)
    requires i + 1 < |code| && code[i].op !in {Op.JMP, Op.JMPP}
    ensures PathTo(code, i, i + 1)
  {
    hide Target;
  }

  // Behind the window.
  lemma BehindWindow(code: seq<Ins>, k: nat, la: nat, b: seq<Ins>, depth: seq<int>)
    requires Levelled(code, depth) && Swappable(code, k, la, b) && Reachable(code, k)
    ensures k + la < |code| && Known(code, k, la, |b|, k + |b|) && depth[k + la] == depth[k] + Net(b)
  {
    hide Reachable, Levelled, Net, ForksKept, SameShape;
    ThroughWindow(code, k, la, b, depth, la);
    ShapeFalls(code[k..k + la], b);
    assert code[k..k + la][..la] == code[k..k + la];
  }

  // ----- one step -----

  /** A step of a path in the new list leads to what could be reached, and the depths agree with it. */
  ghost predicate StepKept(code: seq<Ins>, k: nat, la: nat, b: seq<Ins>, depth: seq<int>, i: nat, j: nat)
    requires 0 < la && k + la <= |code| == |depth| && i < |Splice(code, k, la, b)|
  {
    var code', depth' := Splice(code, k, la, b), NewDepth(k, la, b, depth);
    && j < |code'| == |depth'| && Known(code, k, la, |b|, j)
    && depth'[j] == depth'[i] + code'[i].stackInc
  }

  // On to the next instruction, from outside the window.
  lemma NextOutside(code: seq<Ins>, k: nat, la: nat, b: seq<Ins>, depth: seq<int>, i: nat)
    requires Levelled(code, depth) && Swappable(code, k, la, b)
    requires i + 1 < |Splice(code, k, la, b)| && (i < k || i >= k + |b|) && Known(code, k, la, |b|, i)
    requires Splice(code, k, la, b)[i].op !in {Op.JMP, Op.JMPP}
    ensures StepKept(code, k, la, b, depth, i, i + 1)
  {
    hide Reachable, JumpsResolve, AllEndsDiffer, EndsInReturn, SameShape, ForksKept, Net, Target, Splice, NewDepth;
    var h := Home(k, la, |b|, i);
    SpliceAt(code, k, la, b);
    NewDepthAt(k, la, b, depth, i);
    NewDepthAt(k, la, b, depth, i + 1);
    if h + 1 < |code| {
      GoesOnTo(code, h);
      NextReachable(code, h, h + 1);
    }
    if i + 1 == k {
      if b == [] {
        BehindWindow(code, k, la, b, depth);
        NetNone();
      } else {
        assert b[..0] == [];
        NetNone();
      }
    }
  }

  // From inside the window, to its next instruction or behind it.
  lemma NextInside(code: seq<Ins>, k: nat, la: nat, b: seq<Ins>, depth: seq<int>, i: nat)
    requires Levelled(code, depth) && Swappable(code, k, la, b)
    requires k <= i < k + |b| && i + 1 < |Splice(code, k, la, b)| && Reachable(code, k)
    ensures StepKept(code, k, la, b, depth, i, i + 1)
  {
    hide Reachable, JumpsResolve, AllEndsDiffer, EndsInReturn, SameShape, ForksKept, Net, Target, Splice, NewDepth;
    SpliceAt(code, k, la, b);
    NewDepthAt(k, la, b, depth, i);
    NewDepthAt(k, la, b, depth, i + 1);
    NetMore(b, i - k);
    if i + 1 == k + |b| {
      BehindWindow(code, k, la, b, depth);
      assert b[..|b|] == b;
    }
  }

  lemma TargetOutside(code: seq<Ins>, k: nat, la: nat, b: seq<Ins>, depth: seq<int>, i: nat, h: nat, j: nat)
    requires Levelled(code, depth) && Swappable(code, k, la, b) && h < |code| && Reachable(code, h)
    requires i < |Splice(code, k, la, b)| && j < |Splice(code, k, la, b)| && (j < k || j >= k + |b|)
    requires Home(k, la, |b|, j) >= 0 && PathTo(code, h, Home(k, la, |b|, j))
    requires Splice(code, k, la, b)[i].stackInc + NewDepth(k, la, b, depth)[i] == depth[h] + code[h].stackInc
    ensures StepKept(code, k, la, b, depth, i, j)
  {
    hide Reachable, JumpsResolve, AllEndsDiffer, EndsInReturn, SameShape, ForksKept, Net, Target, Splice, NewDepth;
    SpliceAt(code, k, la, b);
    NewDepthAt(k, la, b, depth, i);
    NewDepthAt(k, la, b, depth, j);
    NextReachable(code, h, Home(k, la, |b|, j));
  }

  // A label search that starts inside the window starts, as far as labels go, at its end.
  lemma SameSearch(code: seq<Ins>, k: nat, la: nat, q: nat, lab: int)
    requires q < la && k + la <= |code| && forall j :: k <= j < k + la ==> code[j].op != Op.LABEL
    ensures Target(code, k + q, lab) == Target(code, k + la - 1, lab)
  {
    var f, f' := FirstLabel(code, k + q + 1, lab), FirstLabel(code, k + la, lab);
    var b, b' := LastLabel(code, k + q, lab), LastLabel(code, k + la - 1, lab);
    hide FirstLabel, LastLabel;
    assert f != -1 ==> f >= k + la;
    assert b' != -1 ==> b' < k;
  }

  lemma JumpOutside(code: seq<Ins>, k: nat, la: nat, b: seq<Ins>, depth: seq<int>, i: nat, j: nat)
    requires Levelled(code, depth) && Swappable(code, k, la, b)
    requires i < |Splice(code, k, la, b)| && (i < k || i >= k + |b|) && Known(code, k, la, |b|, i)
    requires var ins := Splice(code, k, la, b)[i];
      && (ins.op == Op.JMP || IsFork(ins.op))
      && j < |Splice(code, k, la, b)| && j == Target(Splice(code, k, la, b), i, ins.a0)
    ensures StepKept(code, k, la, b, depth, i, j)
  {
    hide Reachable, JumpsResolve, AllEndsDiffer, SameShape, ForksKept, Net, Target, Splice, NewDepth, Known;
    var code', h := Splice(code, k, la, b), Home(k, la, |b|, i);
    assert 0 <= h < |code| && Reachable(code, h) by {
      KnownOutside(code, k, la, b, i);
    }
    Inside(code, k, la, b);
    SpliceAt(code, k, la, b);
    NewDepthAt(k, la, b, depth, i);
    TargetMoves(code, code', k, la, |b|, h, i, code[h].a0);
    TargetOutside(code, k, la, b, depth, i, h, j);
  }

  lemma KnownOutside(code: seq<Ins>, k: nat, la: nat, b: seq<Ins>, i: nat)
    requires Known(code, k, la, |b|, i) && (i < k || i >= k + |b|)
    ensures 0 <= Home(k, la, |b|, i) < |code| && Reachable(code, Home(k, la, |b|, i))
  {
    hide Reachable;
  }

  lemma TableOutside(code: seq<Ins>, k: nat, la: nat, b: seq<Ins>, depth: seq<int>, i: nat, j: nat)
    requires Levelled(code, depth) && Swappable(code, k, la, b)
    requires i < |Splice(code, k, la, b)| && (i < k || i >= k + |b|) && Known(code, k, la, |b|, i)
    requires Splice(code, k, la, b)[i].op == Op.JMPP && i < j <= i + 1 + Splice(code, k, la, b)[i].a0
    requires j < |Splice(code, k, la, b)|
    ensures StepKept(code, k, la, b, depth, i, j)
  {
    hide Reachable, JumpsResolve, AllEndsDiffer, SameShape, ForksKept, Net, Target, Splice, NewDepth, Known;
    hide FallsThrough;
    var h := Home(k, la, |b|, i);
    KnownOutside(code, k, la, b, i);
    SpliceAt(code, k, la, b);
    NewDepthAt(k, la, b, depth, i);
    TableAway(code, k, la, b, h);
    TargetOutside(code, k, la, b, depth, i, h, j);
  }

  // The window is not in a table.
  lemma TableAway(code: seq<Ins>, k: nat, la: nat, b: seq<Ins>, h: nat)
    requires AllEndsDiffer(code) && EndsInReturn(code) && Swappable(code, k, la, b)
    requires h < |code| && code[h].op == Op.JMPP
    ensures EndsDiffer(code, h) && (h + 1 + code[h].a0 < k || h >= k + la)
  {
    hide SameShape, ForksKept, Splice;
    WindowOps(code, k, la, b);
    assert EndsDiffer(code, h);
  }

  lemma WindowOps(code: seq<Ins>, k: nat, la: nat, b: seq<Ins>)
    requires Swappable(code, k, la, b) && EndsInReturn(code)
    ensures forall j :: k <= j < k + la ==> code[j].op != Op.JMP && code[j].op != Op.JMPP
    ensures code[k].op != Op.JMP && code[k].op != Op.JMPP
  {
    hide SameShape, ForksKept, Splice;
    Inside(code, k, la, b);
    var a := code[k..k + la];
    assert forall j {:trigger code[j]} :: k <= j < k + la ==> code[j] == a[j - k];
    assert code[k] == a[0];
  }

  lemma ForkInside(code: seq<Ins>, k: nat, la: nat, b: seq<Ins>, depth: seq<int>, i: nat, j: nat)
    requires Levelled(code, depth) && Swappable(code, k, la, b) && Reachable(code, k)
    requires k <= i < k + |b| && i < |Splice(code, k, la, b)| && IsFork(b[i - k].op)
    requires j < |Splice(code, k, la, b)| && j == Target(Splice(code, k, la, b), i, b[i - k].a0)
    ensures StepKept(code, k, la, b, depth, i, j)
  {
    hide Reachable, Levelled, SameShape, ForksKept, Net, Target, Splice, NewDepth, Known, PathTo;
    var q := ForkTarget(code, k, la, b, depth, i - k);
    NewDepthAt(k, la, b, depth, i);
    SpliceAt(code, k, la, b);
    ForkGoes(code, k + q);
    TargetOutside(code, k, la, b, depth, i, k + q, j);
  }

  lemma ForkGoes(code: seq<Ins>, i: nat)
    requires i < |code| && IsFork(code[i].op) && Target(code, i, code[i].a0) != -1
    ensures PathTo(code, i, Target(code, i, code[i].a0))
  {
    hide Target;
  }

  // A fork of the new window leads to where the one it comes from led.
  lemma ForkTarget(code: seq<Ins>, k: nat, la: nat, b: seq<Ins>, depth: seq<int>, m: nat) returns (q: nat)
    requires Levelled(code, depth) && Swappable(code, k, la, b) && Reachable(code, k)
    requires m < |b| && IsFork(b[m].op)
    ensures |depth| == |code| && q < la && Reachable(code, k + q) && IsFork(code[k + q].op) && code[k + q].a0 == b[m].a0
    ensures depth[k + q] + code[k + q].stackInc == depth[k] + Net(b[..m]) + b[m].stackInc
    ensures k + m < |Splice(code, k, la, b)| && Splice(code, k, la, b)[k + m] == b[m]
    ensures var t, t' := Target(code, k + q, b[m].a0), Target(Splice(code, k, la, b), k + m, b[m].a0);
      && t != -1 && t' != -1 && (t' < k || t' >= k + |b|) && Home(k, la, |b|, t') == t
  {
    hide Reachable, PathTo, AllEndsDiffer, EndsInReturn, Net, Target, Splice, FallsThrough, SameShape, ForksKept;
    hide Spliced;
    q := ForkSource(code, k, la, b, depth, m);
    var code' := Splice(code, k, la, b);
    Inside(code, k, la, b);
    NoLabelsInside(code, k, la, b);
    InsideOps(code, k, la, b, depth, k + m);
    SameSearch(code, k, la, q, b[m].a0);
    SameSearch(code', k, |b|, m, b[m].a0);
    TargetMoves(code, code', k, la, |b|, k + la - 1, k + |b| - 1, b[m].a0);
  }

  lemma NoLabelsInside(code: seq<Ins>, k: nat, la: nat, b: seq<Ins>)
    requires Swappable(code, k, la, b) && EndsInReturn(code)
    ensures forall j :: k <= j < k + la ==> code[j].op != Op.LABEL
    ensures forall j :: k <= j < k + |b| ==> Splice(code, k, la, b)[j].op != Op.LABEL
    ensures k + |b| <= |Splice(code, k, la, b)|
  {
    hide SameShape, ForksKept, Splice, FallsThrough;
    Inside(code, k, la, b);
  }

  // The conditional jump or try block that a fork of the new window comes from.
  lemma ForkSource(code: seq<Ins>, k: nat, la: nat, b: seq<Ins>, depth: seq<int>, m: nat) returns (q: nat)
    requires Levelled(code, depth) && Swappable(code, k, la, b) && Reachable(code, k)
    requires m < |b| && IsFork(b[m].op)
    ensures q < la && k + la <= |code| && Reachable(code, k + q) && IsFork(code[k + q].op) && code[k + q].a0 == b[m].a0
    ensures depth[k + q] + code[k + q].stackInc == depth[k] + Net(b[..m]) + b[m].stackInc
  {
    hide Reachable, JumpsResolve, AllEndsDiffer, EndsInReturn, Net, Target, Splice, Known, Levelled, SameShape;
    var a := code[k..k + la];
    ShapeFalls(a, b);
    if b[m].op == Op.TryBlock {
      assert ForkFrom(a, b, m);
      q :| 0 <= q < |a| && a[q] == b[m] && Net(a[..q]) == Net(b[..m]);
    } else {
      q := la - 1;
      NetMore(a, la - 1);
      NetMore(b, m);
      assert a[..la] == a && b[..|b|] == b;
    }
    ThroughWindow(code, k, la, b, depth, q);
    assert a[q] == code[k + q];
  }

  lemma StepFrom(code: seq<Ins>, k: nat, la: nat, b: seq<Ins>, depth: seq<int>, i: nat, j: nat)
    requires Levelled(code, depth) && Swappable(code, k, la, b)
    requires i < |Splice(code, k, la, b)| && PathTo(Splice(code, k, la, b), i, j) && Known(code, k, la, |b|, i)
    ensures StepKept(code, k, la, b, depth, i, j)
  {
    hide Reachable, JumpsResolve, AllEndsDiffer, EndsInReturn, SameShape, ForksKept, Target, Splice, StepKept, NewDepth;
    var code' := Splice(code, k, la, b);
    if k <= i < k + |b| {
      assert code'[i] == b[i - k] && b[i - k].op !in {Op.JMP, Op.JMPP} by {
        InsideOps(code, k, la, b, depth, i);
      }
      if j == i + 1 {
        NextInside(code, k, la, b, depth, i);
      } else {
        ForkInside(code, k, la, b, depth, i, j);
      }
    } else if code'[i].op == Op.JMPP {
      TableOutside(code, k, la, b, depth, i, j);
    } else if j == i + 1 && code'[i].op != Op.JMP {
      NextOutside(code, k, la, b, depth, i);
    } else {
      JumpOutside(code, k, la, b, depth, i, j);
    }
  }

  lemma InsideOps(code: seq<Ins>, k: nat, la: nat, b: seq<Ins>, depth: seq<int>, i: nat)
    requires Levelled(code, depth) && Swappable(code, k, la, b) && k <= i < k + |b|
    ensures i < |Splice(code, k, la, b)| && Splice(code, k, la, b)[i] == b[i - k]
    ensures b[i - k].op !in {Op.JMP, Op.JMPP}
  {
    hide JumpsResolve, Consistent, AllEndsDiffer, SameShape, ForksKept, Splice;
    Inside(code, k, la, b);
    SpliceAt(code, k, la, b);
  }

  // ----- the whole list -----

  lemma FirstKnown(code: seq<Ins>, k: nat, la: nat, b: seq<Ins>, depth: seq<int>)
    requires Levelled(code, depth) && Swappable(code, k, la, b)
    ensures |Splice(code, k, la, b)| > 0 && Known(code, k, la, |b|, 0) && NewDepth(k, la, b, depth)[0] == 0
  {
    hide Reachable, JumpsResolve, AllEndsDiffer, SameShape, ForksKept, Net, Target, Splice, NewDepth, FallsThrough;
    Inside(code, k, la, b);
    FirstReachable(code);
    SpliceAt(code, k, la, b);
    NewDepthAt(k, la, b, depth, 0);
    NetNone();
    if k == 0 {
      if b == [] {
        BehindWindow(code, k, la, b, depth);
      } else {
        assert b[..0] == [];
      }
    }
  }

  lemma {:induction false} PathKnown(code: seq<Ins>, k: nat, la: nat, b: seq<Ins>, depth: seq<int>, p: seq<nat>)
    requires Levelled(code, depth) && Swappable(code, k, la, b) && IsPath(Splice(code, k, la, b), p)
    ensures Known(code, k, la, |b|, p[|p| - 1])
    decreases |p|
  {
    hide Reachable, JumpsResolve, AllEndsDiffer, EndsInReturn, SameShape, ForksKept, Splice, PathTo, NewDepth, Known;
    if |p| == 1 {
      FirstKnown(code, k, la, b, depth);
    } else {
      var q := p[..|p| - 1];
      assert forall j :: 0 <= j < |q| - 1 ==> PathTo(Splice(code, k, la, b), p[j], p[j + 1]);
      assert IsPath(Splice(code, k, la, b), q);
      PathKnown(code, k, la, b, depth, q);
      assert PathTo(Splice(code, k, la, b), p[|p| - 2], p[|p| - 1]);
      StepFrom(code, k, la, b, depth, p[|p| - 2], p[|p| - 1]);
    }
  }

  lemma ReachableKnown(code: seq<Ins>, k: nat, la: nat, b: seq<Ins>, depth: seq<int>, i: nat)
    requires Levelled(code, depth) && Swappable(code, k, la, b) && Reachable(Splice(code, k, la, b), i)
    ensures Known(code, k, la, |b|, i)
  {
    hide Levelled, SameShape, ForksKept, Splice, PathTo, Known;
    var p :| IsPath(Splice(code, k, la, b), p) && p[|p| - 1] == i;
    PathKnown(code, k, la, b, depth, p);
  }

  lemma NewConsistent(code: seq<Ins>, k: nat, la: nat, b: seq<Ins>, depth: seq<int>)
    requires Levelled(code, depth) && Swappable(code, k, la, b)
    ensures Consistent(Splice(code, k, la, b), NewDepth(k, la, b, depth))
  {
    hide Reachable, JumpsResolve, AllEndsDiffer, EndsInReturn, SameShape, ForksKept, Splice, PathTo, NewDepth, Known;
    var code', depth' := Splice(code, k, la, b), NewDepth(k, la, b, depth);
    FirstKnown(code, k, la, b, depth);
    SpliceAt(code, k, la, b);
    NewDepthAt(k, la, b, depth, 0);
    forall i: nat, j: nat | i < |code'| && Reachable(code', i) && PathTo(code', i, j)
      ensures j < |depth'| && depth'[j] == depth'[i] + code'[i].stackInc
    {
      ReachableKnown(code, k, la, b, depth, i);
      StepFrom(code, k, la, b, depth, i, j);
    }
  }

  lemma NewResolves(code: seq<Ins>, k: nat, la: nat, b: seq<Ins>, depth: seq<int>)
    requires Levelled(code, depth) && Swappable(code, k, la, b)
    ensures JumpsResolve(Splice(code, k, la, b))
  {
    hide Reachable, Levelled, SameShape, ForksKept, Splice, PathTo, NewDepth, Target;
    var code' := Splice(code, k, la, b);
    forall i | 0 <= i < |code'| && Reachable(code', i)
      ensures IsLabelJump(code'[i].op) || code'[i].op == Op.TryBlock ==> Target(code', i, code'[i].a0) != -1
      ensures IsFork(code'[i].op) ==> i + 1 < |code'|
    {
      ReachableKnown(code, k, la, b, depth, i);
      if k <= i < k + |b| {
        ResolvesInside(code, k, la, b, depth, i);
      } else {
        ResolvesOutside(code, k, la, b, depth, i);
      }
    }
  }

  lemma ResolvesInside(code: seq<Ins>, k: nat, la: nat, b: seq<Ins>, depth: seq<int>, i: nat)
    requires Levelled(code, depth) && Swappable(code, k, la, b) && k <= i < k + |b| && Reachable(code, k)
    ensures var code' := Splice(code, k, la, b);
      && i + 1 < |code'|
      && (IsLabelJump(code'[i].op) || code'[i].op == Op.TryBlock ==> Target(code', i, code'[i].a0) != -1)
  {
    hide Reachable, Consistent, AllEndsDiffer, EndsInReturn, SameShape, ForksKept, Splice, Net, FallsThrough, Target;
    var code' := Splice(code, k, la, b);
    Inside(code, k, la, b);
    InsideOps(code, k, la, b, depth, i);
    SpliceAt(code, k, la, b);
    if IsFork(b[i - k].op) {
      var q := ForkTarget(code, k, la, b, depth, i - k);
    }
  }

  lemma ResolvesOutside(code: seq<Ins>, k: nat, la: nat, b: seq<Ins>, depth: seq<int>, i: nat)
    requires Levelled(code, depth) && Swappable(code, k, la, b) && (i < k || i >= k + |b|)
    requires i < |Splice(code, k, la, b)| && Known(code, k, la, |b|, i)
    ensures var code' := Splice(code, k, la, b);
      && (IsLabelJump(code'[i].op) || code'[i].op == Op.TryBlock ==> Target(code', i, code'[i].a0) != -1)
      && (IsFork(code'[i].op) ==> i + 1 < |code'|)
  {
    hide Reachable, Consistent, AllEndsDiffer, SameShape, ForksKept, Splice, Net, FallsThrough, Target;
    var code', h := Splice(code, k, la, b), Home(k, la, |b|, i);
    Inside(code, k, la, b);
    SpliceAt(code, k, la, b);
    TargetMoves(code, code', k, la, |b|, h, i, code[h].a0);
  }

  lemma NewTables(code: seq<Ins>, k: nat, la: nat, b: seq<Ins>, depth: seq<int>)
    requires Levelled(code, depth) && Swappable(code, k, la, b)
    ensures AllEndsDiffer(Splice(code, k, la, b)) && EndsInReturn(Splice(code, k, la, b))
  {
    hide JumpsResolve, Consistent, SameShape, ForksKept, Splice, Net, FallsThrough, EndsDiffer;
    var code' := Splice(code, k, la, b);
    Inside(code, k, la, b);
    SpliceAt(code, k, la, b);
    forall i | 0 <= i < |code'| && code'[i].op == Op.JMPP
      ensures EndsDiffer(code', i)
    {
      if k <= i < k + |b| {
        InsideOps(code, k, la, b, depth, i);
        assert false;
      } else {
        var h := Home(k, la, |b|, i);
        TableAway(code, k, la, b, h);
        TableMoved(code, k, la, b, h, i);
      }
    }
  }

  lemma TableMoved(code: seq<Ins>, k: nat, la: nat, b: seq<Ins>, h: nat, i: nat)
    requires 0 < la && k + la <= |code| && h < |code| && EndsDiffer(code, h)
    requires h + 1 + code[h].a0 < k || h >= k + la
    requires h == Home(k, la, |b|, i) && i < |Splice(code, k, la, b)| && (i < k || i >= k + |b|)
    ensures EndsDiffer(Splice(code, k, la, b), i)
  {
    hide Splice;
    var last := i + 1 + code[h].a0;
    forall m: nat | i <= m <= last
      ensures m < |Splice(code, k, la, b)| && Splice(code, k, la, b)[m] == code[m - i + h]
    {
      EntryMoved(code, k, la, b, h, i, m);
    }
    EntryMoved(code, k, la, b, h, i, last);
    SameEnds(code, Splice(code, k, la, b), h, i);
  }

  lemma EntryMoved(code: seq<Ins>, k: nat, la: nat, b: seq<Ins>, h: nat, i: nat, m: nat)
    requires 0 < la && k + la <= |code| && h < |code| && EndsDiffer(code, h)
    requires h + 1 + code[h].a0 < k || h >= k + la
    requires h == Home(k, la, |b|, i) && i < |Splice(code, k, la, b)| && (i < k || i >= k + |b|)
    requires i <= m <= i + 1 + code[h].a0
    ensures m < |Splice(code, k, la, b)| && Splice(code, k, la, b)[m] == code[m - i + h]
  {
    hide Splice;
    SpliceAt(code, k, la, b);
  }

  lemma SameEnds(code: seq<Ins>, code': seq<Ins>, h: nat, i: nat)
    requires h < |code| && EndsDiffer(code, h) && i + 1 + code[h].a0 < |code'|
    requires forall m: nat :: i <= m <= i + 1 + code[h].a0 ==> code'[m] == code[m - i + h]
    ensures EndsDiffer(code', i)
  {
    var last := i + 1 + code[h].a0;
    assert code'[i] == code[h];
    assert code'[last] == code[last - i + h];
    assert code[h].a0 > 0 ==> code'[last - 1] == code[last - 1 - i + h];
  }

  /** The new list is again one with stack depths. */
  lemma LevelsKept(code: seq<Ins>, k: nat, la: nat, b: seq<Ins>)
    requires Swappable(code, k, la, b) && HasLevels(code)
    ensures HasLevels(Splice(code, k, la, b))
  {
    hide Levelled, SameShape, ForksKept, Splice, NewDepth;
    var depth :| Levelled(code, depth);
    LevelledKept(code, k, la, b, depth);
  }

  lemma LevelledKept(code: seq<Ins>, k: nat, la: nat, b: seq<Ins>, depth: seq<int>)
    requires Levelled(code, depth) && Swappable(code, k, la, b)
    ensures |depth| == |code| && Levelled(Splice(code, k, la, b), NewDepth(k, la, b, depth))
  {
    hide JumpsResolve, AllEndsDiffer, EndsInReturn, SameShape, ForksKept, Splice, NewDepth, Reachable, PathTo;
    NewConsistent(code, k, la, b, depth);
    NewResolves(code, k, la, b, depth);
    NewTables(code, k, la, b, depth);
  }
}
