/** The control skeleton of a list: its labels, jumps and returns with the stack depth in front of
    each, and windows that have the same effect on it. */
module Skeletons {
  import Op
  import opened Instructions

  // ----- the control skeleton -----

  predicate IsMark(op: int) {
    op == Op.RET || IsJmpOrLabel(op)
  }

  /** A label, jump or return and the stack depth in front of it, counted from the start of the
      list; finally the depth at the end. The sense of a conditional jump is left out. */
  datatype Mark = Mark(kind: int, lab: int, depth: int) | End(depth: int)

  function MarkOf(ins: Ins, depth: int): Mark {
    if IsCondJump(ins.op) then Mark(Op.JZ, ins.a0, depth)
    else if ins.op == Op.LABEL then Mark(Op.LABEL, ins.w0, depth)
    else Mark(ins.op, ins.a0, depth)
  }

  function Skeleton(code: seq<Ins>, depth: int): seq<Mark> {
    if code == [] then [End(depth)]
    else
      (if IsMark(code[0].op) then [MarkOf(code[0], depth)] else []) + Skeleton(code[1..], depth + code[0].stackInc)
  }

  function Net(code: seq<Ins>): int {
    if code == [] then 0 else code[0].stackInc + Net(code[1..])
  }

  ghost predicate Unmarked(b: seq<Ins>) {
    forall i :: 0 <= i < |b| ==> !IsMark(b[i].op)
  }

  lemma {:induction false} SkeletonAfter(b: seq<Ins>, rest: seq<Ins>, depth: int)
    requires Unmarked(b)
    ensures Skeleton(b + rest, depth) == Skeleton(rest, depth + Net(b))
    decreases |b|
  {
    if b == [] {
      assert b + rest == rest;
    } else {
      assert (b + rest)[1..] == b[1..] + rest;
      SkeletonAfter(b[1..], rest, depth + b[0].stackInc);
    }
  }

  /** Two windows with the same effect on the skeleton: neither has a label or a jump, except that
      both may end in a conditional jump to the same label. */
  ghost predicate SameShape(a: seq<Ins>, b: seq<Ins>) {
    || (Unmarked(a) && Unmarked(b) && Net(a) == Net(b))
    || (|a| > 0 && |b| > 0
        && var m, n := |a| - 1, |b| - 1;
        && IsCondJump(a[m].op) && IsCondJump(b[n].op) && a[m].a0 == b[n].a0 && a[m].stackInc == b[n].stackInc
        && Unmarked(a[..m]) && Unmarked(b[..n]) && Net(a[..m]) == Net(b[..n]))
  }

  lemma JumpSkeleton(a: seq<Ins>, rest: seq<Ins>, depth: int)
    requires |a| > 0 && IsCondJump(a[|a| - 1].op) && Unmarked(a[..|a| - 1])
    ensures var m := |a| - 1; var d := depth + Net(a[..m]);
      Skeleton(a + rest, depth) == [Mark(Op.JZ, a[m].a0, d)] + Skeleton(rest, d + a[m].stackInc)
  {
    var m := |a| - 1;
    SkeletonAfter(a[..m], [a[m]] + rest, depth);
    assert a[..m] + ([a[m]] + rest) == a + rest;
    assert ([a[m]] + rest)[1..] == rest;
  }

  lemma SameShapeSkeleton(a: seq<Ins>, b: seq<Ins>, rest: seq<Ins>, depth: int)
    requires SameShape(a, b)
    ensures Skeleton(a + rest, depth) == Skeleton(b + rest, depth)
  {
    if Unmarked(a) && Unmarked(b) && Net(a) == Net(b) {
      SkeletonAfter(a, rest, depth);
      SkeletonAfter(b, rest, depth);
    } else {
      JumpSkeleton(a, rest, depth);
      JumpSkeleton(b, rest, depth);
    }
  }

  lemma {:induction false} SkeletonSplice(front: seq<Ins>, a: seq<Ins>, b: seq<Ins>, rest: seq<Ins>, depth: int)
    requires SameShape(a, b)
    ensures Skeleton(front + a + rest, depth) == Skeleton(front + b + rest, depth)
    decreases |front|
  {
    if front == [] {
      assert front + a + rest == a + rest && front + b + rest == b + rest;
      SameShapeSkeleton(a, b, rest, depth);
    } else {
      assert (front + a + rest)[1..] == front[1..] + a + rest;
      assert (front + b + rest)[1..] == front[1..] + b + rest;
      SkeletonSplice(front[1..], a, b, rest, depth + front[0].stackInc);
    }
  }

  ghost predicate NoTable(b: seq<Ins>) {
    forall i :: 0 <= i < |b| ==> b[i].op != Op.JMP && b[i].op != Op.JMPP && b[i].op != Op.LABEL
  }

  lemma ShapeNoTable(a: seq<Ins>, b: seq<Ins>)
    requires SameShape(a, b)
    ensures NoTable(a) && NoTable(b)
  {
    if !(Unmarked(a) && Unmarked(b) && Net(a) == Net(b)) {
      assert forall i :: 0 <= i < |a| - 1 ==> a[i] == a[..|a| - 1][i];
      assert forall i :: 0 <= i < |b| - 1 ==> b[i] == b[..|b| - 1][i];
    }
  }
}
