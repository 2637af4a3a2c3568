/** What every local rewrite keeps: the control skeleton of the list with the stack depth at each
    label and jump, the agreement with the instruction tables, and the jump tables. */
module Peephole {
  import Op
  import opened Tables
  import opened Instructions
  import opened Liveness
  import opened Windows
  import opened Blocks
  import opened Skeletons
  import opened DepthKept
  import opened Layout

  // ----- what a rewrite keeps -----

  ghost predicate AllConform(code: seq<Ins>) {
    forall i :: 0 <= i < |code| ==> Conforms(code[i])
  }

  /** Each JMPP is followed by a JMP for every value up to its maximum, and then by a label. */
  ghost predicate TablesOk(code: seq<Ins>) {
    forall i {:trigger TableAt(code, i)} {:trigger code[i]} ::
      0 <= i < |code| && code[i].op == Op.JMPP ==> TableAt(code, i)
  }

  /** The instructions agree with the tables of the engine and the jump tables are complete. */
  ghost predicate Good(code: seq<Ins>) {
    AllConform(code) && TablesOk(code)
  }

  lemma TablesOkMeans(code: seq<Ins>)
    requires TablesOk(code)
    ensures TablesFull(code) && TablesClosed(code)
  {
    forall i | 0 <= i < |code| && code[i].op == Op.JMPP
      ensures ClosedTable(code, i)
    {
      var e := i + 2 + code[i].a0;
      assert i < e < |code| && code[e].op == Op.LABEL;
    }
  }

  ghost predicate TableAt(code: seq<Ins>, i: nat)
    requires i < |code|
  {
    0 <= code[i].a0 && InTable(code, i + 1, i + 1 + code[i].a0) &&
    i + 2 + code[i].a0 < |code| && code[i + 2 + code[i].a0].op == Op.LABEL
  }

  lemma TablesKept(code: seq<Ins>, k: nat, la: nat, put: seq<Ins>)
    requires 0 < la && k + la <= |code| && NoTable(code[k..k + la]) && NoTable(put) && TablesOk(code)
    ensures TablesOk(Splice(code, k, la, put))
  {
    hide TableAt, InTable;
    var code', d := Splice(code, k, la, put), |put| - la;
    assert forall j :: k <= j < k + la ==> code[k..k + la][j - k] == code[j];
    assert forall j :: k <= j < k + |put| ==> code'[j] == put[j - k];
    forall i' | 0 <= i' < |code'| && code'[i'].op == Op.JMPP
      ensures TableAt(code', i')
    {
      assert i' < k || i' >= k + |put|;
      if i' < k {
        assert TableAt(code, i') && code'[i'] == code[i'];
        TableBefore(code, code', k, i');
      } else {
        assert TableAt(code, i' - d) && code'[i'] == code[i' - d];
        TableBehind(code, code', d, i' - d);
      }
    }
  }

  lemma TableBefore(code: seq<Ins>, code': seq<Ins>, k: nat, i: nat)
    requires i < k < |code| && k <= |code'| && code[k].op != Op.JMP && code[k].op != Op.LABEL
    requires forall j :: 0 <= j < k ==> code'[j] == code[j]
    requires TableAt(code, i)
    ensures TableAt(code', i)
  {
  }

  lemma TableBehind(code: seq<Ins>, code': seq<Ins>, d: int, i: nat)
    requires i < |code| && 0 <= i + d && |code'| == |code| + d
    requires forall j :: i <= j < |code| ==> code'[j + d] == code[j]
    requires TableAt(code, i)
    ensures TableAt(code', i + d)
  {
    assert forall m :: i + d < m <= i + d + 1 + code[i].a0 ==> code'[m] == code[m - d];
  }

  /** If the list was complete it stays so: with one stack depth for each reachable instruction, and
      fit to be written. */
  ghost predicate StaysComplete(code: seq<Ins>, code': seq<Ins>) {
    && (HasLevels(code) ==> HasLevels(code'))
    && forall noLineCues: bool :: Writable(code, noLineCues) ==> Writable(code', noLineCues)
  }

  /** The common part of all local rewrites. */
  lemma WindowKept(code: seq<Ins>, k: nat, la: nat, put: seq<Ins>)
    requires Good(code) && 0 < la && k + la <= |code| && SameShape(code[k..k + la], put) && AllConform(put)
    requires ForksKept(code[k..k + la], put) && Slimmer(code[k..k + la], put)
    ensures Good(Splice(code, k, la, put)) && Skeleton(Splice(code, k, la, put), 0) == Skeleton(code, 0)
    ensures StaysComplete(code, Splice(code, k, la, put))
  {
    hide AllConform, TablesOk, SameShape, Skeleton, Splice, ForksKept, Slimmer, HasLevels, Writable;
    var a := code[k..k + la];
    InThreeParts(code, k, la, put);
    SkeletonSplice(code[..k], a, put, code[k + la..], 0);
    ShapeNoTable(a, put);
    TablesKept(code, k, la, put);
    StillConforms(code, k, la, put);
    if HasLevels(code) {
      LevelsKept(code, k, la, put);
    }
    forall noLineCues: bool | Writable(code, noLineCues)
      ensures Writable(Splice(code, k, la, put), noLineCues)
    {
      StaysWritable(code[..k], a, put, code[k + la..], noLineCues);
    }
  }

  lemma InThreeParts(code: seq<Ins>, k: nat, la: nat, put: seq<Ins>)
    requires k + la <= |code|
    ensures code[..k] + code[k..k + la] + code[k + la..] == code
    ensures Splice(code, k, la, put) == code[..k] + put + code[k + la..]
  {
  }

  lemma StillConforms(code: seq<Ins>, k: nat, la: nat, put: seq<Ins>)
    requires k + la <= |code| && AllConform(code) && AllConform(put)
    ensures AllConform(Splice(code, k, la, put))
  {
    hide Conforms;
  }

  // ----- the measure that makes the optimizer stop -----

  /** Among lists of one length, each rewrite lowers this: every FREE counts for its position, every
      ChkRefS and LdGRdR4 for one. */
  ghost function Weight(op: int, i: nat): nat {
    if op == Op.FREE then i else if op == Op.ChkRefS || op == Op.LdGRdR4 then 1 else 0
  }

  ghost function Potential(code: seq<Ins>, n: nat): nat
    requires n <= |code|
  {
    if n == 0 then 0 else Potential(code, n - 1) + Weight(code[n - 1].op, n - 1)
  }

  // The order in which the rewrites make progress.
  ghost predicate Smaller(code': seq<Ins>, code: seq<Ins>) {
    || |code'| < |code|
    || (|code'| == |code| && Potential(code', |code'|) < Potential(code, |code|))
  }

  lemma {:induction false} PotentialBeyond(code: seq<Ins>, code': seq<Ins>, k: nat, n: nat)
    requires |code| == |code'| && k <= n <= |code|
    requires forall j :: k <= j < n ==> code[j].op == code'[j].op
    ensures Potential(code, n) - Potential(code, k) == Potential(code', n) - Potential(code', k)
    decreases n
  {
    if n > k {
      PotentialBeyond(code, code', k, n - 1);
    }
  }

  /** Two neighbours replaced by two others of less weight. */
  lemma PairLowers(code: seq<Ins>, k: nat, put: seq<Ins>)
    requires k + 1 < |code| && |put| == 2
    requires Weight(put[0].op, k) + Weight(put[1].op, k + 1) < Weight(code[k].op, k) + Weight(code[k + 1].op, k + 1)
    ensures Smaller(Splice(code, k, 2, put), code)
  {
    var code' := Splice(code, k, 2, put);
    assert forall j :: 0 <= j < k || k + 2 <= j < |code| ==> code'[j] == code[j];
    assert code'[k] == put[0] && code'[k + 1] == put[1];
    PotentialBeyond(code, code', 0, k);
    PotentialBeyond(code, code', k + 2, |code|);
    assert Potential(code, k + 2) == Potential(code, k + 1) + Weight(code[k + 1].op, k + 1);
    assert Potential(code', k + 2) == Potential(code', k + 1) + Weight(code'[k + 1].op, k + 1);
  }

  /** One instruction replaced by another of less weight. */
  lemma OneLowers(code: seq<Ins>, k: nat, ins: Ins)
    requires k < |code| && Weight(ins.op, k) < Weight(code[k].op, k)
    ensures Smaller(Splice(code, k, 1, [ins]), code)
  {
    var code' := Splice(code, k, 1, [ins]);
    assert forall j :: 0 <= j < k || k + 1 <= j < |code| ==> code'[j] == code[j];
    PotentialBeyond(code, code', 0, k);
    PotentialBeyond(code, code', k + 1, |code|);
  }

  /** A rewrite that keeps the list good and complete, keeps its skeleton and gets closer to the end. */
  ghost predicate Progress(code: seq<Ins>, code': seq<Ins>) {
    Good(code') && Skeleton(code', 0) == Skeleton(code, 0) && Smaller(code', code) && StaysComplete(code, code')
  }

  lemma Shrunk(code: seq<Ins>, k: nat, la: nat, put: seq<Ins>)
    requires Good(code) && k + la <= |code| && |put| < la && SameShape(code[k..k + la], put) && AllConform(put)
    requires ForksKept(code[k..k + la], put) && Slimmer(code[k..k + la], put)
    ensures Progress(code, Splice(code, k, la, put))
  {
    hide SameShape, Good, Skeleton, ForksKept, Slimmer, StaysComplete;
    WindowKept(code, k, la, put);
  }

  lemma Reordered(code: seq<Ins>, k: nat, put: seq<Ins>)
    requires Good(code) && k + 1 < |code| && |put| == 2 && SameShape(code[k..k + 2], put) && AllConform(put)
    requires Weight(put[0].op, k) + Weight(put[1].op, k + 1) < Weight(code[k].op, k) + Weight(code[k + 1].op, k + 1)
    requires ForksKept(code[k..k + 2], put) && Slimmer(code[k..k + 2], put)
    ensures Progress(code, Splice(code, k, 2, put))
  {
    hide SameShape, Good, Skeleton, Weight, Smaller, ForksKept, Slimmer, StaysComplete;
    WindowKept(code, k, 2, put);
    PairLowers(code, k, put);
  }

  /** The instructions of a window, one by one. */
  lemma Shapes(a: seq<Ins>)
    ensures |a| == 0 ==> Net(a) == 0
    ensures |a| == 1 ==> Net(a) == a[0].stackInc
    ensures |a| == 2 ==> Net(a) == a[0].stackInc + a[1].stackInc
    ensures |a| == 3 ==> Net(a) == a[0].stackInc + a[1].stackInc + a[2].stackInc
  {
    if |a| > 0 {
      if |a| > 1 {
        assert a[1..][1..] == a[2..] && a[1..][0] == a[1];
      }
      if |a| == 3 {
        assert a[2..][0] == a[2] && a[2..][1..] == [];
      }
    }
  }

  // The stack effect of one, two or three instructions.
  function Effect3(b: seq<Ins>): int
    requires |b| <= 3
  {
    (if |b| > 0 then b[0].stackInc else 0) + (if |b| > 1 then b[1].stackInc else 0)
    + (if |b| > 2 then b[2].stackInc else 0)
  }

  ghost predicate NoForks(b: seq<Ins>) {
    forall i :: 0 <= i < |b| ==> b[i].op != Op.TryBlock
  }

  lemma NoForksKept(a: seq<Ins>, b: seq<Ins>)
    requires NoForks(b)
    ensures ForksKept(a, b)
  {
    hide ForkFrom;
  }

  /** The usual case: up to three instructions without labels and jumps, replaced by fewer. */
  lemma Rewrote(code: seq<Ins>, k: nat, la: nat, put: seq<Ins>)
    requires Good(code) && la <= 3 && |put| < la && k + la <= |code|
    requires forall j :: k <= j < k + la ==> !IsMark(code[j].op)
    requires forall i :: 0 <= i < |put| ==> !IsMark(put[i].op)
    requires Effect3(code[k..k + la]) == Effect3(put) && AllConform(put)
    requires NoForks(put) && Slimmer(code[k..k + la], put)
    ensures Progress(code, Splice(code, k, la, put))
  {
    hide Good, Progress, AllConform, IsMark, Splice, ForksKept, Slimmer;
    Shapes(code[k..k + la]);
    Shapes(put);
    assert forall j :: k <= j < k + la ==> code[k..k + la][j - k] == code[j];
    NoForksKept(code[k..k + la], put);
    Shrunk(code, k, la, put);
  }

  // ----- sizes -----

  // Instructions that can be written, and another that can be written in their place.
  ghost predicate Fuses(a: seq<Ins>, n: Ins) {
    forall noLineCues: bool :: PartWritable(a, noLineCues) ==> Sized(n, noLineCues) && InRange(n) && n.size <= Size(a)
  }

  lemma FusesIsSlimmer(a: seq<Ins>, n: Ins)
    requires Fuses(a, n)
    ensures Slimmer(a, [n])
  {
    hide Sized, InRange;
    assert [n][1..] == [];
    assert Size([n]) == n.size;
  }

  lemma {:induction false} SizeIsNat(a: seq<Ins>, noLineCues: bool)
    requires PartWritable(a, noLineCues)
    ensures Size(a) >= 0
    decreases |a|
  {
    hide InRange, InfoType;
    if a != [] {
      assert Sized(a[0], noLineCues);
      SizeIsNat(a[1..], noLineCues);
    }
  }

  lemma NothingIsSlimmer(a: seq<Ins>)
    ensures Slimmer(a, [])
  {
    hide Sized, InRange;
    forall noLineCues: bool | PartWritable(a, noLineCues)
      ensures Size([]) <= Size(a)
    {
      SizeIsNat(a, noLineCues);
    }
  }

  lemma Sizes(a: seq<Ins>)
    ensures |a| == 2 ==> Size(a) == a[0].size + a[1].size
    ensures |a| == 3 ==> Size(a) == a[0].size + a[1].size + a[2].size
  {
    if |a| > 1 {
      assert a[1..][1..] == a[2..] && a[1..][0] == a[1];
      if |a| == 3 {
        assert a[2..][0] == a[2] && a[2..][1..] == [];
      }
    }
  }

  lemma ConformAt(code: seq<Ins>, i: nat)
    requires Good(code) && i < |code|
    ensures Conforms(code[i])
  {
  }
}
