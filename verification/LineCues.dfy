/** Which LINE and which SUSPEND stand in front of an instruction: `Optimize` deletes only those that
    another takes the place of. */
module LineCues {
  import Op
  import opened Instructions
  import opened StackDepth
  import opened Blocks
  import opened UnusedValues
  import opened Assembling

  predicate IsCue(op: int) {
    op == Op.LINE || op == Op.SUSPEND
  }

  // What keeps its cues; a Block or a VarDecl may lose one to the instruction behind it.
  predicate KeepsCues(op: int) {
    !IsCue(op) && op != Op.Block && op != Op.VarDecl
  }

  predicate Removable(op: int) {
    op in {Op.JitEntry, Op.PopPtr, Op.SUSPEND, Op.LINE, Op.JMP}
  }

  /** The last such instruction among the first `n`, or -1. */
  function Latest(code: seq<Ins>, n: nat, op: int): (j: int)
    requires n <= |code|
    ensures -1 <= j < n && (j >= 0 ==> code[j].op == op)
    ensures forall m :: j < m < n ==> code[m].op != op
  {
    if n == 0 then -1 else if code[n - 1].op == op then n - 1 else Latest(code, n - 1, op)
  }

  // ----- one list made from another by deleting -----

  /** `code'` is what is left of `code`: its instruction `i` stood at `from[i]`. */
  ghost predicate LeftOf(code: seq<Ins>, code': seq<Ins>, from: seq<nat>) {
    && |from| == |code'|
    && (forall i :: 0 <= i < |from| ==> from[i] < |code| && code[from[i]] == code'[i])
    && (forall i, j :: 0 <= i < j < |from| ==> from[i] < from[j])
    && (forall j :: 0 <= j < |code| && j !in from ==> Removable(code[j].op))
  }

  // Where an instruction stood; none stood nowhere.
  function Origin(from: seq<nat>, j: int): int {
    if 0 <= j < |from| then from[j] else -1
  }

  /** The last LINE and the last SUSPEND in front of an instruction are still the same ones. */
  ghost predicate SameCues(code: seq<Ins>, code': seq<Ins>, from: seq<nat>)
    requires LeftOf(code, code', from)
  {
    forall i, op :: 0 <= i < |code'| && KeepsCues(code'[i].op) && IsCue(op) ==>
      Origin(from, Latest(code', i, op)) == Latest(code, from[i], op)
  }

  ghost predicate CuesKept(code: seq<Ins>, code': seq<Ins>, from: seq<nat>) {
    LeftOf(code, code', from) && SameCues(code, code', from)
  }

  function AllOf(n: nat): (from: seq<nat>)
    ensures |from| == n && forall i :: 0 <= i < n ==> from[i] == i
  {
    seq(n, i => i)
  }

  lemma NothingDeletedKeeps(code: seq<Ins>)
    ensures CuesKept(code, code, AllOf(|code|))
  {
    assert forall j :: 0 <= j < |code| ==> AllOf(|code|)[j] == j;
  }

  function Through(f: seq<nat>, g: seq<nat>): (r: seq<nat>)
    requires forall i :: 0 <= i < |g| ==> g[i] < |f|
    ensures |r| == |g| && forall i :: 0 <= i < |g| ==> r[i] == f[g[i]]
  {
    seq(|g|, i requires 0 <= i < |g| => f[g[i]])
  }

  lemma CuesCompose(a: seq<Ins>, b: seq<Ins>, c: seq<Ins>, f: seq<nat>, g: seq<nat>) returns (h: seq<nat>)
    requires CuesKept(a, b, f) && CuesKept(b, c, g)
    ensures CuesKept(a, c, h)
  {
    h := Through(f, g);
    forall j | 0 <= j < |a| && j !in h
      ensures Removable(a[j].op)
    {
      if j in f {
        var m :| 0 <= m < |f| && f[m] == j;
        assert m !in g;
      }
    }
    forall i, op | 0 <= i < |c| && KeepsCues(c[i].op) && IsCue(op)
      ensures Origin(h, Latest(c, i, op)) == Latest(a, h[i], op)
    {
      assert Origin(g, Latest(c, i, op)) == Latest(b, g[i], op);
      assert Origin(f, Latest(b, g[i], op)) == Latest(a, f[g[i]], op);
    }
  }

  // ----- one removal -----

  // Where the instructions stood before `len` were deleted at `k`.
  function Around(n: nat, k: nat, len: nat): (from: seq<nat>)
    requires k + len <= n
    ensures |from| == n - len && forall i :: 0 <= i < n - len ==> from[i] == if i < k then i else i + len
  {
    seq(n - len, i => if i < k then i else i + len)
  }

  lemma AroundHasRest(n: nat, k: nat, len: nat, j: nat)
    requires k + len <= n && j < n && !(k <= j < k + len)
    ensures j in Around(n, k, len)
  {
    assert Around(n, k, len)[if j < k then j else j - len] == j;
  }

  // What the last `op` in front of an instruction is after a deletion that leaves one in front of it.
  lemma LatestAround(code: seq<Ins>, code': seq<Ins>, k: nat, len: nat, i: nat, op: int)
    requires k + len <= |code| && |code'| == |code| - len && i < |code'|
    requires forall m :: 0 <= m < |code'| ==> code'[m] == code[Around(|code|, k, len)[m]]
    requires i >= k && k <= Latest(code, k + len, op) ==> Latest(code, i + len, op) >= k + len
    ensures Origin(Around(|code|, k, len), Latest(code', i, op)) == Latest(code, Around(|code|, k, len)[i], op)
  {
    hide Latest;
    var from := Around(|code|, k, len);
    var j', j := Latest(code', i, op), Latest(code, from[i], op);
    if j >= 0 {
      assert !(k <= j < k + len);
      var m := if j < k then j else j - len;
      assert code'[m] == code[j] && from[m] == j;
    }
    if j' >= 0 {
      assert code'[j'] == code[from[j']];
    }
  }

  // A cue is deleted only if there is another right behind it, over at most one marker.
  lemma CueReplaced(code: seq<Ins>, k: nat, includeJit: bool, i: nat, op: int)
    requires k < |code| && Removal(code, k, includeJit).Replace? && IsCue(op)
    requires var len := Removal(code, k, includeJit).len;
      k <= i < |code| - len && KeepsCues(code[i + len].op) && k <= Latest(code, k + len, op)
    ensures var len := Removal(code, k, includeJit).len;
      Latest(code, i + len, op) >= k + len
  {
    hide Latest;
    var len := Removal(code, k, includeJit).len;
    assert code[k].op == op && (len == 2 ==> code[k + 1].op == Op.JitEntry);
    assert code[k + len].op == op || (k + 2 < |code| && code[k + 2].op == op && !KeepsCues(code[k + 1].op));
    assert i + len > k + len;
  }

  lemma RemovalLeaves(code: seq<Ins>, k: nat, includeJit: bool)
    requires k < |code| && Removal(code, k, includeJit).Replace?
    ensures var w := Removal(code, k, includeJit);
      var code', from := Apply(code, w), Around(|code|, k, w.len);
      && LeftOf(code, code', from)
      && forall m :: 0 <= m < |code'| ==> code'[m] == code[from[m]]
  {
    var w := Removal(code, k, includeJit);
    assert Removable(code[k].op) && (w.len == 2 ==> Removable(code[k + 1].op));
    hide Removal, Removable;
    DeletionLeaves(code, k, w.len);
  }

  lemma DeletionLeaves(code: seq<Ins>, k: nat, len: nat)
    requires k + len <= |code| && forall j :: k <= j < k + len ==> Removable(code[j].op)
    ensures var code', from := Splice(code, k, len, []), Around(|code|, k, len);
      && LeftOf(code, code', from)
      && forall m :: 0 <= m < |code'| ==> code'[m] == code[from[m]]
  {
    hide Removable;
    forall j | 0 <= j < |code| && j !in Around(|code|, k, len)
      ensures Removable(code[j].op)
    {
      if !(k <= j < k + len) {
        AroundHasRest(|code|, k, len, j);
      }
    }
  }

  /** A removal leaves every instruction its LINE and its SUSPEND. */
  lemma RemovalKeepsCues(code: seq<Ins>, k: nat, includeJit: bool)
    requires k < |code| && Removal(code, k, includeJit).Replace?
    ensures var w := Removal(code, k, includeJit);
      CuesKept(code, Apply(code, w), Around(|code|, k, w.len))
  {
    hide Latest, LeftOf, Removal;
    var w := Removal(code, k, includeJit);
    var code', from := Apply(code, w), Around(|code|, k, w.len);
    RemovalLeaves(code, k, includeJit);
    forall i, op | 0 <= i < |code'| && KeepsCues(code'[i].op) && IsCue(op)
      ensures Origin(from, Latest(code', i, op)) == Latest(code, from[i], op)
    {
      if i >= k && k <= Latest(code, k + w.len, op) {
        CueReplaced(code, k, includeJit, i, op);
      }
      LatestAround(code, code', k, w.len, i, op);
    }
  }

  // ----- unreachable code -----

  /** The last such instruction among the first `n` that are kept, or -1. */
  function LatestKept(code: seq<Ins>, keep: seq<bool>, n: nat, op: int): (j: int)
    requires n <= |code| == |keep|
    ensures -1 <= j < n && (j >= 0 ==> keep[j] && code[j].op == op)
    ensures forall m :: j < m < n && keep[m] ==> code[m].op != op
  {
    if n == 0 then -1
    else if keep[n - 1] && code[n - 1].op == op then n - 1
    else LatestKept(code, keep, n - 1, op)
  }

  /** In what is kept of a list, the last LINE in front of an instruction is the last kept one. */
  lemma {:induction false} LatestOfKept(code: seq<Ins>, keep: seq<bool>, n: nat, op: int)
    requires n <= |code| == |keep|
    ensures var j := LatestKept(code, keep, n, op);
      Latest(Kept(code, keep, n), Rank(keep, n), op) == if j == -1 then -1 else Rank(keep, j)
  {
    if n > 0 {
      LatestOfKept(code, keep, n - 1, op);
      LatestMore(Kept(code, keep, n - 1), code[n - 1], op);
      assert !keep[n - 1] ==> Kept(code, keep, n) == Kept(code, keep, n - 1);
    }
  }

  lemma {:induction false} KeptPrefix(code: seq<Ins>, keep: seq<bool>, n: nat, i: nat)
    requires i <= n <= |code| == |keep|
    ensures Kept(code, keep, i) <= Kept(code, keep, n)
    decreases n
  {
    if i < n {
      KeptPrefix(code, keep, n - 1, i);
    }
  }

  lemma LatestMore(a: seq<Ins>, x: Ins, op: int)
    ensures Latest(a + [x], |a| + 1, op) == if x.op == op then |a| else Latest(a, |a|, op)
  {
    LatestPrefix(a, a + [x], |a|, op);
  }

  lemma {:induction false} LatestPrefix(a: seq<Ins>, b: seq<Ins>, n: nat, op: int)
    requires n <= |a| && a <= b
    ensures Latest(a, n, op) == Latest(b, n, op)
  {
    if n > 0 {
      LatestPrefix(a, b, n - 1, op);
    }
  }
}
