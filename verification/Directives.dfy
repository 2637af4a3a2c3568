/** What no local rewrite touches: the cues, labels and directives of a list. And the releases of
    objects, of which a rewrite only loses one together with the handle that it releases. */
module Directives {
  import Op
  import opened Tables
  import opened Instructions
  import opened Blocks
  import opened Discipline
  import opened UnusedValues
  import opened Postponement
  import opened SequencesKept
  import opened Sequences

  const MARKERS := {Op.LINE, Op.SUSPEND, Op.JitEntry, Op.LABEL, Op.Block, Op.VarDecl, Op.ObjInfo, Op.TryBlock}
  const RELEASES := {Op.FREE}

  /** The instructions of some kinds, in order. */
  function Only(code: seq<Ins>, ops: set<int>): seq<Ins> {
    if code == [] then []
    else Only(code[..|code| - 1], ops) + (if code[|code| - 1].op in ops then [code[|code| - 1]] else [])
  }

  ghost predicate NoneOf(b: seq<Ins>, ops: set<int>) {
    forall i :: 0 <= i < |b| ==> b[i].op !in ops
  }

  ghost predicate NoneIn(code: seq<Ins>, lo: nat, hi: nat, ops: set<int>)
    requires lo <= hi <= |code|
  {
    forall j :: lo <= j < hi ==> code[j].op !in ops
  }

  lemma {:induction false} OnlyNone(b: seq<Ins>, ops: set<int>)
    requires NoneOf(b, ops)
    ensures Only(b, ops) == []
  {
    if b != [] {
      OnlyNone(b[..|b| - 1], ops);
    }
  }

  lemma {:induction false} OnlyAppends(a: seq<Ins>, b: seq<Ins>, ops: set<int>)
    ensures Only(a + b, ops) == Only(a, ops) + Only(b, ops)
    decreases |b|
  {
    if b == [] {
      assert a + b == a;
    } else {
      var p, x := b[..|b| - 1], b[|b| - 1];
      assert (a + b)[..|a + b| - 1] == a + p;
      OnlyAppends(a, p, ops);
    }
  }

  // A window is replaced by something with the same instructions of these kinds.
  lemma OnlySplice(code: seq<Ins>, k: nat, la: nat, put: seq<Ins>, ops: set<int>)
    requires k + la <= |code|
    ensures Only(code, ops) == Only(code[..k], ops) + Only(code[k..k + la], ops) + Only(code[k + la..], ops)
    ensures Only(Splice(code, k, la, put), ops) == Only(code[..k], ops) + Only(put, ops) + Only(code[k + la..], ops)
  {
    hide Only;
    assert code == code[..k] + code[k..k + la] + code[k + la..];
    OnlyAppends(code[..k] + code[k..k + la], code[k + la..], ops);
    OnlyAppends(code[..k], code[k..k + la], ops);
    OnlyAppends(code[..k] + put, code[k + la..], ops);
    OnlyAppends(code[..k], put, ops);
  }

  // Neither what a rewrite removes nor what it puts is of these kinds.
  ghost predicate Clear(code: seq<Ins>, w: Rewrite, ops: set<int>) {
    Fits(code, w) && (w.Replace? ==> NoneIn(code, w.at, w.at + w.len, ops) && NoneOf(w.put, ops))
  }

  lemma ClearKeeps(code: seq<Ins>, w: Rewrite, ops: set<int>)
    requires Clear(code, w, ops)
    ensures Only(Apply(code, w), ops) == Only(code, ops)
  {
    hide Splice, Only;
    if w.Replace? {
      OnlySplice(code, w.at, w.len, w.put, ops);
      var a := code[w.at..w.at + w.len];
      assert forall i :: 0 <= i < |a| ==> a[i] == code[w.at + i];
      OnlyNone(a, ops);
      OnlyNone(w.put, ops);
    }
  }

  lemma WritersUnmarked(op: int)
    ensures OnlyWrites(InfoType(op)) ==> op !in MARKERS
    ensures InfoType(op) in {wW_rW_rW_ARG, wW_rW_DW_ARG} ==> op !in MARKERS + RELEASES
  {
  }

  /** Removing an unused value touches no marker and loses no release. */
  lemma UnusedClear(code: seq<Ins>, k: nat, temps: set<int>)
    requires k < |code|
    ensures Clear(code, Unused(code, k, temps), MARKERS + RELEASES)
  {
    hide InfoType, LastUse, RegUsedAfter;
    WritersUnmarked(code[k].op);
  }

  // ----- the sequences -----

  /** A rewrite with the window and what it puts spelled out. */
  ghost predicate SameOnly(code: seq<Ins>, w: Rewrite, ops: set<int>) {
    Fits(code, w) && (w.Replace? ==> Only(code[w.at..w.at + w.len], ops) == Only(w.put, ops))
  }

  lemma SameOnlyKeeps(code: seq<Ins>, w: Rewrite, ops: set<int>)
    requires SameOnly(code, w, ops)
    ensures Only(Apply(code, w), ops) == Only(code, ops)
  {
    hide Splice, Only;
    if w.Replace? {
      OnlySplice(code, w.at, w.len, w.put, ops);
    }
  }

  /** The sequences without an instruction of these kinds. */
  lemma PairsClear(code: seq<Ins>, k: nat)
    requires k < |code|
    ensures code[k].op == Op.ClrHi ==> Clear(code, ClrHiRule(code, k), MARKERS + RELEASES)
    ensures code[k].op == Op.LDV ==> Clear(code, LDVRule(code, k), MARKERS + RELEASES)
    ensures code[k].op == Op.LDG ==> Clear(code, LDGRule(code, k), MARKERS + RELEASES)
    ensures code[k].op == Op.CHKREF ==> Clear(code, CHKREFRule(code, k), MARKERS + RELEASES)
  {
    hide InfoType, RegUsedAfter;
  }

  lemma PushesClear(code: seq<Ins>, k: nat)
    requires k < |code|
    ensures code[k].op == Op.SwapPtr ==> Clear(code, SwapRule(code, k), MARKERS + RELEASES)
    ensures code[k].op == Op.RDSPtr ==> Clear(code, RDSPtrRule(code, k), MARKERS + RELEASES)
    ensures code[k].op == Op.PopRPtr ==> Clear(code, PopRPtrRule(code, k), MARKERS + RELEASES)
  {
    hide InfoType;
  }

  lemma NamesClear(code: seq<Ins>, k: nat)
    requires k < |code|
    ensures code[k].op == Op.REFCPY ==> Clear(code, REFCPYRule(code, k), MARKERS + RELEASES)
    ensures code[k].op == Op.VAR ==> Clear(code, VarRule(code, k), MARKERS + RELEASES)
    ensures code[k].op in {Op.VAR, Op.PSF, Op.PshVPtr} ==> Clear(code, VarRefRule(code, k), MARKERS + RELEASES)
  {
    hide InfoType;
  }

  lemma JumpsClear(code: seq<Ins>, k: nat)
    requires k < |code| && IsCondJump(code[k].op)
    ensures Clear(code, JumpRule(code, k), MARKERS + RELEASES)
  {
  }

  // PshNull, RefCpyV x, PopPtr -> FREE x: the handle that is overwritten is released.
  predicate ReleasesInstead(code: seq<Ins>, k: nat)
    requires k < |code|
  {
    k > 1 && code[k].op == Op.PopPtr && code[k - 1].op == Op.RefCpyV && code[k - 2].op == Op.PshNull
  }

  // STOREOBJ y, .., FREE y, PopPtr -> FREE x, STOREOBJ x: the handle in `y` goes to `x`.
  predicate MovesHandle(code: seq<Ins>, k: nat)
    requires k < |code|
  {
    k >= 6 && code[k].op == Op.PopPtr && code[k - 1].op == Op.FREE && IsStoredHandle(code, k)
  }

  lemma PopClear(code: seq<Ins>, k: nat, temps: set<int>)
    requires k < |code| && code[k].op == Op.PopPtr
    ensures Clear(code, PopPtrRule(code, k, temps), MARKERS)
    ensures !ReleasesInstead(code, k) && !MovesHandle(code, k) ==>
      Clear(code, PopPtrRule(code, k, temps), MARKERS + RELEASES)
  {
    hide InfoType, LastUse;
  }

  lemma FreeClear(code: seq<Ins>, k: nat)
    requires k < |code| && code[k].op == Op.FREE
    ensures Clear(code, FREERule(code, k), MARKERS) && SameOnly(code, FREERule(code, k), RELEASES)
  {
    if FREERule(code, k).Replace? {
      var p, f := code[k - 1], code[k];
      var w := FREERule(code, k);
      assert code[w.at..w.at + w.len] == [p, f] && w.put == [f, p];
      OnlyOfTwo(p, f, RELEASES);
      OnlyOfTwo(f, p, RELEASES);
    }
  }

  lemma OnlyOfTwo(a: Ins, b: Ins, ops: set<int>)
    ensures Only([a, b], ops) == (if a.op in ops then [a] else []) + (if b.op in ops then [b] else [])
  {
    assert [a, b] == [a] + [b];
    OnlyAppends([a], [b], ops);
    OnlyOfOne(a, ops);
    OnlyOfOne(b, ops);
  }

  lemma OnlyOfOne(a: Ins, ops: set<int>)
    ensures Only([a], ops) == if a.op in ops then [a] else []
  {
    assert [a][..0] == [];
  }

  // ----- one turn -----

  ghost predicate SameMarkers(code: seq<Ins>, code': seq<Ins>) {
    Only(code', MARKERS) == Only(code, MARKERS)
  }

  ghost predicate SameReleases(code: seq<Ins>, code': seq<Ins>) {
    Only(code', RELEASES) == Only(code, RELEASES)
  }

  lemma ClearKeepsBoth(code: seq<Ins>, w: Rewrite)
    requires Clear(code, w, MARKERS + RELEASES)
    ensures SameMarkers(code, Apply(code, w)) && SameReleases(code, Apply(code, w))
  {
    hide Only, Apply;
    ClearKeeps(code, w, MARKERS);
    ClearKeeps(code, w, RELEASES);
  }

  lemma FreeKeepsBoth(code: seq<Ins>, k: nat)
    requires k < |code| && code[k].op == Op.FREE
    ensures var code' := Apply(code, FREERule(code, k)); SameMarkers(code, code') && SameReleases(code, code')
  {
    hide Only, Apply;
    FreeClear(code, k);
    ClearKeeps(code, FREERule(code, k), MARKERS);
    SameOnlyKeeps(code, FREERule(code, k), RELEASES);
  }

  lemma PopKeepsBoth(code: seq<Ins>, k: nat, temps: set<int>)
    requires k < |code| && code[k].op == Op.PopPtr
    ensures var code' := Apply(code, PopPtrRule(code, k, temps));
      SameMarkers(code, code') && (SameReleases(code, code') || ReleasesInstead(code, k) || MovesHandle(code, k))
  {
    hide Only, Apply;
    PopClear(code, k, temps);
    ClearKeeps(code, PopPtrRule(code, k, temps), MARKERS);
    if !ReleasesInstead(code, k) && !MovesHandle(code, k) {
      ClearKeepsBoth(code, PopPtrRule(code, k, temps));
    }
  }

  lemma VarKeepsBoth(code: seq<Ins>, k: nat)
    requires k < |code| && code[k].op == Op.VAR
    ensures var w := VarRule(code, k); var code' := Apply(code, w);
      SameMarkers(code, Apply(code', VarRefRule(code', k))) && SameReleases(code, Apply(code', VarRefRule(code', k)))
  {
    hide Only;
    var code' := Apply(code, VarRule(code, k));
    NamesClear(code, k);
    ClearKeepsBoth(code, VarRule(code, k));
    NamesClear(code', k);
    ClearKeepsBoth(code', VarRefRule(code', k));
  }

  /** A sequence that is replaced has no marker, and a release only where a handle is. */
  lemma SequenceKeepsBoth(code: seq<Ins>, k: nat, temps: set<int>, code': seq<Ins>)
    requires k < |code| && Sequence(code, k, temps) == Changed(code')
    ensures SameMarkers(code, code')
    ensures SameReleases(code, code') || ReleasesInstead(code, k) || MovesHandle(code, k)
  {
    hide SameMarkers, SameReleases, Clear, Apply, SwapRule, ClrHiRule, LDVRule, LDGRule, CHKREFRule, PopPtrRule;
    hide RDSPtrRule, PopRPtrRule, REFCPYRule, JumpRule, FREERule, VarRule, VarRefRule, ReleasesInstead, MovesHandle;
    var op := code[k].op;
    if op == Op.PopPtr {
      PopKeepsBoth(code, k, temps);
    } else if op == Op.FREE {
      FreeKeepsBoth(code, k);
    } else if op == Op.VAR {
      VarKeepsBoth(code, k);
    } else {
      ClearSequence(code, k, temps);
    }
  }

  lemma ClearSequence(code: seq<Ins>, k: nat, temps: set<int>)
    requires k < |code| && Sequence(code, k, temps).Changed? && code[k].op !in {Op.PopPtr, Op.FREE, Op.VAR}
    ensures var code' := Sequence(code, k, temps).code; SameMarkers(code, code') && SameReleases(code, code')
  {
    hide SameMarkers, SameReleases, Clear, Apply, SwapRule, ClrHiRule, LDVRule, LDGRule, CHKREFRule, PopPtrRule;
    hide RDSPtrRule, PopRPtrRule, REFCPYRule, JumpRule, FREERule, VarRule, VarRefRule;
    var op := code[k].op;
    PairsClear(code, k);
    PushesClear(code, k);
    NamesClear(code, k);
    if IsCondJump(op) {
      JumpsClear(code, k);
    }
    forall w | Fits(code, w) && Clear(code, w, MARKERS + RELEASES)
      ensures SameMarkers(code, Apply(code, w)) && SameReleases(code, Apply(code, w))
    {
      ClearKeepsBoth(code, w);
    }
  }

  // A constant that moves down passes no marker and no release of its own kind.
  lemma MoveKeepsBoth(code: seq<Ins>, k: nat, u: nat)
    requires k < u <= |code| && code[k].op in {Op.SetV4, Op.SetV8}
    ensures SameMarkers(code, MovedDown(code, k, u)) && SameReleases(code, MovedDown(code, k, u))
  {
    MovedOnly(code, k, u, MARKERS);
    MovedOnly(code, k, u, RELEASES);
  }

  lemma MovedOnly(code: seq<Ins>, k: nat, u: nat, ops: set<int>)
    requires k < u <= |code| && code[k].op !in ops
    ensures Only(MovedDown(code, k, u), ops) == Only(code, ops)
  {
    hide Only;
    var c, b := code[k], code[k + 1..u];
    assert code == (code[..k] + ([c] + b)) + code[u..];
    OnlyAppends(code[..k] + ([c] + b), code[u..], ops);
    OnlyAppends(code[..k], [c] + b, ops);
    OnlyAppends(code[..k] + (b + [c]), code[u..], ops);
    OnlyAppends(code[..k], b + [c], ops);
    OnlyAppends([c], b, ops);
    OnlyAppends(b, [c], ops);
    OnlyOfOne(c, ops);
  }

  // Removing an unused value and postponing a constant.
  lemma ValuesKeepBoth(code: seq<Ins>, k: nat, temps: set<int>)
    requires k < |code| && (Unused(code, k, temps).Replace? || CanPostpone(code, k, temps))
    ensures var t := Turn(code, k, temps);
      t.Changed? && SameMarkers(code, t.code) && SameReleases(code, t.code)
  {
    hide Only, Unused, Sequence, Clear, MovedDown, Apply;
    if Unused(code, k, temps).Replace? {
      UnusedClear(code, k, temps);
      ClearKeepsBoth(code, Unused(code, k, temps));
    } else {
      var u := FirstUse(code, k + 1, code[k].w0);
      var moved := MovedDown(code, k, u);
      MoveKeepsBoth(code, k, u);
      UnusedClear(moved, u - 1, temps);
      ClearKeepsBoth(moved, Unused(moved, u - 1, temps));
    }
  }

  /** One turn leaves all markers, in their order; and all releases, unless it replaces one of two
      sequences. */
  lemma TurnKeepsMarkers(code: seq<Ins>, k: nat, temps: set<int>, code': seq<Ins>)
    requires k < |code| && Turn(code, k, temps) == Changed(code')
    ensures SameMarkers(code, code')
    ensures SameReleases(code, code') || ReleasesInstead(code, k) || MovesHandle(code, k)
  {
    hide Unused, Sequence, Apply, CanPostpone, Postpone, SameMarkers, SameReleases, ReleasesInstead, MovesHandle;
    if Unused(code, k, temps).Replace? || CanPostpone(code, k, temps) {
      ValuesKeepBoth(code, k, temps);
    } else {
      SequenceKeepsBoth(code, k, temps, code');
    }
  }

  /** PshNull, RefCpyV x, PopPtr: a release of `x` takes the place of the sequence. */
  lemma ReleasedInstead(code: seq<Ins>, k: nat, temps: set<int>)
    requires k < |code| && ReleasesInstead(code, k)
    ensures var a, b := Only(code[..k - 2], RELEASES), Only(code[k + 1..], RELEASES);
      && Only(code, RELEASES) == a + b
      && Only(Apply(code, PopPtrRule(code, k, temps)), RELEASES) == a + [code[k - 1].(op := Op.FREE)] + b
  {
    hide Only, Splice, LastUse;
    var n := code[k - 1].(op := Op.FREE);
    var w := code[k - 2..k + 1];
    assert w == [code[k - 2], code[k - 1], code[k]];
    OnlyNone(w, RELEASES);
    OnlyOfOne(n, RELEASES);
    OnlySplice(code, k - 2, 3, [n], RELEASES);
  }

  /** STOREOBJ y, .., FREE y, PopPtr: the release of `y` becomes one of `x`. */
  lemma HandleMoved(code: seq<Ins>, k: nat, temps: set<int>)
    requires k < |code| && MovesHandle(code, k) && PopPtrRule(code, k, temps).Replace?
    ensures var a, b := Only(code[..k - 6], RELEASES), Only(code[k + 1..], RELEASES);
      && Only(code, RELEASES) == a + [code[k - 1]] + b
      && Only(Apply(code, PopPtrRule(code, k, temps)), RELEASES) == a + [code[k - 1].(w0 := code[k - 3].w0)] + b
  {
    hide Only, Splice, LastUse;
    var x := code[k - 3].w0;
    var p, f, s := code[k - 6..k - 1], code[k - 1].(w0 := x), StoreAs(code[k], x, code[k - 6].size);
    assert code[k - 6..k + 1] == p + [code[k - 1], code[k]];
    assert forall i :: 0 <= i < |p| ==> p[i] == code[k - 6 + i];
    OnlyNone(p, RELEASES);
    OnlyAppends(p, [code[k - 1], code[k]], RELEASES);
    OnlyOfTwo(code[k - 1], code[k], RELEASES);
    OnlyOfTwo(f, s, RELEASES);
    OnlySplice(code, k - 6, 7, [f, s], RELEASES);
  }

  /** What a turn does to the releases where it does not leave them alone: those in front, `a`, and those
      behind, `b`, stay, and there is one of `x` between them. */
  lemma HandleReleased(code: seq<Ins>, k: nat, temps: set<int>, code': seq<Ins>)
    requires k < |code| && Turn(code, k, temps) == Changed(code') && !SameReleases(code, code')
    ensures ReleasesInstead(code, k) ==>
      var a, b := Only(code[..k - 2], RELEASES), Only(code[k + 1..], RELEASES);
      Only(code, RELEASES) == a + b && Only(code', RELEASES) == a + [code[k - 1].(op := Op.FREE)] + b
    ensures MovesHandle(code, k) ==>
      var a, b := Only(code[..k - 6], RELEASES), Only(code[k + 1..], RELEASES);
      && Only(code, RELEASES) == a + [code[k - 1]] + b
      && Only(code', RELEASES) == a + [code[k - 1].(w0 := code[k - 3].w0)] + b
  {
    hide Only, Unused, PopPtrRule, Apply, CanPostpone, Postpone, IsStoredHandle, SameReleases, Splice;
    if Unused(code, k, temps).Replace? || CanPostpone(code, k, temps) {
      ValuesKeepBoth(code, k, temps);
      assert false;
    }
    if ReleasesInstead(code, k) {
      ReleasedInstead(code, k, temps);
    }
    if MovesHandle(code, k) {
      HandleMoved(code, k, temps);
    }
  }

  // ----- all turns -----

  /** The optimizer leaves all markers where they are among each other. */
  lemma {:induction false} OptimizerKeepsMarkers(lists: seq<seq<Ins>>, temps: set<int>)
    requires Turns(lists, temps)
    ensures SameMarkers(lists[0], lists[|lists| - 1])
    decreases |lists|
  {
    hide SameMarkers, Turn;
    var n := |lists|;
    if n == 1 {
      assert SameMarkers(lists[0], lists[0]) by {
        MarkersOfSame(lists[0]);
      }
    } else {
      var front := lists[..n - 1];
      assert forall i :: 0 <= i < n - 1 ==> front[i] == lists[i];
      OptimizerKeepsMarkers(front, temps);
      assert OneTurn(lists[n - 2], lists[n - 1], temps);
      var k: nat :| k < |lists[n - 2]| && Turn(lists[n - 2], k, temps) == Changed(lists[n - 1]);
      TurnKeepsMarkers(lists[n - 2], k, temps, lists[n - 1]);
      MarkersCompose(lists[0], lists[n - 2], lists[n - 1]);
    }
  }

  lemma MarkersOfSame(code: seq<Ins>)
    ensures SameMarkers(code, code)
  {
  }

  lemma MarkersCompose(a: seq<Ins>, b: seq<Ins>, c: seq<Ins>)
    requires SameMarkers(a, b) && SameMarkers(b, c)
    ensures SameMarkers(a, c)
  {
  }
}
