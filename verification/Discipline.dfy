/** What the optimizer takes for granted about a list: which values are no longer wanted behind a
    SUSPEND, a jump or a label. Rewrites that make no place newly wanted keep this discipline. */
module Discipline {
  import Op
  import opened Tables
  import opened Instructions
  import opened CodeLists
  import opened Machine
  import opened Liveness
  import opened Windows
  import opened Blocks

  // Instructions that access memory through the register and leave the address in it.
  predicate AccessesThrough(op: int) {
    op in {Op.WRTV4, Op.RDR4, Op.LdGRdR4, Op.INCi, Op.DECi}
  }

  /** What the code that follows the instruction may not ask for: temporaries behind a SUSPEND; the
      value register as an operand behind a SUSPEND, a jump or a label; and as the address of a 64-bit
      increment or as a result behind a conditional jump or an access to memory through it. */
  predicate Sheds(ins: Ins, p: Place, temps: set<int>, hasResult: bool) {
    match p
    case Var(x) => ins.op == Op.SUSPEND && x in temps
    case Register => ins.op in {Op.SUSPEND, Op.JMP, Op.JMPP, Op.LABEL} || IsCondJump(ins.op)
    case Wide => IsCondJump(ins.op) || AccessesThrough(ins.op)
    case Result => hasResult && (IsCondJump(ins.op) || AccessesThrough(ins.op))
  }

  /** Nothing asks for what has been shed. */
  ghost predicate Disciplined(code: seq<Ins>, temps: set<int>, hasResult: bool) {
    forall i: nat, j: nat, p: Place {:trigger Flow(code, i, j), Sheds(code[i], p, temps, hasResult)} ::
      i < |code| && Flow(code, i, j) && Sheds(code[i], p, temps, hasResult) ==> !LiveAt(code, j, p)
  }

  // Where the optimizer may leave other values behind.
  ghost function Loose(temps: set<int>): (r: set<Place>)
    ensures Register in r && (forall x :: Var(x) in r <==> x in temps)
  {
    {Register} + set x | x in temps :: Var(x)
  }

  lemma DisciplineDiscards(vm: VM, code: seq<Ins>, temps: set<int>, hasResult: bool, X: set<Place>)
    requires Disciplined(code, temps, hasResult) && X <= Loose(temps) && Private(vm, X)
    ensures Discards(vm, code, X)
  {
    hide LiveAt;
    forall i: nat, y | 0 < i <= |code| && code[i - 1].op == Op.SUSPEND && Var(y) in X
      ensures !LiveAt(code, i, Var(y))
    {
      if i == |code| {
        if LiveAt(code, i, Var(y)) {
          LiveInside(code, i, Var(y));
        }
      } else {
        assert Flow(code, i - 1, i) && Sheds(code[i - 1], Var(y), temps, hasResult);
      }
    }
  }

  // ----- the value register -----

  /** The register set by the instruction at `k` is read before it is overwritten or discarded. */
  ghost predicate RegUsedAfter(code: seq<Ins>, k: nat) {
    exists j :: k < j < |code| && ReadsReg(code[j].op) &&
      forall m :: k < m < j ==> !ClobbersReg(code[m].op)
  }

  /** What `IsTempRegUsed` takes for unused is unused, on every path. */
  lemma RegisterUnused(code: seq<Ins>, k: nat, temps: set<int>, hasResult: bool)
    requires Disciplined(code, temps, hasResult) && k < |code| && !RegUsedAfter(code, k)
    ensures !LiveAt(code, k + 1, Register)
  {
    UnusedFrom(code, k, k + 1, temps, hasResult);
  }

  lemma {:induction false} UnusedFrom(code: seq<Ins>, k: nat, i: nat, temps: set<int>, hasResult: bool)
    requires Disciplined(code, temps, hasResult) && k < i && !RegUsedAfter(code, k)
    requires forall m :: k < m < i && m < |code| ==> !ClobbersReg(code[m].op)
    ensures !LiveAt(code, i, Register)
    decreases |code| - i
  {
    hide LiveAt, InfoType;
    if LiveAt(code, i, Register) {
      LiveInside(code, i, Register);
      assert !ReadsReg(code[i].op);
      var j := LiveUnfold(code, i, Register);
      assert !Sheds(code[i], Register, temps, hasResult);
      if !ClobbersReg(code[i].op) {
        assert j == i + 1;
        UnusedFrom(code, k, i + 1, temps, hasResult);
      }
    }
  }

  // ----- liveness, by the length of the path -----

  ghost predicate LiveIn(code: seq<Ins>, i: nat, p: Place, n: nat)
    decreases n
  {
    n > 0 && i < |code|
    && (Reads(code[i], p) || (Passes(code[i], p) && exists j: nat :: Flow(code, i, j) && LiveIn(code, j, p, n - 1)))
  }

  lemma {:induction false} PathLiveIn(code: seq<Ins>, p: Place, path: seq<nat>)
    requires ReadingPath(code, p, path)
    ensures LiveIn(code, path[0], p, |path|)
  {
    hide Flow, Reads, Overwrites, Passes;
    if |path| > 1 {
      var rest := path[1..];
      assert forall k :: 0 <= k < |rest| ==> rest[k] == path[k + 1];
      assert ReadingPath(code, p, rest);
      PathLiveIn(code, p, rest);
      assert Flow(code, path[0], path[1]) && LiveIn(code, path[1], p, |path| - 1);
    }
  }

  lemma LiveHasLength(code: seq<Ins>, i: nat, p: Place) returns (n: nat)
    requires LiveAt(code, i, p)
    ensures LiveIn(code, i, p, n)
  {
    hide LiveIn;
    var path :| ReadingPath(code, p, path) && path[0] == i;
    PathLiveIn(code, p, path);
    n := |path|;
  }

  // ----- windows -----

  ghost predicate PassedBy(b: seq<Ins>, p: Place) {
    forall m :: 0 <= m < |b| ==> Passes(b[m], p)
  }

  // One of the instructions reads the place, and those in front of it leave it alone.
  ghost predicate ReadBy(b: seq<Ins>, p: Place) {
    exists m :: 0 <= m < |b| && Reads(b[m], p) && PassedBy(b[..m], p)
  }

  // Plain instructions, of which the last may also be a conditional jump.
  ghost predicate IsWindow(b: seq<Ins>) {
    && (forall i :: 0 <= i < |b| - 1 ==> Straight(b[i].op))
    && (b != [] ==> Straight(b[|b| - 1].op) || IsCondJump(b[|b| - 1].op))
  }

  /** The window of `la` instructions at `k` and `b` end alike: at the end, or in jumps to one label. */
  ghost predicate SameExits(code: seq<Ins>, k: nat, la: nat, b: seq<Ins>) {
    && 0 < la && k + la <= |code| && IsWindow(code[k..k + la]) && IsWindow(b) && TablesClosed(code)
    && (b != [] && IsCondJump(b[|b| - 1].op) ==>
      IsCondJump(code[k + la - 1].op) && b[|b| - 1].a0 == code[k + la - 1].a0)
  }

  // Control may leave the window for `j`.
  ghost predicate LeavesFor(code: seq<Ins>, k: nat, la: nat, j: nat)
    requires 0 < la && k + la <= |code|
  {
    var last := code[k + la - 1];
    j < |code| && (j == k + la || (IsCondJump(last.op) && j == Target(code, k + la - 1, last.a0)))
  }

  ghost predicate DeadBeyond(code: seq<Ins>, k: nat, la: nat, p: Place)
    requires 0 < la && k + la <= |code|
  {
    forall j: nat :: LeavesFor(code, k, la, j) ==> !LiveAt(code, j, p)
  }

  /** With `b` in its place, the window asks for no more than it did. */
  ghost predicate AsksNoMore(code: seq<Ins>, k: nat, la: nat, b: seq<Ins>, p: Place)
    requires 0 < la && k + la <= |code|
  {
    var a := code[k..k + la];
    && (ReadBy(b, p) ==> ReadBy(a, p))
    && (PassedBy(b, p) ==> ReadBy(a, p) || PassedBy(a, p) || DeadBeyond(code, k, la, p))
  }

  lemma WindowFlow(code: seq<Ins>, k: nat, la: nat, m: nat)
    requires 0 < la && k + la <= |code| && IsWindow(code[k..k + la]) && m < la
    ensures m < la - 1 ==> Straight(code[k + m].op)
    ensures k + m + 1 < |code| ==> Flow(code, k + m, k + m + 1)
    ensures forall j: nat :: m == la - 1 && LeavesFor(code, k, la, j) ==> Flow(code, k + m, j)
  {
    hide InfoType, Target;
    assert code[k + m] == code[k..k + la][m];
  }

  // A place that the window lets pass, or reads, is live in front of it.
  lemma {:induction false} LiveThrough(code: seq<Ins>, k: nat, la: nat, m: nat, p: Place, j: nat)
    requires 0 < la && k + la <= |code| && IsWindow(code[k..k + la]) && m < la
    requires LeavesFor(code, k, la, j) && LiveAt(code, j, p)
    requires forall q :: k + m <= q < k + la ==> Passes(code[q], p)
    ensures LiveAt(code, k + m, p)
    decreases la - m
  {
    hide LiveAt, IsWindow, Flow, Passes, LeavesFor;
    WindowFlow(code, k, la, m);
    if m == la - 1 {
      LiveNext(code, k + m, j, p);
    } else {
      LiveThrough(code, k, la, m + 1, p, j);
      LiveNext(code, k + m, k + m + 1, p);
    }
  }

  lemma {:induction false} LiveFromRead(code: seq<Ins>, k: nat, la: nat, m: nat, r: nat, p: Place)
    requires 0 < la && k + la <= |code| && IsWindow(code[k..k + la]) && m <= r < la
    requires Reads(code[k + r], p) && forall q :: k + m <= q < k + r ==> Passes(code[q], p)
    ensures LiveAt(code, k + m, p)
    decreases r - m
  {
    hide LiveAt, IsWindow, Flow, Passes, Reads;
    if m == r {
      LiveHere(code, k + m, p);
    } else {
      WindowFlow(code, k, la, m);
      LiveFromRead(code, k, la, m + 1, r, p);
      LiveNext(code, k + m, k + m + 1, p);
    }
  }

  lemma ReadIsLive(code: seq<Ins>, k: nat, la: nat, p: Place)
    requires 0 < la && k + la <= |code| && IsWindow(code[k..k + la]) && ReadBy(code[k..k + la], p)
    ensures LiveAt(code, k, p)
  {
    hide LiveAt, IsWindow, Passes, Reads;
    var a := code[k..k + la];
    var r :| 0 <= r < |a| && Reads(a[r], p) && PassedBy(a[..r], p);
    assert forall q {:trigger code[q]} :: k <= q < k + r ==> code[q] == a[..r][q - k];
    LiveFromRead(code, k, la, 0, r, p);
  }

  /** If a place is live where the window is left and `b` lets it pass, it is live in front of the
      window. */
  lemma LiveAcross(code: seq<Ins>, k: nat, la: nat, b: seq<Ins>, p: Place, j: nat)
    requires SameExits(code, k, la, b) && AsksNoMore(code, k, la, b, p) && PassedBy(b, p)
    requires LeavesFor(code, k, la, j) && LiveAt(code, j, p)
    ensures LiveAt(code, k, p)
  {
    hide LiveAt, IsWindow, Passes, ReadBy, LeavesFor, TablesClosed;
    if ReadBy(code[k..k + la], p) {
      ReadIsLive(code, k, la, p);
    } else {
      assert forall q {:trigger code[q]} :: k <= q < k + la ==> code[q] == code[k..k + la][q - k];
      LiveThrough(code, k, la, 0, p, j);
    }
  }

  // ----- flow in the spliced list -----

  lemma WindowIsBlock(b: seq<Ins>)
    requires IsWindow(b)
    ensures IsBlock(b) && forall i :: 0 <= i < |b| ==> b[i].op != Op.JMP && b[i].op != Op.JMPP
  {
  }

  lemma OutsideHome(code: seq<Ins>, k: nat, la: nat, b: seq<Ins>, i: nat)
    requires SameExits(code, k, la, b) && i < |Splice(code, k, la, b)| && (i < k || i >= k + |b|)
    ensures var h := Home(k, la, |b|, i);
      0 <= h < |code| && Splice(code, k, la, b)[i] == code[h] && (h < k || h >= k + la)
  {
    hide IsWindow, TablesClosed;
    SpliceAt(code, k, la, b);
  }

  /** Control that passes from an instruction outside the window to `j` passed from it to where `j`
      was, or to the window. */
  lemma FlowBack(code: seq<Ins>, k: nat, la: nat, b: seq<Ins>, i: nat, j: nat)
    requires SameExits(code, k, la, b) && i < |Splice(code, k, la, b)| && (i < k || i >= k + |b|)
    requires Flow(Splice(code, k, la, b), i, j)
    ensures 0 <= Home(k, la, |b|, i) < |code|
    ensures || ((j < k || j >= k + |b|) && Home(k, la, |b|, j) >= 0
                && Flow(code, Home(k, la, |b|, i), Home(k, la, |b|, j)))
            || (j == k && Flow(code, Home(k, la, |b|, i), k))
  {
    hide IsWindow, TablesClosed, Target, Splice, FirstLabel, LastLabel;
    var code', h := Splice(code, k, la, b), Home(k, la, |b|, i);
    WindowIsBlock(code[k..k + la]);
    WindowIsBlock(b);
    SpliceIsSpliced(code, k, la, b);
    OutsideHome(code, k, la, b, i);
    SpliceAt(code, k, la, b);
    if code[h].op == Op.JMPP {
      TableBack(code, k, la, b, i, j);
    } else if IsLabelJump(code[h].op) {
      TargetMoves(code, code', k, la, |b|, h, i, code[h].a0);
    }
  }

  lemma TableBack(code: seq<Ins>, k: nat, la: nat, b: seq<Ins>, i: nat, j: nat)
    requires SameExits(code, k, la, b) && i < |Splice(code, k, la, b)| && (i < k || i >= k + |b|)
    requires Splice(code, k, la, b)[i].op == Op.JMPP && InTable(Splice(code, k, la, b), i + 1, j)
    ensures 0 <= Home(k, la, |b|, i) < |code| && code[Home(k, la, |b|, i)].op == Op.JMPP
    ensures (j < k || j >= k + |b|) && InTable(code, Home(k, la, |b|, i) + 1, Home(k, la, |b|, j))
  {
    hide Splice, IsWindow;
    var code', h := Splice(code, k, la, b), Home(k, la, |b|, i);
    var a := code[k..k + la];
    WindowIsBlock(a);
    OutsideHome(code, k, la, b, i);
    SpliceAt(code, k, la, b);
    assert ClosedTable(code, h);
    var e :| h < e < |code| && code[e].op == Op.LABEL && forall m :: h < m < e ==> code[m].op == Op.JMP;
    NoLabelInBlock(a);
    assert forall q {:trigger code[q]} :: k <= q < k + la ==> code[q] == a[q - k];
    assert code[k] == a[0];
    assert e < k || k + la <= h;
    var e' := if e < k then e else e - la + |b|;
    assert code'[e'] == code[e];
    assert j < e';
    forall m | h < m <= Home(k, la, |b|, j)
      ensures code[m].op == Op.JMP
    {
      assert m < e;
    }
  }

  /** A place that is live where control passes to, from outside the window, was live there before. */
  lemma LiveWhereItWas(code: seq<Ins>, k: nat, la: nat, b: seq<Ins>, p: Place, i: nat, j: nat) returns (t: nat)
    requires SameExits(code, k, la, b) && AsksNoMore(code, k, la, b, p)
    requires i < |Splice(code, k, la, b)| && (i < k || i >= k + |b|) && Flow(Splice(code, k, la, b), i, j)
    requires j < k ==> LiveAt(code, j, p)
    requires k <= j < k + |b| ==> LiveAt(code, k, p)
    requires j >= k + |b| ==> LiveAt(code, j - |b| + la, p)
    ensures var h := Home(k, la, |b|, i); 0 <= h < |code| && Flow(code, h, t) && LiveAt(code, t, p)
  {
    hide LiveAt, Flow, AsksNoMore, IsWindow, TablesClosed, Splice;
    FlowBack(code, k, la, b, i, j);
    t := if j < k then j else k;
    if (j < k || j >= k + |b|) && Flow(code, Home(k, la, |b|, i), Home(k, la, |b|, j)) {
      t := Home(k, la, |b|, j);
    } else if b == [] {
      EnterEmpty(code, k, la, p);
    }
  }

  lemma EnterEmpty(code: seq<Ins>, k: nat, la: nat, p: Place)
    requires SameExits(code, k, la, []) && AsksNoMore(code, k, la, [], p) && LiveAt(code, k + la, p)
    ensures LiveAt(code, k, p)
  {
    hide LiveAt, IsWindow, AsksNoMore, TablesClosed;
    LiveInside(code, k + la, p);
    LiveAcross(code, k, la, [], p, k + la);
  }

  // ----- what is live in the spliced list was live before -----

  lemma {:induction false} LiveBack(code: seq<Ins>, k: nat, la: nat, b: seq<Ins>, p: Place, j: nat, n: nat)
    requires SameExits(code, k, la, b) && AsksNoMore(code, k, la, b, p) && LiveIn(Splice(code, k, la, b), j, p, n)
    requires k < j < k + |b| ==> PassedBy(b[..j - k], p)
    ensures j < k ==> LiveAt(code, j, p)
    ensures k <= j < k + |b| ==> LiveAt(code, k, p)
    ensures j >= k + |b| ==> LiveAt(code, j - |b| + la, p)
    decreases n
  {
    hide LiveAt, Flow, AsksNoMore, IsWindow, TablesClosed, Splice, Reads, Overwrites, PassedBy;
    var code' := Splice(code, k, la, b);
    if j < k || j >= k + |b| {
      OutsideHome(code, k, la, b, j);
      var h := Home(k, la, |b|, j);
      if Reads(code'[j], p) {
        LiveHere(code, h, p);
      } else {
        var next: nat :| Flow(code', j, next) && LiveIn(code', next, p, n - 1);
        NotInside(code, k, la, b, j, next);
        LiveBack(code, k, la, b, p, next, n - 1);
        var t := LiveWhereItWas(code, k, la, b, p, j, next);
        LiveNext(code, h, t, p);
      }
    } else {
      InsideAt(code, k, la, b, j);
      if Reads(code'[j], p) {
        InsideRead(code, k, la, b, p, j - k);
      } else {
        var next: nat :| Flow(code', j, next) && LiveIn(code', next, p, n - 1);
        PassedOneMore(b, p, j - k);
        InsideFlow(code, k, la, b, j, next);
        LiveBack(code, k, la, b, p, next, n - 1);
        if next != j + 1 || next == k + |b| {
          LiveAcross(code, k, la, b, p, Home(k, la, |b|, next));
        }
      }
    }
  }

  lemma NotInside(code: seq<Ins>, k: nat, la: nat, b: seq<Ins>, i: nat, j: nat)
    requires SameExits(code, k, la, b) && i < |Splice(code, k, la, b)| && (i < k || i >= k + |b|)
    requires Flow(Splice(code, k, la, b), i, j)
    ensures !(k < j < k + |b|)
  {
    hide Flow, IsWindow, TablesClosed, Splice;
    FlowBack(code, k, la, b, i, j);
  }

  lemma InsideAt(code: seq<Ins>, k: nat, la: nat, b: seq<Ins>, j: nat)
    requires SameExits(code, k, la, b) && k <= j < k + |b|
    ensures j < |Splice(code, k, la, b)| && Splice(code, k, la, b)[j] == b[j - k]
  {
    hide IsWindow, TablesClosed;
    SpliceAt(code, k, la, b);
  }

  lemma InsideRead(code: seq<Ins>, k: nat, la: nat, b: seq<Ins>, p: Place, m: nat)
    requires SameExits(code, k, la, b) && AsksNoMore(code, k, la, b, p)
    requires m < |b| && Reads(b[m], p) && (m > 0 ==> PassedBy(b[..m], p))
    ensures LiveAt(code, k, p)
  {
    hide IsWindow, TablesClosed, Reads, LiveAt, Passes, DeadBeyond;
    assert PassedBy(b[..m], p);
    ReadIsLive(code, k, la, p);
  }

  lemma PassedOneMore(b: seq<Ins>, p: Place, m: nat)
    requires m < |b| && Passes(b[m], p) && (m > 0 ==> PassedBy(b[..m], p))
    ensures PassedBy(b[..m + 1], p) && (m + 1 == |b| ==> PassedBy(b, p))
  {
    hide Passes;
    forall q | 0 <= q <= m
      ensures Passes(b[q], p)
    {
      assert q < m ==> b[q] == b[..m][q];
    }
  }

  // From inside the new window, control goes on to its next instruction or leaves it as before.
  lemma InsideFlow(code: seq<Ins>, k: nat, la: nat, b: seq<Ins>, j: nat, next: nat)
    requires SameExits(code, k, la, b) && k <= j < k + |b| && j < |Splice(code, k, la, b)|
    requires Flow(Splice(code, k, la, b), j, next)
    ensures next == j + 1 < k + |b| || (j == k + |b| - 1 && (next < k || next >= k + |b|) &&
      Home(k, la, |b|, next) >= 0 && LeavesFor(code, k, la, Home(k, la, |b|, next)))
  {
    hide TablesClosed, Target, Splice, FirstLabel, LastLabel;
    var code' := Splice(code, k, la, b);
    WindowIsBlock(code[k..k + la]);
    WindowIsBlock(b);
    SpliceIsSpliced(code, k, la, b);
    InsideAt(code, k, la, b, j);
    assert |code'| == |code| - la + |b| by {
      SpliceAt(code, k, la, b);
    }
    if j == k + |b| - 1 && IsCondJump(b[j - k].op) {
      TargetMoves(code, code', k, la, |b|, k + la - 1, j, b[j - k].a0);
    }
  }

  // A place that the rest of the new window does not read is live only if the rest lets it pass and
  // it is live where the window is left.
  lemma {:induction false} LiveBeyond(code: seq<Ins>, k: nat, la: nat, b: seq<Ins>, p: Place, m: nat, n: nat)
    requires SameExits(code, k, la, b) && AsksNoMore(code, k, la, b, p) && m <= |b|
    requires LiveIn(Splice(code, k, la, b), k + m, p, n) && !ReadBy(b[m..], p)
    ensures PassedBy(b[m..], p) && !DeadBeyond(code, k, la, p)
    decreases n
  {
    hide LiveAt, Flow, AsksNoMore, IsWindow, TablesClosed, Splice, Reads, Overwrites, LeavesFor, ReadBy, PassedBy;
    var code', j := Splice(code, k, la, b), k + m;
    if m == |b| {
      LiveBack(code, k, la, b, p, j, n);
      LiveInside(code, k + la, p);
      LeavesAtEnd(code, k, la);
      PassedByNone(b[m..], p);
    } else {
      InsideAt(code, k, la, b, j);
      RestOf(b, p, m);
      var next: nat :| Flow(code', j, next) && LiveIn(code', next, p, n - 1);
      InsideFlow(code, k, la, b, j, next);
      if next == j + 1 {
        LiveBeyond(code, k, la, b, p, m + 1, n - 1);
      } else {
        LiveBack(code, k, la, b, p, next, n - 1);
        PassedByNone(b[m + 1..], p);
        assert LeavesFor(code, k, la, Home(k, la, |b|, next));
      }
    }
  }

  lemma PassedByNone(b: seq<Ins>, p: Place)
    ensures b == [] ==> PassedBy(b, p) && !ReadBy(b, p)
  {
  }

  // One instruction and those that follow it.
  lemma RestOf(b: seq<Ins>, p: Place, m: nat)
    requires m < |b|
    ensures ReadBy(b[m..], p) <==> Reads(b[m], p) || (Passes(b[m], p) && ReadBy(b[m + 1..], p))
    ensures PassedBy(b[m..], p) <==> Passes(b[m], p) && PassedBy(b[m + 1..], p)
  {
    hide Reads, Overwrites;
    ReadByFirst(b[m..], p);
    assert b[m..][1..] == b[m + 1..];
  }

  lemma ReadByFirst(b: seq<Ins>, p: Place)
    requires b != []
    ensures ReadBy(b, p) <==> Reads(b[0], p) || (Passes(b[0], p) && ReadBy(b[1..], p))
    ensures PassedBy(b, p) <==> Passes(b[0], p) && PassedBy(b[1..], p)
  {
    hide Reads, Overwrites;
    var rest := b[1..];
    if ReadBy(b, p) && !Reads(b[0], p) {
      var m :| 0 <= m < |b| && Reads(b[m], p) && PassedBy(b[..m], p);
      assert b[..m][0] == b[0];
      assert forall q {:trigger rest[..m - 1][q]} :: 0 <= q < m - 1 ==> rest[..m - 1][q] == b[..m][q + 1];
      assert Reads(rest[m - 1], p) && PassedBy(rest[..m - 1], p);
    }
    if Reads(b[0], p) {
      assert PassedBy(b[..0], p);
    } else if Passes(b[0], p) && ReadBy(rest, p) {
      var m :| 0 <= m < |rest| && Reads(rest[m], p) && PassedBy(rest[..m], p);
      assert forall q {:trigger b[..m + 1][q]} :: 0 < q < m + 1 ==> b[..m + 1][q] == rest[..m][q - 1];
      assert Reads(b[m + 1], p) && PassedBy(b[..m + 1], p);
    }
    assert forall q :: 0 < q < |b| ==> b[q] == rest[q - 1];
  }

  lemma LeavesAtEnd(code: seq<Ins>, k: nat, la: nat)
    requires 0 < la && k + la < |code|
    ensures LeavesFor(code, k, la, k + la)
  {
    hide Target;
  }

  // ----- the discipline is kept -----

  /** Nothing is asked for behind those instructions of the new window that shed it. */
  ghost predicate ShedsInside(code: seq<Ins>, k: nat, la: nat, b: seq<Ins>, temps: set<int>, hasResult: bool)
    requires 0 < la && k + la <= |code|
  {
    forall m, p :: 0 <= m < |b| && Sheds(b[m], p, temps, hasResult) ==>
      !ReadBy(b[m + 1..], p) && (PassedBy(b[m + 1..], p) ==> DeadBeyond(code, k, la, p))
  }

  // A place that some instruction may shed.
  predicate MayBeShed(p: Place, temps: set<int>, hasResult: bool) {
    match p
    case Var(x) => x in temps
    case _ => Counts(p, hasResult)
  }

  ghost predicate AsksNoMoreAtAll(code: seq<Ins>, k: nat, la: nat, b: seq<Ins>, temps: set<int>, hasResult: bool)
    requires 0 < la && k + la <= |code|
  {
    forall p :: MayBeShed(p, temps, hasResult) ==> AsksNoMore(code, k, la, b, p)
  }

  /** A window that asks for no more keeps the list disciplined. */
  lemma SpliceKeepsDiscipline(code: seq<Ins>, k: nat, la: nat, b: seq<Ins>, temps: set<int>, hasResult: bool)
    requires SameExits(code, k, la, b) && Disciplined(code, temps, hasResult)
    requires AsksNoMoreAtAll(code, k, la, b, temps, hasResult) && ShedsInside(code, k, la, b, temps, hasResult)
    ensures Disciplined(Splice(code, k, la, b), temps, hasResult)
  {
    hide LiveAt, Flow, IsWindow, TablesClosed, Splice, AsksNoMore, ShedsInside, Sheds, Disciplined;
    var code' := Splice(code, k, la, b);
    forall i: nat, j: nat, p | i < |code'| && Flow(code', i, j) && Sheds(code'[i], p, temps, hasResult)
      ensures !LiveAt(code', j, p)
    {
      ShedsResult(code'[i], p, temps, hasResult);
      if LiveAt(code', j, p) {
        var n := LiveHasLength(code', j, p);
        if i < k || i >= k + |b| {
          ShedOutside(code, k, la, b, temps, hasResult, p, i, j, n);
        } else {
          ShedInside(code, k, la, b, temps, hasResult, p, i, j, n);
        }
      }
    }
    IsDisciplined(code', temps, hasResult);
  }

  lemma ShedsResult(ins: Ins, p: Place, temps: set<int>, hasResult: bool)
    requires Sheds(ins, p, temps, hasResult)
    ensures MayBeShed(p, temps, hasResult)
  {
  }

  lemma IsDisciplined(code: seq<Ins>, temps: set<int>, hasResult: bool)
    requires forall i: nat, j: nat, p: Place {:trigger Flow(code, i, j), Sheds(code[i], p, temps, hasResult)} ::
      i < |code| && Flow(code, i, j) && Sheds(code[i], p, temps, hasResult) ==> !LiveAt(code, j, p)
    ensures Disciplined(code, temps, hasResult)
  {
    hide LiveAt, Flow, Sheds;
  }

  lemma ShedAt(code: seq<Ins>, k: nat, la: nat, b: seq<Ins>, temps: set<int>, hasResult: bool, p: Place, m: nat)
    requires 0 < la && k + la <= |code| && ShedsInside(code, k, la, b, temps, hasResult)
    requires m < |b| && Sheds(b[m], p, temps, hasResult)
    ensures !ReadBy(b[m + 1..], p) && (PassedBy(b[m + 1..], p) ==> DeadBeyond(code, k, la, p))
  {
    hide Sheds, DeadBeyond, ReadBy, PassedBy;
  }

  lemma ShedOutside(code: seq<Ins>, k: nat, la: nat, b: seq<Ins>, temps: set<int>, hasResult: bool, p: Place,
                    i: nat, j: nat, n: nat)
    requires SameExits(code, k, la, b) && Disciplined(code, temps, hasResult) && AsksNoMore(code, k, la, b, p)
    requires i < |Splice(code, k, la, b)| && (i < k || i >= k + |b|) && Flow(Splice(code, k, la, b), i, j)
    requires LiveIn(Splice(code, k, la, b), j, p, n)
    ensures !Sheds(Splice(code, k, la, b)[i], p, temps, hasResult)
  {
    hide LiveAt, Flow, IsWindow, TablesClosed, Splice, AsksNoMore, Sheds, LiveIn;
    OutsideHome(code, k, la, b, i);
    NotInside(code, k, la, b, i, j);
    LiveBack(code, k, la, b, p, j, n);
    var t := LiveWhereItWas(code, k, la, b, p, i, j);
  }

  lemma ShedInside(code: seq<Ins>, k: nat, la: nat, b: seq<Ins>, temps: set<int>, hasResult: bool, p: Place,
                   i: nat, j: nat, n: nat)
    requires SameExits(code, k, la, b) && ShedsInside(code, k, la, b, temps, hasResult) && AsksNoMore(code, k, la, b, p)
    requires k <= i < k + |b| && i < |Splice(code, k, la, b)| && Flow(Splice(code, k, la, b), i, j)
    requires LiveIn(Splice(code, k, la, b), j, p, n)
    ensures !Sheds(Splice(code, k, la, b)[i], p, temps, hasResult)
  {
    hide LiveAt, Flow, IsWindow, TablesClosed, Splice, AsksNoMore, Sheds, ShedsInside, LiveIn, LeavesFor, ReadBy;
    hide PassedBy;
    InsideAt(code, k, la, b, i);
    InsideFlow(code, k, la, b, i, j);
    if Sheds(b[i - k], p, temps, hasResult) {
      ShedAt(code, k, la, b, temps, hasResult, p, i - k);
      PassedByNone(b[i - k + 1..], p);
      if j == i + 1 {
        LiveBeyond(code, k, la, b, p, j - k, n);
      } else {
        LiveBack(code, k, la, b, p, j, n);
      }
      assert false;
    }
  }
}
