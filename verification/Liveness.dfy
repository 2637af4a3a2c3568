/** `IsTempVarRead`: is the value a temporary holds ever used again? The search walks the control
    flow with a list of open and a list of closed paths; it is exact and always ends. */
module Liveness {
  import Op
  import opened Tables
  import opened Instructions
  import opened CodeLists

  // From `i` on there are only JMPs up to and including `j`: the look-up table of a JMPP.
  ghost predicate InTable(code: seq<Ins>, i: int, j: int) {
    0 <= i <= j < |code| && forall m :: i <= m <= j ==> code[m].op == Op.JMP
  }

  /** Control may pass from `i` to `j`. */
  ghost predicate Flow(code: seq<Ins>, i: nat, j: nat)
    requires i < |code|
  {
    && j < |code|
    && if code[i].op == Op.JMP then j == Target(code, i, code[i].a0)
       else if IsCondJump(code[i].op) then j == i + 1 || j == Target(code, i, code[i].a0)
       else if code[i].op == Op.JMPP then InTable(code, i + 1, j)
       else j == i + 1
  }

  // The instruction neither reads nor overwrites nor discards what is in the place.
  predicate Passes(ins: Ins, x: Place) {
    !Reads(ins, x) && !Overwrites(ins, x)
  }

  /** A control flow path over instructions that leave the place alone, up to the last one. */
  ghost predicate CleanPath(code: seq<Ins>, x: Place, p: seq<nat>) {
    && |p| > 0
    && (forall k :: 0 <= k < |p| ==> p[k] < |code|)
    && (forall k :: 0 <= k < |p| - 1 ==> Passes(code[p[k]], x) && Flow(code, p[k], p[k + 1]))
  }

  ghost predicate ReadingPath(code: seq<Ins>, x: Place, p: seq<nat>) {
    CleanPath(code, x, p) && Reads(code[p[|p| - 1]], x)
  }

  /** The place may be read, before it is overwritten or discarded, by a run that is at `i`. */
  ghost predicate LiveAt(code: seq<Ins>, i: nat, x: Place) {
    exists p :: ReadingPath(code, x, p) && p[0] == i
  }

  // ----- liveness, one step at a time -----

  lemma LiveHere(code: seq<Ins>, i: nat, x: Place)
    requires i < |code| && Reads(code[i], x)
    ensures LiveAt(code, i, x)
  {
    assert ReadingPath(code, x, [i]) && [i][0] == i;
  }

  lemma LiveNext(code: seq<Ins>, i: nat, j: nat, x: Place)
    requires i < |code| && Passes(code[i], x) && Flow(code, i, j) && LiveAt(code, j, x)
    ensures LiveAt(code, i, x)
  {
    hide Flow, Reads, Overwrites;
    var p :| ReadingPath(code, x, p) && p[0] == j;
    var q := [i] + p;
    forall k | 0 <= k < |q| - 1
      ensures Passes(code[q[k]], x) && Flow(code, q[k], q[k + 1])
    {
      assert k > 0 ==> q[k] == p[k - 1];
      assert q[k + 1] == p[k];
    }
    assert forall k :: 0 < k < |q| ==> q[k] == p[k - 1];
    assert q[|q| - 1] == p[|p| - 1];
    assert ReadingPath(code, x, q) && q[0] == i;
  }

  lemma LiveUnfold(code: seq<Ins>, i: nat, x: Place) returns (j: nat)
    requires i < |code| && LiveAt(code, i, x) && !Reads(code[i], x)
    ensures Passes(code[i], x) && Flow(code, i, j) && LiveAt(code, j, x)
  {
    hide InfoType;
    var p :| ReadingPath(code, x, p) && p[0] == i;
    j := p[1];
    assert ReadingPath(code, x, p[1..]) by {
      assert forall k :: 0 <= k < |p| - 1 ==> p[1..][k] == p[k + 1];
    }
  }

  // Jumps to a label use no variable.
  lemma JumpPasses(ins: Ins, x: int)
    requires IsLabelJump(ins.op)
    ensures Passes(ins, Var(x))
  {
  }

  // ----- the search -----

  ghost predicate Reached(code: seq<Ins>, x: Place, start: nat, i: nat) {
    i == start || exists p :: CleanPath(code, x, p) && p[0] == start && p[|p| - 1] == i
  }

  lemma ReachedNext(code: seq<Ins>, x: Place, start: nat, i: nat, j: nat)
    requires Reached(code, x, start, i) && i < |code| && Passes(code[i], x) && Flow(code, i, j)
    ensures Reached(code, x, start, j)
  {
    var p :| CleanPath(code, x, p) && p[0] == start && p[|p| - 1] == i by {
      assert i == start ==> CleanPath(code, x, [i]) && [i][0] == i;
    }
    PathExtends(code, x, p, j);
  }

  lemma PathExtends(code: seq<Ins>, x: Place, p: seq<nat>, j: nat)
    requires CleanPath(code, x, p) && Passes(code[p[|p| - 1]], x) && Flow(code, p[|p| - 1], j)
    ensures CleanPath(code, x, p + [j])
  {
    var q := p + [j];
    forall k | 0 <= k < |q| - 1
      ensures Passes(code[q[k]], x) && Flow(code, q[k], q[k + 1])
    {
      assert q[k] == p[k] && (k + 1 < |p| ==> q[k + 1] == p[k + 1]);
    }
  }

  lemma ReachedLive(code: seq<Ins>, x: Place, start: nat, i: nat)
    requires Reached(code, x, start, i) && i < |code| && Reads(code[i], x)
    ensures LiveAt(code, start, x)
  {
    if i == start {
      LiveHere(code, i, x);
    } else {
      var p :| CleanPath(code, x, p) && p[0] == start && p[|p| - 1] == i;
      assert ReadingPath(code, x, p);
    }
  }

  /** What the search has established about the instructions in `done`: none reads the variable,
      and what may follow those that let it pass is in `done` too, or still to be visited. */
  ghost predicate Explored(code: seq<Ins>, x: Place, done: set<int>, pending: set<int>) {
    && (forall d :: d in done ==> 0 <= d < |code| && !Reads(code[d], x))
    && (forall d: nat, j: nat :: d in done && Passes(code[d], x) && Flow(code, d, j) ==> j in done || j in pending)
  }

  lemma ExploreOne(code: seq<Ins>, x: Place, done: set<int>, pending: set<int>, d: nat, pending': set<int>)
    requires Explored(code, x, done, pending + {d}) && d < |code| && !Reads(code[d], x) && pending <= pending'
    requires Passes(code[d], x) ==> forall j: nat :: Flow(code, d, j) ==> j in done || j in pending'
    ensures Explored(code, x, done + {d}, pending')
  {
  }

  lemma {:induction false} ExploredNotLive(code: seq<Ins>, x: Place, done: set<int>, p: seq<nat>)
    requires Explored(code, x, done, {})
    requires CleanPath(code, x, p) && p[0] in done
    ensures !Reads(code[p[|p| - 1]], x)
  {
    if |p| > 1 {
      assert Flow(code, p[0], p[1]);
      assert CleanPath(code, x, p[1..]) by {
        assert forall k :: 0 <= k < |p| - 1 ==> p[1..][k] == p[k + 1];
      }
      ExploredNotLive(code, x, done, p[1..]);
    }
  }

  // Each JMPP is followed by its table of JMPs and that by a label, as the emitter lays them out.
  ghost predicate TablesClosed(code: seq<Ins>) {
    forall i {:trigger code[i]} :: 0 <= i < |code| && code[i].op == Op.JMPP ==> ClosedTable(code, i)
  }

  ghost predicate ClosedTable(code: seq<Ins>, i: nat) {
    exists e :: i < e < |code| && code[e].op == Op.LABEL && forall m :: i < m < e ==> code[m].op == Op.JMP
  }

  ghost function Elems(s: seq<nat>): set<int> {
    set o | o in s
  }

  // The instructions seen so far are those on the two worklists; all of them can be reached.
  ghost predicate Worklists(code: seq<Ins>, x: Place, start: nat, open: seq<nat>, closed: seq<nat>, seen: set<int>) {
    && seen == Elems(open) + Elems(closed)
    && (forall o :: o in seen ==> Reached(code, x, start, o) && o <= |code|)
  }

  /** Open a path unless it is already known. */
  method Push(code: seq<Ins>, x: int, dest: nat, openPaths: seq<nat>, closedPaths: seq<nat>,
              ghost start: nat, ghost seen: set<int>)
    returns (open: seq<nat>, ghost seen': set<int>)
    requires Worklists(code, Var(x), start, openPaths, closedPaths, seen)
    requires Reached(code, Var(x), start, dest) && dest < |code|
    ensures Worklists(code, Var(x), start, open, closedPaths, seen')
    ensures seen' == seen + {dest}
    ensures open == (if dest in seen then openPaths else openPaths + [dest])
  {
    open := openPaths;
    if dest !in closedPaths && dest !in openPaths {
      open := openPaths + [dest];
    }
    seen' := seen + {dest};
  }

  /** Open the destinations of all JMPs of the table that follows a JMPP. */
  method ScanTable(code: seq<Ins>, x: int, jmpp: nat, openPaths: seq<nat>, closedPaths: seq<nat>,
                   ghost start: nat, ghost seen: set<int>, ghost done: set<int>)
    returns (open: seq<nat>, ghost seen': set<int>, ghost done': set<int>)
    requires TablesClosed(code) && jmpp < |code| && code[jmpp].op == Op.JMPP && Passes(code[jmpp], Var(x))
    requires Worklists(code, Var(x), start, openPaths, closedPaths, seen) && Reached(code, Var(x), start, jmpp)
    requires Explored(code, Var(x), done, seen + {jmpp})
    ensures Worklists(code, Var(x), start, open, closedPaths, seen')
    ensures seen <= seen' && (seen' == seen ==> open == openPaths)
    ensures done + {jmpp} <= done' && Explored(code, Var(x), done', seen')
  {
    hide InfoType;
    open, seen', done' := openPaths, seen, done;
    assert ClosedTable(code, jmpp);
    var curr := jmpp + 1;
    while code[curr].op == Op.JMP
      invariant jmpp < curr < |code|
      invariant forall m :: jmpp < m < curr ==> code[m].op == Op.JMP
      invariant forall m :: jmpp < m < curr ==> m in done'
      invariant Worklists(code, Var(x), start, open, closedPaths, seen')
      invariant seen <= seen' && (seen' == seen ==> open == openPaths)
      invariant done <= done' && Explored(code, Var(x), done', seen' + {jmpp})
      decreases |code| - curr
    {
      ghost var was := seen';
      assert InTable(code, jmpp + 1, curr);
      JumpPasses(code[curr], x);
      ReachedNext(code, Var(x), start, jmpp, curr);
      var dest := Target(code, curr, code[curr].a0);
      if dest != -1 {
        ReachedNext(code, Var(x), start, curr, dest);
        open, seen' := Push(code, x, dest, open, closedPaths, start, seen');
      }
      ExploreOne(code, Var(x), done', was + {jmpp}, curr, seen' + {jmpp});
      done' := done' + {curr};
      curr := curr + 1;
    }
    forall j: nat | Flow(code, jmpp, j)
      ensures j in done'
    {
      assert InTable(code, jmpp + 1, j) && code[curr].op != Op.JMP;
    }
    ExploreOne(code, Var(x), done', seen', jmpp, seen');
    done' := done' + {jmpp};
  }

  // Go over one instruction that does not read the variable. The path ends here (`stop`), or goes on
  // with the next instruction.
  method ScanOne(code: seq<Ins>, x: int, curr: nat, openPaths: seq<nat>, closedPaths: seq<nat>,
                 ghost start: nat, ghost seen: set<int>, ghost done: set<int>)
    returns (stop: bool, open: seq<nat>, ghost seen': set<int>, ghost done': set<int>)
    requires TablesClosed(code) && curr < |code| && !ReadsVar(code[curr], x)
    requires Worklists(code, Var(x), start, openPaths, closedPaths, seen) && Reached(code, Var(x), start, curr)
    requires Explored(code, Var(x), done, seen + {curr})
    ensures Worklists(code, Var(x), start, open, closedPaths, seen')
    ensures seen <= seen' && (seen' == seen ==> open == openPaths) && done + {curr} <= done'
    ensures Explored(code, Var(x), done', if stop then seen' else seen' + {curr + 1})
    ensures !stop && curr + 1 < |code| ==> Reached(code, Var(x), start, curr + 1)
  {
    hide InfoType, Explored, Worklists, Reached, ReadsVar, OverwritesVar, TablesClosed, Target;
    open, seen', done' := openPaths, seen, done + {curr};
    if OverwritesVar(code[curr], x) {
      ExploreOne(code, Var(x), done, seen, curr, seen');
      return true, open, seen', done';
    }
    if code[curr].op == Op.JMPP {
      open, seen', done' := ScanTable(code, x, curr, open, closedPaths, start, seen, done);
      return true, open, seen', done';
    }
    if IsLabelJump(code[curr].op) {
      var dest := Target(code, curr, code[curr].a0);
      if dest != -1 {
        ReachedNext(code, Var(x), start, curr, dest);
        open, seen' := Push(code, x, dest, open, closedPaths, start, seen);
      }
      if code[curr].op == Op.JMP {
        ExploreOne(code, Var(x), done, seen, curr, seen');
        return true, open, seen', done';
      }
    }
    if curr + 1 < |code| {
      ReachedNext(code, Var(x), start, curr, curr + 1);
    }
    ExploreOne(code, Var(x), done, seen, curr, seen' + {curr + 1});
    return false, open, seen', done';
  }

  // Nothing leads behind the last instruction.
  lemma EndNotPending(code: seq<Ins>, x: Place, done: set<int>, pending: set<int>)
    requires Explored(code, x, done, pending + {|code|})
    ensures Explored(code, x, done, pending)
  {
    hide Reads, Overwrites, Target;
  }

  lemma OneOfSeen(code: seq<Ins>, x: Place, start: nat, open: seq<nat>, closed: seq<nat>, seen: set<int>, o: nat)
    requires Worklists(code, x, start, open, closed, seen) && o in seen
    ensures Reached(code, x, start, o) && o <= |code| && seen + {o} == seen
  {
    hide Reached;
  }

  /** Follow one path from `from` until it reads the variable (`found`), or overwrites or discards
      it, or jumps away; the other ways a jump can go are opened as new paths. */
  method Scan(code: seq<Ins>, x: int, from: nat, openPaths: seq<nat>, closedPaths: seq<nat>,
              ghost start: nat, ghost seen: set<int>, ghost done: set<int>)
    returns (found: bool, open: seq<nat>, ghost seen': set<int>, ghost done': set<int>)
    requires TablesClosed(code)
    requires Worklists(code, Var(x), start, openPaths, closedPaths, seen) && from in seen
    requires Explored(code, Var(x), done, seen)
    ensures found ==> LiveAt(code, start, Var(x))
    ensures !found ==> Worklists(code, Var(x), start, open, closedPaths, seen')
    ensures !found ==> seen <= seen' && (seen' == seen ==> open == openPaths)
    ensures !found ==> done <= done' && (from in done' || from == |code|) && Explored(code, Var(x), done', seen')
  {
    hide InfoType, Explored, Worklists, Reached, LiveAt, ReadsVar, TablesClosed;
    open, seen', done' := openPaths, seen, done;
    OneOfSeen(code, Var(x), start, open, closedPaths, seen, from);
    var curr := from;
    while curr < |code|
      invariant curr <= |code|
      invariant Worklists(code, Var(x), start, open, closedPaths, seen')
      invariant seen <= seen' && (seen' == seen ==> open == openPaths)
      invariant curr < |code| ==> Reached(code, Var(x), start, curr)
      invariant done <= done' && (curr == from || from in done')
      invariant Explored(code, Var(x), done', seen' + {curr})
      decreases |code| - curr
    {
      if ReadsVar(code[curr], x) {
        ReachedLive(code, Var(x), start, curr);
        return true, open, seen', done';
      }
      var stop;
      stop, open, seen', done' := ScanOne(code, x, curr, open, closedPaths, start, seen', done');
      if stop {
        return false, open, seen', done';
      }
      curr := curr + 1;
    }
    EndNotPending(code, Var(x), done', seen');
    found := false;
  }

  /** Is the value that the instruction at `curr` gives to variable `x` ever read? */
  method IsTempVarRead(code: seq<Ins>, curr: nat, x: int) returns (r: bool)
    requires curr < |code| && TablesClosed(code)
    ensures r <==> LiveAt(code, curr + 1, Var(x))
  {
    // The instruction at curr is the one that sets the variable, so start after it
    ghost var start, all := curr + 1, set i {:trigger Reached(code, Var(x), curr + 1, i)} | 0 <= i <= |code|;
    var openPaths: seq<nat> := [curr + 1];
    var closedPaths: seq<nat> := [];
    ghost var seen: set<int>, done: set<int> := {start}, {};
    while |openPaths| > 0
      invariant Worklists(code, Var(x), start, openPaths, closedPaths, seen) && start in seen
      invariant forall c :: c in closedPaths ==> c in done || c == |code|
      invariant Explored(code, Var(x), done, seen)
      decreases all - seen, |openPaths|
    {
      var from := openPaths[|openPaths| - 1];
      ghost var was := seen;
      assert Elems(openPaths) == Elems(openPaths[..|openPaths| - 1]) + {from};
      closedPaths, openPaths := closedPaths + [from], openPaths[..|openPaths| - 1];
      r, openPaths, seen, done := Scan(code, x, from, openPaths, closedPaths, start, seen, done);
      if r {
        return;
      }
    }
    r := false;
    assert Explored(code, Var(x), done, {});
    if LiveAt(code, start, Var(x)) {
      var p :| ReadingPath(code, Var(x), p) && p[0] == start;
      ExploredNotLive(code, Var(x), done, p);
    }
  }
}
