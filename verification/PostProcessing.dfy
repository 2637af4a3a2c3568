/** The worklist of `PostProcess`: it follows every code path once, records the stack depth at each
    instruction, and then deletes what it did not visit. */
module PostProcessing {
  import Op
  import opened Instructions
  import opened CodeLists
  import Liveness
  import opened StackDepth

  // Every marked instruction is reachable and carries its depth.
  ghost predicate Measured(code: seq<Ins>, marked: seq<bool>, stackSize: seq<int>, depth: seq<int>) {
    && |marked| == |code| && |stackSize| == |code| && |depth| == |code|
    && forall i :: 0 <= i < |code| && marked[i] ==> Reachable(code, i) && stackSize[i] == depth[i]
  }

  /** What can follow a marked instruction is marked too, unless it is pending; `largest` is the
      greatest depth behind the instructions that are not. */
  ghost predicate Closed(code: seq<Ins>, marked: seq<bool>, depth: seq<int>, pending: set<int>, largest: int) {
    && |marked| == |code| && |depth| == |code| && largest >= 0
    && (forall q :: q in pending ==> 0 <= q < |code| && marked[q])
    && (forall i: nat, j: nat :: i < |code| && marked[i] && i !in pending && PathTo(code, i, j) ==> marked[j])
    && (forall i :: 0 <= i < |code| && marked[i] && i !in pending ==> depth[i] + code[i].stackInc <= largest)
    && (largest == 0 || exists i :: 0 <= i < |code| && marked[i] && depth[i] + code[i].stackInc == largest)
  }

  ghost function Unmarked(marked: seq<bool>): set<int> {
    set i | 0 <= i < |marked| && !marked[i]
  }

  lemma MarkPending(code: seq<Ins>, marked: seq<bool>, depth: seq<int>, pending: set<int>, largest: int, i: nat)
    requires Closed(code, marked, depth, pending, largest) && i < |code|
    ensures Closed(code, marked[i := true], depth, pending + {i}, largest)
  {
    hide Target;
    if largest != 0 {
      var w :| 0 <= w < |code| && marked[w] && depth[w] + code[w].stackInc == largest;
      assert marked[i := true][w] && depth[w] + code[w].stackInc == largest;
    }
  }

  // The instruction at `i` is finished: all that can follow it is marked.
  lemma Finish(code: seq<Ins>, marked: seq<bool>, depth: seq<int>, pending: set<int>, largest: int, i: nat)
    requires Closed(code, marked, depth, pending + {i}, largest) && i < |code| && marked[i]
    requires forall j: nat :: PathTo(code, i, j) ==> marked[j]
    requires depth[i] + code[i].stackInc <= largest
    ensures Closed(code, marked, depth, pending, largest)
  {
    hide PathTo;
  }

  // How a step may extend the list of paths: by instructions that it marks.
  ghost predicate Extends(paths: seq<nat>, paths': seq<nat>, pending: set<int>, pending': set<int>,
                          was: seq<bool>, marked: seq<bool>)
  {
    && paths <= paths' && pending' == pending + Liveness.Elems(paths'[|paths|..])
    && |marked| == |was| && (forall i :: 0 <= i < |was| && was[i] ==> marked[i])
    && (forall q :: |paths| <= q < |paths'| ==> paths'[q] < |was| && marked[paths'[q]] && !was[paths'[q]])
  }

  // Two extensions one after the other.
  lemma ExtendsTwice(p0: seq<nat>, p1: seq<nat>, p2: seq<nat>, s0: set<int>, s1: set<int>, s2: set<int>,
                     m0: seq<bool>, m1: seq<bool>, m2: seq<bool>)
    requires Extends(p0, p1, s0, s1, m0, m1) && Extends(p1, p2, s1, s2, m1, m2)
    ensures Extends(p0, p2, s0, s2, m0, m2)
  {
    assert p2[|p0|..] == p1[|p0|..] + p2[|p1|..];
  }

  lemma ExtendsMarks(paths: seq<nat>, paths': seq<nat>, pending: set<int>, pending': set<int>,
                     was: seq<bool>, marked: seq<bool>)
    requires Extends(paths, paths', pending, pending', was, marked)
    ensures Unmarked(marked) <= Unmarked(was)
    ensures paths' == paths || Unmarked(marked) < Unmarked(was)
  {
    if paths' != paths {
      assert paths'[|paths|] in Unmarked(was);
    }
  }

  lemma FirstOfRest(paths: seq<nat>, p: nat)
    requires p < |paths|
    ensures Liveness.Elems(paths[p..]) == Liveness.Elems(paths[p + 1..]) + {paths[p]}
  {
    assert paths[p..] == [paths[p]] + paths[p + 1..];
  }

  // The instructions on the rest of the list of paths, when it has been extended.
  lemma RestExtends(paths: seq<nat>, paths': seq<nat>, p: nat, pending: set<int>, pending': set<int>,
                    was: seq<bool>, marked: seq<bool>)
    requires Extends(paths, paths', pending, pending', was, marked) && p <= |paths|
    requires pending == Liveness.Elems(paths[p..])
    ensures p <= |paths'| && pending' == Liveness.Elems(paths'[p..])
    ensures forall q :: p <= q < |paths| ==> paths'[q] == paths[q]
  {
    assert paths'[p..] == paths[p..] + paths'[|paths|..];
  }

  class CodeVerifier {
    var code: seq<Ins>
    var marked: seq<bool>
    var stackSize: seq<int>
    var largestStackUsed: int

    constructor (code: seq<Ins>)
      ensures this.code == code && largestStackUsed == -1
    {
      this.code := code;
      marked, stackSize, largestStackUsed := seq(|code|, _ => false), seq(|code|, _ => 0), -1;
    }

    ghost predicate Valid(depth: seq<int>, pending: set<int>)
      reads this
    {
      Measured(code, marked, stackSize, depth) && Closed(code, marked, depth, pending, largestStackUsed)
    }

    /** Open a path at an instruction that is reached with the given depth. */
    method AddPath(paths: seq<nat>, instr: nat, size: int, ghost depth: seq<int>, ghost pending: set<int>)
      returns (paths': seq<nat>, ghost pending': set<int>)
      requires Valid(depth, pending) && instr < |code| && Reachable(code, instr) && size == depth[instr]
      modifies this`marked, this`stackSize
      ensures Valid(depth, pending') && marked[instr]
      ensures Extends(paths, paths', pending, pending', old(marked), marked)
    {
      hide Closed, Reachable;
      paths', pending' := paths, pending;
      if marked[instr] {
        assert stackSize[instr] == size;
      } else {
        MarkPending(code, marked, depth, pending, largestStackUsed, instr);
        marked, stackSize := marked[instr := true], stackSize[instr := size];
        paths', pending' := paths + [instr], pending + {instr};
        assert paths'[|paths|..] == [instr];
      }
    }

    // Open the paths that a jump, a fork or a table leads to, and finish it.
    method Branch(instr: nat, paths: seq<nat>, ghost depth: seq<int>, ghost pending: set<int>)
      returns (paths': seq<nat>, ghost pending': set<int>)
      requires instr < |code| && Valid(depth, pending + {instr}) && marked[instr]
      requires JumpsResolve(code) && Consistent(code, depth)
      requires IsLabelJump(code[instr].op) || code[instr].op in {Op.TryBlock, Op.JMPP}
      requires depth[instr] + code[instr].stackInc <= largestStackUsed
      modifies this`marked, this`stackSize
      ensures Valid(depth, pending')
      ensures Extends(paths, paths', pending, pending', old(marked), marked)
    {
      hide Closed, Reachable, Target, Consistent;
      var ins := code[instr];
      var size := stackSize[instr] + ins.stackInc;
      ghost var rest;
      if ins.op == Op.JMPP {
        paths', rest := OpenTable(instr, paths, size, depth, pending + {instr});
      } else {
        var dest := Target(code, instr, ins.a0);
        EdgeDepth(code, depth, instr, dest);
        paths', rest := AddPath(paths, dest, size, depth, pending + {instr});
        if ins.op != Op.JMP {
          EdgeDepth(code, depth, instr, instr + 1);
          ghost var mid, mids, midm := paths', rest, marked;
          paths', rest := AddPath(paths', instr + 1, size, depth, rest);
          ExtendsTwice(paths, mid, paths', pending + {instr}, mids, rest, old(marked), midm, marked);
        }
      }
      pending' := pending + Liveness.Elems(paths'[|paths|..]);
      assert rest == pending' + {instr};
      Finish(code, marked, depth, pending', largestStackUsed, instr);
    }

    // Open a path at each entry of the table of a JMPP.
    method OpenTable(instr: nat, paths: seq<nat>, size: int, ghost depth: seq<int>, ghost pending: set<int>)
      returns (paths': seq<nat>, ghost pending': set<int>)
      requires instr < |code| && Valid(depth, pending) && marked[instr]
      requires Consistent(code, depth) && code[instr].op == Op.JMPP && size == depth[instr] + code[instr].stackInc
      modifies this`marked, this`stackSize
      ensures Valid(depth, pending')
      ensures Extends(paths, paths', pending, pending', old(marked), marked)
      ensures forall j: nat :: PathTo(code, instr, j) ==> marked[j]
    {
      hide Closed, Reachable, Target, Consistent;
      paths', pending' := paths, pending;
      var n, dest := 0, instr + 1;
      while n <= code[instr].a0 && dest < |code|
        invariant 0 <= n && dest == instr + 1 + n <= |code|
        invariant Valid(depth, pending')
        invariant Extends(paths, paths', pending, pending', old(marked), marked)
        invariant forall j :: instr < j < dest ==> marked[j]
        decreases |code| - dest
      {
        EdgeDepth(code, depth, instr, dest);
        ghost var mid, mids, midm := paths', pending', marked;
        paths', pending' := AddPath(paths', dest, size, depth, pending');
        ExtendsTwice(paths, mid, paths', pending, mids, pending', old(marked), midm, marked);
        n, dest := n + 1, dest + 1;
      }
    }

    // Follow one path until it branches, ends, or joins one that was followed before.
    method FollowPath(start: nat, paths: seq<nat>, ghost depth: seq<int>, ghost pending: set<int>)
      returns (paths': seq<nat>, ghost pending': set<int>)
      requires start < |code| && Valid(depth, pending + {start}) && marked[start]
      requires JumpsResolve(code) && Consistent(code, depth)
      modifies this`marked, this`stackSize, this`largestStackUsed
      ensures Valid(depth, pending')
      ensures Extends(paths, paths', pending, pending', old(marked), marked)
    {
      hide Closed, Reachable, Target, Consistent, JumpsResolve;
      paths', pending' := paths, pending;
      var instr, size := start, stackSize[start];
      while true
        invariant instr < |code| && Reachable(code, instr) && size == depth[instr]
        invariant Valid(depth, pending + {instr}) && marked[instr]
        invariant |marked| == |old(marked)| && forall i :: 0 <= i < |marked| && old(marked)[i] ==> marked[i]
        invariant paths' == paths && pending' == pending
        decreases |code| - instr
      {
        size := size + code[instr].stackInc;
        RaiseLargest(code, marked, depth, pending + {instr}, largestStackUsed, instr);
        if size > largestStackUsed {
          largestStackUsed := size;
        }
        if IsLabelJump(code[instr].op) || code[instr].op == Op.TryBlock || code[instr].op == Op.JMPP {
          ghost var m := marked;
          paths', pending' := Branch(instr, paths, depth, pending);
          return;
        }
        if instr + 1 == |code| {
          Finish(code, marked, depth, pending, largestStackUsed, instr);
          break;
        }
        EdgeDepth(code, depth, instr, instr + 1);
        if marked[instr + 1] {
          Finish(code, marked, depth, pending, largestStackUsed, instr);
          break;
        }
        MarkPending(code, marked, depth, pending + {instr}, largestStackUsed, instr + 1);
        marked, stackSize := marked[instr + 1 := true], stackSize[instr + 1 := size];
        assert pending + {instr} + {instr + 1} == pending + {instr + 1} + {instr};
        Finish(code, marked, depth, pending + {instr + 1}, largestStackUsed, instr);
        instr := instr + 1;
      }
    }

    /** Verify the code: mark what can be reached, with its stack depth, and the largest stack. */
    method Visit(ghost depth: seq<int>)
      requires |code| > 0 && JumpsResolve(code) && Consistent(code, depth)
      modifies this`marked, this`stackSize, this`largestStackUsed
      ensures Measured(code, marked, stackSize, depth) && Closed(code, marked, depth, {}, largestStackUsed) && marked[0]
    {
      hide Closed, Reachable, Target, Consistent, JumpsResolve;
      largestStackUsed := 0;
      marked, stackSize := seq(|code|, _ => false), seq(|code|, _ => -1);
      FirstDepth(code, depth);
      NothingMarked(code, marked, depth);
      FirstReachable(code);
      ghost var pending: set<int>;
      var paths: seq<nat>;
      paths, pending := AddPath([], 0, 0, depth, {});
      var p := 0;
      while p < |paths|
        invariant p <= |paths| && pending == Liveness.Elems(paths[p..]) && |marked| == |code|
        invariant forall q :: p <= q < |paths| ==> paths[q] < |code| && marked[paths[q]]
        invariant Valid(depth, pending) && marked[0]
        decreases Unmarked(marked), |paths| - p
      {
        ghost var was, before := marked, paths;
        ghost var rest := Liveness.Elems(paths[p + 1..]);
        FirstOfRest(paths, p);
        paths, pending := FollowPath(paths[p], paths, depth, rest);
        RestExtends(before, paths, p + 1, rest, pending, was, marked);
        ExtendsMarks(before, paths, rest, pending, was, marked);
        p := p + 1;
      }
      assert pending == {};
    }

    /** Verify the code and remove what never gets executed. If the code has a consistent stack depth
        at all, no depth assertion fails and the result is exact: each reachable instruction is kept
        and has its depth, of the others only the block markers are kept, and the largest stack is
        the greatest depth behind any reachable instruction. */
    method PostProcess(ghost depth: seq<int>) returns (ghost keep: seq<bool>)
      requires JumpsResolve(code) && Consistent(code, depth)
      modifies this
      ensures KeepsReachable(old(code), keep) && code == Kept(old(code), keep, |old(code)|)
      ensures |old(code)| > 0 ==> |stackSize| == |code| && IsLargest(old(code), depth, largestStackUsed)
      ensures forall i :: 0 <= i < |old(code)| && Reachable(old(code), i) ==>
        Rank(keep, i) < |stackSize| && stackSize[Rank(keep, i)] == depth[i]
    {
      hide Reachable, JumpsResolve, PathTo, Kept;
      keep := [];
      if |code| == 0 {
        assert Kept(code, keep, 0) == [] by {
          KeptEmpty(code, keep);
        }
        return;
      }
      Visit(depth);
      MarkedIsReachable(code, marked, stackSize, depth, largestStackUsed);
      ghost var was, visited, sizes := code, marked, stackSize;
      keep := seq(|was|, i requires 0 <= i < |was| && |visited| == |was| => visited[i] || was[i].op == Op.Block);
      DeleteUnmarked(keep);
      forall i | 0 <= i < |was| && Reachable(was, i)
        ensures Rank(keep, i) < |stackSize| && stackSize[Rank(keep, i)] == depth[i]
      {
        KeptAt(sizes, keep, |was|, i);
      }
    }

    // Delete the instructions that were not visited, except block markers.
    method DeleteUnmarked(ghost keep: seq<bool>)
      requires |keep| == |code| == |marked| == |stackSize|
      requires forall i :: 0 <= i < |code| ==> keep[i] == (marked[i] || code[i].op == Op.Block)
      modifies this`code, this`marked, this`stackSize
      ensures code == Kept(old(code), keep, |keep|) && stackSize == Kept(old(stackSize), keep, |keep|)
    {
      hide Kept, Filtered, Rank;
      var i := 0;
      ghost var n, c, m, z := 0, code, marked, stackSize;
      RankZero(keep);
      NotFiltered(c, keep);
      NotFiltered(m, keep);
      NotFiltered(z, keep);
      while i < |code|
        invariant n <= |c| && i == Rank(keep, n) && |marked| == |stackSize| == |code|
        invariant |code| == Rank(keep, n) + |c| - n
        invariant Filtered(c, keep, n, code) && Filtered(m, keep, n, marked) && Filtered(z, keep, n, stackSize)
        decreases |c| - n
      {
        OneMoreKept(c, keep, n, code);
        OneMoreKept(m, keep, n, marked);
        OneMoreKept(z, keep, n, stackSize);
        if !marked[i] && code[i].op != Op.Block {
          code := code[..i] + code[i + 1..];
          marked := marked[..i] + marked[i + 1..];
          stackSize := stackSize[..i] + stackSize[i + 1..];
        } else {
          i := i + 1;
        }
        n := n + 1;
      }
      AllFiltered(c, keep, n, code);
      AllFiltered(z, keep, n, stackSize);
    }
  }

  lemma RankZero(keep: seq<bool>)
    ensures Rank(keep, 0) == 0
  {
  }

  // A list that has been filtered up to position `n` of the original.
  ghost predicate Filtered<T>(s: seq<T>, keep: seq<bool>, n: nat, cur: seq<T>) {
    n <= |s| && |keep| == |s| && cur == Kept(s, keep, n) + s[n..]
  }

  lemma NotFiltered<T>(s: seq<T>, keep: seq<bool>)
    requires |s| == |keep|
    ensures Filtered(s, keep, 0, s)
  {
    assert s[0..] == s;
  }

  // What becomes of the element at `n`.
  lemma OneMoreKept<T>(s: seq<T>, keep: seq<bool>, n: nat, cur: seq<T>)
    requires Filtered(s, keep, n, cur) && n < |s|
    ensures Rank(keep, n) < |cur| && cur[Rank(keep, n)] == s[n]
    ensures keep[n] ==> Filtered(s, keep, n + 1, cur) && Rank(keep, n + 1) == Rank(keep, n) + 1
    ensures !keep[n] ==> Rank(keep, n + 1) == Rank(keep, n)
    ensures !keep[n] ==> Filtered(s, keep, n + 1, cur[..Rank(keep, n)] + cur[Rank(keep, n) + 1..])
  {
  }

  lemma AllFiltered<T>(s: seq<T>, keep: seq<bool>, n: nat, cur: seq<T>)
    requires Filtered(s, keep, n, cur)
    ensures n <= |s| && |cur| == Rank(keep, n) + |s| - n
    ensures |cur| == Rank(keep, n) ==> cur == Kept(s, keep, |keep|)
  {
  }

  lemma KeptEmpty<T>(code: seq<T>, keep: seq<bool>)
    requires |code| == |keep|
    ensures Kept(code, keep, 0) == []
  {
  }

  ghost predicate IsLargest(code: seq<Ins>, depth: seq<int>, largest: int)
    requires |depth| == |code|
  {
    && largest >= 0
    && (forall i :: 0 <= i < |code| && Reachable(code, i) ==> depth[i] + code[i].stackInc <= largest)
    && (largest == 0 || exists i :: 0 <= i < |code| && Reachable(code, i) && depth[i] + code[i].stackInc == largest)
  }

  // When nothing is pending, the marked instructions are exactly the reachable ones.
  lemma MarkedIsReachable(code: seq<Ins>, marked: seq<bool>, stackSize: seq<int>, depth: seq<int>, largest: int)
    requires |code| > 0 && Measured(code, marked, stackSize, depth) && Closed(code, marked, depth, {}, largest)
    requires marked[0]
    ensures forall i :: 0 <= i < |code| ==> (marked[i] <==> Reachable(code, i))
    ensures IsLargest(code, depth, largest)
  {
    hide PathTo;
    forall i | 0 <= i < |code| && Reachable(code, i)
      ensures marked[i]
    {
      var p :| IsPath(code, p) && p[|p| - 1] == i;
      ReachableMarked(code, marked, p);
    }
  }

  lemma NothingMarked(code: seq<Ins>, marked: seq<bool>, depth: seq<int>)
    requires |marked| == |code| == |depth| && forall i :: 0 <= i < |code| ==> !marked[i]
    ensures Closed(code, marked, depth, {}, 0)
  {
  }

  lemma FirstDepth(code: seq<Ins>, depth: seq<int>)
    requires |code| > 0 && Consistent(code, depth)
    ensures |depth| == |code| && depth[0] == 0
  {
  }

  // The largest stack so far, raised to the depth behind a marked instruction.
  lemma RaiseLargest(code: seq<Ins>, marked: seq<bool>, depth: seq<int>, pending: set<int>, largest: int, i: nat)
    requires Closed(code, marked, depth, pending, largest) && i < |code| && marked[i]
    ensures var size := depth[i] + code[i].stackInc;
      size > largest ==> Closed(code, marked, depth, pending, size)
  {
    hide PathTo;
  }

  // Along an edge the depth changes by the effect of the instruction.
  lemma EdgeDepth(code: seq<Ins>, depth: seq<int>, i: nat, j: nat)
    requires Consistent(code, depth) && i < |code| && Reachable(code, i) && PathTo(code, i, j)
    ensures Reachable(code, j) && depth[j] == depth[i] + code[i].stackInc
  {
    hide PathTo, Reachable;
    NextReachable(code, i, j);
  }
}
