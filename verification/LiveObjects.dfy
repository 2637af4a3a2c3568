/** `DetermineLiveObjects`: which objects an exception has to destroy, read off the table of scopes. */
module LiveObjects {
  import opened Instructions
  import opened CodeLists
  import opened Layout
  import opened Scopes

  // ----- counting -----

  function Change(e: VarInfo, x: int): int {
    if e.offset != x then 0 else if e.option == OBJ_INIT then 1 else if e.option == OBJ_UNINIT then -1 else 0
  }

  /** How often an object was created at offset `x` and not destroyed. */
  function Alive(s: seq<VarInfo>, x: int): int {
    if s == [] then 0 else Alive(s[..|s| - 1], x) + Change(s[|s| - 1], x)
  }

  function Count(live: map<int, int>, x: int): int {
    if x in live then live[x] else 0
  }

  lemma AliveMore(s: seq<VarInfo>, e: VarInfo, x: int)
    ensures Alive(s + [e], x) == Alive(s, x) + Change(e, x)
  {
    assert (s + [e])[..|s|] == s;
  }

  // ----- skipping closed blocks -----

  // Out of the `k` innermost open blocks.
  function Leave(r: seq<VarInfo>, k: nat): seq<VarInfo>
    decreases k
  {
    if k == 0 then r else Leave(Outside(r), k - 1)
  }

  lemma OutsideMore(r: seq<VarInfo>, e: VarInfo)
    ensures Outside(r + [e]) == if e.option == BLOCK_BEGIN then r else Outside(r)
  {
    assert (r + [e])[..|r|] == r;
  }

  // One more entry is skipped.
  lemma SkipOne(s: seq<VarInfo>, e: VarInfo, k: nat)
    requires k > 0
    ensures var k' := if e.option == BLOCK_END then k + 1 else if e.option == BLOCK_BEGIN then k - 1 else k;
      Leave(InScope(s + [e]), k) == Leave(InScope(s), k')
  {
    InScopeMore(s, e);
    OutsideMore(InScope(s), e);
  }

  lemma LevelMore(s: seq<VarInfo>, e: VarInfo)
    ensures Level(s + [e]) == Level(s) + Mark(e)
  {
    assert (s + [e])[..|s|] == s;
  }

  lemma OneBack(table: seq<VarInfo>, n: nat)
    requires n < |table|
    ensures table[..n + 1] == table[..n] + [table[n]]
  {
  }

  // ----- the method -----

  ghost predicate Sorted(table: seq<VarInfo>) {
    forall a, b :: 0 <= a < b < |table| ==> table[a].pos <= table[b].pos
  }

  lemma {:induction false} UpToPrefix(table: seq<VarInfo>, n: nat, pos: int)
    requires n <= |table| && (forall a :: 0 <= a < n ==> table[a].pos <= pos)
    requires forall a :: n <= a < |table| ==> table[a].pos > pos
    ensures UpTo(table, pos) == table[..n]
  {
    if |table| > n {
      assert table[..|table| - 1][..n] == table[..n];
      UpToPrefix(table[..|table| - 1], n, pos);
    } else if n > 0 {
      UpToPrefix(table[..n - 1], n - 1, pos);
      assert table == table[..n - 1] + [table[n - 1]];
    }
  }

  // From the end of a block at `n` to its beginning.
  method SkipBlock(table: seq<VarInfo>, n: nat) returns (m: nat)
    requires Nested(table) && n < |table| && table[n].option == BLOCK_END
    ensures m < n && InScope(table[..n + 1]) == InScope(table[..m])
  {
    hide InScope, Leave, Level;
    m := n;
    var nested: nat := 1;
    SkipStarts(table, n);
    while nested > 0
      invariant m <= n && (m == n ==> nested == 1)
      invariant Leave(InScope(table[..m]), nested) == InScope(table[..n + 1])
      invariant Level(table[..m]) - nested == Level(table[..n + 1]) >= 0
      decreases m
    {
      LevelOfNone(table, m);
      m := m - 1;
      OneBack(table, m);
      SkipOne(table[..m], table[m], nested);
      LevelMore(table[..m], table[m]);
      if table[m].option == BLOCK_END {
        nested := nested + 1;
      }
      if table[m].option == BLOCK_BEGIN {
        nested := nested - 1;
      }
    }
    LeaveNone(InScope(table[..m]));
  }

  lemma SkipStarts(table: seq<VarInfo>, n: nat)
    requires Nested(table) && n < |table| && table[n].option == BLOCK_END
    ensures Leave(InScope(table[..n]), 1) == InScope(table[..n + 1])
    ensures Level(table[..n]) - 1 == Level(table[..n + 1]) >= 0
  {
    OneBack(table, n);
    InScopeMore(table[..n], table[n]);
    LevelMore(table[..n], table[n]);
    assert Leave(Outside(InScope(table[..n])), 0) == Outside(InScope(table[..n]));
  }

  lemma LevelOfNone(table: seq<VarInfo>, m: nat)
    requires m <= |table| && Level(table[..m]) > 0
    ensures m > 0
  {
  }

  lemma LeaveNone(r: seq<VarInfo>)
    ensures Leave(r, 0) == r
  {
  }

  /** The number of objects alive at each offset, at a position in front of the last entry: those that
      the entries in scope there say were created and not destroyed. Behind the last entry nothing is. */
  method DetermineLiveObjects(table: seq<VarInfo>, pos: int) returns (live: map<int, int>)
    requires Nested(table) && Sorted(table)
    ensures if exists n :: 0 <= n < |table| && table[n].pos > pos
      then forall x :: Count(live, x) == Alive(InScope(UpTo(table, pos)), x)
      else live == map[]
  {
    hide InScope, Alive, Nested, UpTo;
    live := map[];
    var n: nat := 0;
    while n < |table| && table[n].pos <= pos
      invariant n <= |table| && forall a :: 0 <= a < n ==> table[a].pos <= pos
    {
      n := n + 1;
    }
    if n == |table| {
      return;
    }
    UpToPrefix(table, n, pos);
    ghost var all := table[..n];
    while n > 0
      invariant n <= |table|
      invariant forall x :: Count(live, x) + Alive(InScope(table[..n]), x) == Alive(InScope(all), x)
    {
      n := n - 1;
      OneBack(table, n);
      if table[n].option == BLOCK_END {
        n := SkipBlock(table, n);
      } else {
        var e := table[n];
        InScopeMore(table[..n], e);
        forall x
          ensures Alive(InScope(table[..n + 1]), x) == Alive(InScope(table[..n]), x) + Change(e, x)
        {
          AliveMore(InScope(table[..n]), e, x);
        }
        if e.option == OBJ_UNINIT {
          live := live[e.offset := Count(live, e.offset) - 1];
        } else if e.option == OBJ_INIT {
          live := live[e.offset := Count(live, e.offset) + 1];
        }
      }
    }
    assert table[..0] == [];
    NothingAlive();
  }

  lemma NothingAlive()
    ensures InScope([]) == [] && forall x :: Alive([], x) == 0
  {
  }

  // ----- the table of a function -----

  lemma {:induction false} EventsSorted(code: seq<Ins>, n: nat, variables: seq<Variable>, hasTryCatch: bool,
                                        noLineCues: bool)
    requires n <= |code| && AllWellMarked(code, variables) && AllSized(code, noLineCues)
    ensures var es := Events(code, n, variables, hasTryCatch);
      Sorted(es) && forall a :: 0 <= a < |es| ==> es[a].pos <= PosOf(code, n)
  {
    hide PosOf, AllWellMarked, Event, AllSized;
    if n > 0 {
      EventsSorted(code, n - 1, variables, hasTryCatch, noLineCues);
      EventsNext(code, n - 1, variables, hasTryCatch);
      EventDescribes(code, n - 1, variables, hasTryCatch);
      PositionInWords(code, n - 1, noLineCues);
      PositionInWords(code, n, noLineCues);
      PosOrder(code, noLineCues, n - 1, n);
    }
  }

  lemma {:induction false} FoldSorted(s: seq<VarInfo>)
    requires Sorted(s)
    ensures Sorted(Fold(s)) && forall e :: e in Fold(s) ==> e in s
  {
    if s != [] {
      var p, x := s[..|s| - 1], s[|s| - 1];
      FoldSorted(p);
      forall e | e in Fold(p)
        ensures e in s && e.pos <= x.pos
      {
        var i :| 0 <= i < |p| && p[i] == e;
        assert s[i] == e;
      }
      AddSorted(Fold(p), x);
    }
  }

  lemma AddSorted(t: seq<VarInfo>, x: VarInfo)
    requires Sorted(t) && forall e :: e in t ==> e.pos <= x.pos
    ensures Sorted(Add(t, x)) && forall e :: e in Add(t, x) ==> e in t || e == x
  {
    hide Empties;
  }

  /** The table of a function can be searched, and says of every position what its instructions say. */
  lemma TableUsable(code: seq<Ins>, variables: seq<Variable>, hasTryCatch: bool, noLineCues: bool, pos: int, x: int)
    requires AllWellMarked(code, variables) && AllSized(code, noLineCues)
    requires Nested(Events(code, |code|, variables, hasTryCatch))
    ensures var es := Events(code, |code|, variables, hasTryCatch);
      && Nested(Fold(es)) && Sorted(Fold(es))
      && Alive(InScope(UpTo(Fold(es), pos)), x) == Alive(InScope(UpTo(es, pos)), x)
  {
    hide Fold, Events, InScope, UpTo, Nested;
    var es := Events(code, |code|, variables, hasTryCatch);
    EventsSorted(code, |code|, variables, hasTryCatch, noLineCues);
    FoldSorted(es);
    FoldNested(es);
    TableInScope(es, pos);
  }
}
