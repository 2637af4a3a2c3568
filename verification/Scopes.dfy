/** `ExtractObjectVariableInfo`: the table of scopes and object variables by program position. */
module Scopes {
  import Op
  import opened Instructions
  import opened CodeLists
  import opened Tables
  import opened Layout

  const OBJ_UNINIT := 0
  const OBJ_INIT := 1
  const BLOCK_BEGIN := 2
  const BLOCK_END := 3
  const OBJ_VARDECL := 4

  datatype VarInfo = VarInfo(pos: int, offset: int, option: int)

  datatype Variable = Variable(stackOffset: int, isObject: bool)

  // ----- what the instructions say -----

  predicate IsScopeMark(op: int) {
    op in {Op.Block, Op.ObjInfo, Op.VarDecl}
  }

  predicate WellMarked(ins: Ins, variables: seq<Variable>) {
    && (ins.op == Op.VarDecl ==> 0 <= ins.w0 < |variables|)
    && (ins.op == Op.ObjInfo ==> ins.a0 in {OBJ_UNINIT, OBJ_INIT})
  }

  ghost predicate AllWellMarked(code: seq<Ins>, variables: seq<Variable>) {
    forall i :: 0 <= i < |code| ==> WellMarked(code[i], variables)
  }

  function Event(ins: Ins, pos: int, variables: seq<Variable>, hasTryCatch: bool): seq<VarInfo>
    requires WellMarked(ins, variables)
  {
    if ins.op == Op.Block then [VarInfo(pos, 0, if ins.w0 != 0 then BLOCK_BEGIN else BLOCK_END)]
    else if ins.op == Op.ObjInfo then [VarInfo(pos, ins.w0, ins.a0)]
    else if ins.op == Op.VarDecl && hasTryCatch && variables[ins.w0].isObject
    then [VarInfo(pos, variables[ins.w0].stackOffset, OBJ_VARDECL)]
    else []
  }

  function PosOf(code: seq<Ins>, n: nat): int
    requires n <= |code|
  {
    if n == 0 then 0 else PosOf(code, n - 1) + (if IsScopeMark(code[n - 1].op) then 0 else code[n - 1].size)
  }

  /** Everything the first `n` instructions say, in order. */
  ghost function Events(code: seq<Ins>, n: nat, variables: seq<Variable>, hasTryCatch: bool): seq<VarInfo>
    requires n <= |code| && AllWellMarked(code, variables)
  {
    if n == 0 then []
    else Events(code, n - 1, variables, hasTryCatch) + Event(code[n - 1], PosOf(code, n - 1), variables, hasTryCatch)
  }

  // Where the debugger shows each variable as declared: at its last VarDecl.
  ghost function DeclaredAt(code: seq<Ins>, n: nat, was: map<int, int>): map<int, int>
    requires n <= |code|
  {
    if n == 0 then was
    else
      var m := DeclaredAt(code, n - 1, was);
      if code[n - 1].op == Op.VarDecl then m[code[n - 1].w0 := PosOf(code, n - 1)] else m
  }

  // ----- dropping empty blocks -----

  predicate Empties(b: VarInfo, e: VarInfo) {
    b.option == BLOCK_BEGIN && e.option == BLOCK_END && b.pos == e.pos
  }

  function Add(table: seq<VarInfo>, e: VarInfo): seq<VarInfo> {
    if table != [] && Empties(table[|table| - 1], e) then table[..|table| - 1] else table + [e]
  }

  function Fold(events: seq<VarInfo>): seq<VarInfo> {
    if events == [] then [] else Add(Fold(events[..|events| - 1]), events[|events| - 1])
  }

  ghost predicate IsEmptyBlock(s: seq<VarInfo>, i: nat) {
    i + 1 < |s| && Empties(s[i], s[i + 1])
  }

  function Without(s: seq<VarInfo>, i: nat): seq<VarInfo>
    requires i + 1 < |s|
  {
    s[..i] + s[i + 2..]
  }

  /** `t` is `s` after `k` empty blocks were removed, one after the other. */
  ghost predicate Reduces(s: seq<VarInfo>, t: seq<VarInfo>, k: nat) {
    if k == 0 then s == t else exists i :: IsEmptyBlock(s, i) && Reduces(Without(s, i), t, k - 1)
  }

  ghost predicate NoEmptyBlock(s: seq<VarInfo>) {
    forall i :: !IsEmptyBlock(s, i)
  }

  lemma WithoutMore(s: seq<VarInfo>, i: nat, x: VarInfo)
    requires IsEmptyBlock(s, i)
    ensures IsEmptyBlock(s + [x], i) && Without(s + [x], i) == Without(s, i) + [x]
  {
  }

  lemma {:induction false} ReducesMore(s: seq<VarInfo>, t: seq<VarInfo>, k: nat, x: VarInfo)
    requires Reduces(s, t, k)
    ensures Reduces(s + [x], t + [x], k)
    decreases k
  {
    hide Empties, Without;
    if k > 0 {
      var i: nat :| IsEmptyBlock(s, i) && Reduces(Without(s, i), t, k - 1);
      ReducesMore(Without(s, i), t, k - 1, x);
      WithoutMore(s, i, x);
    }
  }

  lemma {:induction false} ReducesOnce(s: seq<VarInfo>, t: seq<VarInfo>, k: nat, i: nat)
    requires Reduces(s, t, k) && IsEmptyBlock(t, i)
    ensures Reduces(s, Without(t, i), k + 1)
    decreases k
  {
    hide Empties, Without;
    if k > 0 {
      var j: nat :| IsEmptyBlock(s, j) && Reduces(Without(s, j), t, k - 1);
      ReducesOnce(Without(s, j), t, k - 1, i);
    } else {
      assert Reduces(Without(s, i), Without(t, i), 0);
    }
  }

  // An entry is added at the end, and may make an empty block there that goes at once.
  lemma AddedOrGone(t: seq<VarInfo>, x: VarInfo)
    ensures || Add(t, x) == t + [x]
            || (t != [] && IsEmptyBlock(t + [x], |t| - 1) && Without(t + [x], |t| - 1) == Add(t, x))
  {
  }

  lemma FoldMore(s: seq<VarInfo>, x: VarInfo)
    ensures Fold(s + [x]) == Add(Fold(s), x)
  {
    hide Add;
    assert (s + [x])[..|s|] == s;
  }

  lemma FoldNothing()
    ensures Fold([]) == [] && Reduces([], [], 0)
  {
  }

  /** The table differs from what the instructions say by removals of empty blocks only. */
  lemma {:induction false} FoldReduces(s: seq<VarInfo>) returns (k: nat)
    ensures Reduces(s, Fold(s), k)
    decreases |s|
  {
    hide Fold, Add, Reduces, IsEmptyBlock, Without;
    if s == [] {
      k := 0;
      FoldNothing();
    } else {
      var p, x := s[..|s| - 1], s[|s| - 1];
      k := FoldReduces(p);
      assert s == p + [x];
      FoldMore(p, x);
      ReducesMore(p, Fold(p), k, x);
      AddedOrGone(Fold(p), x);
      if Fold(s) != Fold(p) + [x] {
        ReducesOnce(s, Fold(p) + [x], k, |Fold(p)| - 1);
        k := k + 1;
      }
    }
  }

  /** And none is left. */
  lemma {:induction false} FoldNormal(s: seq<VarInfo>)
    ensures NoEmptyBlock(Fold(s))
  {
    if s != [] {
      var p := s[..|s| - 1];
      FoldNormal(p);
      forall i: nat
        ensures !IsEmptyBlock(Fold(s), i)
      {
        assert !IsEmptyBlock(Fold(p), i);
      }
    }
  }

  lemma BeginAndEnd(t: seq<VarInfo>, b: VarInfo, e: VarInfo)
    requires Empties(b, e)
    ensures Add(Add(t, b), e) == t
  {
    assert Add(t, b) == t + [b];
  }

  lemma {:induction false} FoldSplit(s: seq<VarInfo>, i: nat)
    requires IsEmptyBlock(s, i)
    ensures Fold(Without(s, i)) == Fold(s)
    decreases |s|
  {
    hide Fold, Add, Empties;
    var p, x := s[..|s| - 1], s[|s| - 1];
    assert s == p + [x];
    FoldMore(p, x);
    if i + 2 == |s| {
      assert p == s[..i] + [s[i]] && Without(s, i) == s[..i];
      FoldMore(s[..i], s[i]);
      BeginAndEnd(Fold(s[..i]), s[i], x);
    } else {
      assert p[i] == s[i] && p[i + 1] == s[i + 1];
      FoldSplit(p, i);
      assert Without(s, i) == Without(p, i) + [x];
      FoldMore(Without(p, i), x);
    }
  }

  lemma {:induction false} FoldOfNormal(s: seq<VarInfo>)
    requires NoEmptyBlock(s)
    ensures Fold(s) == s
  {
    if s != [] {
      var p := s[..|s| - 1];
      forall i: nat
        ensures !IsEmptyBlock(p, i)
      {
        assert !IsEmptyBlock(s, i);
      }
      FoldOfNormal(p);
      if |s| > 1 {
        assert !IsEmptyBlock(s, |s| - 2);
      }
    }
  }

  /** In whatever order empty blocks are removed, what remains when there are none is the table. */
  lemma {:induction false} FoldUnique(s: seq<VarInfo>, t: seq<VarInfo>, k: nat)
    requires Reduces(s, t, k) && NoEmptyBlock(t)
    ensures t == Fold(s)
  {
    if k == 0 {
      FoldOfNormal(t);
    } else {
      var i :| IsEmptyBlock(s, i) && Reduces(Without(s, i), t, k - 1);
      FoldUnique(Without(s, i), t, k - 1);
      FoldSplit(s, i);
    }
  }

  // ----- what is in scope at a position -----

  // The entries up to a position.
  function UpTo(s: seq<VarInfo>, pos: int): (r: seq<VarInfo>) {
    if s == [] then []
    else UpTo(s[..|s| - 1], pos) + (if s[|s| - 1].pos <= pos then [s[|s| - 1]] else [])
  }

  // Everything before the innermost open block.
  function Outside(s: seq<VarInfo>): seq<VarInfo> {
    if s == [] || s[|s| - 1].option == BLOCK_BEGIN then if s == [] then [] else s[..|s| - 1]
    else Outside(s[..|s| - 1])
  }

  /** The entries outside closed blocks, which are those that say what is alive. */
  function InScope(s: seq<VarInfo>): seq<VarInfo> {
    if s == [] then []
    else if s[|s| - 1].option == BLOCK_END then Outside(InScope(s[..|s| - 1]))
    else InScope(s[..|s| - 1]) + [s[|s| - 1]]
  }

  // What is in scope behind an entry.
  function ScopeAfter(r: seq<VarInfo>, x: VarInfo): seq<VarInfo> {
    if x.option == BLOCK_END then Outside(r) else r + [x]
  }

  lemma InScopeMore(s: seq<VarInfo>, x: VarInfo)
    ensures InScope(s + [x]) == ScopeAfter(InScope(s), x)
  {
    assert (s + [x])[..|s|] == s;
  }

  lemma ScopeOfEmpty(r: seq<VarInfo>, b: VarInfo, e: VarInfo)
    requires Empties(b, e)
    ensures ScopeAfter(ScopeAfter(r, b), e) == r
  {
  }

  lemma {:induction false} InScopeSplit(s: seq<VarInfo>, i: nat)
    requires IsEmptyBlock(s, i)
    ensures InScope(Without(s, i)) == InScope(s)
    decreases |s|
  {
    hide InScope, ScopeAfter, Empties;
    var p, x := s[..|s| - 1], s[|s| - 1];
    assert s == p + [x];
    InScopeMore(p, x);
    if i + 2 == |s| {
      assert p == s[..i] + [s[i]] && Without(s, i) == s[..i];
      InScopeMore(s[..i], s[i]);
      ScopeOfEmpty(InScope(s[..i]), s[i], x);
    } else {
      assert p[i] == s[i] && p[i + 1] == s[i + 1];
      InScopeSplit(p, i);
      assert Without(s, i) == Without(p, i) + [x];
      InScopeMore(Without(p, i), x);
    }
  }

  lemma {:induction false} UpToAppends(a: seq<VarInfo>, b: seq<VarInfo>, pos: int)
    ensures UpTo(a + b, pos) == UpTo(a, pos) + UpTo(b, pos)
    decreases |b|
  {
    if b == [] {
      assert a + b == a;
    } else {
      assert (a + b)[..|a + b| - 1] == a + b[..|b| - 1];
      UpToAppends(a, b[..|b| - 1], pos);
    }
  }

  lemma UpToSplit(s: seq<VarInfo>, i: nat, pos: int)
    requires IsEmptyBlock(s, i)
    ensures InScope(UpTo(Without(s, i), pos)) == InScope(UpTo(s, pos))
  {
    hide InScope, UpTo;
    var a, b, c := s[..i], [s[i], s[i + 1]], s[i + 2..];
    assert s == (a + b) + c && Without(s, i) == a + c;
    UpToAppends(a + b, c, pos);
    UpToAppends(a, b, pos);
    UpToAppends(a, c, pos);
    UpToPair(s[i], s[i + 1], pos);
    if s[i].pos <= pos {
      PairSplit(UpTo(a, pos), s[i], s[i + 1], UpTo(c, pos));
    } else {
      assert UpTo(a, pos) + [] == UpTo(a, pos);
    }
  }

  lemma PairSplit(a: seq<VarInfo>, x: VarInfo, y: VarInfo, c: seq<VarInfo>)
    requires Empties(x, y)
    ensures InScope((a + [x, y]) + c) == InScope(a + c)
  {
    hide InScope;
    var u := (a + [x, y]) + c;
    assert IsEmptyBlock(u, |a|) && Without(u, |a|) == a + c;
    InScopeSplit(u, |a|);
  }

  lemma UpToPair(x: VarInfo, y: VarInfo, pos: int)
    requires x.pos == y.pos
    ensures UpTo([x, y], pos) == if x.pos <= pos then [x, y] else []
  {
    assert [x, y][..1] == [x] && [x][..0] == [];
    assert UpTo([x], pos) == if x.pos <= pos then [x] else [];
  }

  lemma {:induction false} ReducesInScope(s: seq<VarInfo>, t: seq<VarInfo>, k: nat, pos: int)
    requires Reduces(s, t, k)
    ensures InScope(UpTo(t, pos)) == InScope(UpTo(s, pos))
  {
    if k > 0 {
      var i :| IsEmptyBlock(s, i) && Reduces(Without(s, i), t, k - 1);
      ReducesInScope(Without(s, i), t, k - 1, pos);
      UpToSplit(s, i, pos);
    }
  }

  /** At every position the table has the same blocks open and the same variables alive as the
      instructions say. */
  lemma TableInScope(s: seq<VarInfo>, pos: int)
    ensures InScope(UpTo(Fold(s), pos)) == InScope(UpTo(s, pos))
  {
    var k := FoldReduces(s);
    ReducesInScope(s, Fold(s), k, pos);
  }

  // ----- nesting -----

  function Mark(e: VarInfo): int {
    if e.option == BLOCK_BEGIN then 1 else if e.option == BLOCK_END then -1 else 0
  }

  function Level(s: seq<VarInfo>): int {
    if s == [] then 0 else Level(s[..|s| - 1]) + Mark(s[|s| - 1])
  }

  /** No block is closed that was not opened. */
  ghost predicate Nested(s: seq<VarInfo>) {
    forall n :: 0 <= n <= |s| ==> Level(s[..n]) >= 0
  }

  lemma {:induction false} FoldLevel(s: seq<VarInfo>)
    ensures Level(Fold(s)) == Level(s)
  {
    if s != [] {
      FoldLevel(s[..|s| - 1]);
      var p, x := Fold(s[..|s| - 1]), s[|s| - 1];
      assert (p + [x])[..|p|] == p;
    }
  }

  lemma {:induction false} FoldNested(s: seq<VarInfo>)
    requires Nested(s)
    ensures Nested(Fold(s))
  {
    if s != [] {
      var p, x := s[..|s| - 1], s[|s| - 1];
      forall n | 0 <= n <= |p|
        ensures Level(p[..n]) >= 0
      {
        assert p[..n] == s[..n];
      }
      FoldNested(p);
      FoldLevel(s);
      assert s[..|s|] == s;
      AddNested(Fold(p), x);
    }
  }

  lemma AddNested(t: seq<VarInfo>, x: VarInfo)
    requires Nested(t) && Level(Add(t, x)) >= 0
    ensures Nested(Add(t, x))
  {
    hide Level, Empties;
    var g := Add(t, x);
    forall n | 0 <= n <= |g|
      ensures Level(g[..n]) >= 0
    {
      if n < |g| {
        assert g[..n] == t[..n];
      } else {
        assert g[..n] == g;
      }
    }
  }

  // ----- where the entries come from -----

  // A declaration that the handling of exceptions needs to know.
  predicate DeclaresObject(ins: Ins, variables: seq<Variable>, hasTryCatch: bool)
    requires WellMarked(ins, variables)
  {
    ins.op == Op.VarDecl && hasTryCatch && variables[ins.w0].isObject
  }

  /** The entry says what the instruction at `i` is about. */
  ghost predicate Describes(e: VarInfo, code: seq<Ins>, i: nat, variables: seq<Variable>, hasTryCatch: bool)
    requires i < |code| && WellMarked(code[i], variables)
  {
    var ins := code[i];
    && e.pos == PosOf(code, i)
    && (|| (ins.op == Op.ObjInfo && e.offset == ins.w0 && e.option == ins.a0)
        || (DeclaresObject(ins, variables, hasTryCatch)
            && e.offset == variables[ins.w0].stackOffset && e.option == OBJ_VARDECL)
        || (ins.op == Op.Block && e.offset == 0 && e.option == if ins.w0 == 0 then BLOCK_END else BLOCK_BEGIN))
  }

  /** Each entry comes from an instruction of its own, in order; and each that tells of a variable has
      its entry. */
  ghost predicate Sourced(table: seq<VarInfo>, code: seq<Ins>, n: nat, variables: seq<Variable>, hasTryCatch: bool,
                          from: seq<nat>)
    requires n <= |code| && AllWellMarked(code, variables)
  {
    && |from| == |table|
    && (forall j :: 0 <= j < |from| ==> from[j] < n && Describes(table[j], code, from[j], variables, hasTryCatch))
    && (forall j, k :: 0 <= j < k < |from| ==> from[j] < from[k])
    && (forall i :: 0 <= i < n && (code[i].op == Op.ObjInfo || DeclaresObject(code[i], variables, hasTryCatch)) ==>
      i in from)
  }

  lemma EventDescribes(code: seq<Ins>, i: nat, variables: seq<Variable>, hasTryCatch: bool)
    requires i < |code| && WellMarked(code[i], variables)
    ensures var e := Event(code[i], PosOf(code, i), variables, hasTryCatch);
      if e == [] then code[i].op !in {Op.ObjInfo, Op.Block} && !DeclaresObject(code[i], variables, hasTryCatch)
      else |e| == 1 && Describes(e[0], code, i, variables, hasTryCatch)
  {
    hide PosOf;
  }

  lemma SourceSkips(table: seq<VarInfo>, code: seq<Ins>, n: nat, variables: seq<Variable>, hasTryCatch: bool,
                    from: seq<nat>)
    requires n < |code| && AllWellMarked(code, variables) && Sourced(table, code, n, variables, hasTryCatch, from)
    requires code[n].op != Op.ObjInfo && !DeclaresObject(code[n], variables, hasTryCatch)
    ensures Sourced(table, code, n + 1, variables, hasTryCatch, from)
  {
    hide Describes, DeclaresObject;
  }

  lemma SourceAdds(table: seq<VarInfo>, x: VarInfo, code: seq<Ins>, n: nat, variables: seq<Variable>,
                   hasTryCatch: bool, from: seq<nat>)
    requires n < |code| && AllWellMarked(code, variables) && Sourced(table, code, n, variables, hasTryCatch, from)
    requires Describes(x, code, n, variables, hasTryCatch)
    ensures Sourced(table + [x], code, n + 1, variables, hasTryCatch, from + [n])
  {
    hide Describes, DeclaresObject;
    var r := from + [n];
    assert forall j :: 0 <= j < |from| ==> r[j] == from[j];
    assert r[|from|] == n;
  }

  // An empty block disappears: neither of its marks tells of a variable.
  lemma SourceDrops(table: seq<VarInfo>, x: VarInfo, code: seq<Ins>, n: nat, variables: seq<Variable>,
                    hasTryCatch: bool, from: seq<nat>)
    requires n < |code| && AllWellMarked(code, variables) && Sourced(table, code, n, variables, hasTryCatch, from)
    requires Describes(x, code, n, variables, hasTryCatch) && table != [] && Empties(table[|table| - 1], x)
    ensures Sourced(table[..|table| - 1], code, n + 1, variables, hasTryCatch, from[..|from| - 1])
  {
    hide PosOf;
    var last := |from| - 1;
    assert code[from[last]].op == Op.Block && code[n].op == Op.Block;
    hide Describes;
    forall i | 0 <= i <= n && (code[i].op == Op.ObjInfo || DeclaresObject(code[i], variables, hasTryCatch))
      ensures i in from[..last]
    {
      var j :| 0 <= j < |from| && from[j] == i;
      assert from[..last][j] == i;
    }
  }

  lemma TableNext(code: seq<Ins>, n: nat, variables: seq<Variable>, hasTryCatch: bool)
    requires n < |code| && AllWellMarked(code, variables)
    ensures WellMarked(code[n], variables)
    ensures var t := Fold(Events(code, n, variables, hasTryCatch));
      var e := Event(code[n], PosOf(code, n), variables, hasTryCatch);
      Fold(Events(code, n + 1, variables, hasTryCatch)) == if e == [] then t else Add(t, e[0])
  {
    ExtractionStep(code, n, variables, hasTryCatch, map[]);
  }

  lemma SourcedNone(code: seq<Ins>, variables: seq<Variable>, hasTryCatch: bool)
    requires AllWellMarked(code, variables)
    ensures Sourced(Fold(Events(code, 0, variables, hasTryCatch)), code, 0, variables, hasTryCatch, [])
  {
  }

  lemma SourceNext(table: seq<VarInfo>, code: seq<Ins>, n: nat, variables: seq<Variable>, hasTryCatch: bool,
                   from: seq<nat>) returns (more: seq<nat>)
    requires n < |code| && AllWellMarked(code, variables) && Sourced(table, code, n, variables, hasTryCatch, from)
    ensures WellMarked(code[n], variables)
    ensures var e := Event(code[n], PosOf(code, n), variables, hasTryCatch);
      Sourced(if e == [] then table else Add(table, e[0]), code, n + 1, variables, hasTryCatch, more)
  {
    assert |from| == |table| && WellMarked(code[n], variables);
    hide PosOf, Event, Describes, Empties, AllWellMarked, WellMarked, Sourced;
    EventDescribes(code, n, variables, hasTryCatch);
    var e := Event(code[n], PosOf(code, n), variables, hasTryCatch);
    if e == [] {
      more := from;
      SourceSkips(table, code, n, variables, hasTryCatch, from);
    } else if table != [] && Empties(table[|table| - 1], e[0]) {
      more := from[..|from| - 1];
      SourceDrops(table, e[0], code, n, variables, hasTryCatch, from);
    } else {
      more := from + [n];
      SourceAdds(table, e[0], code, n, variables, hasTryCatch, from);
    }
  }

  /** The table lists exactly the object variables that the instructions tell of, and blocks. */
  lemma {:induction false} TableSourced(code: seq<Ins>, n: nat, variables: seq<Variable>, hasTryCatch: bool)
    returns (from: seq<nat>)
    requires n <= |code| && AllWellMarked(code, variables)
    ensures Sourced(Fold(Events(code, n, variables, hasTryCatch)), code, n, variables, hasTryCatch, from)
  {
    hide PosOf, Events, Fold, Event, AllWellMarked, WellMarked, Sourced, Add;
    if n == 0 {
      from := [];
      SourcedNone(code, variables, hasTryCatch);
    } else {
      from := TableSourced(code, n - 1, variables, hasTryCatch);
      TableNext(code, n - 1, variables, hasTryCatch);
      from := SourceNext(Fold(Events(code, n - 1, variables, hasTryCatch)), code, n - 1, variables, hasTryCatch, from);
    }
  }

  lemma EventsNext(code: seq<Ins>, n: nat, variables: seq<Variable>, hasTryCatch: bool)
    requires n < |code| && AllWellMarked(code, variables)
    ensures WellMarked(code[n], variables)
    ensures var es := Events(code, n, variables, hasTryCatch);
      var e := Event(code[n], PosOf(code, n), variables, hasTryCatch);
      Events(code, n + 1, variables, hasTryCatch) == if e == [] then es else es + [e[0]]
  {
    ExtractionStep(code, n, variables, hasTryCatch, map[]);
  }

  ghost predicate BlocksIn(code: seq<Ins>, n: nat, from: seq<nat>)
    requires n <= |code|
  {
    forall i :: 0 <= i < n && code[i].op == Op.Block ==> i in from
  }

  lemma BlockAdded(code: seq<Ins>, n: nat, from: seq<nat>)
    requires n < |code| && BlocksIn(code, n, from)
    ensures BlocksIn(code, n + 1, from + [n])
  {
    assert (from + [n])[|from|] == n;
  }

  /** And before empty blocks are dropped, all blocks. */
  lemma {:induction false} EventsSourced(code: seq<Ins>, n: nat, variables: seq<Variable>, hasTryCatch: bool)
    returns (from: seq<nat>)
    requires n <= |code| && AllWellMarked(code, variables)
    ensures Sourced(Events(code, n, variables, hasTryCatch), code, n, variables, hasTryCatch, from)
    ensures BlocksIn(code, n, from)
  {
    hide PosOf, Events, Event, AllWellMarked, WellMarked, Sourced;
    if n == 0 {
      from := [];
      NoEvents(code, variables, hasTryCatch);
    } else {
      var was := EventsSourced(code, n - 1, variables, hasTryCatch);
      var es := Events(code, n - 1, variables, hasTryCatch);
      EventsNext(code, n - 1, variables, hasTryCatch);
      EventDescribes(code, n - 1, variables, hasTryCatch);
      var e := Event(code[n - 1], PosOf(code, n - 1), variables, hasTryCatch);
      if e == [] {
        from := was;
        SourceSkips(es, code, n - 1, variables, hasTryCatch, from);
      } else {
        from := was + [n - 1];
        SourceAdds(es, e[0], code, n - 1, variables, hasTryCatch, was);
        BlockAdded(code, n - 1, was);
      }
    }
  }

  lemma NoEvents(code: seq<Ins>, variables: seq<Variable>, hasTryCatch: bool)
    requires AllWellMarked(code, variables)
    ensures Sourced(Events(code, 0, variables, hasTryCatch), code, 0, variables, hasTryCatch, [])
  {
  }

  /** Positions are those of the final words. */
  lemma {:induction false} PositionInWords(code: seq<Ins>, n: nat, noLineCues: bool)
    requires n <= |code| && AllSized(code, noLineCues)
    ensures PosOf(code, n) == Pos(code, n)
  {
    if n > 0 {
      hide InfoType;
      PositionInWords(code, n - 1, noLineCues);
      assert Sized(code[n - 1], noLineCues);
    }
  }

  predicate Declares(ins: Ins, v: int) {
    ins.op == Op.VarDecl && ins.w0 == v
  }

  /** A variable is shown from its last declaration on, and as before if it has none. */
  lemma {:induction false} DeclaredLast(code: seq<Ins>, n: nat, was: map<int, int>, v: int, i: nat)
    requires i <= n <= |code| && forall j :: i < j < n ==> !Declares(code[j], v)
    ensures var m := DeclaredAt(code, n, was);
      && (i < n && Declares(code[i], v) ==> v in m && m[v] == PosOf(code, i))
      && (i == n || !Declares(code[i], v) ==> SameFor(DeclaredAt(code, i, was), m, v))
    decreases n
  {
    hide PosOf;
    if i < n - 1 {
      DeclaredLast(code, n - 1, was, v, i);
    }
  }

  ghost predicate SameFor(m: map<int, int>, m': map<int, int>, v: int) {
    (v in m' <==> v in m) && (v in m ==> m'[v] == m[v])
  }

  // ----- the method -----

  class ScopeTable {
    var objVariableInfo: seq<VarInfo>
    var declaredAtProgramPos: map<int, int>

    /** Extract the table; every block that is closed has been opened, and all are closed. */
    method ExtractObjectVariableInfo(code: seq<Ins>, variables: seq<Variable>, hasTryCatch: bool)
      requires objVariableInfo == [] && AllWellMarked(code, variables)
      requires Nested(Events(code, |code|, variables, hasTryCatch))
      requires Level(Events(code, |code|, variables, hasTryCatch)) == 0
      modifies this
      ensures objVariableInfo == Fold(Events(code, |code|, variables, hasTryCatch))
      ensures exists from :: Sourced(objVariableInfo, code, |code|, variables, hasTryCatch, from)
      ensures declaredAtProgramPos == DeclaredAt(code, |code|, old(declaredAtProgramPos))
    {
      hide Fold, Level, Nested, Events, PosOf, DeclaredAt, AllWellMarked, Sourced;
      var pos, i, blockLevel := 0, 0, 0;
      ghost var events := [];
      ExtractionStarts(code, variables, hasTryCatch, declaredAtProgramPos);
      while i < |code|
        invariant i <= |code| && pos == PosOf(code, i)
        invariant events == Events(code, i, variables, hasTryCatch)
        invariant objVariableInfo == Fold(events) && blockLevel == Level(events)
        invariant declaredAtProgramPos == DeclaredAt(code, i, old(declaredAtProgramPos))
      {
        var ins := code[i];
        ExtractionStep(code, i, variables, hasTryCatch, old(declaredAtProgramPos));
        if ins.op == Op.Block {
          var info := VarInfo(pos, 0, if ins.w0 != 0 then BLOCK_BEGIN else BLOCK_END);
          if info.option == BLOCK_BEGIN {
            blockLevel := blockLevel + 1;
            objVariableInfo := objVariableInfo + [info];
          } else {
            blockLevel := blockLevel - 1;
            LevelNotNegative(code, i, variables, hasTryCatch);
            assert blockLevel >= 0;
            OpenNotEmpty(events);
            var last := objVariableInfo[|objVariableInfo| - 1];
            if last.option == BLOCK_BEGIN && last.pos == pos {
              objVariableInfo := objVariableInfo[..|objVariableInfo| - 1];
            } else {
              objVariableInfo := objVariableInfo + [info];
            }
          }
        } else if ins.op == Op.ObjInfo {
          objVariableInfo := objVariableInfo + [VarInfo(pos, ins.w0, ins.a0)];
        } else if ins.op == Op.VarDecl {
          declaredAtProgramPos := declaredAtProgramPos[ins.w0 := pos];
          if hasTryCatch && variables[ins.w0].isObject {
            objVariableInfo := objVariableInfo + [VarInfo(pos, variables[ins.w0].stackOffset, OBJ_VARDECL)];
          }
        } else {
          pos := pos + ins.size;
        }
        events, i := events + Event(ins, PosOf(code, i), variables, hasTryCatch), i + 1;
      }
      assert blockLevel == 0;
      ghost var from := TableSourced(code, |code|, variables, hasTryCatch);
    }
  }

  lemma ExtractionStarts(code: seq<Ins>, variables: seq<Variable>, hasTryCatch: bool, was: map<int, int>)
    requires AllWellMarked(code, variables)
    ensures Events(code, 0, variables, hasTryCatch) == [] && Fold([]) == [] && Level([]) == 0
    ensures PosOf(code, 0) == 0 && DeclaredAt(code, 0, was) == was
  {
  }

  lemma ExtractionStep(code: seq<Ins>, i: nat, variables: seq<Variable>, hasTryCatch: bool, was: map<int, int>)
    requires i < |code| && AllWellMarked(code, variables)
    ensures WellMarked(code[i], variables)
    ensures PosOf(code, i + 1) == PosOf(code, i) + (if IsScopeMark(code[i].op) then 0 else code[i].size)
    ensures DeclaredAt(code, i + 1, was) ==
      var m := DeclaredAt(code, i, was); if code[i].op == Op.VarDecl then m[code[i].w0 := PosOf(code, i)] else m
    ensures var es := Events(code, i, variables, hasTryCatch);
      var e := Event(code[i], PosOf(code, i), variables, hasTryCatch);
      && Events(code, i + 1, variables, hasTryCatch) == es + e
      && Fold(es + e) == (if e == [] then Fold(es) else Add(Fold(es), e[0]))
      && Level(es + e) == Level(es) + (if e == [] then 0 else Mark(e[0]))
  {
    var es, e := Events(code, i, variables, hasTryCatch), Event(code[i], PosOf(code, i), variables, hasTryCatch);
    assert e != [] ==> (es + e)[..|es|] == es;
    assert e == [] ==> es + e == es;
  }

  lemma {:induction false} EventsGrow(code: seq<Ins>, i: nat, n: nat, variables: seq<Variable>, hasTryCatch: bool)
    requires i <= n <= |code| && AllWellMarked(code, variables)
    ensures Events(code, i, variables, hasTryCatch) <= Events(code, n, variables, hasTryCatch)
    decreases n
  {
    if i < n {
      EventsGrow(code, i, n - 1, variables, hasTryCatch);
    }
  }

  lemma LevelNotNegative(code: seq<Ins>, i: nat, variables: seq<Variable>, hasTryCatch: bool)
    requires i < |code| && AllWellMarked(code, variables) && Nested(Events(code, |code|, variables, hasTryCatch))
    ensures Level(Events(code, i + 1, variables, hasTryCatch)) >= 0
  {
    var all, es := Events(code, |code|, variables, hasTryCatch), Events(code, i + 1, variables, hasTryCatch);
    EventsGrow(code, i + 1, |code|, variables, hasTryCatch);
    assert all[..|es|] == es;
  }

  lemma OpenNotEmpty(events: seq<VarInfo>)
    requires Level(events) > 0
    ensures Fold(events) != []
  {
    FoldLevel(events);
  }
}
