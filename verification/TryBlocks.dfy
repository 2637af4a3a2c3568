/** The table of try blocks: `ExtractTryCatchInfo` makes it, and `CleanStackFrame` looks up where an
    exception is caught. */
module TryBlocks {
  import Op
  import opened Tables
  import opened Instructions
  import opened CodeLists
  import opened Layout
  import opened Programs
  import opened Linking

  datatype TryCatchInfo = TryCatchInfo(tryPos: int, catchPos: int)

  // ----- the table -----

  function EntryAt(ins: Ins, pos: int): seq<TryCatchInfo> {
    if ins.op == Op.TryBlock then [TryCatchInfo(pos, ins.a0)] else []
  }

  /** One entry for each TryBlock among the first `n` instructions. */
  function Entries(code: seq<Ins>, n: nat): seq<TryCatchInfo>
    requires n <= |code|
  {
    if n == 0 then [] else Entries(code, n - 1) + EntryAt(code[n - 1], Pos(code, n - 1))
  }

  /** Each TryBlock has its entry, and each entry its TryBlock; they come in the same order. */
  ghost predicate Tabled(code: seq<Ins>, n: nat, info: seq<TryCatchInfo>, from: seq<nat>)
    requires n <= |code|
  {
    && |from| == |info|
    && (forall k :: 0 <= k < |from| ==> from[k] < n && code[from[k]].op == Op.TryBlock)
    && (forall k :: 0 <= k < |from| ==> info[k] == TryCatchInfo(Pos(code, from[k]), code[from[k]].a0))
    && (forall k, l :: 0 <= k < l < |from| ==> from[k] < from[l])
    && (forall i :: 0 <= i < n && code[i].op == Op.TryBlock ==> i in from)
  }

  lemma TabledSkips(code: seq<Ins>, n: nat, info: seq<TryCatchInfo>, from: seq<nat>)
    requires n < |code| && Tabled(code, n, info, from) && code[n].op != Op.TryBlock
    ensures Tabled(code, n + 1, info, from)
  {
    hide Pos;
  }

  lemma TabledAdds(code: seq<Ins>, n: nat, info: seq<TryCatchInfo>, from: seq<nat>)
    requires n < |code| && Tabled(code, n, info, from) && code[n].op == Op.TryBlock
    ensures Tabled(code, n + 1, info + [TryCatchInfo(Pos(code, n), code[n].a0)], from + [n])
  {
    hide Pos;
    assert (from + [n])[|from|] == n;
    assert forall k :: 0 <= k < |from| ==> (from + [n])[k] == from[k];
  }

  lemma TabledNext(code: seq<Ins>, n: nat, info: seq<TryCatchInfo>, from: seq<nat>) returns (more: seq<nat>)
    requires n < |code| && Tabled(code, n, info, from)
    ensures Tabled(code, n + 1, info + EntryAt(code[n], Pos(code, n)), more)
  {
    hide Tabled, Pos;
    if code[n].op == Op.TryBlock {
      more := from + [n];
      TabledAdds(code, n, info, from);
    } else {
      more := from;
      assert info + [] == info;
      TabledSkips(code, n, info, from);
    }
  }

  lemma {:induction false} EntriesTabled(code: seq<Ins>, n: nat) returns (from: seq<nat>)
    requires n <= |code|
    ensures Tabled(code, n, Entries(code, n), from)
  {
    hide Pos, EntryAt;
    if n == 0 {
      from := [];
    } else {
      hide Tabled;
      from := EntriesTabled(code, n - 1);
      from := TabledNext(code, n - 1, Entries(code, n - 1), from);
    }
  }

  // ----- the search -----

  ghost predicate InOrder(info: seq<TryCatchInfo>) {
    forall a, b :: 0 <= a < b < |info| ==> info[a].tryPos <= info[b].tryPos
  }

  predicate Covers(e: TryCatchInfo, pos: int) {
    e.tryPos <= pos < e.catchPos
  }

  /** The last of the first `n` entries that covers the position, or -1. */
  function Innermost(info: seq<TryCatchInfo>, n: nat, pos: int): (k: int)
    requires n <= |info|
    ensures -1 <= k < n && (k >= 0 ==> Covers(info[k], pos))
    ensures forall m :: k < m < n ==> !Covers(info[m], pos)
  {
    if n == 0 then -1 else if Covers(info[n - 1], pos) then n - 1 else Innermost(info, n - 1, pos)
  }

  class TryTable {
    var tryCatchInfo: seq<TryCatchInfo>

    constructor ()
      ensures tryCatchInfo == []
    {
      tryCatchInfo := [];
    }

    method ExtractTryCatchInfo(code: seq<Ins>)
      requires tryCatchInfo == []
      modifies this
      ensures tryCatchInfo == Entries(code, |code|)
    {
      hide Pos;
      var pos, i := 0, 0;
      PosFirst(code);
      while i < |code|
        invariant i <= |code| && pos == Pos(code, i) && tryCatchInfo == Entries(code, i)
      {
        PosNext(code, i);
        if code[i].op == Op.TryBlock {
          tryCatchInfo := tryCatchInfo + [TryCatchInfo(pos, code[i].a0)];
        }
        pos, i := pos + code[i].size, i + 1;
      }
    }

    /** The try block that catches an exception at a position: the innermost one, or -1. */
    method FindCatch(currPos: int) returns (caught: int)
      requires InOrder(tryCatchInfo)
      ensures caught == Innermost(tryCatchInfo, |tryCatchInfo|, currPos)
    {
      caught := -1;
      var n := 0;
      while n < |tryCatchInfo|
        invariant n <= |tryCatchInfo| && caught == Innermost(tryCatchInfo, n, currPos)
      {
        if currPos >= tryCatchInfo[n].tryPos && currPos < tryCatchInfo[n].catchPos {
          caught := n;
        }
        n := n + 1;
        if currPos < tryCatchInfo[n - 1].tryPos {
          break;
        }
      }
    }
  }

  // ----- where an exception is caught -----

  /** The TryBlock at `j` guards the instruction at `i`: it comes before it, and its catch behind it. */
  ghost predicate Guards(code: seq<Ins>, j: nat, i: nat) {
    j < i < |code| && code[j].op == Op.TryBlock && i < Target(code, j, code[j].a0)
  }

  /** The position of its catch is that of its label. */
  lemma CatchPosition(code: seq<Ins>, noLineCues: bool, j: nat)
    requires AllSized(code, noLineCues) && j < |code| && code[j].op == Op.TryBlock
    requires Target(code, j, code[j].a0) != -1
    ensures ResolvedAt(code, j).a0 == Pos(code, Target(code, j, code[j].a0))
  {
    hide Pos, Target;
    assert Sized(code[j], noLineCues);
    ResolvedIs(code, j);
  }

  /** An entry covers a word of an instruction exactly if its TryBlock guards the instruction. */
  lemma CoversIffGuards(code: seq<Ins>, noLineCues: bool, j: nat, i: nat, pos: int)
    requires AllSized(code, noLineCues) && j < |code| && code[j].op == Op.TryBlock && i < |code|
    requires Target(code, j, code[j].a0) != -1
    requires Pos(code, i) <= pos < Pos(code, i) + code[i].size
    ensures Covers(TryCatchInfo(Pos(code, j), Pos(code, Target(code, j, code[j].a0))), pos) <==> Guards(code, j, i)
  {
    hide Pos;
    var t := Target(code, j, code[j].a0);
    assert Sized(code[j], noLineCues);
    PosNext(code, i);
    PosOrder(code, noLineCues, if j <= i then j else i + 1, if j <= i then i else j);
    PosOrder(code, noLineCues, if i < t then i + 1 else t, if i < t then t else i);
  }

  // The passes between the linked list and the words leave the table as it is.
  lemma {:induction false} EntriesLined(code: seq<Ins>, n: nat, noLineCues: bool)
    requires n <= |code| && AllSized(code, noLineCues)
    ensures var l := Lined(code, n, noLineCues); Entries(l, |l|) == Entries(code, n)
  {
    hide AllSized, Pos, EntryAt, LinedOne;
    if n > 0 {
      hide Lined;
      EntriesLined(code, n - 1, noLineCues);
      EntriesLinedNext(code, n - 1, noLineCues);
    }
  }

  lemma EntriesLinedNext(code: seq<Ins>, n: nat, noLineCues: bool)
    requires n < |code| && AllSized(code, noLineCues)
    ensures var l, m := Lined(code, n, noLineCues), Lined(code, n + 1, noLineCues);
      Entries(m, |m|) == Entries(l, |l|) + EntryAt(code[n], Pos(code, n))
  {
    hide Entries, EntryAt, LinedOne, AllSized;
    LinedPosition(code, n, noLineCues);
    EntriesMore(Lined(code, n, noLineCues), code[n], noLineCues);
  }

  lemma EntriesMore(l: seq<Ins>, ins: Ins, noLineCues: bool)
    ensures var m := l + LinedOne(ins, noLineCues);
      Entries(m, |m|) == Entries(l, |l|) + EntryAt(ins, Pos(l, |l|))
  {
    hide InfoType;
    var m := l + LinedOne(ins, noLineCues);
    EntriesPrefix(l, m, |l|);
    PosPrefix(l, m, |l|);
  }

  lemma {:induction false} EntriesPrefix(a: seq<Ins>, b: seq<Ins>, n: nat)
    requires n <= |a| && a <= b
    ensures Entries(a, n) == Entries(b, n)
  {
    if n > 0 {
      EntriesPrefix(a, b, n - 1);
      PosPrefix(a, b, n - 1);
    }
  }

  // What the table holds for the list of labels `code`.
  ghost predicate Describes(code: seq<Ins>, info: seq<TryCatchInfo>, from: seq<nat>) {
    && AllResolve(code) && Tabled(Resolved(code), |code|, info, from)
    && (forall k :: 0 <= k < |from| ==> IsEntry(code, from[k], info[k]))
  }

  ghost predicate IsEntry(code: seq<Ins>, j: nat, e: TryCatchInfo) {
    && j < |code| && code[j].op == Op.TryBlock && Target(code, j, code[j].a0) != -1
    && e == TryCatchInfo(Pos(code, j), Pos(code, Target(code, j, code[j].a0)))
  }

  lemma TableDescribes(code: seq<Ins>, noLineCues: bool) returns (from: seq<nat>)
    requires AllSized(code, noLineCues) && AllResolve(code)
    ensures var final := Lined(Resolved(code), |code|, noLineCues);
      Describes(code, Entries(final, |final|), from)
  {
    hide Pos, InfoType, Sized, Entries, ResolvedAt;
    var r := Resolved(code);
    ResolvedSized(code, noLineCues);
    EntriesLined(r, |r|, noLineCues);
    from := EntriesTabled(r, |r|);
    forall k | 0 <= k < |from|
      ensures IsEntry(code, from[k], Entries(r, |r|)[k])
    {
      var j := from[k];
      SamePositions(code, r, j);
      CatchPosition(code, noLineCues, j);
    }
  }

  lemma TableInOrder(code: seq<Ins>, noLineCues: bool, info: seq<TryCatchInfo>, from: seq<nat>)
    requires AllSized(code, noLineCues) && Describes(code, info, from)
    ensures InOrder(info)
  {
    hide Pos, Target, Resolved, AllResolve, AllSized;
    forall a, b | 0 <= a < b < |info|
      ensures info[a].tryPos <= info[b].tryPos
    {
      assert IsEntry(code, from[a], info[a]) && IsEntry(code, from[b], info[b]);
      PosOrder(code, noLineCues, from[a], from[b]);
    }
  }

  // A TryBlock that guards the instruction has an entry that covers it, at the last that does or before.
  lemma GuardCovers(code: seq<Ins>, noLineCues: bool, info: seq<TryCatchInfo>, from: seq<nat>, m: nat, i: nat,
                    pos: int)
    requires AllSized(code, noLineCues) && Describes(code, info, from) && Guards(code, m, i)
    requires Pos(code, i) <= pos < Pos(code, i) + code[i].size
    ensures var k := Innermost(info, |info|, pos); k >= 0 && m <= from[k]
  {
    hide Pos, Target, ResolvedAt, AllSized, Innermost;
    ResolvedIs(code, m);
    assert Resolved(code)[m].op == Op.TryBlock;
    hide Resolved;
    var l :| 0 <= l < |from| && from[l] == m;
    assert IsEntry(code, from[l], info[l]);
    CoversIffGuards(code, noLineCues, m, i, pos);
    assert Covers(info[l], pos);
  }

  /** An exception in an instruction is caught at the catch of the innermost TryBlock that guards it,
      and not at all if there is none. */
  lemma CaughtByInnermost(code: seq<Ins>, noLineCues: bool, i: nat, pos: int) returns (j: int)
    requires AllSized(code, noLineCues) && AllResolve(code) && i < |code|
    requires Pos(code, i) <= pos < Pos(code, i) + code[i].size
    ensures var final := Lined(Resolved(code), |code|, noLineCues);
      var info := Entries(final, |final|);
      var k := Innermost(info, |info|, pos);
      && InOrder(info)
      && (k == -1 <==> j == -1)
      && (j == -1 ==> forall m: nat :: !Guards(code, m, i))
      && (j != -1 ==> 0 <= j && Guards(code, j, i) && IsEntry(code, j, info[k])
                      && forall m: nat :: j < m ==> !Guards(code, m, i))
  {
    hide Pos, Lined, Entries, AllSized, AllResolve, Innermost, Guards, Covers, InOrder;
    var final := Lined(Resolved(code), |code|, noLineCues);
    var info := Entries(final, |final|);
    var from := TableDescribes(code, noLineCues);
    TableInOrder(code, noLineCues, info, from);
    var k := Innermost(info, |info|, pos);
    forall m: nat | Guards(code, m, i)
      ensures k >= 0 && m <= from[k]
    {
      GuardCovers(code, noLineCues, info, from, m, i, pos);
    }
    if k == -1 {
      j := -1;
    } else {
      j := from[k];
      assert IsEntry(code, from[k], info[k]);
      CoversIffGuards(code, noLineCues, from[k], i, pos);
    }
  }
}
