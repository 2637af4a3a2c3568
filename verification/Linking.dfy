/** The lists between the optimized one and the final words: with resolved jumps, and without LINEs;
    and the table of line numbers. */
module Linking {
  import Op
  import opened Tables
  import opened Instructions
  import opened CodeLists
  import opened Machine
  import opened Layout
  import opened Words
  import opened Programs

  // ----- resolved jumps -----

  function Resolved(code: seq<Ins>): (r: seq<Ins>)
    ensures |r| == |code|
  {
    seq(|code|, i requires 0 <= i < |code| => ResolvedAt(code, i))
  }

  lemma ResolvedIs(code: seq<Ins>, i: nat)
    requires i < |code|
    ensures var t := Target(code, i, code[i].a0);
      && (IsLabelJump(code[i].op) && t != -1 ==>
        ResolvedAt(code, i) == code[i].(a0 := Pos(code, t) - Pos(code, i) - code[i].size))
      && (code[i].op == Op.TryBlock && t != -1 ==> ResolvedAt(code, i) == code[i].(a0 := Pos(code, t) - code[i].size))
      && (!IsLabelJump(code[i].op) && code[i].op != Op.TryBlock ==> ResolvedAt(code, i) == code[i])
    ensures ResolvedAt(code, i) == code[i].(a0 := ResolvedAt(code, i).a0)
    ensures code[i].op == Op.LABEL ==> ResolvedAt(code, i) == code[i]
  {
  }

  // Rewriting jumps leaves labels and sizes alone.
  ghost predicate SameSkeleton(code: seq<Ins>, code': seq<Ins>) {
    |code| == |code'| && forall j :: 0 <= j < |code| ==>
      code'[j].op == code[j].op && code'[j].w0 == code[j].w0 && code'[j].size == code[j].size
  }

  lemma {:induction false} SamePositions(code: seq<Ins>, code': seq<Ins>, i: nat)
    requires i <= |code| && SameSkeleton(code, code')
    ensures Pos(code, i) == Pos(code', i)
  {
    if i > 0 {
      SamePositions(code, code', i - 1);
    }
  }

  lemma SameLabels(code: seq<Ins>, code': seq<Ins>, from: nat, lab: int)
    requires from < |code| && SameSkeleton(code, code')
    ensures Target(code, from, lab) == Target(code', from, lab)
  {
    assert forall j :: 0 <= j < |code| ==> (IsLabel(code[j], lab) <==> IsLabel(code'[j], lab));
    var f, f' := FirstLabel(code, from + 1, lab), FirstLabel(code', from + 1, lab);
    var b, b' := LastLabel(code, from, lab), LastLabel(code', from, lab);
  }

  // ----- without line numbers -----

  datatype LineEntry = LineEntry(pos: int, line: int, section: int)

  function LinedOne(ins: Ins, noLineCues: bool): seq<Ins> {
    if ins.op == Op.LINE && noLineCues then [] else [Suspended(ins)]
  }

  /** The first `n` instructions without their LINEs. */
  function Lined(code: seq<Ins>, n: nat, noLineCues: bool): seq<Ins>
    requires n <= |code|
  {
    if n == 0 then [] else Lined(code, n - 1, noLineCues) + LinedOne(code[n - 1], noLineCues)
  }

  // The position behind the first `n` instructions.
  function LinedPos(code: seq<Ins>, n: nat, noLineCues: bool): int
    requires n <= |code|
  {
    var l := Lined(code, n, noLineCues);
    Pos(l, |l|)
  }

  /** The line of each position that has one; a later LINE at the same position replaces it. */
  function LineTable(code: seq<Ins>, n: nat, noLineCues: bool): seq<LineEntry>
    requires n <= |code|
  {
    if n == 0 then []
    else if code[n - 1].op != Op.LINE then LineTable(code, n - 1, noLineCues)
    else
      LineSet(LineTable(code, n - 1, noLineCues),
               LineEntry(LinedPos(code, n - 1, noLineCues), code[n - 1].a0, code[n - 1].a1))
  }

  function LineSet(table: seq<LineEntry>, e: LineEntry): (r: seq<LineEntry>)
    ensures r != [] && r[|r| - 1] == e
  {
    (if table != [] && table[|table| - 1].pos == e.pos then table[..|table| - 1] else table) + [e]
  }

  // The table as the pairs that are stored, and the sections beside it.
  function Flat(table: seq<LineEntry>): (r: seq<int>)
    ensures |r| == 2 * |table|
  {
    if table == [] then [] else Flat(table[..|table| - 1]) + [table[|table| - 1].pos, table[|table| - 1].line]
  }

  function Sections(table: seq<LineEntry>): (r: seq<int>)
    ensures |r| == |table|
  {
    if table == [] then [] else Sections(table[..|table| - 1]) + [table[|table| - 1].section]
  }

  lemma FlatMore(table: seq<LineEntry>, e: LineEntry)
    ensures Flat(table + [e]) == Flat(table) + [e.pos, e.line] && Sections(table + [e]) == Sections(table) + [e.section]
  {
    assert (table + [e])[..|table|] == table;
  }

  lemma FlatLast(table: seq<LineEntry>)
    requires table != []
    ensures Flat(table)[..2 * |table| - 2] == Flat(table[..|table| - 1])
    ensures Sections(table)[..|table| - 1] == Sections(table[..|table| - 1])
  {
    hide Flat, Sections;
    var p, e := table[..|table| - 1], table[|table| - 1];
    assert table == p + [e];
    FlatMore(p, e);
  }

  // Taking the next instruction of the list into its finished part.
  lemma LineTaken(was: seq<Ins>, n: nat, noLineCues: bool)
    requires n < |was|
    ensures var done, more := Lined(was, n, noLineCues), Lined(was, n + 1, noLineCues);
      var code := done + was[n..];
      && |done| < |code| && code[|done|] == was[n]
      && (was[n].op == Op.LINE && noLineCues ==>
        |more| == |done| && code[..|done|] + code[|done| + 1..] == more + was[n + 1..])
      && (was[n].op == Op.LINE && !noLineCues ==>
        |more| == |done| + 1 && code[|done| := Suspended(was[n])] == more + was[n + 1..])
      && (was[n].op != Op.LINE ==> |more| == |done| + 1 && code == more + was[n + 1..])
  {
    var done := Lined(was, n, noLineCues);
    assert Lined(was, n + 1, noLineCues) == done + LinedOne(was[n], noLineCues);
    hide Lined, InfoType;
    assert was[n..] == [was[n]] + was[n + 1..];
  }

  lemma LinesFirst(code: seq<Ins>, noLineCues: bool)
    ensures Lined(code, 0, noLineCues) == [] && LineTable(code, 0, noLineCues) == []
    ensures LinedPos(code, 0, noLineCues) == 0
    ensures code[0..] == code && Flat([]) == [] && Sections([]) == []
  {
  }

  lemma LinesNext(code: seq<Ins>, n: nat, noLineCues: bool)
    requires n < |code|
    ensures Lined(code, n + 1, noLineCues) == Lined(code, n, noLineCues) + LinedOne(code[n], noLineCues)
    ensures LinedPos(code, n + 1, noLineCues) == LinedPos(code, n, noLineCues)
      + (if code[n].op == Op.LINE && noLineCues then 0 else Suspended(code[n]).size)
    ensures LineTable(code, n + 1, noLineCues) ==
      if code[n].op != Op.LINE then LineTable(code, n, noLineCues)
      else LineSet(LineTable(code, n, noLineCues), LineEntry(LinedPos(code, n, noLineCues), code[n].a0, code[n].a1))
  {
    hide InfoType;
    var l := Lined(code, n, noLineCues);
    PosPrefix(l, l + LinedOne(code[n], noLineCues), |l|);
  }

  lemma {:induction false} PosPrefix(a: seq<Ins>, b: seq<Ins>, i: nat)
    requires i <= |a| && a <= b
    ensures Pos(a, i) == Pos(b, i)
  {
    if i > 0 {
      PosPrefix(a, b, i - 1);
    }
  }

  /** The instructions that are written are those of the list, in the same order, at the same positions. */
  lemma {:induction false} LinedAt(code: seq<Ins>, n: nat, noLineCues: bool, i: nat)
    requires i < n <= |code| && !(code[i].op == Op.LINE && noLineCues)
    ensures |Lined(code, i, noLineCues)| < |Lined(code, n, noLineCues)|
    ensures Lined(code, n, noLineCues)[|Lined(code, i, noLineCues)|] == Suspended(code[i])
    ensures Lined(code, i, noLineCues) <= Lined(code, n, noLineCues)
    decreases n
  {
    hide InfoType;
    if i < n - 1 {
      LinedAt(code, n - 1, noLineCues, i);
    }
  }

  lemma {:induction false} LinedPosition(code: seq<Ins>, n: nat, noLineCues: bool)
    requires AllSized(code, noLineCues) && n <= |code|
    ensures LinedPos(code, n, noLineCues) == Pos(code, n)
  {
    hide InfoType, TypeSize, LinedPos;
    if n == 0 {
      LinesFirst(code, noLineCues);
    } else {
      LinedPosition(code, n - 1, noLineCues);
      LinesNext(code, n - 1, noLineCues);
      assert Sized(code[n - 1], noLineCues);
      JumpSizes();
      SuspendSize();
    }
  }

  lemma SuspendSize()
    ensures TypeSize(InfoType(Op.SUSPEND)) == 1
  {
  }

  // ----- the line table -----

  ghost predicate Increasing(table: seq<LineEntry>, end: int) {
    && (forall a, b :: 0 <= a < b < |table| ==> table[a].pos < table[b].pos)
    && (forall a :: 0 <= a < |table| ==> table[a].pos <= end)
  }

  /** Positions only go up, so the table can be searched. */
  lemma {:induction false} LinesIncrease(code: seq<Ins>, n: nat, noLineCues: bool)
    requires AllSized(code, noLineCues) && n <= |code|
    ensures Increasing(LineTable(code, n, noLineCues), Pos(code, n))
  {
    hide InfoType, Lined, LinedPos, Sized;
    LinedPosition(code, n, noLineCues);
    if n > 0 {
      LinesIncrease(code, n - 1, noLineCues);
      LinedPosition(code, n - 1, noLineCues);
      PosOrder(code, noLineCues, n - 1, n);
      if code[n - 1].op == Op.LINE {
        LineSetIncreases(LineTable(code, n - 1, noLineCues), EntryOf(code, n - 1));
      }
    }
  }

  lemma LineSetIncreases(table: seq<LineEntry>, x: LineEntry)
    requires Increasing(table, x.pos)
    ensures Increasing(LineSet(table, x), x.pos)
  {
  }

  // The last LINE among the first `n` instructions at its position.
  ghost predicate LastLineAt(code: seq<Ins>, n: nat, k: nat)
    requires n <= |code|
  {
    k < n && code[k].op == Op.LINE && forall m :: k < m < n && code[m].op == Op.LINE ==> Pos(code, m) != Pos(code, k)
  }

  function EntryOf(code: seq<Ins>, k: nat): LineEntry
    requires k < |code|
  {
    LineEntry(Pos(code, k), code[k].a0, code[k].a1)
  }

  /** The table holds exactly the last LINE at each position that has one. */
  lemma {:induction false} LinesExact(code: seq<Ins>, n: nat, noLineCues: bool, e: LineEntry)
    requires AllSized(code, noLineCues) && n <= |code|
    ensures e in LineTable(code, n, noLineCues) <==> exists k :: LastLineAt(code, n, k) && e == EntryOf(code, k)
  {
    hide InfoType, Lined, LinedPos, Sized, Pos;
    if n > 0 {
      LinesExact(code, n - 1, noLineCues, e);
      LinesIncrease(code, n - 1, noLineCues);
      LinedPosition(code, n - 1, noLineCues);
      var t, t' := LineTable(code, n - 1, noLineCues), LineTable(code, n, noLineCues);
      if code[n - 1].op != Op.LINE {
        assert forall k :: LastLineAt(code, n, k) <==> LastLineAt(code, n - 1, k);
      } else {
        InLineSet(t, EntryOf(code, n - 1), e);
        assert LastLineAt(code, n, n - 1);
        assert forall k: nat :: k < n - 1 ==>
          (LastLineAt(code, n, k) <==> LastLineAt(code, n - 1, k) && Pos(code, k) != Pos(code, n - 1));
      }
    }
  }

  lemma InLineSet(table: seq<LineEntry>, x: LineEntry, e: LineEntry)
    requires Increasing(table, x.pos)
    ensures e in LineSet(table, x) <==> e == x || (e in table && e.pos != x.pos)
  {
    var r := LineSet(table, x);
    if e in table && e.pos != x.pos {
      var a :| 0 <= a < |table| && table[a] == e;
      assert r[a] == e;
    }
  }

  // ----- the words -----

  // What Output can write: directives, and real instructions with operands that fit.
  predicate Emitted(ins: Ins) {
    ins.size == 0 || (ins.size == TypeSize(InfoType(ins.op)) > 0 && InRange(ins))
  }

  ghost predicate AllEmitted(code: seq<Ins>) {
    forall i :: 0 <= i < |code| ==> Emitted(code[i])
  }

  /** The first `n` instructions can be read back from the words at their positions. */
  ghost predicate Holds(code: seq<Ins>, words: seq<int>, n: nat)
    requires n <= |code|
  {
    && |words| == Pos(code, |code|)
    && forall i {:trigger code[i]} :: 0 <= i < n && code[i].size > 0 ==> Decode(words, Pos(code, i)) == Canon(code[i])
  }

  lemma HoldsNone(code: seq<Ins>, words: seq<int>)
    requires |words| == Pos(code, |code|)
    ensures Holds(code, words, 0) && Pos(code, 0) == 0
  {
  }

  lemma {:induction false} EmittedOrder(code: seq<Ins>, i: nat, n: nat)
    requires i <= n <= |code| && AllEmitted(code)
    ensures 0 <= Pos(code, i) <= Pos(code, n)
    ensures i < n ==> Pos(code, i + 1) == Pos(code, i) + code[i].size <= Pos(code, n)
    decreases n
  {
    hide InfoType, TypeSize, InRange;
    if n > 0 {
      EmittedOrder(code, if i < n then i else n - 1, n - 1);
      assert Emitted(code[n - 1]);
    }
  }

  lemma EmittedAt(code: seq<Ins>, i: nat)
    requires i < |code| && AllEmitted(code)
    ensures Emitted(code[i])
  {
  }

  // Writing one more instruction leaves those before it readable.
  lemma HoldsMore(code: seq<Ins>, was: seq<int>, words: seq<int>, i: nat)
    requires i < |code| && AllEmitted(code) && |words| == |was| && Holds(code, was, i) && Pos(code, i) >= 0
    requires code[i].size > 0 ==> WrittenAt(words, Pos(code, i), code[i], was)
    requires forall q :: 0 <= q < |was| && !(Pos(code, i) <= q < Pos(code, i) + code[i].size) ==> words[q] == was[q]
    ensures Holds(code, words, i + 1)
  {
    hide InfoType, TypeSize, InRange, Decode, Canon, WrittenAt, Pos;
    forall j | 0 <= j <= i && code[j].size > 0
      ensures Decode(words, Pos(code, j)) == Canon(code[j])
    {
      EmittedAt(code, j);
      EmittedOrder(code, j, |code|);
      if j == i {
        DecodeWritten(words, Pos(code, i), code[i], was);
      } else {
        EmittedOrder(code, j, i);
        DecodedOp(was, Pos(code, j), code[j]);
        DecodeLocal(was, words, Pos(code, j), code[j].size);
      }
    }
  }

  /** The words hold the list of labels: each instruction at its position, its jump resolved. */
  lemma Links(code: seq<Ins>, words: seq<int>, noLineCues: bool)
    requires AllSized(code, noLineCues)
    requires var final := Lined(Resolved(code), |code|, noLineCues); Holds(final, words, |final|)
    ensures Assembled(code, words)
  {
    hide InfoType, Decode, Canon, Lined, Pos, Sized, ResolvedAt;
    var r := Resolved(code);
    var final := Lined(r, |code|, noLineCues);
    ResolvedSized(code, noLineCues);
    SamePositions(code, r, |code|);
    LinedPosition(r, |code|, noLineCues);
    forall i | 0 <= i < |code| && code[i].size > 0
      ensures Decode(words, Pos(code, i)) == Canon(Suspended(ResolvedAt(code, i)))
    {
      SamePositions(code, r, i);
      LinedPosition(r, i, noLineCues);
      assert Sized(code[i], noLineCues);
      NotDropped(r[i], noLineCues);
      LinedAt(r, |code|, noLineCues, i);
      var j := |Lined(r, i, noLineCues)|;
      PosPrefix(Lined(r, i, noLineCues), final, j);
      assert final[j] == Suspended(r[i]);
    }
  }

  lemma NotDropped(ins: Ins, noLineCues: bool)
    requires Sized(ins, noLineCues) && ins.size > 0
    ensures !(ins.op == Op.LINE && noLineCues) && Suspended(ins).size > 0
  {
    hide InfoType;
    SuspendSize();
  }

  lemma ResolvedSized(code: seq<Ins>, noLineCues: bool)
    requires AllSized(code, noLineCues)
    ensures AllSized(Resolved(code), noLineCues) && SameSkeleton(code, Resolved(code))
  {
    hide InfoType, ResolvedAt, Sized;
    forall i | 0 <= i < |code|
      ensures Sized(ResolvedAt(code, i), noLineCues)
    {
      ResolvedIs(code, i);
      SizedSame(code[i], ResolvedAt(code, i), noLineCues);
    }
    forall i | 0 <= i < |code|
      ensures var x := ResolvedAt(code, i); x.op == code[i].op && x.w0 == code[i].w0 && x.size == code[i].size
    {
      ResolvedIs(code, i);
    }
  }

  lemma SizedSame(ins: Ins, ins': Ins, noLineCues: bool)
    requires Sized(ins, noLineCues) && ins' == ins.(a0 := ins'.a0)
    ensures Sized(ins', noLineCues)
  {
    hide InfoType;
  }
}
