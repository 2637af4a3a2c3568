/** From a position in the final words back to the line and section of the script:
    `FinalizeFunction` stores the table, `asCScriptFunction::GetLineNumber` searches it. */
module LineNumbers {
  import Op
  import opened Instructions
  import opened CodeLists
  import opened Layout
  import opened Programs
  import opened StackDepth
  import opened Linking
  import opened LineCues

  ghost predicate Sorted(table: seq<LineEntry>) {
    forall a, b :: 0 <= a < b < |table| ==> table[a].pos < table[b].pos
  }

  /** The last entry at or in front of a position, or -1. */
  function At(table: seq<LineEntry>, pos: int): (i: int)
    ensures -1 <= i < |table| && (i >= 0 ==> table[i].pos <= pos)
    ensures forall a :: i < a < |table| ==> table[a].pos > pos
  {
    if table == [] then -1
    else if table[|table| - 1].pos <= pos then |table| - 1
    else At(table[..|table| - 1], pos)
  }

  // ----- what is stored of the sections -----

  // The sections of the first `n` entries where they change, as positions and sections in turn.
  function Changes(table: seq<LineEntry>, n: nat, first: int): (r: seq<int>)
    requires n <= |table|
    ensures |r| % 2 == 0
  {
    if n == 0 then []
    else
      Changes(table, n - 1, first)
      + (if table[n - 1].section != SectionBehind(table, n - 1, first) then [table[n - 1].pos, table[n - 1].section]
         else [])
  }

  // The section of the last of the first `n` entries, or else that of the function.
  function SectionBehind(table: seq<LineEntry>, n: nat, first: int): int
    requires n <= |table|
  {
    if n == 0 then first else table[n - 1].section
  }

  // The section of the last change at or in front of a position.
  function SectionFrom(changes: seq<int>, n: nat, pos: int, first: int): int
    requires 2 * n <= |changes|
  {
    if n == 0 then first
    else if changes[2 * n - 2] <= pos then changes[2 * n - 1]
    else SectionFrom(changes, n - 1, pos, first)
  }

  function StoredSection(changes: seq<int>, pos: int, first: int): int {
    SectionFrom(changes, |changes| / 2, pos, first)
  }

  lemma {:induction false} SectionPrefix(a: seq<int>, b: seq<int>, n: nat, pos: int, first: int)
    requires 2 * n <= |a| && a <= b
    ensures SectionFrom(a, n, pos, first) == SectionFrom(b, n, pos, first)
  {
    if n > 0 {
      SectionPrefix(a, b, n - 1, pos, first);
    }
  }

  lemma SectionMore(p: seq<int>, pos: int, first: int, at: int, section: int)
    requires |p| % 2 == 0
    ensures StoredSection(p + [at, section], pos, first) == if at <= pos then section else StoredSection(p, pos, first)
  {
    SectionPrefix(p, p + [at, section], |p| / 2, pos, first);
  }

  lemma AtMore(table: seq<LineEntry>, n: nat, pos: int)
    requires 0 < n <= |table|
    ensures At(table[..n], pos) == if table[n - 1].pos <= pos then n - 1 else At(table[..n - 1], pos)
  {
    assert table[..n][..n - 1] == table[..n - 1];
  }

  lemma ChangesNext(table: seq<LineEntry>, n: nat, first: int)
    requires 0 < n <= |table|
    ensures var p := Changes(table, n - 1, first);
      Changes(table, n, first) ==
        if table[n - 1].section != SectionBehind(table, n - 1, first)
        then p + [table[n - 1].pos, table[n - 1].section] else p
  {
  }

  /** The changes are enough to tell the section of every entry. */
  lemma {:induction false} ChangesSuffice(table: seq<LineEntry>, n: nat, pos: int, first: int)
    requires n <= |table| && Sorted(table)
    ensures StoredSection(Changes(table, n, first), pos, first) ==
      SectionBehind(table, At(table[..n], pos) + 1, first)
  {
    if n > 0 {
      ChangesSuffice(table, n - 1, pos, first);
      ChangesNext(table, n, first);
      hide StoredSection, At, Changes;
      AtMore(table, n, pos);
      SectionMore(Changes(table, n - 1, first), pos, first, table[n - 1].pos, table[n - 1].section);
      if table[n - 1].pos <= pos {
        AllBefore(table, n - 1, pos);
      }
    }
  }

  lemma AllBefore(table: seq<LineEntry>, n: nat, pos: int)
    requires n < |table| && Sorted(table) && table[n].pos <= pos
    ensures At(table[..n], pos) == n - 1
  {
  }

  // ----- the stored pairs -----

  lemma {:induction false} FlatAt(table: seq<LineEntry>, i: nat)
    requires i < |table|
    ensures Flat(table)[2 * i] == table[i].pos && Flat(table)[2 * i + 1] == table[i].line
    ensures Sections(table)[i] == table[i].section
    decreases |table|
  {
    if i < |table| - 1 {
      FlatAt(table[..|table| - 1], i);
    }
  }

  class ScriptFunction {
    var lineNumbers: seq<int>
    var sectionIdxs: seq<int>
    const scriptSectionIdx: int

    constructor (scriptSectionIdx: int)
      ensures this.scriptSectionIdx == scriptSectionIdx && lineNumbers == [] && sectionIdxs == []
    {
      this.scriptSectionIdx, lineNumbers, sectionIdxs := scriptSectionIdx, [], [];
    }

    /** Store the lines, and of the sections only the changes. */
    method TakeLineNumbers(lines: seq<int>, sections: seq<int>, ghost table: seq<LineEntry>)
      requires lines == Flat(table) && sections == Sections(table) && sectionIdxs == []
      modifies this
      ensures lineNumbers == Flat(table) && sectionIdxs == Changes(table, |table|, scriptSectionIdx)
    {
      hide Flat, Sections;
      lineNumbers := lines;
      var lastIdx, n := scriptSectionIdx, 0;
      while n < |sections|
        invariant n <= |sections| && lineNumbers == lines
        invariant lastIdx == SectionBehind(table, n, scriptSectionIdx)
        invariant sectionIdxs == Changes(table, n, scriptSectionIdx)
      {
        FlatAt(table, n);
        if sections[n] != lastIdx {
          lastIdx := sections[n];
          sectionIdxs := sectionIdxs + [lineNumbers[n * 2], lastIdx];
        }
        n := n + 1;
      }
    }

    /** The line and section of the last entry at or in front of the position. In front of all entries
        the line is that of the first one, and the section that of the function. */
    method GetLineNumber(programPosition: int, ghost table: seq<LineEntry>) returns (line: int, sectionIdx: int)
      requires Sorted(table) && lineNumbers == Flat(table)
      requires sectionIdxs == Changes(table, |table|, scriptSectionIdx)
      ensures var i := At(table, programPosition);
        && line == (if table == [] then 0 else if i == -1 then table[0].line else table[i].line)
        && sectionIdx == SectionBehind(table, i + 1, scriptSectionIdx)
    {
      hide Flat, Changes;
      sectionIdx := FindSection(programPosition, table);
      if |lineNumbers| == 0 {
        return 0, sectionIdx;
      }
      var max, min := |lineNumbers| / 2 - 1, 0;
      var i := max / 2;
      while true
        invariant 0 <= min <= i <= max < |table|
        invariant min > 0 ==> table[min - 1].pos < programPosition && table[min].pos <= programPosition
        invariant max < |table| - 1 ==> table[max + 1].pos > programPosition
        decreases max - min
      {
        FlatAt(table, i);
        if lineNumbers[i * 2] < programPosition {
          if max == i {
            return lineNumbers[i * 2 + 1], sectionIdx;
          }
          FlatAt(table, i + 1);
          if lineNumbers[i * 2 + 2] > programPosition {
            return lineNumbers[i * 2 + 1], sectionIdx;
          }
          min := i + 1;
          i := (max + min) / 2;
        } else if lineNumbers[i * 2] > programPosition {
          if min == i {
            return lineNumbers[i * 2 + 1], sectionIdx;
          }
          max := i - 1;
          i := (max + min) / 2;
        } else {
          return lineNumbers[i * 2 + 1], sectionIdx;
        }
      }
    }

    // The loop over the changes: the last one at or in front of the position counts.
    method FindSection(programPosition: int, ghost table: seq<LineEntry>) returns (sectionIdx: int)
      requires Sorted(table) && sectionIdxs == Changes(table, |table|, scriptSectionIdx)
      ensures sectionIdx == SectionBehind(table, At(table, programPosition) + 1, scriptSectionIdx)
    {
      hide Changes, Sorted;
      sectionIdx := scriptSectionIdx;
      var n := 0;
      while n < |sectionIdxs|
        invariant n <= |sectionIdxs| && n % 2 == 0
        invariant sectionIdx == SectionFrom(sectionIdxs, n / 2, programPosition, scriptSectionIdx)
      {
        if sectionIdxs[n] <= programPosition {
          sectionIdx := sectionIdxs[n + 1];
        }
        n := n + 2;
      }
      ChangesSuffice(table, |table|, programPosition, scriptSectionIdx);
      assert table[..|table|] == table;
    }
  }

  // ----- the lines of the instructions -----

  /** The entry found for any word of an instruction is that of the last LINE up to it. */
  lemma LineOfInstruction(code: seq<Ins>, noLineCues: bool, i: nat, pos: int)
    requires AllSized(code, noLineCues) && i < |code| && Pos(code, i) <= pos < Pos(code, i) + code[i].size
    ensures var table, k := LineTable(code, |code|, noLineCues), Latest(code, i + 1, Op.LINE);
      && Sorted(table)
      && if k == -1 then At(table, pos) == -1
         else At(table, pos) >= 0 && table[At(table, pos)] == EntryOf(code, k)
  {
    hide LineTable, Pos, Latest;
    var table, k := LineTable(code, |code|, noLineCues), Latest(code, i + 1, Op.LINE);
    LinesIncrease(code, |code|, noLineCues);
    var a := At(table, pos);
    if a >= 0 {
      var m := EntryIsBefore(code, noLineCues, i, pos, table[a]);
      assert k >= m;
      PosOrder(code, noLineCues, m, k);
    }
    if k >= 0 {
      LatestIsLast(code, noLineCues, i, k);
      LinesExact(code, |code|, noLineCues, EntryOf(code, k));
      PosOrder(code, noLineCues, k, i);
      var b :| 0 <= b < |table| && table[b] == EntryOf(code, k);
      assert b <= a;
    }
  }

  // An entry at or in front of an instruction comes from a LINE up to it.
  lemma EntryIsBefore(code: seq<Ins>, noLineCues: bool, i: nat, pos: int, e: LineEntry) returns (m: nat)
    requires AllSized(code, noLineCues) && i < |code| && Pos(code, i) <= pos < Pos(code, i) + code[i].size
    requires e in LineTable(code, |code|, noLineCues) && e.pos <= pos
    ensures m <= i && code[m].op == Op.LINE && e == EntryOf(code, m)
  {
    hide LineTable, Pos;
    LinesExact(code, |code|, noLineCues, e);
    m :| LastLineAt(code, |code|, m) && e == EntryOf(code, m);
    if m > i {
      PosOrder(code, noLineCues, i + 1, m);
      PosNext(code, i);
    }
  }

  lemma LatestIsLast(code: seq<Ins>, noLineCues: bool, i: nat, k: nat)
    requires AllSized(code, noLineCues) && i < |code| && code[i].size > 0 && k == Latest(code, i + 1, Op.LINE)
    ensures LastLineAt(code, |code|, k)
  {
    hide Pos, Latest;
    forall m | k < m < |code| && code[m].op == Op.LINE
      ensures Pos(code, m) != Pos(code, k)
    {
      PosOrder(code, noLineCues, k, i);
      PosOrder(code, noLineCues, i + 1, m);
      PosNext(code, i);
    }
  }

  // ----- the lines of the list that was compiled -----

  // The entry found at a position is that of the LINE at `k`; without one there is none.
  ghost predicate Found(table: seq<LineEntry>, pos: int, code: seq<Ins>, k: int)
    requires -1 <= k < |code|
  {
    var a := At(table, pos);
    if k == -1 then a == -1 else a >= 0 && table[a].line == code[k].a0 && table[a].section == code[k].a1
  }

  ghost predicate Tells(table: seq<LineEntry>, lo: int, hi: int, code: seq<Ins>, k: int)
    requires -1 <= k < |code|
  {
    forall pos :: lo <= pos < hi ==> Found(table, pos, code, k)
  }

  /** For every word of an instruction that is left of the list the table tells the line and section
      of the last LINE that stood in front of it and is reached. */
  ghost predicate LinesTold(code: seq<Ins>, linked: seq<Ins>, from: seq<nat>, table: seq<LineEntry>)
    requires |from| == |linked|
  {
    var keep := ReachedMarks(code);
    forall j, i ::
      0 <= j < |code| && keep[j] && KeepsCues(code[j].op) && 0 <= i < |linked| && from[i] == Rank(keep, j) ==>
        Tells(table, Pos(linked, i), Pos(linked, i) + linked[i].size, code, LatestKept(code, keep, j, Op.LINE))
  }

  lemma TellsAlike(table: seq<LineEntry>, lo: int, hi: int, a: seq<Ins>, k: int, b: seq<Ins>, l: int)
    requires -1 <= k < |a| && -1 <= l < |b| && (k == -1 <==> l == -1) && (k >= 0 ==> a[k] == b[l])
    requires Tells(table, lo, hi, a, k)
    ensures Tells(table, lo, hi, b, l)
  {
    hide At;
    assert forall pos :: Found(table, pos, a, k) ==> Found(table, pos, b, l);
  }

  // Resolving jumps leaves LINEs alone.
  lemma LatestResolved(code: seq<Ins>, n: nat)
    requires n <= |code|
    ensures Latest(Resolved(code), n, Op.LINE) == Latest(code, n, Op.LINE)
    ensures var k := Latest(code, n, Op.LINE); k >= 0 ==> Resolved(code)[k] == code[k]
  {
    hide ResolvedAt, Latest;
    forall m | 0 <= m < |code|
      ensures Resolved(code)[m].op == code[m].op && (code[m].op == Op.LINE ==> Resolved(code)[m] == code[m])
    {
      ResolvedIs(code, m);
    }
  }

  lemma ToldOfLinked(linked: seq<Ins>, noLineCues: bool, i: nat)
    requires AllSized(linked, noLineCues) && i < |linked| && KeepsCues(linked[i].op)
    ensures Tells(LineTable(Resolved(linked), |linked|, noLineCues), Pos(linked, i), Pos(linked, i) + linked[i].size,
                  linked, Latest(linked, i, Op.LINE))
  {
    hide LineTable, Pos, Latest, ResolvedAt, At;
    var r := Resolved(linked);
    ResolvedSized(linked, noLineCues);
    assert r[i].op == linked[i].op && r[i].size == linked[i].size;
    SamePositions(linked, r, i);
    LatestResolved(linked, i);
    LatestBehind(r, i, Op.LINE);
    forall pos | Pos(linked, i) <= pos < Pos(linked, i) + linked[i].size
      ensures Found(LineTable(r, |r|, noLineCues), pos, linked, Latest(linked, i, Op.LINE))
    {
      LineOfInstruction(r, noLineCues, i, pos);
    }
  }

  lemma LatestBehind(code: seq<Ins>, i: nat, op: int)
    requires i < |code| && code[i].op != op
    ensures Latest(code, i + 1, op) == Latest(code, i, op)
  {
  }

  // The LINE of an instruction and that of what is left of it are the same.
  lemma SameLine(code: seq<Ins>, linked: seq<Ins>, from: seq<nat>, i: nat, j: nat)
    requires CuesKept(ReachedCode(code), linked, from) && i < |linked| && KeepsCues(linked[i].op)
    requires j < |code| && ReachedMarks(code)[j] && from[i] == Rank(ReachedMarks(code), j)
    ensures var k, l := Latest(linked, i, Op.LINE), LatestKept(code, ReachedMarks(code), j, Op.LINE);
      (k == -1 <==> l == -1) && (k >= 0 ==> linked[k] == code[l])
  {
    hide Latest, LatestKept, ReachedMarks;
    var keep, reached := ReachedMarks(code), ReachedCode(code);
    var k, l := Latest(linked, i, Op.LINE), LatestKept(code, keep, j, Op.LINE);
    assert Origin(from, k) == Latest(reached, from[i], Op.LINE);
    LatestOfKept(code, keep, j, Op.LINE);
    KeptPrefix(code, keep, |code|, j);
    LatestPrefix(Kept(code, keep, j), reached, Rank(keep, j), Op.LINE);
    if l >= 0 {
      KeptAt(code, keep, |code|, l);
    }
  }

  /** Where the cues were kept, the lines are told. */
  lemma CuesTell(code: seq<Ins>, linked: seq<Ins>, from: seq<nat>, noLineCues: bool)
    requires CuesKept(ReachedCode(code), linked, from) && AllSized(linked, noLineCues)
    ensures Sorted(LineTable(Resolved(linked), |linked|, noLineCues))
    ensures LinesTold(code, linked, from, LineTable(Resolved(linked), |linked|, noLineCues))
  {
    hide LineTable, Pos, Latest, LatestKept, Resolved, ReachedMarks, Tells, AllSized;
    ResolvedSized(linked, noLineCues);
    LinesIncrease(Resolved(linked), |linked|, noLineCues);
    var table, keep := LineTable(Resolved(linked), |linked|, noLineCues), ReachedMarks(code);
    forall j, i | 0 <= j < |code| && keep[j] && KeepsCues(code[j].op) && 0 <= i < |linked| && from[i] == Rank(keep, j)
      ensures Tells(table, Pos(linked, i), Pos(linked, i) + linked[i].size, code, LatestKept(code, keep, j, Op.LINE))
    {
      KeptAt(code, keep, |code|, j);
      ToldOfLinked(linked, noLineCues, i);
      SameLine(code, linked, from, i, j);
      TellsAlike(table, Pos(linked, i), Pos(linked, i) + linked[i].size, linked, Latest(linked, i, Op.LINE),
                 code, LatestKept(code, keep, j, Op.LINE));
    }
  }
}
