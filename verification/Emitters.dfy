/** The last passes of `asCByteCode`: `Optimize`, `ResolveJumpAddresses`, `ExtractLineNumbers` and
    `Output`. */
module Emitters {
  import Op
  import opened Tables
  import opened Instructions
  import opened CodeLists
  import opened Machine
  import opened Layout
  import opened Windows
  import opened Blocks
  import opened UnusedValues
  import opened Words
  import opened Assembling
  import opened Programs
  import opened Linking
  import opened LineCues

  /** What the last passes rely on and keep: sizes as emitted, jumps with a destination, operands that
      fit their fields; and whole jump tables. */
  ghost predicate Ripe(code: seq<Ins>, noLineCues: bool) {
    Laid(code, noLineCues) && WholeTables(code)
  }

  ghost predicate Laid(code: seq<Ins>, noLineCues: bool) {
    Writable(code, noLineCues) && AllResolve(code)
  }

  lemma StaysLaid(code: seq<Ins>, k: nat, noLineCues: bool)
    requires k < |code| && Laid(code, noLineCues) && code[k].op != Op.LABEL
    ensures Laid(Splice(code, k, 1, []), noLineCues)
  {
    hide InRange, Sized, Target, Pos;
    var code' := Splice(code, k, 1, []);
    PosOrder(code, noLineCues, k, k + 1);
    DeletedShorter(code, k, |code'|);
    PosNext(code, k);
    DeletedAt(code, k);
    assert Spliced(code, code', k, 1, 0);
    forall i | 0 <= i < |code'| && (IsLabelJump(code'[i].op) || code'[i].op == Op.TryBlock)
      ensures Target(code', i, code'[i].a0) != -1
    {
      var j := if i < k then i else i + 1;
      TargetMoves(code, code', k, 1, 0, j, i, code[j].a0);
    }
  }

  lemma {:induction false} DeletedShorter(code: seq<Ins>, k: nat, n: nat)
    requires k < |code| && n < |code|
    ensures var code' := Splice(code, k, 1, []);
      Pos(code', n) == if n <= k then Pos(code, n) else Pos(code, n + 1) - code[k].size
  {
    hide Splice;
    DeletedAt(code, k);
    if n > 0 {
      DeletedShorter(code, k, n - 1);
    }
  }

  // ----- all removals -----

  ghost predicate OneRemoval(code: seq<Ins>, code': seq<Ins>, includeJit: bool) {
    exists k: nat :: k < |code| && Removal(code, k, includeJit).Replace?
      && code' == Apply(code, Removal(code, k, includeJit))
  }

  /** A sequence of lists, each made from the one before by one removal. */
  ghost predicate Removals(lists: seq<seq<Ins>>, includeJit: bool) {
    |lists| > 0 && forall i :: 0 <= i < |lists| - 1 ==> OneRemoval(lists[i], lists[i + 1], includeJit)
  }

  // Nothing is left to remove.
  ghost predicate Irremovable(code: seq<Ins>, includeJit: bool) {
    forall i :: 0 <= i < |code| ==> Removal(code, i, includeJit).Keep?
  }

  lemma MoreRemovals(lists: seq<seq<Ins>>, code: seq<Ins>, k: nat, includeJit: bool)
    requires Removals(lists, includeJit) && k < |lists[|lists| - 1]|
    requires var w := Removal(lists[|lists| - 1], k, includeJit); w.Replace? && code == Apply(lists[|lists| - 1], w)
    ensures Removals(lists + [code], includeJit)
  {
    hide Removal, Splice;
    assert OneRemoval(lists[|lists| - 1], code, includeJit);
    hide OneRemoval;
    var more := lists + [code];
    forall i | 0 <= i < |more| - 1
      ensures OneRemoval(more[i], more[i + 1], includeJit)
    {
      assert more[i] == lists[i] && (i < |lists| - 1 ==> more[i + 1] == lists[i + 1]);
    }
  }

  lemma RemovalStaysLaid(code: seq<Ins>, k: nat, noLineCues: bool, includeJit: bool)
    requires k < |code| && Laid(code, noLineCues) && Removal(code, k, includeJit).Replace?
    ensures Laid(Apply(code, Removal(code, k, includeJit)), noLineCues)
  {
    hide Laid, Splice;
    RemovalVanishes(code, k, includeJit);
    if Removal(code, k, includeJit).len == 2 {
      SplicedTwice(code, k);
      StaysLaid(code, k + 1, noLineCues);
      StaysLaid(Splice(code, k + 1, 1, []), k, noLineCues);
    } else {
      StaysLaid(code, k, noLineCues);
    }
  }

  /** All removals together preserve every run of a list with safe tables, and leave it ripe. */
  lemma {:induction false} RemovalsPreserve(vm: VM, lists: seq<seq<Ins>>, noLineCues: bool, includeJit: bool)
    requires Removals(lists, includeJit) && Laid(lists[0], noLineCues) && SafeTables(lists[0], includeJit)
    ensures Equivalent(vm, lists[0], lists[|lists| - 1], {})
    ensures Laid(lists[|lists| - 1], noLineCues) && SafeTables(lists[|lists| - 1], includeJit)
    decreases |lists|
  {
    hide Equivalent, Laid, SafeTables, Removal, Apply;
    var n := |lists|;
    if n == 1 {
      EquivalentRefl(vm, lists[0], {});
    } else {
      var front := lists[..n - 1];
      assert Removals(front, includeJit) by {
        assert forall i :: 0 <= i < n - 1 ==> front[i] == lists[i];
      }
      RemovalsPreserve(vm, front, noLineCues, includeJit);
      assert OneRemoval(lists[n - 2], lists[n - 1], includeJit);
      var k: nat :| k < |lists[n - 2]| && Removal(lists[n - 2], k, includeJit).Replace?
        && lists[n - 1] == Apply(lists[n - 2], Removal(lists[n - 2], k, includeJit));
      RemovalPreserves(vm, lists[n - 2], k, includeJit);
      RemovalStaysLaid(lists[n - 2], k, noLineCues, includeJit);
      EquivalentTrans(vm, lists[0], lists[n - 2], lists[n - 1], {});
    }
  }

  /** All removals together leave every instruction the LINE and the SUSPEND that it had. */
  lemma {:induction false} RemovalsKeepCues(lists: seq<seq<Ins>>, includeJit: bool) returns (from: seq<nat>)
    requires Removals(lists, includeJit)
    ensures CuesKept(lists[0], lists[|lists| - 1], from)
    decreases |lists|
  {
    hide CuesKept, Removal, Apply;
    var n := |lists|;
    if n == 1 {
      NothingDeletedKeeps(lists[0]);
      from := AllOf(|lists[0]|);
    } else {
      var front := lists[..n - 1];
      assert forall i :: 0 <= i < n - 1 ==> front[i] == lists[i];
      var f := RemovalsKeepCues(front, includeJit);
      assert OneRemoval(lists[n - 2], lists[n - 1], includeJit);
      var k: nat :| k < |lists[n - 2]| && Removal(lists[n - 2], k, includeJit).Replace?
        && lists[n - 1] == Apply(lists[n - 2], Removal(lists[n - 2], k, includeJit));
      RemovalKeepsCues(lists[n - 2], k, includeJit);
      from := CuesCompose(lists[0], lists[n - 2], lists[n - 1], f,
                          Around(|lists[n - 2]|, k, Removal(lists[n - 2], k, includeJit).len));
    }
  }

  lemma NoRemovals(code: seq<Ins>, includeJit: bool)
    ensures Removals([code], includeJit)
  {
  }

  // Nothing changes for the instructions three or more in front of what was removed.
  lemma SameBefore(was: seq<Ins>, code: seq<Ins>, k: nat, next: nat, includeJit: bool)
    requires k < |was| && (next == 0 || next + 3 <= k) && next <= |code|
    requires var w := Removal(was, k, includeJit); w.Replace? && code == Apply(was, w)
    requires forall i :: 0 <= i < k ==> Removal(was, i, includeJit).Keep?
    ensures forall i :: 0 <= i < next ==> Removal(code, i, includeJit).Keep?
  {
    forall i | 0 <= i < next
      ensures Removal(code, i, includeJit).Keep?
    {
      assert Removal(was, i, includeJit).Keep?;
      assert code[i] == was[i] && code[i + 1] == was[i + 1] && code[i + 2] == was[i + 2];
    }
  }

  class Emitter {
    var code: seq<Ins>
    var lineNumbers: seq<int>
    var sectionIdxs: seq<int>
    const includeJitInstructions: bool
    const buildWithoutLineCues: bool

    constructor (code: seq<Ins>, includeJitInstructions: bool, buildWithoutLineCues: bool)
      ensures this.code == code && this.includeJitInstructions == includeJitInstructions
      ensures this.buildWithoutLineCues == buildWithoutLineCues && lineNumbers == [] && sectionIdxs == []
    {
      this.code, this.includeJitInstructions := code, includeJitInstructions;
      this.buildWithoutLineCues, lineNumbers, sectionIdxs := buildWithoutLineCues, [], [];
    }

    // Delete the instruction at the cursor and go back two.
    method DeleteAndGoBack(curr: nat) returns (next: nat)
      requires curr < |code|
      modifies this`code
      ensures code == Splice(old(code), curr, 1, []) && |code| == |old(code)| - 1
      ensures next <= |code| && (next == 0 || next + 3 <= curr)
    {
      code := code[..curr] + code[curr + 1..];
      next := if curr >= 3 then curr - 3 else 0;
    }

    /** The optimizations that need the entire function. They end; all they do are removals, and
        nothing is left to remove. No instruction loses its line or its place to suspend. */
    method Optimize() returns (ghost lists: seq<seq<Ins>>, ghost from: seq<nat>)
      modifies this`code
      ensures CuesKept(old(code), code, from)
      ensures Removals(lists, includeJitInstructions) && lists[0] == old(code) && lists[|lists| - 1] == code
      ensures Irremovable(code, includeJitInstructions)
    {
      hide Removal, Removals, CuesKept;
      lists := [code];
      assert Removals(lists, includeJitInstructions) by {
        NoRemovals(code, includeJitInstructions);
      }
      var instr: nat := 0;
      while instr < |code|
        invariant instr <= |code| && |lists| > 0 && Removals(lists, includeJitInstructions)
        invariant lists[0] == old(code) && lists[|lists| - 1] == code
        invariant forall i :: 0 <= i < instr ==> Removal(code, i, includeJitInstructions).Keep?
        decreases |code|, |code| - instr
      {
        ghost var was := code;
        var changed, next := OptimizeAt(instr);
        if changed {
          MoreRemovals(lists, code, instr, includeJitInstructions);
          SameBefore(was, code, instr, next, includeJitInstructions);
          lists := lists + [code];
          instr := next;
        } else {
          instr := instr + 1;
        }
      }
      from := RemovalsKeepCues(lists, includeJitInstructions);
    }

    // One step of Optimize, with the cursor at `curr`.
    method OptimizeAt(curr: nat) returns (changed: bool, next: nat)
      requires curr < |code|
      modifies this`code
      ensures var w := Removal(old(code), curr, includeJitInstructions);
        changed == w.Replace? && code == Apply(old(code), w)
      ensures changed ==> |code| < |old(code)| && next <= |code| && (next == 0 || next + 3 <= curr)
    {
      hide Splice;
      changed, next := false, 0;
      var op := code[curr].op;
      if op == Op.JitEntry && !includeJitInstructions {
        next := DeleteAndGoBack(curr);
        return true, next;
      }
      if curr + 1 == |code| {
        return;
      }
      if op == Op.PopPtr && code[curr + 1].op == Op.RET {
        // PopPtr, RET b -> RET b
        next := DeleteAndGoBack(curr);
        return true, next;
      } else if op == Op.SUSPEND || op == Op.LINE {
        if Skips(code, curr, Op.JitEntry) {
          // SUSPEND, JitEntry, SUSPEND -> SUSPEND and LINE, JitEntry, LINE -> LINE
          SplicedTwice(code, curr);
          next := DeleteAndGoBack(curr + 1);
          next := DeleteAndGoBack(curr);
          return true, next;
        } else if code[curr + 1].op == op || Skips(code, curr, Op.Block)
                  || (op == Op.LINE && Skips(code, curr, Op.VarDecl)) {
          // SUSPEND, SUSPEND -> SUSPEND; SUSPEND, Block, SUSPEND -> Block, SUSPEND
          // LINE, LINE -> LINE; LINE, Block, LINE -> Block, LINE; LINE, VarDecl, LINE -> VarDecl, LINE
          next := DeleteAndGoBack(curr);
          return true, next;
        }
      } else if op == Op.JMP && IsLabel(code[curr + 1], code[curr].a0) {
        // JMP +0 -> remove
        next := DeleteAndGoBack(curr);
        return true, next;
      }
    }

    /** Replace the label of each jump by the distance to it; -1 if a label is missing. */
    method ResolveJumpAddresses() returns (r: int)
      modifies this`code
      ensures r == 0 || r == -1
      ensures r == 0 <==> AllResolve(old(code))
      ensures r == 0 ==> code == Resolved(old(code))
    {
      hide Target, Pos, ResolvedAt;
      ghost var was := code;
      var i, currPos := 0, 0;
      PosFirst(code);
      while i < |code|
        invariant i <= |code| && SameSkeleton(was, code) && currPos == Pos(was, i)
        invariant forall j :: 0 <= j < i ==> code[j] == ResolvedAt(was, j)
        invariant forall j :: i <= j < |code| ==> code[j] == was[j]
        invariant forall j :: 0 <= j < i && (IsLabelJump(was[j].op) || was[j].op == Op.TryBlock) ==>
          Target(was, j, was[j].a0) != -1
        decreases |code| - i
      {
        if IsLabelJump(code[i].op) || code[i].op == Op.TryBlock {
          SameLabels(was, code, i, code[i].a0);
          var t := Target(code, i, code[i].a0);
          if t == -1 {
            return -1;
          }
          var delta := Pos(code, t) - Pos(code, i) - code[i].size;
          SamePositions(was, code, i);
          SamePositions(was, code, t);
          ResolvedIs(was, i);
          code := code[i := code[i].(a0 := if code[i].op == Op.TryBlock then currPos + delta else delta)];
        } else {
          ResolvedIs(was, i);
        }
        PosNext(was, i);
        assert code[i].size == was[i].size;
        currPos, i := currPos + code[i].size, i + 1;
      }
      return 0;
    }

    // Add a line to the buffers, in place of the last one if that is at the same position.
    method RecordLine(again: bool, pos: int, line: int, section: int, ghost table: seq<LineEntry>)
      requires lineNumbers == Flat(table) && sectionIdxs == Sections(table)
      requires again <==> table != [] && table[|table| - 1].pos == pos
      modifies this`lineNumbers, this`sectionIdxs
      ensures lineNumbers == Flat(LineSet(table, LineEntry(pos, line, section)))
      ensures sectionIdxs == Sections(LineSet(table, LineEntry(pos, line, section)))
    {
      hide Flat, Sections;
      if again {
        FlatLast(table);
        FlatMore(table[..|table| - 1], LineEntry(pos, line, section));
        lineNumbers := lineNumbers[..|lineNumbers| - 2];
        sectionIdxs := sectionIdxs[..|sectionIdxs| - 1];
      } else {
        FlatMore(table, LineEntry(pos, line, section));
      }
      lineNumbers := lineNumbers + [pos, line];
      sectionIdxs := sectionIdxs + [section];
    }

    /** Take the line numbers out of the list: each LINE becomes a SUSPEND or is dropped. */
    method ExtractLineNumbers()
      requires lineNumbers == [] && sectionIdxs == []
      requires forall i :: 0 <= i < |code| ==> code[i].size >= 0
      modifies this`code, this`lineNumbers, this`sectionIdxs
      ensures code == Lined(old(code), |old(code)|, buildWithoutLineCues)
      ensures lineNumbers == Flat(LineTable(old(code), |old(code)|, buildWithoutLineCues))
      ensures sectionIdxs == Sections(LineTable(old(code), |old(code)|, buildWithoutLineCues))
    {
      hide Lined, LinedPos, LineTable, Flat, Sections, LineSet, InfoType;
      ghost var was, n := code, 0;
      ghost var table: seq<LineEntry> := [];
      var lastLinePos, pos, i := -1, 0, 0;
      LinesFirst(was, buildWithoutLineCues);
      while i < |code|
        invariant n <= |was| && i == |Lined(was, n, buildWithoutLineCues)|
        invariant code == Lined(was, n, buildWithoutLineCues) + was[n..]
        invariant pos == LinedPos(was, n, buildWithoutLineCues) >= 0
        invariant table == LineTable(was, n, buildWithoutLineCues)
        invariant lastLinePos == if table == [] then -1 else table[|table| - 1].pos
        invariant lineNumbers == Flat(table) && sectionIdxs == Sections(table)
        decreases |was| - n
      {
        var curr := code[i];
        LinesNext(was, n, buildWithoutLineCues);
        LineTaken(was, n, buildWithoutLineCues);
        if curr.op == Op.LINE {
          RecordLine(lastLinePos == pos, pos, curr.a0, curr.a1, table);
          lastLinePos := pos;
          table := LineSet(table, LineEntry(pos, curr.a0, curr.a1));
          if !buildWithoutLineCues {
            // Transform LINE into SUSPEND
            code := code[i := Suspended(curr)];
            pos := pos + Suspended(curr).size;
            i := i + 1;
          } else {
            // Delete the instruction
            code := code[..i] + code[i + 1..];
          }
        } else {
          pos := pos + curr.size;
          i := i + 1;
        }
        n := n + 1;
      }
    }

    // Write one instruction over the words at `ap`.
    method WriteInstruction(words: array<int>, ap: nat, ins: Ins)
      requires ins.size == TypeSize(InfoType(ins.op)) > 0 && ap + ins.size <= words.Length
      modifies words
      ensures WrittenAt(words[..], ap, ins, old(words[..]))
      ensures forall q :: 0 <= q < words.Length && !(ap <= q < ap + ins.size) ==> words[q] == old(words[q])
    {
      hide InfoType, U16, U32, Halves;
      var t := InfoType(ins.op);
      words[ap] := ins.op + 0x1_0000 * (if t == NO_ARG || CopiesMemory(t) then 0 else U16(ins.w0));
      if t == wW_rW_rW_ARG {
        words[ap + 1] := Halves(ins.w1, ins.w2);
      } else if t in {wW_DW_ARG, rW_DW_ARG, W_DW_ARG} {
        words[ap + 1] := U32(ins.a0);
      } else if t in {wW_rW_DW_ARG, rW_W_DW_ARG} {
        words[ap + 1] := words[ap + 1] - U16(words[ap + 1]) + U16(ins.w1);
        words[ap + 2] := U32(ins.a0);
      } else if t in {wW_QW_ARG, rW_QW_ARG} {
        words[ap + 1], words[ap + 2] := U32(ins.a0), U32(ins.a1);
      } else if t in {wW_rW_ARG, rW_rW_ARG, wW_W_ARG} {
        words[ap + 1] := words[ap + 1] - U16(words[ap + 1]) + U16(ins.w1);
      } else if CopiesMemory(t) || t == rW_DW_DW_ARG {
        var n := 1;
        while n < ins.size
          invariant 1 <= n <= ins.size && words[ap] == EncodedWord(ins, 0, old(words[ap]))
          invariant forall q :: ap < q < ap + n ==> words[q] == MemoryWord(ins, q - ap - 1)
          invariant forall q :: 0 <= q < words.Length && !(ap <= q < ap + n) ==> words[q] == old(words[q])
        {
          words[ap + n] := MemoryWord(ins, n - 1);
          n := n + 1;
        }
      }
    }

    // The number of words.
    method GetSize() returns (size: int)
      ensures size == Pos(code, |code|)
    {
      hide Pos;
      var i := 0;
      size := 0;
      PosFirst(code);
      while i < |code|
        invariant i <= |code| && size == Pos(code, i)
      {
        PosNext(code, i);
        size, i := size + code[i].size, i + 1;
      }
    }

    /** Write the final program. */
    method Output(words: array<int>)
      requires words.Length == Pos(code, |code|) && AllEmitted(code)
      modifies words
      ensures Holds(code, words[..], |code|)
    {
      hide InfoType, Decode, Canon, Pos, WrittenAt, AllEmitted, Holds;
      var ap, i := 0, 0;
      HoldsNone(code, words[..]);
      while i < |code|
        invariant i <= |code| && ap == Pos(code, i) >= 0 && Holds(code, words[..], i)
        decreases |code| - i
      {
        ghost var was := words[..];
        EmittedAt(code, i);
        EmittedOrder(code, i, |code|);
        if code[i].size > 0 {
          WriteInstruction(words, ap, code[i]);
        }
        HoldsMore(code, was, words[..], i);
        ap, i := ap + code[i].size, i + 1;
      }
    }
  }
}
