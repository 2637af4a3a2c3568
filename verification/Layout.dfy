/** Sizes, positions and fields of emitted instructions. */
module Layout {
  import Op
  import opened Tables
  import opened Instructions
  import opened CodeLists
  import opened Machine

  predicate IsDirective(op: int) {
    op in {Op.TryBlock, Op.VarDecl, Op.Block, Op.ObjInfo, Op.LABEL}
  }

  /** The sizes that the emitters give: those of the table for real instructions, none for
      directives, and for a LINE the size of the SUSPEND it will become, or none if it is dropped. */
  predicate Sized(ins: Ins, noLineCues: bool) {
    if ins.op == Op.LINE then ins.size == if noLineCues then 0 else 1
    else if IsDirective(ins.op) then ins.size == 0
    else 0 <= ins.op < Op.MAXBYTECODE && ins.size == TypeSize(InfoType(ins.op)) > 0
  }

  ghost predicate AllSized(code: seq<Ins>, noLineCues: bool) {
    forall i :: 0 <= i < |code| ==> Sized(code[i], noLineCues)
  }

  /** The operands fit their fields: `wArg` are 16 bits, the halves of `arg` 32 bits. */
  predicate InRange(ins: Ins) {
    && 0 <= ins.op < 0x100
    && Signed16(ins.w0) == ins.w0 && Signed16(ins.w1) == ins.w1 && Signed16(ins.w2) == ins.w2
    && Signed32(ins.a0) == ins.a0 && Signed32(ins.a1) == ins.a1
  }

  ghost predicate AllInRange(code: seq<Ins>) {
    forall i :: 0 <= i < |code| ==> InRange(code[i])
  }

  // ----- positions -----

  lemma {:induction false} PosOrder(code: seq<Ins>, noLineCues: bool, i: nat, n: nat)
    requires AllSized(code, noLineCues) && i <= n <= |code|
    ensures 0 <= Pos(code, i) <= Pos(code, n)
    ensures i < n && code[i].size > 0 ==> Pos(code, i) < Pos(code, n)
    decreases n
  {
    hide InfoType, TypeSize;
    if n > 0 {
      PosOrder(code, noLineCues, if i < n then i else n - 1, n - 1);
      assert Sized(code[n - 1], noLineCues);
    }
  }

  lemma PosFirst(code: seq<Ins>)
    ensures Pos(code, 0) == 0
  {
  }

  lemma PosNext(code: seq<Ins>, i: nat)
    requires i < |code|
    ensures Pos(code, i + 1) == Pos(code, i) + code[i].size
  {
  }

  /** The list can be written: sizes as emitted, operands that fit, and not too long for jumps. */
  ghost predicate Writable(code: seq<Ins>, noLineCues: bool) {
    AllSized(code, noLineCues) && AllInRange(code) && Pos(code, |code|) < 0x8000_0000
  }

  // The words that the instructions take up.
  function Size(b: seq<Ins>): int {
    if b == [] then 0 else b[0].size + Size(b[1..])
  }

  lemma {:induction false} SizeOfSum(a: seq<Ins>, b: seq<Ins>)
    ensures Size(a + b) == Size(a) + Size(b)
    decreases |a|
  {
    if a == [] {
      assert a + b == b;
    } else {
      assert (a + b)[1..] == a[1..] + b;
      SizeOfSum(a[1..], b);
    }
  }

  lemma {:induction false} PosIsSize(code: seq<Ins>, i: nat)
    requires i <= |code|
    ensures Pos(code, i) == Size(code[..i])
  {
    if i > 0 {
      PosIsSize(code, i - 1);
      assert code[..i] == code[..i - 1] + [code[i - 1]] && [code[i - 1]][1..] == [];
      SizeOfSum(code[..i - 1], [code[i - 1]]);
    }
  }

  ghost predicate PartWritable(b: seq<Ins>, noLineCues: bool) {
    forall i :: 0 <= i < |b| ==> Sized(b[i], noLineCues) && InRange(b[i])
  }

  /** With `b` instead of `a`, what could be written still can be, in no more words. */
  ghost predicate Slimmer(a: seq<Ins>, b: seq<Ins>) {
    forall noLineCues: bool :: PartWritable(a, noLineCues) ==> PartWritable(b, noLineCues) && Size(b) <= Size(a)
  }

  lemma StaysWritable(front: seq<Ins>, a: seq<Ins>, b: seq<Ins>, rest: seq<Ins>, noLineCues: bool)
    requires Slimmer(a, b) && Writable(front + a + rest, noLineCues)
    ensures Writable(front + b + rest, noLineCues)
  {
    hide Sized, InRange, Pos, Size;
    var code, code' := front + a + rest, front + b + rest;
    assert forall i :: 0 <= i < |a| ==> a[i] == code[|front| + i];
    assert PartWritable(a, noLineCues);
    PosIsSize(code, |code|);
    PosIsSize(code', |code'|);
    assert code[..|code|] == code && code'[..|code'|] == code';
    SizeOfSum(front + a, rest);
    SizeOfSum(front, a);
    SizeOfSum(front + b, rest);
    SizeOfSum(front, b);
    PartsWritable(front, a, b, rest, noLineCues);
  }

  lemma PartsWritable(front: seq<Ins>, a: seq<Ins>, b: seq<Ins>, rest: seq<Ins>, noLineCues: bool)
    requires PartWritable(front + a + rest, noLineCues) && PartWritable(b, noLineCues)
    ensures PartWritable(front + b + rest, noLineCues)
  {
    hide Sized, InRange;
    var code, code' := front + a + rest, front + b + rest;
    forall i | 0 <= i < |code'|
      ensures Sized(code'[i], noLineCues) && InRange(code'[i])
    {
      if i >= |front| + |b| {
        assert code'[i] == code[i - |b| + |a|];
      } else if i >= |front| {
        assert code'[i] == b[i - |front|];
      } else {
        assert code'[i] == code[i];
      }
    }
  }
}
