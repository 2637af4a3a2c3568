/** The final program: instructions written into 32-bit words, and read back from them. */
module Words {
  import opened Tables
  import opened Instructions
  import opened Machine
  import opened Layout

  function U16(n: int): int {
    n % 0x1_0000
  }

  function U32(n: int): int {
    n % 0x1_0000_0000
  }

  // Two 16-bit halves in one word.
  function Halves(lo: int, hi: int): int {
    U16(lo) + 0x1_0000 * U16(hi)
  }

  // The words of an operand copied from memory: `arg`, then the first two `wArg`.
  function MemoryWord(ins: Ins, n: nat): int {
    if n == 0 then U32(ins.a0) else if n == 1 then U32(ins.a1) else Halves(ins.w0, ins.w1)
  }

  // Types that are copied from memory as a whole.
  predicate CopiesMemory(t: BCType) {
    t in {QW_DW_ARG, DW_DW_ARG, QW_ARG, DW_ARG}
  }

  /** What is written to word `n` of an instruction; `was` is what the word held before. */
  function EncodedWord(ins: Ins, n: nat, was: int): int {
    var t := InfoType(ins.op);
    if n == 0 then ins.op + 0x1_0000 * (if t == NO_ARG || CopiesMemory(t) then 0 else U16(ins.w0))
    else if CopiesMemory(t) || t == rW_DW_DW_ARG then MemoryWord(ins, n - 1)
    else if t == wW_rW_rW_ARG then Halves(ins.w1, ins.w2)
    else if t in {wW_DW_ARG, rW_DW_ARG, W_DW_ARG} then U32(ins.a0)
    else if t in {wW_QW_ARG, rW_QW_ARG} then if n == 1 then U32(ins.a0) else U32(ins.a1)
    else if n == 1 then was - U16(was) + U16(ins.w1)  // only the low half is written
    else U32(ins.a0)
  }

  /** The instruction at position `p`, as the virtual machine reads it. */
  function Decode(words: seq<int>, p: int): Ins {
    var w := seq(4, n => if 0 <= p + n < |words| then words[p + n] else 0);
    var op := w[0] % 0x100;
    var t := InfoType(op);
    Ins(op,
        if !HasWord(t) then 0 else Signed32(if t in {wW_rW_DW_ARG, rW_W_DW_ARG} then w[2] else w[1]),
        if HasSecondWord(t) then Signed32(w[2]) else 0,
        if !HasW0(t) then 0 else Signed16(if t == QW_DW_ARG then w[3] else w[0] / 0x1_0000),
        if !HasW1(t) then 0 else Signed16(if t == QW_DW_ARG then w[3] / 0x1_0000 else w[1]),
        if t == wW_rW_rW_ARG then Signed16(w[1] / 0x1_0000) else 0,
        0, 0)
  }

  // The words of an instruction stand at position `p`, written over `was`.
  ghost predicate WrittenAt(words: seq<int>, p: int, ins: Ins, was: seq<int>) {
    && 0 <= p && p + ins.size <= |words| == |was|
    && forall q :: p <= q < p + ins.size ==> words[q] == EncodedWord(ins, q - p, was[q])
  }

  lemma HalvesSplit(lo: int, hi: int)
    requires Signed16(lo) == lo && Signed16(hi) == hi
    ensures Signed16(Halves(lo, hi)) == lo && Signed16(Halves(lo, hi) / 0x1_0000) == hi
  {
    var l, h := U16(lo), U16(hi);
    hide U16, Halves;
    assert Halves(lo, hi) == l + 0x1_0000 * h && 0 <= l < 0x1_0000 by {
      HalvesAre(lo, hi);
    }
    assert Signed16(l) == lo && Signed16(h) == hi by {
      HalvesAre(lo, hi);
    }
    SplitWord(l, h);
  }

  lemma HalvesAre(lo: int, hi: int)
    requires Signed16(lo) == lo && Signed16(hi) == hi
    ensures Halves(lo, hi) == U16(lo) + 0x1_0000 * U16(hi) && 0 <= U16(lo) < 0x1_0000
    ensures Signed16(U16(lo)) == lo && Signed16(U16(hi)) == hi
  {
  }

  lemma SplitWord(l: int, h: int)
    requires 0 <= l < 0x1_0000
    ensures Signed16(l + 0x1_0000 * h) == Signed16(l) && (l + 0x1_0000 * h) / 0x1_0000 == h
  {
  }

  lemma FirstWord(op: int, w: int)
    requires 0 <= op < 0x100 && Signed16(w) == w
    ensures (op + 0x1_0000 * U16(w)) % 0x100 == op && Signed16((op + 0x1_0000 * U16(w)) / 0x1_0000) == w
  {
    var u := U16(w);
    assert Signed16(u) == w;
    WordParts(op, u);
  }

  lemma WordParts(op: int, u: int)
    requires 0 <= op < 0x100
    ensures (op + 0x1_0000 * u) % 0x100 == op && (op + 0x1_0000 * u) / 0x1_0000 == u
  {
    assert (op + 0x1_0000 * u) == op + 0x100 * (0x100 * u);
  }

  lemma LowHalf(was: int, w: int)
    requires Signed16(w) == w
    ensures Signed16(was - U16(was) + U16(w)) == w
  {
  }

  lemma WholeWord(a: int)
    requires Signed32(a) == a
    ensures Signed32(U32(a)) == a
  {
  }

  /** Reading an instruction back gives exactly its operands. */
  lemma DecodeWritten(words: seq<int>, p: int, ins: Ins, was: seq<int>)
    requires WrittenAt(words, p, ins, was) && InRange(ins) && ins.size == TypeSize(InfoType(ins.op)) > 0
    ensures Decode(words, p) == Canon(ins)
  {
    hide InfoType, Signed16, Signed32, U16, U32, Halves;
    var t := InfoType(ins.op);
    assert words[p] == EncodedWord(ins, 0, was[p]);
    WordParts(ins.op, 0);
    FirstWord(ins.op, ins.w0);
    HalvesSplit(ins.w0, ins.w1);
    HalvesSplit(ins.w1, ins.w2);
    WholeWord(ins.a0);
    WholeWord(ins.a1);
    if ins.size > 1 {
      LowHalf(was[p + 1], ins.w1);
    }
  }

  // Only the words of the instruction itself matter.
  lemma DecodeLocal(words: seq<int>, words': seq<int>, p: nat, size: int)
    requires |words| == |words'| && p < p + size <= |words| && size == TypeSize(InfoType(words[p] % 0x100)) > 0
    requires forall q :: p <= q < p + size ==> words[q] == words'[q]
    ensures Decode(words, p) == Decode(words', p)
  {
    hide InfoType, Signed16, Signed32;
    var t := InfoType(words[p] % 0x100);
    assert size > 1 ==> words[p + 1] == words'[p + 1];
    assert size > 2 ==> words[p + 2] == words'[p + 2];
    assert size > 3 ==> words[p + 3] == words'[p + 3];
  }

  lemma DecodedOp(words: seq<int>, p: nat, ins: Ins)
    requires p < |words| && Decode(words, p) == Canon(ins)
    ensures words[p] % 0x100 == ins.op
  {
    hide InfoType;
  }

  // ----- the fields of each type -----

  // The operand bits that the name of a type tells: 16 for each W, 32 for DW, 64 for QW.
  function OperandBits(t: BCType): nat {
    match t
    case INFO | NO_ARG => 0
    case W_ARG | wW_ARG | rW_ARG => 16
    case DW_ARG | wW_rW_ARG | rW_rW_ARG | wW_W_ARG => 32
    case wW_DW_ARG | rW_DW_ARG | W_DW_ARG | wW_rW_rW_ARG => 48
    case QW_ARG | DW_DW_ARG | wW_rW_DW_ARG | rW_W_DW_ARG => 64
    case wW_QW_ARG | rW_QW_ARG | rW_DW_DW_ARG => 80
    case QW_DW_ARG => 96
  }

  // The bits of the fields that are written and read.
  function FieldBits(t: BCType): nat {
    (if HasW0(t) then 16 else 0) + (if HasW1(t) then 16 else 0) + (if t == wW_rW_rW_ARG then 16 else 0)
    + (if HasWord(t) then 32 else 0) + (if HasSecondWord(t) then 32 else 0)
  }

  /** The operands that the emitter of a type takes, as it leaves them in the instruction; the values of
      the two words of a QW, or of a QW and a DW, are taken apart. */
  function Operands(ins: Ins): seq<int> {
    match InfoType(ins.op)
    case INFO | NO_ARG => []
    case W_ARG | wW_ARG | rW_ARG => [ins.w0]
    case wW_rW_ARG | rW_rW_ARG | wW_W_ARG => [ins.w0, ins.w1]
    case wW_rW_rW_ARG => [ins.w0, ins.w1, ins.w2]
    case DW_ARG => [ins.a0]
    case QW_ARG | DW_DW_ARG => [ins.a0, ins.a1]
    case wW_DW_ARG | rW_DW_ARG | W_DW_ARG => [ins.w0, ins.a0]
    case wW_rW_DW_ARG | rW_W_DW_ARG => [ins.w0, ins.w1, ins.a0]
    case wW_QW_ARG | rW_QW_ARG | rW_DW_DW_ARG => [ins.w0, ins.a0, ins.a1]
    case QW_DW_ARG => [ins.a0, ins.a1, ins.w0, ins.w1]
  }

  /** The fields are all the operands of the type; behind half a word for the instruction itself they
      fill exactly the words that the table gives it. */
  lemma FieldsFill(t: BCType)
    requires t != INFO
    ensures FieldBits(t) == OperandBits(t)
    ensures TypeSize(t) == (16 + FieldBits(t) + 31) / 32
  {
  }

  /** No operand is lost: two instructions that are written alike are the same instruction. */
  lemma WrittenAlike(words: seq<int>, words': seq<int>, p: int, ins: Ins, ins': Ins, was: seq<int>, was': seq<int>)
    requires |words| == |words'|
    requires WrittenAt(words, p, ins, was) && InRange(ins) && ins.size == TypeSize(InfoType(ins.op)) > 0
    requires WrittenAt(words', p, ins', was') && InRange(ins') && ins'.size == TypeSize(InfoType(ins'.op)) > 0
    requires forall q :: p <= q < p + ins.size ==> words[q] == words'[q]
    ensures ins.op == ins'.op && Operands(ins) == Operands(ins')
  {
    hide InfoType, EncodedWord, InRange, Decode, Canon, Operands;
    DecodeWritten(words, p, ins, was);
    DecodeWritten(words', p, ins', was');
    DecodedOp(words, p, ins);
    DecodeLocal(words, words', p, ins.size);
    CanonOperands(ins, ins');
  }

  lemma CanonOperands(ins: Ins, ins': Ins)
    requires Canon(ins) == Canon(ins')
    ensures ins.op == ins'.op && Operands(ins) == Operands(ins')
  {
    hide InfoType;
  }
}
