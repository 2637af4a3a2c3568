/** The operand stack never takes more words than `PostProcess` says: in every run it is as high at an
    instruction as the depth recorded there. */
module StackUse {
  import Op
  import opened Tables
  import opened Instructions
  import opened CodeLists
  import opened Liveness
  import opened Machine
  import opened StackDepth
  import opened PostProcessing

  // ----- what an instruction does to the height -----

  // The instructions whose effect on the operand stack is not left open.
  predicate KnownStack(op: int) {
    || IsNop(op) || IsPush(op) || Rearranges(op) || ByAddress(op) || KeepsCore(op) || LoadsReg(op)
    || op in {Op.PopRPtr, Op.CpyVtoG4, Op.SetG4, Op.FREE, Op.STOREOBJ, Op.LOADOBJ}
  }

  // The words that an instruction has to find on the stack.
  function Needs(op: int): nat {
    if op == Op.SwapPtr then 2 * PTR_SIZE
    else if op in {Op.PopPtr, Op.PopRPtr, Op.REFCPY} then PTR_SIZE
    else 0
  }

  function Height(s: State): nat {
    |s.core.stack|
  }

  lemma PushHeight(vm: VM, ins: Ins, s: State)
    requires IsPush(ins.op)
    ensures Height(Exec(vm, ins, s)) == Height(s) + PushSize(ins.op)
  {
    hide InfoType, Pushed, HasVariable, Value;
  }

  lemma PushTable(op: int)
    requires IsPush(op)
    ensures InfoStackInc(op) == PushSize(op) && !VariableStackInc(op)
  {
  }

  lemma RearrangedHeight(vm: VM, ins: Ins, s: State)
    requires Rearranges(ins.op) && Height(s) >= Needs(ins.op)
    ensures !VariableStackInc(ins.op) && Height(Exec(vm, ins, s)) == Height(s) + InfoStackInc(ins.op)
  {
    hide InfoType, HasVariable, Value;
  }

  lemma AddressHeight(vm: VM, ins: Ins, s: State)
    requires ByAddress(ins.op) && Height(s) >= Needs(ins.op)
    ensures !VariableStackInc(ins.op) && Height(Exec(vm, ins, s)) == Height(s) + InfoStackInc(ins.op)
  {
    hide InfoType, Assigned, Fetch;
  }

  lemma LevelHeight(vm: VM, ins: Ins, s: State)
    requires KnownStack(ins.op) && !IsPush(ins.op) && !Rearranges(ins.op) && !ByAddress(ins.op) && ins.op != Op.PopRPtr
    ensures Height(Exec(vm, ins, s)) == Height(s)
  {
    hide InfoType, HasVariable, Value, LoadedReg, Freed;
  }

  lemma LevelTable(op: int)
    requires KnownStack(op) && !IsPush(op) && !Rearranges(op) && !ByAddress(op) && op != Op.PopRPtr
    ensures InfoStackInc(op) == 0 && !VariableStackInc(op)
  {
  }

  /** The table has the right stack effect of every known instruction. */
  lemma KnownHeight(vm: VM, ins: Ins, s: State)
    requires KnownStack(ins.op) && Height(s) >= Needs(ins.op)
    ensures !VariableStackInc(ins.op) && Height(Exec(vm, ins, s)) == Height(s) + InfoStackInc(ins.op)
  {
    hide Exec, Height, KnownStack, IsPush, Rearranges, ByAddress, InfoStackInc, VariableStackInc;
    if IsPush(ins.op) {
      PushHeight(vm, ins, s);
      PushTable(ins.op);
    } else if Rearranges(ins.op) {
      RearrangedHeight(vm, ins, s);
    } else if ByAddress(ins.op) {
      AddressHeight(vm, ins, s);
    } else if ins.op == Op.PopRPtr {
      PopRegisterHeight(vm, ins, s);
    } else {
      LevelHeight(vm, ins, s);
      LevelTable(ins.op);
    }
  }

  lemma PopRegisterHeight(vm: VM, ins: Ins, s: State)
    requires ins.op == Op.PopRPtr && Height(s) >= Needs(ins.op)
    ensures !VariableStackInc(ins.op) && Height(Exec(vm, ins, s)) == Height(s) + InfoStackInc(ins.op)
  {
    hide InfoType;
  }

  // ----- runs -----

  /** The other instructions, such as calls, do what they are counted for. */
  ghost predicate OthersCounted(vm: VM, code: seq<Ins>) {
    forall i, s :: 0 <= i < |code| && !KnownStack(code[i].op) && Height(s) + code[i].stackInc >= 0 ==>
      Height(Exec(vm, code[i], s)) == Height(s) + code[i].stackInc
  }

  /** Each instruction is counted as the table says, and the directives for nothing. */
  ghost predicate CountedByTable(code: seq<Ins>) {
    forall i :: 0 <= i < |code| ==> Conforms(code[i]) && (code[i].op >= Op.MAXBYTECODE ==> code[i].stackInc == 0)
  }

  // No instruction that is reached takes more from the stack than is there.
  ghost predicate NoUnderflow(code: seq<Ins>, depth: seq<int>, base: nat)
    requires |depth| == |code|
  {
    forall i :: 0 <= i < |code| && Reachable(code, i) ==>
      base + depth[i] >= Needs(code[i].op) && base + depth[i] + code[i].stackInc >= 0
  }

  lemma StepFollowsPath(vm: VM, code: seq<Ins>, i: nat, s: State)
    requires i < |code| && Step(vm, code, i, s).At? && Step(vm, code, i, s).pc < |code|
    ensures PathTo(code, i, Step(vm, code, i, s).pc)
  {
    hide Exec, Faults, InfoType, Taken;
  }

  lemma StepHeight(vm: VM, code: seq<Ins>, i: nat, s: State)
    requires i < |code| && Step(vm, code, i, s).At? && CountedByTable(code) && OthersCounted(vm, code)
    requires Height(s) >= Needs(code[i].op) && Height(s) + code[i].stackInc >= 0
    ensures Height(Step(vm, code, i, s).s) == Height(s) + code[i].stackInc
  {
    hide Exec, Faults, Taken, InfoType, InfoStackInc, VariableStackInc, Target, KnownStack, Height;
    var ins := code[i];
    assert Conforms(ins);
    if ins.op == Op.JMP || IsCondJump(ins.op) || ins.op == Op.JMPP {
      JumpTable(ins.op);
    } else if KnownStack(ins.op) {
      KnownHeight(vm, ins, s);
      KnownInTable(ins.op);
    }
  }

  lemma KnownInTable(op: int)
    requires KnownStack(op)
    ensures 0 <= op && (op >= Op.MAXBYTECODE ==> InfoStackInc(op) == 0)
  {
  }

  lemma JumpTable(op: int)
    requires op == Op.JMP || IsCondJump(op) || op == Op.JMPP
    ensures InfoStackInc(op) == 0 && !VariableStackInc(op) && 0 <= op < Op.MAXBYTECODE
  {
  }

  /** A run stands where the paths lead, and the stack is as high as recorded there. */
  ghost predicate Stands(code: seq<Ins>, depth: seq<int>, base: nat, r: Res)
    requires |depth| == |code|
  {
    r.At? && r.pc < |code| ==> Reachable(code, r.pc) && Height(r.s) == base + depth[r.pc]
  }

  ghost predicate NoHigher(largest: int, base: nat, r: Res) {
    r.At? ==> Height(r.s) <= base + largest
  }

  /** What the recorded depths are worth. */
  ghost predicate Counted(vm: VM, code: seq<Ins>, depth: seq<int>, base: nat) {
    && Consistent(code, depth) && NoUnderflow(code, depth, base) && CountedByTable(code) && OthersCounted(vm, code)
  }

  lemma StandsNext(vm: VM, code: seq<Ins>, depth: seq<int>, base: nat, i: nat, s: State)
    requires Counted(vm, code, depth, base) && Stands(code, depth, base, At(i, s))
    ensures Stands(code, depth, base, Step(vm, code, i, s))
    ensures forall largest :: IsLargest(code, depth, largest) ==> NoHigher(largest, base, Step(vm, code, i, s))
  {
    hide Reachable, CountedByTable, OthersCounted, Height, PathTo;
    if i < |code| {
      hide Step;
      var r := Step(vm, code, i, s);
      if r.At? {
        StepHeight(vm, code, i, s);
        if r.pc < |code| {
          StepFollowsPath(vm, code, i, s);
          NextReachable(code, i, r.pc);
        }
      }
    }
  }

  // Both of a run that goes on or has ended.
  ghost predicate InBounds(code: seq<Ins>, depth: seq<int>, largest: int, base: nat, r: Res)
    requires |depth| == |code|
  {
    Stands(code, depth, base, r) && NoHigher(largest, base, r)
  }

  lemma KeptAtStart(vm: VM, code: seq<Ins>, depth: seq<int>, largest: int, s: State)
    requires Counted(vm, code, depth, Height(s)) && IsLargest(code, depth, largest) && |code| > 0
    ensures InBounds(code, depth, largest, Height(s), At(0, s))
  {
    FirstReachable(code);
  }

  lemma KeptNext(vm: VM, code: seq<Ins>, depth: seq<int>, largest: int, base: nat, r: Res)
    requires Counted(vm, code, depth, base) && IsLargest(code, depth, largest) && r.At?
    requires InBounds(code, depth, largest, base, r)
    ensures InBounds(code, depth, largest, base, Step(vm, code, r.pc, r.s))
  {
    hide Step, IsLargest, NoHigher, Counted;
    StandsNext(vm, code, depth, base, r.pc, r.s);
  }

  lemma {:induction false} KeptThrough(vm: VM, code: seq<Ins>, depth: seq<int>, largest: int, base: nat, r: Res, n: nat)
    requires Counted(vm, code, depth, base) && IsLargest(code, depth, largest)
    requires InBounds(code, depth, largest, base, r)
    ensures InBounds(code, depth, largest, base, Run(vm, code, r, n))
    decreases n
  {
    hide InBounds, Counted, IsLargest, Step;
    if n > 0 && r.At? {
      KeptNext(vm, code, depth, largest, base, r);
      KeptThrough(vm, code, depth, largest, base, Step(vm, code, r.pc, r.s), n - 1);
    }
  }

  /** In every run the stack is as high at an instruction as its depth says, and it never has more words
      than `largestStackUsed`. */
  lemma NeverMore(vm: VM, code: seq<Ins>, depth: seq<int>, largest: int, s: State, n: nat)
    requires Counted(vm, code, depth, Height(s)) && IsLargest(code, depth, largest) && |code| > 0
    ensures var r := Run(vm, code, At(0, s), n);
      r.At? ==>
        && Height(r.s) <= Height(s) + largest
        && (r.pc < |code| ==> Height(r.s) == Height(s) + depth[r.pc])
  {
    hide Run, Counted, IsLargest, Height;
    KeptAtStart(vm, code, depth, largest, s);
    KeptThrough(vm, code, depth, largest, Height(s), At(0, s), n);
  }
}
