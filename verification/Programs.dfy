/** The virtual machine on the final words, and the proof that it runs the assembled program as the
    list with labels runs. */
module Programs {
  import Op
  import opened Tables
  import opened Instructions
  import opened CodeLists
  import opened Machine
  import opened Layout
  import opened Words
  import opened Assembling

  // ----- the machine on words -----

  function JumpTo(q: int, s: State): Res {
    if q < 0 then Wild else At(q, s)
  }

  /** One instruction of the final program; `p` is the position of its first word. */
  function StepWords(vm: VM, words: seq<int>, p: nat, s: State): Res {
    if p >= |words| then Ends(s)
    else
      var ins := Decode(words, p);
      if ins.op == Op.RET then Returned(ins.w0, ReturnValue(vm, s.core), s.core.obj, s.core.world)
      else if ins.op == Op.JMP then JumpTo(p + 2 + ins.a0, s)
      else if IsCondJump(ins.op) then
        if Taken(ins.op, s.core.reg) then JumpTo(p + 2 + ins.a0, s) else At(p + 2, s)
      else if ins.op == Op.JMPP then JumpTo(p + 1 + 2 * Read(s.vars, ins.w0), s)
      else if Faults(vm, ins, s) then Raised(Exec(vm, ins, s).core.world)
      else At(p + TypeSize(InfoType(ins.op)), Exec(vm, ins, s))
  }

  function RunWords(vm: VM, words: seq<int>, r: Res, n: nat): Res
    decreases n
  {
    if n == 0 || !r.At? then r else RunWords(vm, words, StepWords(vm, words, r.pc, r.s), n - 1)
  }

  // ----- what the assembler establishes -----

  ghost predicate AllResolve(code: seq<Ins>) {
    forall i :: 0 <= i < |code| && (IsLabelJump(code[i].op) || code[i].op == Op.TryBlock) ==>
      Target(code, i, code[i].a0) != -1
  }

  /** The jump at `i` with its relative address, or the try block with its absolute one. */
  function ResolvedAt(code: seq<Ins>, i: nat): Ins
    requires i < |code|
  {
    var t := Target(code, i, code[i].a0);
    if IsLabelJump(code[i].op) && t != -1 then code[i].(a0 := Pos(code, t) - Pos(code, i) - code[i].size)
    else if code[i].op == Op.TryBlock && t != -1 then code[i].(a0 := Pos(code, t) - code[i].size)
    else code[i]
  }

  // A LINE becomes a SUSPEND.
  function Suspended(ins: Ins): Ins {
    if ins.op == Op.LINE then ins.(op := Op.SUSPEND, size := TypeSize(InfoType(Op.SUSPEND))) else ins
  }

  /** Every instruction that takes up words stands at its position. */
  ghost predicate Assembled(code: seq<Ins>, words: seq<int>) {
    && |words| == Pos(code, |code|)
    && forall i {:trigger code[i]} :: 0 <= i < |code| && code[i].size > 0 ==>
      Decode(words, Pos(code, i)) == Canon(Suspended(ResolvedAt(code, i)))
  }

  // ----- running an instruction from its encoding -----

  lemma ExecCanon(vm: VM, ins: Ins, s: State)
    ensures Exec(vm, Canon(ins), s) == Exec(vm, ins, s)
    ensures Faults(vm, Canon(ins), s) <==> Faults(vm, ins, s)
  {
    hide InfoType, Value, Effect, ExecByAddress, FirstOperand, SecondOperand, Fetch;
    CanonOperands(ins, s.vars);
    var a, b := FirstOperand(ins, s.vars), SecondOperand(ins, s.vars);
    CanonValue(vm, ins, a, b, s.core);
    CanonEffect(vm, ins, a, b, s.core);
    if ByAddress(ins.op) {
      CanonAccess(vm, ins, s);
    }
    CanonOperation(ins);
    OffsetTypes(ins);
  }

  lemma OffsetTypes(ins: Ins)
    ensures ins.op in {Op.GETREF, Op.GETOBJREF} ==> Canon(ins).w0 == ins.w0
  {
    hide InfoType;
    StackTypes();
    HandleTypes();
  }

  lemma CanonOperation(ins: Ins)
    ensures Operation(Canon(ins)) == Operation(ins) && Canon(ins).op == ins.op
    ensures HasVariable(Canon(ins)) <==> HasVariable(ins)
  {
    hide InfoType;
  }

  lemma CanonOperands(ins: Ins, vars: map<int, int>)
    ensures FirstOperand(Canon(ins), vars) == FirstOperand(ins, vars)
    ensures SecondOperand(Canon(ins), vars) == SecondOperand(ins, vars)
    ensures HasVariable(ins) ==> Canon(ins).w0 == ins.w0
  {
    hide InfoType;
    FreeType();
  }

  lemma FreeType()
    ensures HasW0(InfoType(Op.FREE))
  {
  }

  lemma CanonValue(vm: VM, ins: Ins, a: int, b: int, c: Core)
    ensures Value(vm, Canon(ins), a, b, c) == Value(vm, ins, a, b, c)
  {
    hide InfoType, Operation;
    ConstantTypes();
    FragmentOperand(ins.op);
    CanonOperation(ins);
  }

  lemma ConstantTypes()
    ensures HasWord(InfoType(Op.SetV4)) && HasWord(InfoType(Op.SetV8)) && HasSecondWord(InfoType(Op.SetV8))
    ensures InfoType(Op.CpyGtoV4) == wW_PTR_ARG && InfoType(Op.LdGRdR4) == wW_PTR_ARG
  {
  }

  lemma FragmentOperand(op: int)
    ensures IsArithImm(op) || IsCompareImm(op) ==> HasWord(InfoType(op))
  {
  }

  lemma CanonEffect(vm: VM, ins: Ins, a: int, b: int, c: Core)
    ensures Effect(vm, Canon(ins), a, b, c) == Effect(vm, ins, a, b, c)
  {
    hide InfoType, Pushed, Rearranged, LoadedReg, Operation, PushValue, Freed;
    CanonOperation(ins);
    if IsPush(ins.op) {
      CanonPushed(vm, ins, a, c);
    } else if Rearranges(ins.op) {
      CanonStack(vm, ins, c.stack);
    } else if LoadsReg(ins.op) {
      CanonRegister(vm, ins, a, b, c.reg);
    }
    GlobalTypes();
  }

  lemma CanonPushed(vm: VM, ins: Ins, a: int, c: Core)
    requires IsPush(ins.op)
    ensures Pushed(vm, Canon(ins), a, c) == Pushed(vm, ins, a, c)
  {
    hide InfoType;
    PushTypes();
  }

  lemma CanonStack(vm: VM, ins: Ins, stack: seq<Cell>)
    requires Rearranges(ins.op)
    ensures Rearranged(vm, Canon(ins), stack) == Rearranged(vm, ins, stack)
  {
    hide InfoType;
    StackTypes();
  }

  lemma CanonRegister(vm: VM, ins: Ins, a: int, b: int, reg: int)
    requires LoadsReg(ins.op)
    ensures LoadedReg(vm, Canon(ins), a, b, reg) == LoadedReg(vm, ins, a, b, reg)
  {
    hide InfoType;
    RegisterTypes();
    FragmentOperand(ins.op);
  }

  lemma CanonAccess(vm: VM, ins: Ins, s: State)
    requires ByAddress(ins.op)
    ensures ExecByAddress(vm, Canon(ins), s) == ExecByAddress(vm, ins, s)
  {
    hide InfoType, Fetch, Store;
    HandleTypes();
  }

  lemma PushTypes()
    ensures HasWord(InfoType(Op.PshC4)) && InfoType(Op.PshC8) == QW_ARG && InfoType(Op.PshG4) == PTR_ARG
    ensures InfoType(Op.PshGPtr) == PTR_ARG && InfoType(Op.PGA) == PTR_ARG
    ensures HasW0(InfoType(Op.PSF)) && HasW0(InfoType(Op.VAR))
  {
  }

  lemma StackTypes()
    ensures HasW0(InfoType(Op.ADDSi)) && HasW0(InfoType(Op.GETREF))
  {
  }

  lemma RegisterTypes()
    ensures HasW0(InfoType(Op.LDV)) && HasW0(InfoType(Op.LoadThisR)) && InfoType(Op.LDG) == PTR_ARG
    ensures InfoType(Op.LoadRObjR) == rW_W_DW_ARG && InfoType(Op.LoadVObjR) == rW_W_DW_ARG
    ensures InfoType(Op.LdGRdR4) == wW_PTR_ARG
  {
    hide InfoType;
    MemberTypes();
    AddressTypes();
  }

  lemma MemberTypes()
    ensures InfoType(Op.LoadRObjR) == rW_W_DW_ARG && InfoType(Op.LoadVObjR) == rW_W_DW_ARG
    ensures InfoType(Op.LoadThisR) == W_DW_ARG
  {
  }

  lemma AddressTypes()
    ensures InfoType(Op.LDV) == rW_ARG && InfoType(Op.LDG) == PTR_ARG && InfoType(Op.LdGRdR4) == wW_PTR_ARG
  {
  }

  lemma HandleTypes()
    ensures HasW0(InfoType(Op.GETOBJREF)) && HasW0(InfoType(Op.RDR4)) && HasW0(InfoType(Op.WRTV4))
    ensures InfoType(Op.REFCPY) == PTR_ARG && InfoType(Op.RefCpyV) == wW_PTR_ARG
  {
  }

  lemma GlobalTypes()
    ensures InfoType(Op.CpyVtoG4) == rW_PTR_ARG && InfoType(Op.FREE) == wW_PTR_ARG
    ensures InfoType(Op.SetG4) == PTR_DW_ARG
  {
  }

  // ----- the two machines in step -----

  ghost predicate Ready(code: seq<Ins>, words: seq<int>, noLineCues: bool) {
    && AllSized(code, noLineCues) && AllResolve(code) && WholeTables(code)
    && Assembled(code, words)
  }

  /** The list stands at an instruction, the program at its position; or both have finished alike. */
  ghost predicate SamePoint(code: seq<Ins>, r: Res, w: Res) {
    if r.At? then r.pc <= |code| && w.At? && w.pc == Pos(code, r.pc) && w.s == r.s else w == r
  }

  // Directives take up no words and do nothing.
  lemma DirectiveSteps(vm: VM, code: seq<Ins>, noLineCues: bool, i: nat, s: State)
    requires AllSized(code, noLineCues) && i < |code| && code[i].size == 0
    ensures Step(vm, code, i, s) == At(i + 1, s) && Pos(code, i + 1) == Pos(code, i)
  {
    hide InfoType, TypeSize;
    assert Sized(code[i], noLineCues);
  }

  lemma {:induction false} TablePositions(code: seq<Ins>, noLineCues: bool, i: nat, v: nat)
    requires AllSized(code, noLineCues) && i < |code| && code[i].op == Op.JMPP && WholeTable(code, i) && v <= code[i].a0
    ensures Pos(code, i + 1 + v) == Pos(code, i) + 1 + 2 * v
  {
    JumpSizes();
    assert Sized(code[i], noLineCues);
    if v > 0 {
      TablePositions(code, noLineCues, i, v - 1);
      assert code[i + v].op == Op.JMP && Sized(code[i + v], noLineCues);
    }
  }

  lemma JumpSizes()
    ensures TypeSize(InfoType(Op.JMPP)) == 1 && TypeSize(InfoType(Op.JMP)) == 2
  {
  }

  lemma CondJumpType(op: int)
    requires IsLabelJump(op)
    ensures InfoType(op) == DW_ARG
  {
  }

  // What is known of the instruction at `i` and its encoding at position `p`.
  lemma ReadyAt(code: seq<Ins>, words: seq<int>, noLineCues: bool, i: nat)
    requires Ready(code, words, noLineCues) && i < |code|
    ensures Sized(code[i], noLineCues)
    ensures IsLabelJump(code[i].op) ==> Target(code, i, code[i].a0) != -1
    ensures code[i].op == Op.JMPP ==> WholeTable(code, i)
    ensures code[i].size > 0 ==> Decode(words, Pos(code, i)) == Canon(Suspended(ResolvedAt(code, i)))
  {
    hide InfoType, Decode, Canon, ResolvedAt, Sized, WholeTable;
  }

  /** An instruction with words does in the program what it does in the list. */
  lemma InstructionSteps(vm: VM, code: seq<Ins>, words: seq<int>, noLineCues: bool, i: nat, p: nat, s: State)
    requires Ready(code, words, noLineCues) && i < |code| && p == Pos(code, i) < |words|
    requires code[i].size > 0 && Step(vm, code, i, s) != Wild
    ensures SamePoint(code, Step(vm, code, i, s), StepWords(vm, words, p, s))
  {
    hide InfoType, Faults, Exec, Decode, Taken, Ready, Canon, ResolvedAt, WholeTable, SamePoint;
    var ins := code[i];
    ReadyAt(code, words, noLineCues, i);
    if IsLabelJump(ins.op) {
      var t := Target(code, i, ins.a0);
      ReadySized(code, words, noLineCues);
      PosOrder(code, noLineCues, t, |code|);
      JumpSteps(vm, code, words, i, p, s);
    } else if ins.op == Op.JMPP {
      ReadySized(code, words, noLineCues);
      TableSteps(vm, code, words, noLineCues, i, p, s);
    } else {
      PlainSteps(vm, code, words, noLineCues, i, p, s);
    }
  }

  lemma PlainSteps(vm: VM, code: seq<Ins>, words: seq<int>, noLineCues: bool, i: nat, p: nat, s: State)
    requires Ready(code, words, noLineCues) && i < |code| && p == Pos(code, i) < |words|
    requires code[i].size > 0 && !IsLabelJump(code[i].op) && code[i].op != Op.JMPP
    ensures SamePoint(code, Step(vm, code, i, s), StepWords(vm, words, p, s))
  {
    hide InfoType, Faults, TypeSize, Exec, Decode, Target, Ready, WholeTable;
    var ins := code[i];
    ReadyAt(code, words, noLineCues, i);
    if ins.op == Op.RET {
      ReturnType();
    } else if ins.op == Op.LINE {
      LineSteps(vm, ins, s);
    } else {
      ExecCanon(vm, ins, s);
    }
  }

  lemma ReturnType()
    ensures HasW0(InfoType(Op.RET))
  {
  }

  lemma LineSteps(vm: VM, ins: Ins, s: State)
    requires ins.op == Op.LINE
    ensures Exec(vm, Canon(Suspended(ins)), s) == s && Exec(vm, ins, s) == s && TypeSize(InfoType(Op.SUSPEND)) == 1
    ensures !Faults(vm, Canon(Suspended(ins)), s) && !Faults(vm, ins, s)
  {
  }

  lemma JumpSteps(vm: VM, code: seq<Ins>, words: seq<int>, i: nat, p: nat, s: State)
    requires i < |code| && p == Pos(code, i) < |words| && IsLabelJump(code[i].op)
    requires Target(code, i, code[i].a0) != -1 && Pos(code, Target(code, i, code[i].a0)) >= 0
    requires code[i].size == TypeSize(InfoType(code[i].op))
    requires Decode(words, p) == Canon(Suspended(ResolvedAt(code, i)))
    ensures SamePoint(code, Step(vm, code, i, s), StepWords(vm, words, p, s))
  {
    hide InfoType, Faults, Exec, Decode, Target, Taken, Canon, Suspended, ResolvedAt, Pos;
    EncodedJump(code, i);
    PosAfter(code, i);
  }

  lemma PosAfter(code: seq<Ins>, i: nat)
    requires i < |code|
    ensures Pos(code, i + 1) == Pos(code, i) + code[i].size
  {
  }

  lemma EncodedJump(code: seq<Ins>, i: nat)
    requires i < |code| && IsLabelJump(code[i].op) && Target(code, i, code[i].a0) != -1
    requires code[i].size == TypeSize(InfoType(code[i].op))
    ensures var ins := Canon(Suspended(ResolvedAt(code, i)));
      && ins.op == code[i].op && ins.a0 == Pos(code, Target(code, i, code[i].a0)) - Pos(code, i) - 2
      && code[i].size == 2
  {
    hide InfoType, Target, Pos;
    CondJumpType(code[i].op);
  }

  lemma TableSteps(vm: VM, code: seq<Ins>, words: seq<int>, noLineCues: bool, i: nat, p: nat, s: State)
    requires i < |code| && p == Pos(code, i) < |words| && code[i].op == Op.JMPP
    requires AllSized(code, noLineCues) && WholeTable(code, i) && Step(vm, code, i, s) != Wild
    requires Decode(words, p) == Canon(Suspended(ResolvedAt(code, i)))
    ensures SamePoint(code, Step(vm, code, i, s), StepWords(vm, words, p, s))
  {
    hide InfoType, Faults, Exec, Decode, Target, Taken, AllSized, Canon, ResolvedAt, Pos;
    EncodedTable(code, i);
    TablePositions(code, noLineCues, i, Read(s.vars, code[i].w0));
  }

  lemma EncodedTable(code: seq<Ins>, i: nat)
    requires i < |code| && code[i].op == Op.JMPP
    ensures var ins := Canon(Suspended(ResolvedAt(code, i))); ins.op == Op.JMPP && ins.w0 == code[i].w0
  {
    hide InfoType;
    TableType();
  }

  lemma TableType()
    ensures HasW0(InfoType(Op.JMPP))
  {
  }

  /** Whatever a run of the list comes to, the final program comes to as well. */
  lemma {:induction false} ListToWords(vm: VM, code: seq<Ins>, words: seq<int>, noLineCues: bool, r: Res, w: Res,
                                       n: nat)
    returns (m: nat)
    requires Ready(code, words, noLineCues) && SamePoint(code, r, w)
    requires Run(vm, code, r, n) != Wild
    ensures SamePoint(code, Run(vm, code, r, n), RunWords(vm, words, w, m))
    decreases n
  {
    hide InfoType, Step, StepWords, Ready, AllSized;
    m := 0;
    if n > 0 && r.At? {
      var next := Step(vm, code, r.pc, r.s);
      assert next != Wild;
      if r.pc < |code| && code[r.pc].size == 0 {
        ReadySized(code, words, noLineCues);
        DirectiveSteps(vm, code, noLineCues, r.pc, r.s);
        m := ListToWords(vm, code, words, noLineCues, next, w, n - 1);
      } else {
        OneStep(vm, code, words, noLineCues, r.pc, r.s);
        m := ListToWords(vm, code, words, noLineCues, next, StepWords(vm, words, w.pc, w.s), n - 1);
        m := 1 + m;
      }
    }
  }

  lemma ReadySized(code: seq<Ins>, words: seq<int>, noLineCues: bool)
    requires Ready(code, words, noLineCues)
    ensures AllSized(code, noLineCues) && |words| == Pos(code, |code|)
  {
  }

  lemma OneStep(vm: VM, code: seq<Ins>, words: seq<int>, noLineCues: bool, i: nat, s: State)
    requires Ready(code, words, noLineCues) && i <= |code| && (i < |code| ==> code[i].size != 0)
    requires Step(vm, code, i, s) != Wild
    ensures Pos(code, i) >= 0 && SamePoint(code, Step(vm, code, i, s), StepWords(vm, words, Pos(code, i), s))
  {
    hide InfoType;
    PosOrder(code, noLineCues, i, |code|);
    if i < |code| {
      assert Sized(code[i], noLineCues);
      InstructionSteps(vm, code, words, noLineCues, i, Pos(code, i), s);
    }
  }

  /** And the other way round, for a list none of whose jump tables is overrun. */
  lemma {:induction false} WordsToList(vm: VM, code: seq<Ins>, words: seq<int>, noLineCues: bool, r: Res, w: Res,
                                       m: nat)
    returns (n: nat)
    requires Ready(code, words, noLineCues) && SamePoint(code, r, w)
    requires forall k: nat :: Run(vm, code, r, k) != Wild
    requires !RunWords(vm, words, w, m).At?
    ensures !Run(vm, code, r, n).At? && Run(vm, code, r, n) == RunWords(vm, words, w, m)
    decreases m, if r.At? then |code| - r.pc else 0
  {
    hide InfoType, Step, StepWords, Ready, AllSized;
    n := 0;
    if r.At? {
      var next := Step(vm, code, r.pc, r.s);
      assert Run(vm, code, r, 1) == next;
      forall k: nat
        ensures Run(vm, code, next, k) != Wild
      {
        assert Run(vm, code, r, k + 1) == Run(vm, code, next, k);
      }
      if r.pc < |code| && code[r.pc].size == 0 {
        ReadySized(code, words, noLineCues);
        DirectiveSteps(vm, code, noLineCues, r.pc, r.s);
        n := WordsToList(vm, code, words, noLineCues, next, w, m);
        n := 1 + n;
      } else {
        OneStep(vm, code, words, noLineCues, r.pc, r.s);
        n := WordsToList(vm, code, words, noLineCues, next, StepWords(vm, words, w.pc, w.s), m - 1);
        n := 1 + n;
      }
    }
  }
}
