/** The contents of one byte code instruction, and what the optimizer knows about it. */
module Instructions {
  import Op
  import opened Tables

  /** The payload of `asCByteInstruction`. `a0` and `a1` are the low and the high 32 bits of the
      64-bit `arg`, `w0`..`w2` the three `wArg`. A jump keeps its label in `a0`, a label its number
      in `w0`, and a JMPP the largest value of its table in `a0`. */
  datatype Ins = Ins(op: int, a0: int, a1: int, w0: int, w1: int, w2: int, size: int, stackInc: int)

  predicate IsCondJump(op: int) {
    Op.JZ <= op <= Op.JNP || op == Op.JLowZ || op == Op.JLowNZ
  }

  predicate IsLabelJump(op: int) {
    op == Op.JMP || IsCondJump(op)
  }

  predicate IsJmpOrLabel(op: int) {
    IsLabelJump(op) || op == Op.JMPP || op == Op.LABEL
  }

  predicate IsLabel(ins: Ins, lab: int) {
    ins.op == Op.LABEL && ins.w0 == lab
  }

  // The instruction types whose first operand is a variable that is overwritten.
  predicate WritesFirst(t: BCType) {
    t in {wW_rW_rW_ARG, wW_rW_ARG, wW_rW_DW_ARG, wW_ARG, wW_W_ARG, wW_DW_ARG, wW_QW_ARG}
  }

  // The instruction types whose first operand is a variable that is read.
  predicate ReadsFirst(t: BCType) {
    t in {rW_ARG, rW_DW_ARG, rW_QW_ARG, rW_W_DW_ARG, rW_DW_DW_ARG, rW_rW_ARG}
  }

  predicate ReadsVar(ins: Ins, x: int) {
    var t := InfoType(ins.op);
    || (t == wW_rW_rW_ARG && (ins.w1 == x || ins.w2 == x))
    || ((ReadsFirst(t) || ins.op == Op.FREE) && ins.w0 == x)
    || (t in {wW_rW_ARG, wW_rW_DW_ARG, rW_rW_ARG} && ins.w1 == x)
    || (ins.op == Op.LoadThisR && x == 0)
  }

  predicate OverwritesVar(ins: Ins, x: int) {
    || ins.op == Op.RET
    || ins.op == Op.SUSPEND
    || (WritesFirst(InfoType(ins.op)) && ins.w0 == x)
  }

  predicate IsTest(op: int) {
    Op.TZ <= op <= Op.TNP
  }

  /** Instructions that read the value register. */
  predicate TakesReg(op: int) {
    || op in {Op.INCi, Op.DECi, Op.INCi8, Op.DECi8, Op.INCi16, Op.DECi16, Op.INCi64, Op.DECi64}
    || op in {Op.INCf, Op.DECf, Op.INCd, Op.DECd}
    || op in {Op.WRTV1, Op.WRTV2, Op.WRTV4, Op.WRTV8, Op.RDR1, Op.RDR2, Op.RDR4, Op.RDR8}
    || op in {Op.PshRPtr, Op.CpyRtoV4, Op.CpyRtoV8, Op.TZ, Op.TNZ, Op.TS, Op.TNS, Op.TP, Op.TNP}
    || op in {Op.JZ, Op.JNZ, Op.JS, Op.JNS, Op.JP, Op.JNP, Op.JLowZ, Op.JLowNZ}
  }

  /** Instructions that give the value register a new value. */
  predicate GivesReg(op: int) {
    || op in {Op.CALL, Op.CALLSYS, Op.CALLBND, Op.CALLINTF, Op.CallPtr, Op.Thiscall1, Op.ALLOC}
    || op in {Op.CMPi, Op.CMPu, Op.CMPf, Op.CMPd, Op.CMPi64, Op.CMPu64, Op.CmpPtr, Op.CMPIi, Op.CMPIu, Op.CMPIf}
    || op in {Op.TZ, Op.TNZ, Op.TS, Op.TNS, Op.TP, Op.TNP, Op.CpyVtoR4, Op.CpyVtoR8}
    || op in {Op.PopRPtr, Op.LDG, Op.LDV, Op.LdGRdR4, Op.LoadThisR, Op.LoadRObjR, Op.LoadVObjR}
  }

  // Instructions that `IsTempRegUsed` takes to read the value register.
  predicate ReadsReg(op: int) {
    || Op.INCi16 <= op <= Op.DECd
    || Op.WRTV1 <= op <= Op.WRTV8
    || Op.RDR1 <= op <= Op.RDR8
    || op in {Op.PshRPtr, Op.CpyRtoV4, Op.CpyRtoV8}
    || IsTest(op) || IsCondJump(op)
  }

  // Instructions that `IsTempRegUsed` takes to give the value register a new value.
  predicate SetsReg(op: int) {
    || op in {Op.CALL, Op.PopRPtr, Op.CALLSYS, Op.CALLBND, Op.Thiscall1, Op.ALLOC, Op.CpyVtoR4, Op.LdGRdR4,
              Op.LDG, Op.LDV, Op.LoadThisR, Op.LoadRObjR, Op.LoadVObjR}
    || IsTest(op) || Op.CMPd <= op <= Op.CMPIu
  }

  // What `IsTempRegUsed` takes for readers is all of them but the 64-bit increments.
  lemma ReadersKnown(op: int)
    ensures TakesReg(op) <==> ReadsReg(op) || op in {Op.INCi64, Op.DECi64}
  {
  }

  // And what it takes to set the register is all that does but six instructions.
  lemma SettersKnown(op: int)
    ensures GivesReg(op) <==>
      SetsReg(op) || op in {Op.CpyVtoR8, Op.CmpPtr, Op.CALLINTF, Op.CMPi64, Op.CMPu64, Op.CallPtr}
  {
  }

  // Instructions behind which `IsTempRegUsed` takes the old value of the register to be gone.
  predicate ClobbersReg(op: int) {
    SetsReg(op) || op in {Op.SUSPEND, Op.JMPP, Op.JMP, Op.LABEL} || IsCondJump(op)
  }

  /** What holds a value: a variable, or the value register. The register may be wanted as an operand of
      an instruction that `IsTempRegUsed` looks for (`Register`), as the address of a 64-bit increment,
      which it does not look for (`Wide`), or as a value to keep or to return (`Result`). */
  datatype Place = Var(x: int) | Register | Wide | Result

  predicate Reads(ins: Ins, p: Place) {
    match p
    case Var(x) => ReadsVar(ins, x)
    case Register => ReadsReg(ins.op)
    case Wide => ins.op in {Op.INCi64, Op.DECi64, Op.CpyRtoV4}
    case Result => ins.op == Op.RET || ins.op == Op.CpyRtoV4
  }

  predicate Overwrites(ins: Ins, p: Place) {
    match p
    case Var(x) => OverwritesVar(ins, x)
    case _ => GivesReg(ins.op) || ins.op == Op.RET
  }

  /** The fields that depend on the opcode agree with the constant tables. */
  predicate Conforms(ins: Ins) {
    0 <= ins.op < Op.MAXBYTECODE ==>
      && ins.size == TypeSize(InfoType(ins.op))
      && (!VariableStackInc(ins.op) ==> ins.stackInc == InfoStackInc(ins.op))
  }
}
