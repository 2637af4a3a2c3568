/** What a list of instructions means. The 32-bit integer instructions that the rewrites name, the tests,
    the jumps, and all instructions on addresses and handles that they name are concrete; every other
    instruction is an unspecified step that reads only the variables the optimizer takes it to read, and
    the value register only if the interpreter does; it writes at most its first operand, and it may
    raise an exception. */
module Machine {
  import Op
  import opened Tables
  import opened Instructions
  import opened CodeLists

  type World(==, 0, !new)  // memory outside the frame, reference counts, output

  // A word of the operand stack; VAR leaves the offset of a variable, which still has to be resolved.
  datatype Cell = Word(value: int) | Offset(value: int)

  /** The value register, the object register, the operand stack (a pointer or a 64-bit value is in the
      last of its words), and everything outside the frame. */
  datatype Core = Core(reg: int, obj: int, stack: seq<Cell>, world: World)

  datatype State = State(vars: map<int, int>, core: Core)

  // What handles of a type do: nothing, count references, or own a value.
  datatype Handling = Uncounted | Counted | ByValue

  /** The unspecified part of the machine: the other instructions, which of them leave the value
      register alone, floating point, memory, addresses and handles, and whether the function returns
      its value in the register. Variables that are not `addressed` are never reached by address. */
  datatype VM = VM(
    value: (Ins, int, int, Core) -> int,
    effect: (Ins, int, int, Core) -> Core,
    raises: (Ins, int, int, Core) -> bool,
    floatOp: (int, int, int) -> int,
    floatCmp: (int, int) -> int,
    load: (World, int) -> int,
    store: (World, int, int) -> World,
    frame: int,
    addressed: int -> bool,
    plus: (int, int) -> int,
    handling: int -> Handling,
    addRef: (World, int, int) -> World,
    release: (World, int, int) -> World,
    destroy: (World, int, int) -> World,
    keepsReg: int -> bool,
    hasResult: bool)

  function Read(vars: map<int, int>, x: int): int {
    if x in vars then vars[x] else 0
  }

  // ----- operands -----

  // The types of the instructions that find a value in the variable of their first operand.
  predicate TakesFirst(t: BCType) {
    t in {rW_ARG, rW_DW_ARG, rW_QW_ARG, rW_W_DW_ARG, rW_DW_DW_ARG, rW_rW_ARG}
  }

  // The types of those that leave one there.
  predicate GivesFirst(t: BCType) {
    t in {wW_rW_rW_ARG, wW_rW_ARG, wW_rW_DW_ARG, wW_ARG, wW_W_ARG, wW_DW_ARG, wW_QW_ARG}
  }

  function FirstOperand(ins: Ins, vars: map<int, int>): int {
    var t := InfoType(ins.op);
    if t in {wW_rW_rW_ARG, wW_rW_ARG, wW_rW_DW_ARG} then Read(vars, ins.w1)
    else if TakesFirst(t) then Read(vars, ins.w0)
    else if ins.op == Op.FREE then Read(vars, ins.w0)
    else if ins.op == Op.LoadThisR then Read(vars, 0)
    else 0
  }

  function SecondOperand(ins: Ins, vars: map<int, int>): int {
    var t := InfoType(ins.op);
    if t == wW_rW_rW_ARG then Read(vars, ins.w2)
    else if t == rW_rW_ARG then Read(vars, ins.w1)
    else 0
  }

  // An instruction that may write its first operand.
  predicate HasVariable(ins: Ins) {
    (GivesFirst(InfoType(ins.op)) || TakesFirst(InfoType(ins.op))) && !OnlyReads(ins.op)
  }

  // The pointer operand of a PTR_ARG, wW_PTR_ARG, rW_PTR_ARG or PTR_DW_ARG instruction.
  function PtrArg(ins: Ins): int {
    if PTR_SIZE == 1 then ins.a0 else ins.a0 + 0x1_0000_0000 * ins.a1
  }

  function QuadArg(ins: Ins): int {
    ins.a0 + 0x1_0000_0000 * ins.a1
  }

  // The 32-bit word that follows the pointer of a PTR_DW_ARG instruction. With 64-bit pointers it
  // lies past `arg`, in the first two `wArg`.
  function WordAfterPtr(ins: Ins): int {
    if PTR_SIZE == 1 then ins.a1 else Signed32(ins.w0 % 0x1_0000 + 0x1_0000 * (ins.w1 % 0x1_0000))
  }

  // ----- 32-bit arithmetic -----

  function Signed16(n: int): int {
    (n + 0x8000) % 0x1_0000 - 0x8000
  }

  function Signed32(n: int): int {
    (n + 0x8000_0000) % 0x1_0000_0000 - 0x8000_0000
  }

  function Compare(a: int, b: int): int {
    if a == b then 0 else if a < b then -1 else 1
  }

  predicate IsArith(op: int) {
    op in {Op.ADDi, Op.SUBi, Op.MULi, Op.ADDf, Op.SUBf, Op.MULf}
  }

  predicate IsArithImm(op: int) {
    Op.ADDIi <= op <= Op.MULIf
  }

  predicate IsCompare(op: int) {
    op in {Op.CMPi, Op.CMPu, Op.CMPf}
  }

  predicate IsCompareImm(op: int) {
    op in {Op.CMPIi, Op.CMPIu, Op.CMPIf}
  }

  function Arith(vm: VM, op: int, a: int, b: int): int {
    if op == Op.ADDi || op == Op.ADDIi then Signed32(a + b)
    else if op == Op.SUBi || op == Op.SUBIi then Signed32(a - b)
    else if op == Op.MULi || op == Op.MULIi then Signed32(a * b)
    else if op == Op.ADDf || op == Op.ADDIf then vm.floatOp(Op.ADDf, a, b)
    else if op == Op.SUBf || op == Op.SUBIf then vm.floatOp(Op.SUBf, a, b)
    else vm.floatOp(Op.MULf, a, b)
  }

  function CompareAs(vm: VM, op: int, a: int, b: int): int {
    if op == Op.CMPi || op == Op.CMPIi then Compare(a, b)
    else if op == Op.CMPu || op == Op.CMPIu then Compare(a % 0x1_0000_0000, b % 0x1_0000_0000)
    else vm.floatCmp(a, b)
  }

  // ----- one instruction -----

  // Directives and markers, which change nothing when run.
  predicate IsNop(op: int) {
    op in {Op.LABEL, Op.LINE, Op.SUSPEND, Op.Block, Op.VarDecl, Op.ObjInfo, Op.TryBlock, Op.JitEntry}
  }

  function TestResult(op: int, reg: int): int {
    if (op == Op.TZ && reg == 0) || (op == Op.TNZ && reg != 0) || (op == Op.TS && reg < 0)
       || (op == Op.TNS && reg >= 0) || (op == Op.TP && reg > 0) || (op == Op.TNP && reg <= 0)
    then 1 else 0
  }

  // What an instruction sees of the core: the register only if it reads it.
  function Seen(op: int, c: Core): Core {
    if TakesReg(op) then c else c.(reg := 0)
  }

  /** The new value of the first operand. */
  function Value(vm: VM, ins: Ins, a: int, b: int, c: Core): int {
    if ins.op == Op.SetV4 then ins.a0
    else if ins.op == Op.SetV8 then QuadArg(ins)
    else if ins.op == Op.CpyRtoV4 then c.reg
    else if ins.op == Op.STOREOBJ then c.obj
    else if ins.op in {Op.LOADOBJ, Op.FREE, Op.ClrVPtr} then 0
    else if ins.op == Op.IncVi then Signed32(a + 1)
    else if ins.op == Op.DecVi then Signed32(a - 1)
    else if ins.op == Op.CpyGtoV4 || ins.op == Op.LdGRdR4 then vm.load(c.world, PtrArg(ins))
    else if IsArith(ins.op) then Arith(vm, ins.op, a, b)
    else if IsArithImm(ins.op) then Arith(vm, ins.op, a, ins.a0)
    else if ins.op == Op.CpyVtoV4 then a
    else vm.value(Operation(ins), a, b, Seen(ins.op, c))
  }

  // Instructions that leave the variable alone that they read.
  predicate OnlyReads(op: int) {
    || op in {Op.PshV4, Op.PshV8, Op.CpyVtoR4, Op.CpyVtoG4, Op.PSF, Op.PshVPtr, Op.VAR, Op.LDV, Op.ChkNullV}
    || op in {Op.LoadRObjR, Op.LoadVObjR} || IsCompare(op) || IsCompareImm(op)
  }

  predicate KeepsCore(op: int) {
    || op in {Op.SetV4, Op.SetV8, Op.CpyVtoV4, Op.CpyRtoV4, Op.CpyGtoV4, Op.IncVi, Op.DecVi}
    || op in {Op.CHKREF, Op.ChkRefS, Op.ChkNullV, Op.ClrVPtr}
    || IsArith(op) || IsArithImm(op)
  }

  // ----- the operand stack -----

  // A value of `n` words on top.
  function PushValue(stack: seq<Cell>, v: Cell, n: nat): seq<Cell>
    requires n > 0
  {
    stack + seq(n - 1, _ => Word(0)) + [v]
  }

  // The word `n` words below the top, where a pointer has its value.
  function Below(stack: seq<Cell>, n: int): Cell {
    if 0 <= n < |stack| then stack[|stack| - 1 - n] else Word(0)
  }

  function SetBelow(stack: seq<Cell>, n: int, v: int): seq<Cell> {
    if 0 <= n < |stack| then stack[|stack| - 1 - n := Word(v)] else stack
  }

  function Top(stack: seq<Cell>): int {
    Below(stack, 0).value
  }

  // Without the pointer on top.
  function Popped(stack: seq<Cell>): seq<Cell> {
    if |stack| < PTR_SIZE then [] else stack[..|stack| - PTR_SIZE]
  }

  predicate IsPush(op: int) {
    || op in {Op.PshV4, Op.PshV8, Op.PshC4, Op.PshC8, Op.PshG4, Op.PSF, Op.PshVPtr, Op.PGA, Op.PshGPtr}
    || op in {Op.PshNull, Op.VAR, Op.PshRPtr}
  }

  function PushSize(op: int): nat
    ensures PushSize(op) > 0
  {
    if op in {Op.PshV4, Op.PshC4, Op.PshG4} then 1 else if op in {Op.PshV8, Op.PshC8} then 2 else PTR_SIZE
  }

  function Pushed(vm: VM, ins: Ins, a: int, c: Core): Cell {
    if ins.op == Op.VAR then Offset(ins.w0)
    else Word(
      if ins.op == Op.PshC4 then ins.a0
      else if ins.op == Op.PshC8 then QuadArg(ins)
      else if ins.op == Op.PshG4 || ins.op == Op.PshGPtr then vm.load(c.world, PtrArg(ins))
      else if ins.op == Op.PSF then Address(vm, ins.w0)
      else if ins.op == Op.PGA then PtrArg(ins)
      else if ins.op == Op.PshNull then 0
      else if ins.op == Op.PshRPtr then c.reg
      else a)
  }

  predicate Rearranges(op: int) {
    op in {Op.PopPtr, Op.SwapPtr, Op.ADDSi, Op.GETREF}
  }

  function Rearranged(vm: VM, ins: Ins, stack: seq<Cell>): seq<Cell> {
    if ins.op == Op.PopPtr then Popped(stack)
    else if ins.op == Op.SwapPtr then
      PushValue(PushValue(Popped(Popped(stack)), Below(stack, 0), PTR_SIZE), Below(Popped(stack), 0), PTR_SIZE)
    else if ins.op == Op.ADDSi then SetBelow(stack, 0, vm.plus(Top(stack), ins.w0))
    else SetBelow(stack, ins.w0, Address(vm, Below(stack, ins.w0).value))
  }

  // ----- the value register and the world -----

  predicate LoadsReg(op: int) {
    || op in {Op.CpyVtoR4, Op.LDG, Op.LdGRdR4, Op.LDV, Op.LoadThisR, Op.LoadRObjR, Op.LoadVObjR, Op.ClrHi}
    || IsCompare(op) || IsCompareImm(op) || IsTest(op)
  }

  function LoadedReg(vm: VM, ins: Ins, a: int, b: int, reg: int): int {
    if ins.op == Op.CpyVtoR4 then a
    else if ins.op == Op.LDG || ins.op == Op.LdGRdR4 then PtrArg(ins)
    else if ins.op == Op.LDV then Address(vm, ins.w0)
    else if ins.op == Op.LoadThisR then vm.plus(a, ins.w0)
    else if ins.op == Op.LoadRObjR then vm.plus(a, ins.w1)
    else if ins.op == Op.LoadVObjR then vm.plus(Address(vm, ins.w0), ins.w1)
    else if ins.op == Op.ClrHi then reg % 0x100
    else if IsTest(ins.op) then TestResult(ins.op, reg)
    else CompareAs(vm, ins.op, a, if IsCompare(ins.op) then b else ins.a0)
  }

  // The world without the object that a variable held.
  function Freed(vm: VM, w: World, p: int, t: int): World {
    if p == 0 then w
    else
      match vm.handling(t)
      case Uncounted => w
      case Counted => vm.release(w, p, t)
      case ByValue => vm.destroy(w, p, t)
  }

  // The world when a handle to `p` takes the place of one to `was`.
  function Assigned(vm: VM, w: World, was: int, p: int, t: int): World {
    if vm.handling(t) != Counted then w
    else
      var w' := if was == 0 then w else vm.release(w, was, t);
      if p == 0 then w' else vm.addRef(w', p, t)
  }

  /** The new registers, operand stack and outside world. */
  function Effect(vm: VM, ins: Ins, a: int, b: int, c: Core): Core {
    if KeepsCore(ins.op) then c
    else if IsPush(ins.op) then c.(stack := PushValue(c.stack, Pushed(vm, ins, a, c), PushSize(ins.op)))
    else if Rearranges(ins.op) then c.(stack := Rearranged(vm, ins, c.stack))
    else if LoadsReg(ins.op) then c.(reg := LoadedReg(vm, ins, a, b, c.reg))
    else if ins.op == Op.PopRPtr then c.(reg := Top(c.stack), stack := Popped(c.stack))
    else if ins.op == Op.CpyVtoG4 then c.(world := vm.store(c.world, PtrArg(ins), a))
    else if ins.op == Op.SetG4 then c.(world := vm.store(c.world, PtrArg(ins), WordAfterPtr(ins)))
    else if ins.op == Op.FREE then c.(world := Freed(vm, c.world, a, PtrArg(ins)))
    else if ins.op == Op.STOREOBJ then c.(obj := 0)
    else if ins.op == Op.LOADOBJ then c.(obj := a)
    else
      var e := vm.effect(Operation(ins), a, b, Seen(ins.op, c));
      if vm.keepsReg(ins.op) && !GivesReg(ins.op) then e.(reg := c.reg) else e
  }

  // ----- access by address -----

  // The address of a variable, four bytes a word down from the frame pointer.
  function Address(vm: VM, x: int): int {
    vm.frame - 4 * x
  }

  // The variable at an address.
  function VariableAt(vm: VM, p: int): int {
    (vm.frame - p) / 4
  }

  predicate IsLocal(vm: VM, p: int) {
    (vm.frame - p) % 4 == 0 && vm.addressed(VariableAt(vm, p))
  }

  predicate IsGlobal(vm: VM, p: int) {
    p != 0 && !IsLocal(vm, p)
  }

  function Fetch(vm: VM, s: State, p: int): int {
    if IsLocal(vm, p) then Read(s.vars, VariableAt(vm, p)) else vm.load(s.core.world, p)
  }

  function Store(vm: VM, s: State, p: int, v: int): State {
    if IsLocal(vm, p) then s.(vars := s.vars[VariableAt(vm, p) := v])
    else s.(core := s.core.(world := vm.store(s.core.world, p, v)))
  }

  predicate ByAddress(op: int) {
    op in {Op.RDSPtr, Op.GETOBJREF, Op.INCi, Op.DECi, Op.RDR4, Op.WRTV4, Op.REFCPY, Op.RefCpyV}
  }

  /** An instruction that accesses whatever is at an address. */
  function ExecByAddress(vm: VM, ins: Ins, s: State): State {
    var c := s.core;
    var stack := c.stack;
    if ins.op == Op.RDSPtr then s.(core := c.(stack := SetBelow(stack, 0, Fetch(vm, s, Top(stack)))))
    else if ins.op == Op.GETOBJREF then
      s.(core := c.(stack := SetBelow(stack, ins.w0, Fetch(vm, s, Address(vm, Below(stack, ins.w0).value)))))
    else if ins.op == Op.INCi then Store(vm, s, c.reg, Signed32(Fetch(vm, s, c.reg) + 1))
    else if ins.op == Op.DECi then Store(vm, s, c.reg, Signed32(Fetch(vm, s, c.reg) - 1))
    else if ins.op == Op.RDR4 then s.(vars := s.vars[ins.w0 := Fetch(vm, s, c.reg)])
    else if ins.op == Op.WRTV4 then Store(vm, s, c.reg, Read(s.vars, ins.w0))
    else if ins.op == Op.REFCPY then
      var d, p := Top(stack), Top(Popped(stack));
      var w := Assigned(vm, c.world, Fetch(vm, s, d), p, PtrArg(ins));
      Store(vm, s.(core := c.(stack := Popped(stack), world := w)), d, p)
    else
      var w := Assigned(vm, c.world, Fetch(vm, s, Address(vm, ins.w0)), Top(stack), PtrArg(ins));
      State(s.vars[ins.w0 := Top(stack)], c.(world := w))
  }

  /** The fields of an instruction that survive in the final program. */
  function Canon(ins: Ins): Ins {
    var t := InfoType(ins.op);
    Ins(ins.op,
        if HasWord(t) then ins.a0 else 0,
        if HasSecondWord(t) then ins.a1 else 0,
        if HasW0(t) then ins.w0 else 0,
        if HasW1(t) then ins.w1 else 0,
        if t == wW_rW_rW_ARG then ins.w2 else 0,
        0, 0)
  }

  // What an unspecified step may depend on: not on where its result goes.
  function Operation(ins: Ins): Ins {
    if GivesFirst(InfoType(ins.op)) then Canon(ins).(w0 := 0) else Canon(ins)
  }

  predicate HasWord(t: BCType) {
    t in {DW_ARG, rW_DW_ARG, QW_ARG, DW_DW_ARG, wW_QW_ARG, wW_DW_ARG, wW_rW_DW_ARG,
          QW_DW_ARG, rW_QW_ARG, W_DW_ARG, rW_W_DW_ARG, rW_DW_DW_ARG}
  }

  predicate HasSecondWord(t: BCType) {
    t in {QW_ARG, DW_DW_ARG, wW_QW_ARG, QW_DW_ARG, rW_QW_ARG, rW_DW_DW_ARG}
  }

  predicate HasW0(t: BCType) {
    t in {W_ARG, wW_ARG, rW_DW_ARG, wW_rW_rW_ARG, wW_QW_ARG, wW_rW_ARG, rW_ARG, wW_DW_ARG, wW_rW_DW_ARG,
          rW_rW_ARG, wW_W_ARG, QW_DW_ARG, rW_QW_ARG, W_DW_ARG, rW_W_DW_ARG, rW_DW_DW_ARG}
  }

  predicate HasW1(t: BCType) {
    t in {wW_rW_rW_ARG, wW_rW_ARG, wW_rW_DW_ARG, rW_rW_ARG, wW_W_ARG, QW_DW_ARG, rW_W_DW_ARG}
  }

  /** One instruction other than a jump or a return. */
  function Exec(vm: VM, ins: Ins, s: State): State {
    if IsNop(ins.op) then s
    else if ByAddress(ins.op) then ExecByAddress(vm, ins, s)
    else
      var a, b := FirstOperand(ins, s.vars), SecondOperand(ins, s.vars);
      State(if HasVariable(ins) then s.vars[ins.w0 := Value(vm, ins, a, b, s.core)] else s.vars,
            Effect(vm, ins, a, b, s.core))
  }

  predicate Checks(op: int) {
    || op in {Op.RDSPtr, Op.ADDSi, Op.CHKREF, Op.ChkRefS, Op.ChkNullV, Op.LoadThisR, Op.LoadRObjR}
    || op in {Op.GETREF, Op.GETOBJREF}
  }

  // Instructions that never raise an exception.
  predicate Calm(op: int) {
    || IsNop(op) || IsPush(op)
    || ((ByAddress(op) || KeepsCore(op) || Rearranges(op) || LoadsReg(op)) && !Checks(op))
    || op in {Op.PopRPtr, Op.CpyVtoG4, Op.SetG4, Op.FREE, Op.STOREOBJ, Op.LOADOBJ}
  }

  /** The instruction raises an exception: it meets a null pointer, or it is an unspecified step that
      does. What becomes of a GETREF or GETOBJREF that finds no offset counts as an exception too. */
  predicate Faults(vm: VM, ins: Ins, s: State) {
    if ins.op in {Op.RDSPtr, Op.ADDSi, Op.CHKREF} then Top(s.core.stack) == 0
    else if ins.op == Op.ChkRefS then Fetch(vm, s, Top(s.core.stack)) == 0
    else if ins.op in {Op.ChkNullV, Op.LoadThisR, Op.LoadRObjR} then FirstOperand(ins, s.vars) == 0
    else if ins.op in {Op.GETREF, Op.GETOBJREF} then !Below(s.core.stack, ins.w0).Offset?
    else if Calm(ins.op) then false
    else vm.raises(Operation(ins), FirstOperand(ins, s.vars), SecondOperand(ins, s.vars), Seen(ins.op, s.core))
  }

  predicate Taken(op: int, reg: int) {
    || (op == Op.JZ && reg == 0)
    || (op == Op.JNZ && reg != 0)
    || (op == Op.JS && reg < 0)
    || (op == Op.JNS && reg >= 0)
    || (op == Op.JP && reg > 0)
    || (op == Op.JNP && reg <= 0)
    || (op == Op.JLowZ && reg % 0x100 == 0)
    || (op == Op.JLowNZ && reg % 0x100 != 0)
  }

  // What the caller gets from the value register.
  function ReturnValue(vm: VM, c: Core): int {
    if vm.hasResult then c.reg else 0
  }

  // ----- runs -----

  /** Where a run stands: at an instruction, or finished in one of five ways. A return keeps only
      what its caller sees; an exception, what is outside the frame; `Leaves` is a jump to a label that
      is not in the list. */
  datatype Res =
    | At(pc: nat, s: State)
    | Returned(pop: int, reg: int, obj: int, world: World)
    | Raised(world: World)
    | Leaves(lab: int, s: State)
    | Ends(s: State)
    | Wild

  function Go(code: seq<Ins>, from: nat, lab: int, s: State): Res
    requires from < |code|
  {
    var t := Target(code, from, lab);
    if t == -1 then Leaves(lab, s) else At(t, s)
  }

  function Step(vm: VM, code: seq<Ins>, i: nat, s: State): Res {
    if i >= |code| then Ends(s)
    else
      var ins := code[i];
      if ins.op == Op.RET then Returned(ins.w0, ReturnValue(vm, s.core), s.core.obj, s.core.world)
      else if ins.op == Op.JMP then Go(code, i, ins.a0, s)
      else if IsCondJump(ins.op) then
        if Taken(ins.op, s.core.reg) then Go(code, i, ins.a0, s) else At(i + 1, s)
      else if ins.op == Op.JMPP then
        var v := Read(s.vars, ins.w0);
        if 0 <= v <= ins.a0 then At(i + 1 + v, s) else Wild
      else if Faults(vm, ins, s) then Raised(Exec(vm, ins, s).core.world)
      else At(i + 1, Exec(vm, ins, s))
  }

  function Run(vm: VM, code: seq<Ins>, r: Res, n: nat): Res
    decreases n
  {
    if n == 0 || !r.At? then r else Run(vm, code, Step(vm, code, r.pc, r.s), n - 1)
  }

  lemma {:induction false} RunAdds(vm: VM, code: seq<Ins>, r: Res, m: nat, n: nat)
    ensures Run(vm, code, r, m + n) == Run(vm, code, Run(vm, code, r, m), n)
    decreases m
  {
    hide Step;
    if m > 0 && r.At? {
      RunAdds(vm, code, Step(vm, code, r.pc, r.s), m - 1, n);
    }
  }
}
