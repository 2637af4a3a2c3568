/** The byte code optimizer: `OptimizeLocally` and the methods it calls. The instruction list is a
    field that the methods edit in place; a cursor is an index into it, -1 where there is no
    instruction. */
module ByteCodes {
  import Op
  import opened Tables
  import opened Instructions
  import opened Liveness
  import opened Blocks
  import opened Discipline
  import opened UnusedValues
  import opened Postponement
  import opened Skeletons
  import opened DepthKept
  import opened Layout
  import opened Peephole
  import opened Machine
  import opened UnusedKept
  import opened SequencesKept
  import opened Sequences
  import opened Directives

  class ByteCode {
    var code: seq<Ins>
    var temporaryVariables: seq<int>

    constructor (code: seq<Ins>, temporaryVariables: seq<int>)
      ensures this.code == code && this.temporaryVariables == temporaryVariables
    {
      this.code, this.temporaryVariables := code, temporaryVariables;
    }

    ghost function Temps(): set<int>
      reads this`temporaryVariables
    {
      set t | t in temporaryVariables
    }

    // ----- list edits and cursors -----

    /** Delete an instruction; the result is its predecessor or else its successor. */
    method DeleteInstruction(i: nat) returns (ret: int)
      requires i < |code|
      modifies this`code
      ensures code == old(code)[..i] + old(code)[i + 1..]
      ensures ret == if i > 0 then i - 1 else if |code| > 0 then 0 else -1
    {
      code := code[..i] + code[i + 1..];
      ret := if i > 0 then i - 1 else if |code| > 0 then 0 else -1;
    }

    method InsertBefore(i: nat, ins: Ins)
      requires i < |code|
      modifies this`code
      ensures code == old(code)[..i] + [ins] + old(code)[i..]
    {
      code := code[..i] + [ins] + code[i..];
    }

    method SetIns(i: nat, ins: Ins)
      requires i < |code|
      modifies this`code
      ensures code == old(code)[i := ins]
    {
      code := code[i := ins];
    }

    /** Two instructions back, or as far as the list goes. */
    function GoBack(i: int): (r: int)
      requires -1 <= i < |code|
      reads this`code
      ensures -1 <= r < |code|
    {
      if i >= 2 then i - 2 else if i == 1 then 0 else i
    }

    // Where the optimization goes on after a rewrite found at `curr`: hardly before it, so that
    // nothing in front is passed over.
    ghost predicate Resumes(next: int, curr: nat)
      reads this`code
    {
      -1 <= next < |code| && (next == |code| - 1 || next + 3 >= curr)
    }

    /** Two instructions forward, or as far as the list goes. */
    function GoForward(i: int): (r: int)
      requires -1 <= i < |code|
      reads this`code
      ensures -1 <= r < |code|
    {
      if i == -1 then -1 else if i + 2 < |code| then i + 2 else |code| - 1
    }

    // ----- queries -----

    method IsTempRegUsed(curr: nat) returns (r: bool)
      requires curr < |code|
      ensures r <==> RegUsedAfter(code, curr)
    {
      var i := curr;
      while i + 1 < |code|
        invariant curr <= i < |code|
        invariant forall m :: curr < m <= i ==> !ReadsReg(code[m].op) && !ClobbersReg(code[m].op)
        decreases |code| - i
      {
        i := i + 1;
        if ReadsReg(code[i].op) {
          return true;
        }
        if ClobbersReg(code[i].op) {
          return false;
        }
      }
      return false;
    }

    // The variable is a temporary that is not read after the instruction at `k`.
    method IsLastUse(k: nat, x: int) returns (r: bool)
      requires k < |code| && TablesOk(code)
      ensures r <==> LastUse(code, k, x, Temps())
    {
      r := false;
      if x in temporaryVariables {
        TablesOkMeans(code);
        var read := IsTempVarRead(code, k, x);
        r := !read;
      }
    }

    // ----- RemoveUnusedValue -----

    // Overwrite the first of a pair and delete the second.
    method KeepFirst(curr: nat, ins: Ins) returns (next: int)
      requires curr + 1 < |code|
      modifies this`code
      ensures code == Splice(old(code), curr, 2, [ins])
      ensures -1 <= next < |code| && (next == |code| - 1 || next >= curr)
    {
      SetIns(curr, ins);
      var ret := DeleteInstruction(curr + 1);
      next := GoForward(ret);
    }

    // Overwrite the second of a pair and delete the first.
    method KeepSecond(curr: nat, ins: Ins) returns (next: int)
      requires curr + 1 < |code|
      modifies this`code
      ensures code == Splice(old(code), curr, 2, [ins])
      ensures -1 <= next < |code| && (next == |code| - 1 || next >= curr)
    {
      SetIns(curr + 1, ins);
      var ret := DeleteInstruction(curr);
      next := GoForward(ret);
    }

    // The constant that SetV4 loads is immediately used and then never again.
    method FoldSetV4(curr: nat) returns (r: bool, next: int)
      requires curr + 1 < |code| && TablesOk(code) && code[curr].op == Op.SetV4
      modifies this`code
      ensures var w := FoldConstant(old(code), curr, Temps()); r == w.Replace? && code == Apply(old(code), w)
      ensures r ==> Resumes(next, curr)
    {
      hide InfoType, LastUse, TablesOk, WithImmediate, SetGlobal;
      r, next := false, -1;
      var c, d := code[curr], code[curr + 1];
      var x := c.w0;
      if IsCompare(d.op) && d.w1 == x {
        r := IsLastUse(curr + 1, x);
        if r {
          next := KeepSecond(curr, WithImmediate(c, d));
          return;
        }
      }
      if IsArith(d.op) && d.w2 == x {
        r := d.w0 == x;
        if !r {
          r := IsLastUse(curr + 1, x);
        }
        if r {
          next := KeepSecond(curr, WithImmediate(c, d));
          return;
        }
      }
      if Commutes(d.op) && d.w1 == x {
        r := d.w0 == x;
        if !r {
          r := IsLastUse(curr + 1, x);
        }
        if r {
          // The order of the operands is changed
          next := KeepSecond(curr, WithImmediate(c, d).(w1 := d.w2));
          return;
        }
      }
      if d.op == Op.CpyVtoV4 && d.w1 == x {
        r := IsLastUse(curr + 1, x);
        if r {
          next := KeepFirst(curr, c.(w0 := d.w0));
          return;
        }
      }
      if d.op == Op.PshV4 && d.w0 == x {
        r := IsLastUse(curr + 1, x);
        if r {
          next := KeepFirst(curr, c.(op := Op.PshC4, stackInc := InfoStackInc(Op.PshC4)));
          return;
        }
      }
      if d.op == Op.CpyVtoG4 && d.w0 == x {
        r := IsLastUse(curr + 1, x);
        if r {
          next := KeepFirst(curr, SetGlobal(c, d));
          return;
        }
      }
    }

    // Two instructions that pass a value on through a temporary.
    method JoinTwo(curr: nat) returns (r: bool, next: int)
      requires curr + 1 < |code| && TablesOk(code)
      modifies this`code
      ensures var w := JoinPair(old(code), curr, Temps()); r == w.Replace? && code == Apply(old(code), w)
      ensures r ==> Resumes(next, curr)
    {
      hide InfoType, LastUse, TablesOk;
      r, next := false, -1;
      var c, d := code[curr], code[curr + 1];
      var x := c.w0;
      if InfoType(c.op) in {wW_rW_rW_ARG, wW_rW_DW_ARG} && d.op == Op.CpyVtoV4 && d.w1 == x {
        r := IsLastUse(curr + 1, x);
        if r {
          next := KeepFirst(curr, c.(w0 := d.w0));
          return;
        }
      }
      if c.op == Op.CpyRtoV4 && d.op == Op.CpyVtoR4 && d.w0 == x {
        r := IsLastUse(curr + 1, x);
        if r {
          ghost var was := code;
          var ret := DeleteInstruction(curr + 1);
          ret := DeleteInstruction(curr);
          next := GoForward(ret);
          assert code == Splice(was, curr, 2, []);
          return;
        }
      }
      if c.op == Op.CpyGtoV4 && d.op == Op.PshV4 && d.w0 == x {
        r := IsLastUse(curr + 1, x);
        if r {
          next := KeepFirst(curr, c.(op := Op.PshG4, size := TypeSize(InfoType(Op.PshG4)),
                                     stackInc := InfoStackInc(Op.PshG4)));
          return;
        }
      }
      if c.op == Op.SetV8 && d.op == Op.PshV8 && d.w0 == x {
        r := IsLastUse(curr + 1, x);
        if r {
          next := KeepFirst(curr, c.(op := Op.PshC8, stackInc := InfoStackInc(Op.PshC8)));
          return;
        }
      }
    }

    /** Remove the instruction at `curr` if its result is not used, or combine it with the next. */
    method RemoveUnusedValue(curr: nat) returns (r: bool, next: int)
      requires curr < |code| && Good(code)
      modifies this`code
      ensures var w := Unused(old(code), curr, Temps()); r == w.Replace? && code == Apply(old(code), w)
      ensures r ==> Resumes(next, curr) && Progress(old(code), code)
      ensures !r ==> code == old(code)
    {
      hide InfoType, LastUse, Good, TablesOk, FoldConstant, JoinPair, Progress, ReadsReg, ClobbersReg, RegUsedAfter;
      assert TablesOk(code) by {
        GoodTables(code);
      }
      UnusedProgress(code, curr, Temps());
      r, next := false, -1;
      var c := code[curr];
      if c.op != Op.FREE && OnlyWrites(InfoType(c.op)) {
        r := IsLastUse(curr, c.w0);
        if r {
          if c.op == Op.LdGRdR4 {
            var used := IsTempRegUsed(curr);
            if used {
              ghost var was := code;
              SetIns(curr, c.(op := Op.LDG));
              next := GoForward(curr);
              assert code == Splice(was, curr, 1, [c.(op := Op.LDG)]);
              return;
            }
          }
          var ret := DeleteInstruction(curr);
          next := GoForward(ret);
          return;
        }
      }
      if curr + 1 < |code| {
        if c.op == Op.SetV4 {
          r, next := FoldSetV4(curr);
        } else {
          r, next := JoinTwo(curr);
        }
      }
    }

    // ----- PostponeInitOfTemp -----

    /** Move the constant loaded at `curr` down to just before its use if that lets the two be
        combined; otherwise leave the list exactly as it was. */
    method PostponeInitOfTemp(curr: nat) returns (r: bool, next: int)
      requires curr < |code| && Good(code)
      modifies this`code
      ensures r <==> CanPostpone(old(code), curr, Temps())
      ensures code == if r then Postpone(old(code), curr, Temps()) else old(code)
      ensures r ==> Resumes(next, curr) && Progress(old(code), code)
    {
      hide InfoType, Good, Progress, Unused, MovedDown, Splice, FirstUse;
      r, next := false, -1;
      var c := code[curr];
      if (c.op != Op.SetV4 && c.op != Op.SetV8) || c.w0 !in temporaryVariables {
        return;
      }
      ghost var was := code;
      var use := FindUse(curr);
      if use > curr + 1 {
        MoveDown(curr, use);
        MoveKept(was, curr, use);
        var combined, _ := RemoveUnusedValue(use - 1);
        if combined {
          // Optimizations continue from the instruction that followed
          PostponeProgress(was, curr, Temps());
          ShrinksBelow(was, curr, Temps());
          r, next := true, curr;
        } else {
          // Return the instruction to its original position as it wasn't useful
          MoveBack(curr, use, was);
        }
      }
    }

    // Where the constant loaded at `curr` is used; not beyond any label or jump.
    method FindUse(curr: nat) returns (use: int)
      requires curr < |code|
      ensures use == FirstUse(code, curr + 1, code[curr].w0)
    {
      hide ReadsVar, OverwritesVar, IsJmpOrLabel;
      use := curr + 1;
      while use < |code|
        invariant curr < use <= |code|
        invariant FirstUse(code, curr + 1, code[curr].w0) == FirstUse(code, use, code[curr].w0)
        decreases |code| - use
      {
        if ReadsVar(code[use], code[curr].w0) {
          return;
        }
        if OverwritesVar(code[use], code[curr].w0) || IsJmpOrLabel(code[use].op) {
          return -1;
        }
        use := use + 1;
      }
      return -1;
    }

    // Unlink the instruction at `curr` and link it in front of the one at `use`.
    method MoveDown(curr: nat, use: nat)
      requires curr < use < |code|
      modifies this`code
      ensures code == MovedDown(old(code), curr, use)
    {
      var c := code[curr];
      var _ := DeleteInstruction(curr);
      InsertBefore(use - 1, c);
    }

    // Undo MoveDown.
    method MoveBack(curr: nat, use: nat, ghost was: seq<Ins>)
      requires curr < use - 1 && use < |was| && code == MovedDown(was, curr, use)
      modifies this`code
      ensures code == was
    {
      hide MovedDown;
      MovedBack(was, curr, use);
      var c := code[use - 1];
      var _ := DeleteInstruction(use - 1);
      InsertBefore(curr, c);
    }

    // ----- sequences that can be replaced by shorter ones -----

    // Each of the following looks at the instruction at `curr` and its neighbours; when it changes
    // the list (`done`), the optimization goes on from `next`.

    method OptimizeSwapPtr(curr: nat) returns (done: bool, next: int)
      requires curr < |code| && Good(code) && code[curr].op == Op.SwapPtr
      modifies this`code
      ensures var w := SwapRule(old(code), curr); done == w.Replace? && code == Apply(old(code), w)
      ensures done ==> Progress(old(code), code) && Resumes(next, curr)
    {
      hide Good, Progress, InfoType, InfoStackInc, Conforms;
      done, next := curr >= 2 && PushesPointer(code[curr - 2].op) && PushesPointer(code[curr - 1].op), -1;
      if done {
        // XXX x, YYY y, SwapPtr -> YYY y, XXX x
        ghost var was := code;
        var instr := DeleteInstruction(curr);
        var b := code[instr];
        var _ := DeleteInstruction(instr);
        InsertBefore(instr - 1, b);
        next := GoForward(instr);
        SwapKept(was, curr);
        assert code == Splice(was, curr - 2, 3, [was[curr - 1], was[curr - 2]]);
      }
    }

    method OptimizeClrHi(curr: nat) returns (done: bool, next: int)
      requires curr < |code| && Good(code) && code[curr].op == Op.ClrHi
      modifies this`code
      ensures var w := ClrHiRule(old(code), curr); done == w.Replace? && code == Apply(old(code), w)
      ensures done ==> Progress(old(code), code) && Resumes(next, curr)
    {
      hide Good, Progress, InfoType, InfoStackInc, Conforms;
      done, next := false, -1;
      if curr > 0 && IsTest(code[curr - 1].op) {
        // T??, ClrHi -> T??
        done, next := DropCurrent(curr);
      } else if curr + 1 < |code| && (code[curr + 1].op == Op.JZ || code[curr + 1].op == Op.JNZ) {
        // ClrHi, JZ -> JLowZ and ClrHi, JNZ -> JLowNZ
        var j := code[curr + 1];
        JumpKept(code, curr, LowJump(j.op));
        next := KeepSecond(curr, j.(op := LowJump(j.op)));
        done := true;
      }
    }

    // Delete an instruction that has no effect on the stack.
    method DropCurrent(curr: nat) returns (done: bool, next: int)
      requires curr < |code| && Good(code) && code[curr].op in {Op.ClrHi, Op.CHKREF, Op.RDSPtr}
      modifies this`code
      ensures done && Progress(old(code), code) && code == Splice(old(code), curr, 1, []) && Resumes(next, curr)
      ensures next == |code| - 1 || next > curr
    {
      hide Good, Progress, InfoType, InfoStackInc, Conforms;
      ghost var was := code;
      var ret := DeleteInstruction(curr);
      next := GoForward(ret);
      done := true;
      DropKept(was, curr);
      assert code == Splice(was, curr, 1, []);
    }

    method OptimizeLDV(curr: nat) returns (done: bool, next: int)
      requires curr < |code| && Good(code) && code[curr].op == Op.LDV
      modifies this`code
      ensures var w := LDVRule(old(code), curr); done == w.Replace? && code == Apply(old(code), w)
      ensures done ==> Progress(old(code), code) && Resumes(next, curr)
    {
      hide Good, Progress, InfoType, InfoStackInc, Conforms, ReadsReg, ClobbersReg, RegUsedAfter;
      done, next := false, -1;
      if curr + 1 < |code| && (code[curr + 1].op == Op.INCi || code[curr + 1].op == Op.DECi) {
        // LDV x, INCi -> IncVi x and LDV x, DECi -> DecVi x
        var used := IsTempRegUsed(curr + 1);
        if !used {
          var n := code[curr].(op := if code[curr + 1].op == Op.INCi then Op.IncVi else Op.DecVi);
          RegisterKept(code, curr, n);
          next := KeepFirst(curr, n);
          done := true;
        }
      }
    }

    method OptimizeLDG(curr: nat) returns (done: bool, next: int)
      requires curr < |code| && Good(code) && code[curr].op == Op.LDG
      modifies this`code
      ensures var w := LDGRule(old(code), curr); done == w.Replace? && code == Apply(old(code), w)
      ensures done ==> Progress(old(code), code) && Resumes(next, curr)
    {
      hide Good, Progress, InfoType, InfoStackInc, Conforms, ReadsReg, ClobbersReg, RegUsedAfter;
      done, next := false, -1;
      if curr + 1 < |code| && (code[curr + 1].op == Op.WRTV4 || code[curr + 1].op == Op.RDR4) {
        var used := IsTempRegUsed(curr + 1);
        var c, d := code[curr], code[curr + 1];
        if d.op == Op.WRTV4 {
          // LDG x, WRTV4 y -> CpyVtoG4 y, x
          if !used {
            var n := c.(op := Op.CpyVtoG4, size := TypeSize(InfoType(Op.CpyVtoG4)), w0 := d.w0);
            RegisterKept(code, curr, n);
            next := KeepFirst(curr, n);
            done := true;
          }
        } else {
          // LDG x, RDR4 y -> CpyGtoV4 y, x
          var op := if used then Op.LdGRdR4 else Op.CpyGtoV4;
          var n := c.(op := op, size := TypeSize(InfoType(Op.CpyGtoV4)), w0 := d.w0);
          RegisterKept(code, curr, n);
          next := KeepFirst(curr, n);
          done := true;
        }
      }
    }

    method OptimizeCHKREF(curr: nat) returns (done: bool, next: int)
      requires curr < |code| && Good(code) && code[curr].op == Op.CHKREF
      modifies this`code
      ensures var w := CHKREFRule(old(code), curr); done == w.Replace? && code == Apply(old(code), w)
      ensures done ==> Progress(old(code), code) && Resumes(next, curr)
    {
      hide Good, Progress, InfoType, InfoStackInc, Conforms;
      done, next := false, -1;
      if curr + 1 < |code| && code[curr + 1].op in {Op.ADDSi, Op.RDSPtr} {
        // ADDSi and RDSPtr already check the pointer
        done, next := DropCurrent(curr);
      } else if curr > 0 && code[curr - 1].op in {Op.ADDSi, Op.PGA, Op.PSF} {
        // ADDSi leaves, and PGA and PSF push, a valid address
        done, next := DropCurrent(curr);
      } else if curr > 1 && code[curr - 1].op == Op.ChkRefS && code[curr - 2].op == Op.PGA {
        done, next := DropCurrent(curr);
      }
    }

    method OptimizePopPtr(curr: nat) returns (done: bool, next: int)
      requires curr < |code| && Good(code) && code[curr].op == Op.PopPtr
      modifies this`code
      ensures var w := PopPtrRule(old(code), curr, Temps()); done == w.Replace? && code == Apply(old(code), w)
      ensures done ==> Progress(old(code), code) && Resumes(next, curr)
    {
      hide Good, Progress, InfoType, InfoStackInc, Conforms;
      done, next := false, -1;
      if curr > 0 && code[curr - 1].op == Op.RDSPtr {
        // RDSPtr, PopPtr -> PopPtr
        done, next := DropCurrent(curr - 1);
      } else if curr > 1 && code[curr - 1].op == Op.RefCpyV && code[curr - 2].op == Op.PshNull {
        // PshNull, RefCpyV, PopPtr -> FREE
        PopKept(code, curr, code[curr - 1].(op := Op.FREE));
        next := Collapse(curr, code[curr - 1].(op := Op.FREE));
        done := true;
      } else if curr > 0 && code[curr - 1].op in {Op.PshRPtr, Op.PSF, Op.VAR, Op.PshVPtr, Op.PshNull} {
        // A pointer is pushed on the stack then immediately removed
        ghost var was := code;
        var _ := DeleteInstruction(curr);
        var ret := DeleteInstruction(curr - 1);
        next := GoForward(ret);
        done := true;
        PushPopKept(was, curr);
        assert code == Splice(was, curr - 1, 2, []);
      } else if curr > 1 && ((code[curr - 1].op == Op.ChkRefS && code[curr - 2].op == Op.PSF)
                             || (code[curr - 1].op == Op.CHKREF && code[curr - 2].op == Op.PshVPtr)) {
        // PSF, ChkRefS, PopPtr -> ChkNullV and PshVPtr, CHKREF, PopPtr -> ChkNullV
        var n := code[curr - 2].(op := Op.ChkNullV, stackInc := 0);
        PopKept(code, curr, n);
        next := Collapse(curr, n);
        done := true;
      } else if curr > 0 && code[curr - 1].op == Op.FREE {
        done, next := OptimizeStoredHandle(curr);
      }
    }

    // Put one instruction in the place of the three that end at `curr`.
    method Collapse(curr: nat, ins: Ins) returns (next: int)
      requires 2 <= curr < |code|
      modifies this`code
      ensures code == Splice(old(code), curr - 2, 3, [ins])
      ensures Resumes(next, curr)
    {
      SetIns(curr - 2, ins);
      var _ := DeleteInstruction(curr);
      var ret := DeleteInstruction(curr - 1);
      next := GoForward(ret);
    }

    // STOREOBJ y, PSF y, RDSPtr, PSF x, REFCPY, FREE y, PopPtr -> FREE x, STOREOBJ x
    method OptimizeStoredHandle(curr: nat) returns (done: bool, next: int)
      requires 0 < curr < |code| && Good(code) && code[curr].op == Op.PopPtr && code[curr - 1].op == Op.FREE
      modifies this`code
      ensures var w := StoredHandleRule(old(code), curr, Temps()); done == w.Replace? && code == Apply(old(code), w)
      ensures done ==> Progress(old(code), code) && Resumes(next, curr)
    {
      hide Good, Progress, InfoType, InfoStackInc, Conforms, TablesOk, LastUse;
      done, next := false, -1;
      if curr < 6 || !IsStoredHandle(code, curr) {
        return;
      }
      var x, y := code[curr - 3].w0, code[curr - 5].w0;
      GoodTables(code);
      var dead := IsLastUse(curr, y);
      if !dead {
        return;
      }
      ghost var was := code;
      StoredHandleKept(code, curr);
      SetIns(curr, StoreAs(code[curr], x, code[curr - 6].size));
      SetIns(curr - 1, code[curr - 1].(w0 := x));
      next := DeleteFive(curr - 6);
      assert code == Splice(was, curr - 6, 7, [was[curr - 1].(w0 := x), StoreAs(was[curr], x, was[curr - 6].size)]);
      done := true;
    }

    // Delete the five instructions from `i` on and go on behind the second one after them.
    method DeleteFive(i: nat) returns (next: int)
      requires i + 6 < |code|
      modifies this`code
      ensures code == old(code)[..i] + old(code)[i + 5..]
      ensures -1 <= next < |code| && (next == |code| - 1 || next >= i + 3)
    {
      ghost var was := code;
      var n := 0;
      while n < 5
        invariant n <= 5 && code == was[..i] + was[i + n..]
      {
        var _ := DeleteInstruction(i);
        n := n + 1;
      }
      next := GoForward(i + 1);
    }

    method OptimizeRDSPtr(curr: nat) returns (done: bool, next: int)
      requires curr < |code| && Good(code) && code[curr].op == Op.RDSPtr
      modifies this`code
      ensures var w := RDSPtrRule(old(code), curr); done == w.Replace? && code == Apply(old(code), w)
      ensures done ==> Progress(old(code), code) && Resumes(next, curr)
    {
      hide Good, Progress, InfoType, InfoStackInc, Conforms;
      done, next := false, -1;
      if curr == 0 {
        return;
      }
      var b := code[curr - 1];
      if b.op == Op.PGA || b.op == Op.PSF {
        // PGA, RDSPtr -> PshGPtr and PSF, RDSPtr -> PshVPtr
        var n := b.(op := if b.op == Op.PGA then Op.PshGPtr else Op.PshVPtr);
        DereferenceKept(code, curr, n);
        next := KeepFirst(curr - 1, n);
        done := true;
      } else if b.op == Op.ChkRefS {
        // ChkRefS, RDSPtr -> RDSPtr, CHKREF
        ghost var was := code;
        CheckKept(code, curr);
        SetIns(curr, code[curr].(op := Op.CHKREF));
        SetIns(curr - 1, b.(op := Op.RDSPtr));
        next := GoForward(curr);
        done := true;
        assert code == Splice(was, curr - 1, 2, [b.(op := Op.RDSPtr), was[curr].(op := Op.CHKREF)]);
      }
    }

    method OptimizePopRPtr(curr: nat) returns (done: bool, next: int)
      requires curr < |code| && Good(code) && code[curr].op == Op.PopRPtr
      modifies this`code
      ensures var w := PopRPtrRule(old(code), curr); done == w.Replace? && code == Apply(old(code), w)
      ensures done ==> Progress(old(code), code) && Resumes(next, curr)
    {
      hide Good, Progress, InfoType, InfoStackInc, Conforms;
      done, next := false, -1;
      if curr > 1 && code[curr - 1].op == Op.ADDSi && code[curr - 2].op in {Op.PshVPtr, Op.PSF} {
        var a, b := code[curr - 2], code[curr - 1];
        if a.op == Op.PshVPtr && a.w0 == 0 {
          // PshVPtr 0, ADDSi, PopRPtr -> LoadThisR
          PopRKept(code, curr, b.(op := Op.LoadThisR));
          next := Collapse(curr, b.(op := Op.LoadThisR));
        } else {
          // PshVPtr x, ADDSi, PopRPtr -> LoadRObjR and PSF x, ADDSi, PopRPtr -> LoadVObjR
          var o := if a.op == Op.PshVPtr then Op.LoadRObjR else Op.LoadVObjR;
          var n := a.(op := o, size := TypeSize(InfoType(o)), stackInc := InfoStackInc(o), w1 := b.w0, a0 := b.a0);
          PopRKept(code, curr, n);
          next := Collapse(curr, n);
        }
        done := true;
      }
    }

    method OptimizeREFCPY(curr: nat) returns (done: bool, next: int)
      requires curr < |code| && Good(code) && code[curr].op == Op.REFCPY
      modifies this`code
      ensures var w := REFCPYRule(old(code), curr); done == w.Replace? && code == Apply(old(code), w)
      ensures done ==> Progress(old(code), code) && Resumes(next, curr)
    {
      hide Good, Progress, InfoType, InfoStackInc, Conforms;
      done, next := false, -1;
      if curr > 0 && code[curr - 1].op == Op.PSF {
        // PSF x, REFCPY -> RefCpyV x
        var n := code[curr].(op := Op.RefCpyV, w0 := code[curr - 1].w0, stackInc := InfoStackInc(Op.LoadVObjR));
        RefCopyKept(code, curr, n);
        next := KeepSecond(curr - 1, n);
        done := true;
      }
    }

    method OptimizeJump(curr: nat) returns (done: bool, next: int)
      requires curr < |code| && Good(code) && IsCondJump(code[curr].op)
      modifies this`code
      ensures var w := JumpRule(old(code), curr); done == w.Replace? && code == Apply(old(code), w)
      ensures done ==> Progress(old(code), code) && Resumes(next, curr)
    {
      hide Good, Progress, InfoType, InfoStackInc, Conforms;
      done, next := false, -1;
      if curr > 0 {
        // T**, J** +x -> J** +x
        var op := TestAndJump(code[curr - 1].op, code[curr].op);
        if op != -1 {
          JumpKept(code, curr - 1, op);
          next := KeepSecond(curr - 1, code[curr].(op := op));
          done := true;
        }
      }
    }

    method OptimizeFREE(curr: nat) returns (done: bool, next: int)
      requires curr < |code| && Good(code) && code[curr].op == Op.FREE
      modifies this`code
      ensures var w := FREERule(old(code), curr); done == w.Replace? && code == Apply(old(code), w)
      ensures done ==> Progress(old(code), code) && Resumes(next, curr)
    {
      hide Good, Progress, InfoType, InfoStackInc, Conforms;
      done, next := false, -1;
      if curr > 0 && code[curr - 1].op in {Op.PSF, Op.VAR} {
        // PSF, FREE -> FREE, PSF and VAR, FREE -> FREE, VAR
        ghost var was := code;
        FreeKept(code, curr);
        var c := code[curr];
        var _ := DeleteInstruction(curr);
        InsertBefore(curr - 1, c);
        next := GoForward(curr);
        done := true;
        assert code == Splice(was, curr - 1, 2, [was[curr], was[curr - 1]]);
      }
    }

    method OptimizeVAR(curr: nat) returns (done: bool, next: int)
      requires curr < |code| && Good(code) && code[curr].op == Op.VAR
      modifies this`code
      ensures var o := VarOutcome(old(code), curr); done == o.Changed? && code == (if done then o.code else old(code))
      ensures done ==> Progress(old(code), code) && Resumes(next, curr)
    {
      hide Good, Skeleton, InfoType, InfoStackInc, Conforms, Smaller;
      ghost var was := code;
      done, next := false, -1;
      if PushedThen(code, curr, Op.GETOBJREF) {
        // VAR, PSF, GETOBJREF {PTR_SIZE} -> PshVPtr, PSF
        next := ChangeFirstDeleteThird(curr, Op.PshVPtr);
        done := true;
      } else if curr + 1 < |code| && code[curr + 1].op in {Op.GETREF, Op.GETOBJREF} && code[curr + 1].w0 == 0 {
        // VAR a, GETREF 0 -> PSF a and VAR a, GETOBJREF 0 -> PshVPtr a
        var n := code[curr].(op := if code[curr + 1].op == Op.GETREF then Op.PSF else Op.PshVPtr);
        GetRefKept(code, curr, n);
        next := KeepFirst(curr, n);
        done := true;
        assert code[curr] == n;
      }
      if PushedThen(code, curr, Op.GETREF) {
        // VAR, PSF, GETREF {PTR_SIZE} -> PSF, PSF
        ghost var mid := code;
        next := ChangeFirstDeleteThird(curr, Op.PSF);
        if done {
          ProgressTwice(was, mid, code);
        }
        done := true;
      }
    }

    method ChangeFirstDeleteThird(curr: nat, op: int) returns (next: int)
      requires curr < |code| && Good(code) && code[curr].op in {Op.VAR, Op.PshVPtr, Op.PSF}
      requires op in {Op.PshVPtr, Op.PSF} && (PushedThen(code, curr, Op.GETREF) || PushedThen(code, curr, Op.GETOBJREF))
      modifies this`code
      ensures Progress(old(code), code) && Resumes(next, curr)
      ensures code == Splice(old(code), curr, 3, [old(code)[curr].(op := op), old(code)[curr + 1]])
      ensures curr < |code| && code[curr].op == op
    {
      hide Good, Progress, InfoType, InfoStackInc, Conforms;
      ghost var was := code;
      GetRefBehindKept(code, curr, op);
      SetIns(curr, code[curr].(op := op));
      var _ := DeleteInstruction(curr + 2);
      next := GoForward(curr);
      assert code == Splice(was, curr, 3, [was[curr].(op := op), was[curr + 1]]);
    }

    // One sequence of the main loop, by the opcode at `curr`.
    method OptimizeSequence(curr: nat) returns (done: bool, next: int)
      requires curr < |code| && Good(code)
      modifies this`code
      ensures var o := Sequence(old(code), curr, Temps());
        done == o.Changed? && code == (if done then o.code else old(code))
      ensures done ==> Progress(old(code), code) && Resumes(next, curr)
    {
      hide Good, Progress;
      done, next := false, -1;
      var op := code[curr].op;
      if op == Op.SwapPtr {
        done, next := OptimizeSwapPtr(curr);
      } else if op == Op.ClrHi {
        done, next := OptimizeClrHi(curr);
      } else if op == Op.LDV {
        done, next := OptimizeLDV(curr);
      } else if op == Op.LDG {
        done, next := OptimizeLDG(curr);
      } else if op == Op.CHKREF {
        done, next := OptimizeCHKREF(curr);
      } else if op == Op.PopPtr {
        done, next := OptimizePopPtr(curr);
      } else if op == Op.RDSPtr {
        done, next := OptimizeRDSPtr(curr);
      } else if op == Op.PopRPtr {
        done, next := OptimizePopRPtr(curr);
      } else if op == Op.REFCPY {
        done, next := OptimizeREFCPY(curr);
      } else if IsCondJump(op) {
        done, next := OptimizeJump(curr);
      } else if op == Op.FREE {
        done, next := OptimizeFREE(curr);
      } else if op == Op.VAR {
        done, next := OptimizeVAR(curr);
      }
    }

    /** The main loop of the optimizer, from the last instruction to the first but going forward
        again after each rewrite. It always ends; it keeps the control skeleton with all stack
        depths, keeps the list in agreement with the instruction tables, and keeps a complete list
        complete. All cues, labels and directives stay, in their order. All it does are turns, and it
        stops only when none is possible at or before the place where the last one was made. */
    method OptimizeLocally() returns (ghost lists: seq<seq<Ins>>)
      requires Good(code)
      modifies this`code
      ensures Good(code) && Skeleton(code, 0) == Skeleton(old(code), 0) && StaysComplete(old(code), code)
      ensures Turns(lists, Temps()) && lists[0] == old(code) && lists[|lists| - 1] == code
      ensures forall i :: 0 <= i < |lists| ==> Good(lists[i])
      ensures SameMarkers(old(code), code)
      ensures |lists| == 1 ==> Irreducible(code, Temps())
      ensures |lists| > 1 ==> Finished(lists[|lists| - 2], code, Temps())
    {
      hide Good, Skeleton, Potential, Turn, Turns, InfoType, Temps, HasLevels, Writable, SameMarkers;
      lists := [code];
      NoTurns(code, Temps());
      ghost var last: nat := 0;
      ghost var top: int := |code| - 1;
      var instr := |code| - 1;
      while instr != -1
        invariant -1 <= instr <= top < |code|
        invariant Good(code) && Skeleton(code, 0) == Skeleton(old(code), 0) && StaysComplete(old(code), code)
        invariant forall i :: 0 <= i < |lists| ==> Good(lists[i])
        invariant |lists| > 0 && Turns(lists, Temps()) && lists[0] == old(code) && lists[|lists| - 1] == code
        invariant forall k :: instr < k <= top ==> Turn(code, k, Temps()) == Unchanged
        invariant |lists| == 1 ==> top == |code| - 1
        invariant |lists| > 1 ==> last < |lists[|lists| - 2]| && (top == |code| - 1 || top + 3 >= last)
        invariant |lists| > 1 ==> Turn(lists[|lists| - 2], last, Temps()) == Changed(code)
        decreases |code|, Potential(code, |code|), instr + 1
      {
        var curr := instr;
        instr := instr - 1;
        ghost var was := code;
        var done, next := TakeTurn(curr);
        if done {
          MoreTurns(lists, code, curr, Temps());
          lists := lists + [code];
          instr, top, last := next, next, curr;
        }
      }
      OptimizerKeepsMarkers(lists, Temps());
    }

    // What one turn of the main loop tries, in this order.
    method TakeTurn(curr: nat) returns (done: bool, next: int)
      requires curr < |code| && Good(code)
      modifies this`code
      ensures var o := Turn(old(code), curr, Temps());
        done == o.Changed? && code == (if done then o.code else old(code))
      ensures done ==> Progress(old(code), code) && Resumes(next, curr)
    {
      hide Good, Progress, Unused, Apply, CanPostpone, Postpone, Sequence, InfoType;
      done, next := RemoveUnusedValue(curr);
      if !done {
        done, next := PostponeInitOfTemp(curr);
      }
      if !done {
        done, next := OptimizeSequence(curr);
      }
    }
  }

  /** After the last turn nothing more can be done up to about where it was made. */
  ghost predicate Finished(was: seq<Ins>, code: seq<Ins>, temps: set<int>) {
    exists last: nat :: last < |was| && Turn(was, last, temps) == Changed(code)
      && forall k: nat :: k < |code| && k + 3 <= last ==> Turn(code, k, temps) == Unchanged
  }

  lemma MovedBack(was: seq<Ins>, k: nat, u: nat)
    requires k < u - 1 && u < |was|
    ensures var m := MovedDown(was, k, u); var d := m[..u - 1] + m[u..];
      m[u - 1] == was[k] && k < |d| && d[..k] + [was[k]] + d[k..] == was
  {
    var m := MovedDown(was, k, u);
    assert m[..u - 1] == was[..k] + was[k + 1..u] && m[u..] == was[u..];
    var d := m[..u - 1] + m[u..];
    assert d[..k] == was[..k] && d[k..] == was[k + 1..];
  }

  lemma NoTurns(code: seq<Ins>, temps: set<int>)
    ensures Turns([code], temps)
  {
  }

  lemma MoreTurns(lists: seq<seq<Ins>>, code: seq<Ins>, k: nat, temps: set<int>)
    requires Turns(lists, temps) && k < |lists[|lists| - 1]| && Turn(lists[|lists| - 1], k, temps) == Changed(code)
    ensures Turns(lists + [code], temps)
  {
    assert OneTurn(lists[|lists| - 1], code, temps);
    hide OneTurn;
    var more := lists + [code];
    forall i | 0 <= i < |more| - 1
      ensures OneTurn(more[i], more[i + 1], temps)
    {
      assert more[i] == lists[i] && (i < |lists| - 1 ==> more[i + 1] == lists[i + 1]);
    }
  }

  lemma GoodTables(code: seq<Ins>)
    requires Good(code)
    ensures TablesOk(code)
  {
  }

  // After a postponement the instruction that followed the moved one is still there.
  lemma ShrinksBelow(code: seq<Ins>, k: nat, temps: set<int>)
    requires k < |code| && CanPostpone(code, k, temps)
    ensures k < |Postpone(code, k, temps)|
  {
    hide InfoType, LastUse, FirstUse, ReadsVar, OverwritesVar;
    var u := FirstUse(code, k + 1, code[k].w0);
    assert k < u - 1;
  }
}
