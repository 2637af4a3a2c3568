/** `CallSystemFunctionNative` for the System V AMD64 calling convention: which arguments go into
    registers and which on the stack. */
module ArgumentSplit {
  const MAX_CALL_INT_REGISTERS := 6
  const MAX_CALL_SSE_REGISTERS := 8
  const X64_MAX_ARGS := 32
  const X64_CALLSTACK_SIZE := X64_MAX_ARGS + MAX_CALL_SSE_REGISTERS + 3

  datatype Kind = IntArg | FloatArg

  /** The first arguments of a kind, at most `max` of them. */
  function InRegisters(kinds: seq<Kind>, kind: Kind, max: nat, n: nat): (r: seq<nat>)
    requires n <= |kinds|
    ensures |r| <= max && forall i :: 0 <= i < |r| ==> r[i] < n && kinds[r[i]] == kind
    ensures forall i, j :: 0 <= i < j < |r| ==> r[i] < r[j]
  {
    if n == 0 then []
    else
      var r := InRegisters(kinds, kind, max, n - 1);
      if kinds[n - 1] == kind && |r| < max then r + [n - 1] else r
  }

  predicate IsInRegister(kinds: seq<Kind>, n: nat) {
    n in InRegisters(kinds, IntArg, MAX_CALL_INT_REGISTERS, |kinds|)
    || n in InRegisters(kinds, FloatArg, MAX_CALL_SSE_REGISTERS, |kinds|)
  }

  /** The other arguments from `n` on. */
  function OnStack(kinds: seq<Kind>, n: nat): (r: seq<nat>)
    requires n <= |kinds|
    ensures forall i :: i in r <==> n <= i < |kinds| && !IsInRegister(kinds, i)
    ensures forall i, j :: 0 <= i < j < |r| ==> r[i] < r[j]
    decreases |kinds| - n
  {
    if n == |kinds| then []
    else
      var rest := OnStack(kinds, n + 1);
      assert forall k :: 0 <= k < |rest| ==> rest[k] in rest;
      if IsInRegister(kinds, n) then rest else [n] + rest
  }

  function Count(kinds: seq<Kind>, kind: Kind, n: nat): nat
    requires n <= |kinds|
  {
    if n == 0 then 0 else Count(kinds, kind, n - 1) + (if kinds[n - 1] == kind then 1 else 0)
  }

  // ----- what the split means -----

  lemma {:induction false} RegistersFilled(kinds: seq<Kind>, kind: Kind, max: nat, n: nat)
    requires n <= |kinds|
    ensures |InRegisters(kinds, kind, max, n)| == (if Count(kinds, kind, n) < max then Count(kinds, kind, n) else max)
  {
    if n > 0 {
      RegistersFilled(kinds, kind, max, n - 1);
    }
  }

  /** An argument is in a register exactly if fewer than the number of registers of its kind come
      before it, and it is in the register with just that number. */
  lemma {:induction false} RegisterOf(kinds: seq<Kind>, kind: Kind, max: nat, n: nat, i: nat)
    requires i < n <= |kinds| && kinds[i] == kind
    ensures var r := InRegisters(kinds, kind, max, n);
      var c := Count(kinds, kind, i);
      (c < max ==> c < |r| && r[c] == i) && (i in r ==> c < max)
    decreases n
  {
    if i < n - 1 {
      RegisterOf(kinds, kind, max, n - 1, i);
    } else {
      RegistersFilled(kinds, kind, max, i);
    }
  }

  /** Every argument lands in exactly one place. */
  lemma EachOnce(kinds: seq<Kind>, i: nat)
    requires i < |kinds|
    ensures var ints := InRegisters(kinds, IntArg, MAX_CALL_INT_REGISTERS, |kinds|);
      var floats := InRegisters(kinds, FloatArg, MAX_CALL_SSE_REGISTERS, |kinds|);
      multiset(ints + floats + OnStack(kinds, 0))[i] == 1
  {
    var ints := InRegisters(kinds, IntArg, MAX_CALL_INT_REGISTERS, |kinds|);
    var floats := InRegisters(kinds, FloatArg, MAX_CALL_SSE_REGISTERS, |kinds|);
    OnceInOrder(ints, i);
    OnceInOrder(floats, i);
    OnceInOrder(OnStack(kinds, 0), i);
  }

  lemma {:induction false} OnceInOrder(s: seq<nat>, i: nat)
    requires forall a, b :: 0 <= a < b < |s| ==> s[a] < s[b]
    ensures multiset(s)[i] == if i in s then 1 else 0
  {
    if s != [] {
      OnceInOrder(s[..|s| - 1], i);
      assert s == s[..|s| - 1] + [s[|s| - 1]];
    }
  }

  /** How many arguments go on the stack. */
  lemma StackCount(kinds: seq<Kind>)
    ensures |OnStack(kinds, 0)| == |kinds|
      - |InRegisters(kinds, IntArg, MAX_CALL_INT_REGISTERS, |kinds|)|
      - |InRegisters(kinds, FloatArg, MAX_CALL_SSE_REGISTERS, |kinds|)|
  {
    hide InRegisters;
    var ints := InRegisters(kinds, IntArg, MAX_CALL_INT_REGISTERS, |kinds|);
    var floats := InRegisters(kinds, FloatArg, MAX_CALL_SSE_REGISTERS, |kinds|);
    var stack := OnStack(kinds, 0);
    var all: seq<nat> := ints + floats + stack;
    var numbers: seq<nat> := seq(|kinds|, i requires 0 <= i < |kinds| => i);
    forall i: nat
      ensures multiset(all)[i] == multiset(numbers)[i]
    {
      OnceInOrder(numbers, i);
      assert i < |kinds| ==> numbers[i] == i;
      if i < |kinds| {
        EachOnce(kinds, i);
      } else {
        assert i !in ints && i !in floats && i !in stack;
      }
    }
    assert multiset(all) == multiset(numbers);
    assert |all| == |multiset(all)| == |multiset(numbers)| == |numbers|;
  }

  /** Six integers and eight floats fit into registers; what is beyond that goes on the stack, and nothing
      else. */
  lemma BeyondRegisters(kinds: seq<Kind>)
    ensures var ints, floats := Count(kinds, IntArg, |kinds|), Count(kinds, FloatArg, |kinds|);
      |OnStack(kinds, 0)| == (if ints > 6 then ints - 6 else 0) + (if floats > 8 then floats - 8 else 0)
  {
    hide InRegisters, OnStack;
    StackCount(kinds);
    RegistersFilled(kinds, IntArg, MAX_CALL_INT_REGISTERS, |kinds|);
    RegistersFilled(kinds, FloatArg, MAX_CALL_SSE_REGISTERS, |kinds|);
    AllCounted(kinds, |kinds|);
  }

  /** With at most 35 arguments, hidden ones included, the buffer is never overrun. */
  lemma BufferSuffices(kinds: seq<Kind>)
    requires |kinds| <= X64_MAX_ARGS + 3
    ensures MAX_CALL_INT_REGISTERS + MAX_CALL_SSE_REGISTERS + |OnStack(kinds, 0)| <= X64_CALLSTACK_SIZE
  {
    StackCount(kinds);
    RegistersFilled(kinds, IntArg, MAX_CALL_INT_REGISTERS, |kinds|);
    RegistersFilled(kinds, FloatArg, MAX_CALL_SSE_REGISTERS, |kinds|);
    AllCounted(kinds, |kinds|);
  }

  lemma {:induction false} AllCounted(kinds: seq<Kind>, n: nat)
    requires n <= |kinds|
    ensures Count(kinds, IntArg, n) + Count(kinds, FloatArg, n) == n
  {
    if n > 0 {
      AllCounted(kinds, n - 1);
    }
  }

  /** With 36 integer arguments it would be. */
  lemma BufferNeeded(kinds: seq<Kind>)
    requires |kinds| == X64_MAX_ARGS + 4 && forall i :: 0 <= i < |kinds| ==> kinds[i] == IntArg
    ensures MAX_CALL_INT_REGISTERS + MAX_CALL_SSE_REGISTERS + |OnStack(kinds, 0)| > X64_CALLSTACK_SIZE
  {
    StackCount(kinds);
    RegistersFilled(kinds, FloatArg, MAX_CALL_SSE_REGISTERS, |kinds|);
    NoFloats(kinds, |kinds|);
  }

  lemma {:induction false} NoFloats(kinds: seq<Kind>, n: nat)
    requires n <= |kinds| && forall i :: 0 <= i < |kinds| ==> kinds[i] == IntArg
    ensures Count(kinds, FloatArg, n) == 0
  {
    if n > 0 {
      NoFloats(kinds, n - 1);
    }
  }

  // ----- the three loops -----

  // The buffer holds these arguments from `at` on.
  ghost predicate Placed(buffer: seq<int>, at: nat, values: seq<int>, which: seq<nat>) {
    && at + |which| <= |buffer| && (forall k :: 0 <= k < |which| ==> which[k] < |values|)
    && forall k :: 0 <= k < |which| ==> buffer[at + k] == values[which[k]]
  }

  lemma {:induction false} NoMore(kinds: seq<Kind>, kind: Kind, max: nat, n: nat, m: nat)
    requires n <= m <= |kinds| && |InRegisters(kinds, kind, max, n)| == max
    ensures InRegisters(kinds, kind, max, m) == InRegisters(kinds, kind, max, n)
    decreases m
  {
    if n < m {
      NoMore(kinds, kind, max, n, m - 1);
    }
  }

  lemma NoneYet(kinds: seq<Kind>, kind: Kind, max: nat)
    ensures InRegisters(kinds, kind, max, 0) == []
  {
  }

  lemma RegisterStep(kinds: seq<Kind>, kind: Kind, max: nat, n: nat)
    requires n < |kinds| && |InRegisters(kinds, kind, max, n)| < max
    ensures InRegisters(kinds, kind, max, n + 1) ==
      InRegisters(kinds, kind, max, n) + (if kinds[n] == kind then [n] else [])
  {
  }

  // One of the first two loops: collect the arguments of one kind.
  method FillRegisters(paramBuffer: seq<int>, argsType: seq<Kind>, kind: Kind, max: nat, start: nat,
                       tempBuff: array<int>, argsSet: array<bool>)
    requires |paramBuffer| == |argsType| <= argsSet.Length && start + max <= tempBuff.Length
    modifies tempBuff, argsSet
    ensures var r := InRegisters(argsType, kind, max, |argsType|);
      && Placed(tempBuff[..], start, paramBuffer, r)
      && (forall q :: 0 <= q < tempBuff.Length && !(start <= q < start + |r|) ==> tempBuff[q] == old(tempBuff[q]))
      && (forall q :: 0 <= q < argsSet.Length ==> argsSet[q] == (old(argsSet[q]) || q in r))
  {
    hide InRegisters;
    var n, used, idx := 0, 0, start;
    NoneYet(argsType, kind, max);
    while n < |argsType| && used < max
      invariant n <= |argsType| && idx == start + used && used == |InRegisters(argsType, kind, max, n)|
      invariant Placed(tempBuff[..], start, paramBuffer, InRegisters(argsType, kind, max, n))
      invariant forall q :: 0 <= q < tempBuff.Length && !(start <= q < idx) ==> tempBuff[q] == old(tempBuff[q])
      invariant forall q :: 0 <= q < argsSet.Length ==>
        argsSet[q] == (old(argsSet[q]) || q in InRegisters(argsType, kind, max, n))
    {
      RegisterStep(argsType, kind, max, n);
      if argsType[n] == kind {
        argsSet[n] := true;
        tempBuff[idx] := paramBuffer[n];
        used, idx := used + 1, idx + 1;
      }
      n := n + 1;
    }
    if n < |argsType| {
      NoMore(argsType, kind, max, n, |argsType|);
    }
  }

  /** Arrange the arguments for the call: integer registers, float registers, then what is pushed, the
      last argument first, so that the first lies on top. */
  method Split(paramBuffer: seq<int>, argsType: seq<Kind>) returns (tempBuff: array<int>, usedStackArgs: nat)
    requires |paramBuffer| == |argsType| <= X64_MAX_ARGS + 3
    ensures fresh(tempBuff) && tempBuff.Length == X64_CALLSTACK_SIZE
    ensures var ints := InRegisters(argsType, IntArg, MAX_CALL_INT_REGISTERS, |argsType|);
      && Placed(tempBuff[..], 0, paramBuffer, ints)
      && forall q :: |ints| <= q < MAX_CALL_INT_REGISTERS ==> tempBuff[q] == 0
    ensures var floats := InRegisters(argsType, FloatArg, MAX_CALL_SSE_REGISTERS, |argsType|);
      && Placed(tempBuff[..], MAX_CALL_INT_REGISTERS, paramBuffer, floats)
      && forall q :: MAX_CALL_INT_REGISTERS + |floats| <= q < MAX_CALL_INT_REGISTERS + MAX_CALL_SSE_REGISTERS ==>
         tempBuff[q] == 0
    ensures var stack := OnStack(argsType, 0);
      && usedStackArgs == |stack|
      && Placed(tempBuff[..], MAX_CALL_INT_REGISTERS + MAX_CALL_SSE_REGISTERS, paramBuffer, Reversed(stack))
  {
    hide InRegisters, OnStack;
    tempBuff := new int[X64_CALLSTACK_SIZE](_ => 0);
    var argsSet := new bool[X64_CALLSTACK_SIZE](_ => false);
    FillRegisters(paramBuffer, argsType, IntArg, MAX_CALL_INT_REGISTERS, 0, tempBuff, argsSet);
    FillRegisters(paramBuffer, argsType, FloatArg, MAX_CALL_SSE_REGISTERS, MAX_CALL_INT_REGISTERS, tempBuff, argsSet);
    BufferSuffices(argsType);
    usedStackArgs := FillStack(paramBuffer, argsType, tempBuff, argsSet);
  }

  function Reversed(s: seq<nat>): (r: seq<nat>)
    ensures |r| == |s| && forall k :: 0 <= k < |s| ==> r[k] == s[|s| - 1 - k]
  {
    if s == [] then [] else Reversed(s[1..]) + [s[0]]
  }

  // The third loop: what is left, from the last to the first.
  method FillStack(paramBuffer: seq<int>, argsType: seq<Kind>, tempBuff: array<int>, argsSet: array<bool>)
    returns (usedStackArgs: nat)
    requires |paramBuffer| == |argsType| <= argsSet.Length
    requires MAX_CALL_INT_REGISTERS + MAX_CALL_SSE_REGISTERS + |OnStack(argsType, 0)| <= tempBuff.Length
    requires forall i :: 0 <= i < |argsType| ==> argsSet[i] == IsInRegister(argsType, i)
    modifies tempBuff
    ensures usedStackArgs == |OnStack(argsType, 0)|
    ensures Placed(tempBuff[..], MAX_CALL_INT_REGISTERS + MAX_CALL_SSE_REGISTERS, paramBuffer,
                   Reversed(OnStack(argsType, 0)))
    ensures forall q :: 0 <= q < MAX_CALL_INT_REGISTERS + MAX_CALL_SSE_REGISTERS ==> tempBuff[q] == old(tempBuff[q])
  {
    hide IsInRegister, OnStack, Reversed;
    var start, n: nat := MAX_CALL_INT_REGISTERS + MAX_CALL_SSE_REGISTERS, |argsType|;
    var idx := start;
    usedStackArgs := 0;
    NothingLeft(argsType);
    while n > 0
      invariant n <= |argsType| && idx == start + usedStackArgs && usedStackArgs == |OnStack(argsType, n)|
      invariant Placed(tempBuff[..], start, paramBuffer, Reversed(OnStack(argsType, n)))
      invariant forall q :: 0 <= q < start ==> tempBuff[q] == old(tempBuff[q])
    {
      n := n - 1;
      StackShrinks(argsType, n);
      StackStep(argsType, n);
      if !argsSet[n] {
        tempBuff[idx] := paramBuffer[n];
        idx, usedStackArgs := idx + 1, usedStackArgs + 1;
      }
    }
  }

  lemma NothingLeft(kinds: seq<Kind>)
    ensures OnStack(kinds, |kinds|) == [] && Reversed([]) == []
  {
  }

  lemma StackStep(kinds: seq<Kind>, n: nat)
    requires n < |kinds|
    ensures IsInRegister(kinds, n) ==> OnStack(kinds, n) == OnStack(kinds, n + 1)
    ensures !IsInRegister(kinds, n) ==>
      |OnStack(kinds, n)| == |OnStack(kinds, n + 1)| + 1
      && Reversed(OnStack(kinds, n)) == Reversed(OnStack(kinds, n + 1)) + [n]
  {
    hide IsInRegister;
    assert ([n] + OnStack(kinds, n + 1))[1..] == OnStack(kinds, n + 1);
  }

  lemma {:induction false} StackShrinks(kinds: seq<Kind>, n: nat)
    requires n <= |kinds|
    ensures |OnStack(kinds, n)| <= |OnStack(kinds, 0)|
    decreases n
  {
    hide IsInRegister;
    if n > 0 {
      StackShrinks(kinds, n - 1);
    }
  }
}
