/** `CompileGlobalVariables`: global variables are compiled over and over until no more can be. */
module GlobalVariables {
  datatype GlobalVar = GlobalVar(isPrimitive: bool, isEnumValue: bool, hasProperty: bool)

  /** What the compiler says of a variable, given the variables compiled so far: whether it compiles,
      and the errors and warnings it reports. */
  datatype Compiler = Compiler(
    compiles: (nat, set<nat>) -> bool,
    errors: (nat, set<nat>) -> nat,
    warnings: (nat, set<nat>) -> nat)

  /** Having more variables compiled never makes one fail. */
  ghost predicate Monotone(compiler: Compiler) {
    forall g, s, t {:trigger compiler.compiles(g, s), compiler.compiles(g, t)} ::
      s <= t && compiler.compiles(g, s) ==> compiler.compiles(g, t)
  }

  // None of the first `n` variables, or of the primitive ones among them, can be compiled.
  ghost predicate Tried(vars: seq<GlobalVar>, compiler: Compiler, onlyPrimitives: bool, n: nat, s: set<nat>)
    requires n <= |vars|
  {
    forall g :: 0 <= g < n && g !in s && (onlyPrimitives ==> vars[g].isPrimitive) ==> !compiler.compiles(g, s)
  }

  /** Nothing more can be compiled. */
  ghost predicate Closed(vars: seq<GlobalVar>, compiler: Compiler, onlyPrimitives: bool, s: set<nat>) {
    Tried(vars, compiler, onlyPrimitives, |vars|, s)
  }

  // What was compiled in addition is primitive.
  ghost predicate OnlyPrimitives(vars: seq<GlobalVar>, was: seq<nat>, order: seq<nat>) {
    forall g :: g in order && g !in was ==> g < |vars| && vars[g].isPrimitive
  }

  // Each variable was compiled with only those before it, and once.
  ghost predicate Justified(vars: seq<GlobalVar>, compiler: Compiler, before: set<nat>, order: seq<nat>) {
    && (forall i :: 0 <= i < |order| ==> order[i] < |vars| && order[i] !in before && order[i] !in order[..i])
    && (forall i :: 0 <= i < |order| ==> compiler.compiles(order[i], before + Elements(order[..i])))
  }

  function Elements(s: seq<nat>): (r: set<nat>)
    ensures forall g :: g in r <==> g in s
  {
    set g | g in s
  }

  lemma ElementsMore(s: seq<nat>, g: nat)
    ensures Elements(s + [g]) == Elements(s) + {g}
  {
  }

  /** Whatever can be compiled in some order is in every set that is closed: what is compiled is the
      least of them. This holds of all variables, and of the primitive ones alone. */
  lemma {:induction false} LeastClosed(vars: seq<GlobalVar>, compiler: Compiler, onlyPrimitives: bool, before: set<nat>,
                                       order: seq<nat>, t: set<nat>)
    requires Monotone(compiler) && Justified(vars, compiler, before, order) && before <= t
    requires Closed(vars, compiler, onlyPrimitives, t) && (onlyPrimitives ==> OnlyPrimitives(vars, [], order))
    ensures before + Elements(order) <= t
  {
    hide Monotone, Justified, Closed, OnlyPrimitives;
    if order != [] {
      var p, g := order[..|order| - 1], order[|order| - 1];
      assert order == p + [g];
      LastJustified(vars, compiler, before, order);
      ElementsMore(p, g);
      if onlyPrimitives {
        FewerPrimitives(vars, p, g);
      }
      LeastClosed(vars, compiler, onlyPrimitives, before, p, t);
      CompiledInClosed(vars, compiler, onlyPrimitives, before + Elements(p), t, g);
    }
  }

  lemma LastJustified(vars: seq<GlobalVar>, compiler: Compiler, before: set<nat>, order: seq<nat>)
    requires Justified(vars, compiler, before, order) && order != []
    ensures var p, g := order[..|order| - 1], order[|order| - 1];
      Justified(vars, compiler, before, p) && g < |vars| && compiler.compiles(g, before + Elements(p))
  {
    var p := order[..|order| - 1];
    assert forall i :: 0 <= i < |p| ==> p[..i] == order[..i];
  }

  lemma FewerPrimitives(vars: seq<GlobalVar>, p: seq<nat>, g: nat)
    requires OnlyPrimitives(vars, [], p + [g])
    ensures OnlyPrimitives(vars, [], p) && g < |vars| && vars[g].isPrimitive
  {
    assert g in p + [g] && forall h :: h in p ==> h in p + [g];
  }

  lemma CompiledInClosed(vars: seq<GlobalVar>, compiler: Compiler, onlyPrimitives: bool, s: set<nat>, t: set<nat>,
                         g: nat)
    requires Monotone(compiler) && Closed(vars, compiler, onlyPrimitives, t) && s <= t && g < |vars|
    requires compiler.compiles(g, s) && (onlyPrimitives ==> vars[g].isPrimitive)
    ensures g in t
  {
  }

  // ----- initialization order, errors -----

  function InitOrder(vars: seq<GlobalVar>, order: seq<nat>): seq<nat> {
    if order == [] then []
    else
      var g := order[|order| - 1];
      InitOrder(vars, order[..|order| - 1])
      + (if g < |vars| && vars[g].hasProperty && !vars[g].isEnumValue then [g] else [])
  }

  /** The initialization order keeps the order of compilation: whatever a variable needed and has to be
      initialized comes before it. */
  lemma {:induction false} InitBefore(vars: seq<GlobalVar>, order: seq<nat>, i: nat) returns (k: nat)
    requires i < |order| && order[i] < |vars| && vars[order[i]].hasProperty && !vars[order[i]].isEnumValue
    ensures k < |InitOrder(vars, order)| && InitOrder(vars, order)[k] == order[i]
    ensures InitOrder(vars, order)[..k] == InitOrder(vars, order[..i])
    decreases |order|
  {
    var p := order[..|order| - 1];
    if i < |p| {
      k := InitBefore(vars, p, i);
      assert p[..i] == order[..i];
    } else {
      k := |InitOrder(vars, p)|;
    }
  }

  // What the variables from `from` that are not in the set report.
  ghost function Sum(count: (nat, set<nat>) -> nat, n: nat, s: set<nat>): nat {
    if n == 0 then 0 else Sum(count, n - 1, s) + (if n - 1 in s then 0 else count(n - 1, s))
  }

  // What the variables report as they are compiled in this order.
  ghost function Reported(count: (nat, set<nat>) -> nat, before: set<nat>, order: seq<nat>): nat {
    if order == [] then 0
    else
      var p := order[..|order| - 1];
      Reported(count, before, p) + count(order[|order| - 1], before + Elements(p))
  }

  lemma ReportedMore(count: (nat, set<nat>) -> nat, before: set<nat>, order: seq<nat>, g: nat)
    ensures Reported(count, before, order + [g]) == Reported(count, before, order) + count(g, before + Elements(order))
  {
    assert (order + [g])[..|order|] == order;
  }

  /** If every failure reports an error, no error means that everything was compiled. */
  lemma {:induction false} NoErrorAllCompiled(compiler: Compiler, n: nat, s: set<nat>)
    requires forall g: nat :: g < n && !compiler.compiles(g, s) ==> compiler.errors(g, s) > 0
    requires forall g: nat :: g < n && g !in s ==> !compiler.compiles(g, s)
    ensures Sum(compiler.errors, n, s) == 0 <==> forall g: nat :: g < n ==> g in s
  {
    if n > 0 {
      NoErrorAllCompiled(compiler, n - 1, s);
    }
  }

  class Globals {
    const vars: seq<GlobalVar>
    const compiler: Compiler
    var isCompiled: set<nat>
    var numErrors: nat
    var numWarnings: nat
    var scriptGlobals: seq<nat>

    constructor (vars: seq<GlobalVar>, compiler: Compiler, isCompiled: set<nat>, scriptGlobals: seq<nat>)
      ensures this.vars == vars && this.compiler == compiler && this.isCompiled == isCompiled
      ensures this.scriptGlobals == scriptGlobals && numErrors == 0 && numWarnings == 0
    {
      this.vars, this.compiler, this.isCompiled, this.scriptGlobals := vars, compiler, isCompiled, scriptGlobals;
      numErrors, numWarnings := 0, 0;
    }

    /** One pass over the variables. */
    method CompilePass(compilingPrimitives: bool, initOrder: seq<nat>, ghost before: set<nat>, ghost order: seq<nat>)
      returns (compileSucceeded: bool, initOrder': seq<nat>, accumErrors: nat, warnings: nat, accumWarnings: nat,
               ghost order': seq<nat>)
      requires Monotone(compiler) && Justified(vars, compiler, before, order)
      requires isCompiled == before + Elements(order) && initOrder == InitOrder(vars, order)
      modifies this`isCompiled
      ensures Justified(vars, compiler, before, order') && order <= order'
      ensures isCompiled == before + Elements(order') && initOrder' == InitOrder(vars, order')
      ensures compilingPrimitives ==> OnlyPrimitives(vars, order, order')
      ensures compileSucceeded <==> order' != order
      ensures warnings == Reported(compiler.warnings, before, order') - Reported(compiler.warnings, before, order)
      ensures !compileSucceeded ==> Closed(vars, compiler, compilingPrimitives, isCompiled)
      ensures !compileSucceeded && !compilingPrimitives ==>
        && accumErrors == Sum(compiler.errors, |vars|, isCompiled)
        && accumWarnings == Sum(compiler.warnings, |vars|, isCompiled)
      ensures Pending(vars, isCompiled) <= Pending(vars, old(isCompiled))
      ensures compileSucceeded ==> Pending(vars, isCompiled) < Pending(vars, old(isCompiled))
    {
      hide Justified, Tried, InitOrder, Sum, Pending, Monotone, Elements, OnlyPrimitives, Reported;
      compileSucceeded, initOrder', order' := false, initOrder, order;
      PassStarts(vars, compiler, compilingPrimitives, isCompiled, order);
      accumErrors, warnings, accumWarnings := 0, 0, 0;
      var g := 0;
      while g < |vars|
        invariant g <= |vars| && Justified(vars, compiler, before, order') && order <= order'
        invariant isCompiled == before + Elements(order') && initOrder' == InitOrder(vars, order')
        invariant compilingPrimitives ==> OnlyPrimitives(vars, order, order')
        invariant compileSucceeded <==> order' != order
        invariant warnings == Reported(compiler.warnings, before, order') - Reported(compiler.warnings, before, order)
        invariant !compileSucceeded ==> Tried(vars, compiler, compilingPrimitives, g, isCompiled)
        invariant !compileSucceeded && !compilingPrimitives ==>
          && accumErrors == Sum(compiler.errors, g, isCompiled)
          && accumWarnings == Sum(compiler.warnings, g, isCompiled)
        invariant Pending(vars, isCompiled) <= Pending(vars, old(isCompiled))
        invariant compileSucceeded ==> Pending(vars, isCompiled) < Pending(vars, old(isCompiled))
      {
        PassStep(vars, compiler, compilingPrimitives, isCompiled, order, order', g);
        if g !in isCompiled && !(compilingPrimitives && !vars[g].isPrimitive) {
          if compiler.compiles(g, isCompiled) {
            warnings := warnings + compiler.warnings(g, isCompiled);
            // Determine order of variable initializations
            if vars[g].hasProperty && !vars[g].isEnumValue {
              initOrder' := initOrder' + [g];
            }
            OneMoreCompiled(vars, compiler, before, order', g);
            ReportedMore(compiler.warnings, before, order', g);
            isCompiled := isCompiled + {g};
            order' := order' + [g];
            compileSucceeded := true;
          } else {
            accumErrors := accumErrors + compiler.errors(g, isCompiled);
            accumWarnings := accumWarnings + compiler.warnings(g, isCompiled);
          }
        }
        g := g + 1;
      }
    }

    /** Compile what can be compiled: the least set of variables that leaves nothing to compile, the
        primitive ones first; the errors are those of the last pass, and the warnings those of what was
        compiled and of the last pass. */
    method CompileGlobalVariables() returns (ghost order: seq<nat>, ghost primitives: nat)
      requires Monotone(compiler)
      modifies this
      ensures Justified(vars, compiler, old(isCompiled), order) && isCompiled == old(isCompiled) + Elements(order)
      ensures Closed(vars, compiler, false, isCompiled)
      ensures primitives <= |order| && OnlyPrimitives(vars, [], order[..primitives])
      ensures Closed(vars, compiler, true, old(isCompiled) + Elements(order[..primitives]))
      ensures numErrors == old(numErrors) + Sum(compiler.errors, |vars|, isCompiled)
      ensures numWarnings == old(numWarnings) + Reported(compiler.warnings, old(isCompiled), order)
        + Sum(compiler.warnings, |vars|, isCompiled)
      ensures scriptGlobals == (if numErrors == 0 && |old(scriptGlobals)| == |InitOrder(vars, order)|
        then InitOrder(vars, order) else old(scriptGlobals))
    {
      hide Justified, Closed, Monotone, InitOrder, Sum, Pending, Reported;
      ghost var before := isCompiled;
      var compileSucceeded, compilingPrimitives, initOrder := true, true, [];
      var currNumErrors, currNumWarnings := numErrors, numWarnings;
      order, primitives := [], 0;
      NothingCompiled(vars, compiler, before);
      while compileSucceeded
        invariant Justified(vars, compiler, before, order) && isCompiled == before + Elements(order)
        invariant initOrder == InitOrder(vars, order)
        invariant compilingPrimitives ==> OnlyPrimitives(vars, [], order)
        invariant !compilingPrimitives ==>
          && primitives <= |order| && OnlyPrimitives(vars, [], order[..primitives])
          && Closed(vars, compiler, true, before + Elements(order[..primitives]))
        invariant !compileSucceeded ==>
          && !compilingPrimitives && Closed(vars, compiler, false, isCompiled)
          && currNumErrors == numErrors + Sum(compiler.errors, |vars|, isCompiled)
        invariant compileSucceeded ==> currNumErrors == numErrors
        invariant currNumWarnings == numWarnings + Reported(compiler.warnings, before, order)
          + (if compileSucceeded then 0 else Sum(compiler.warnings, |vars|, isCompiled))
        invariant numErrors == old(numErrors) && numWarnings == old(numWarnings) && scriptGlobals == old(scriptGlobals)
        decreases Pending(vars, isCompiled), compilingPrimitives, compileSucceeded
      {
        ghost var was := order;
        var accumErrors, warnings, accumWarnings;
        compileSucceeded, initOrder, accumErrors, warnings, accumWarnings, order :=
          CompilePass(compilingPrimitives, initOrder, before, order);
        currNumWarnings := currNumWarnings + warnings;
        if !compileSucceeded {
          if compilingPrimitives {
            // No more primitives could be compiled, so switch to the complex variables
            compilingPrimitives, compileSucceeded := false, true;
            primitives := |order|;
            assert order[..primitives] == order;
          } else {
            // No more variables can be compiled
            currNumWarnings := currNumWarnings + accumWarnings;
            currNumErrors := currNumErrors + accumErrors;
          }
        } else if !compilingPrimitives {
          assert order[..primitives] == was[..primitives];
        }
      }
      numWarnings, numErrors := currNumWarnings, currNumErrors;
      if numErrors == 0 && |scriptGlobals| == |initOrder| {
        scriptGlobals := initOrder;
      }
    }
  }

  // How many variables are not compiled.
  ghost function Pending(vars: seq<GlobalVar>, s: set<nat>): nat {
    |set g | 0 <= g < |vars| && g !in s|
  }

  lemma NothingCompiled(vars: seq<GlobalVar>, compiler: Compiler, before: set<nat>)
    ensures Justified(vars, compiler, before, []) && InitOrder(vars, []) == [] && before + Elements([]) == before
    ensures Reported(compiler.warnings, before, []) == 0
  {
  }

  lemma PassStarts(vars: seq<GlobalVar>, compiler: Compiler, onlyPrimitives: bool, s: set<nat>, order: seq<nat>)
    ensures Tried(vars, compiler, onlyPrimitives, 0, s) && OnlyPrimitives(vars, order, order)
    ensures Sum(compiler.errors, 0, s) == 0 && Sum(compiler.warnings, 0, s) == 0
  {
  }

  lemma PassStep(vars: seq<GlobalVar>, compiler: Compiler, onlyPrimitives: bool, s: set<nat>, order: seq<nat>,
                 order': seq<nat>,
                 g: nat)
    requires g < |vars|
    ensures Tried(vars, compiler, onlyPrimitives, g + 1, s) <==>
      && Tried(vars, compiler, onlyPrimitives, g, s)
      && (g in s || (onlyPrimitives && !vars[g].isPrimitive) || !compiler.compiles(g, s))
    ensures OnlyPrimitives(vars, order, order') && vars[g].isPrimitive ==> OnlyPrimitives(vars, order, order' + [g])
    ensures Sum(compiler.errors, g + 1, s) == Sum(compiler.errors, g, s) + (if g in s then 0 else compiler.errors(g, s))
    ensures Sum(compiler.warnings, g + 1, s) ==
      Sum(compiler.warnings, g, s) + (if g in s then 0 else compiler.warnings(g, s))
  {
  }

  lemma OneMoreCompiled(vars: seq<GlobalVar>, compiler: Compiler, before: set<nat>, order: seq<nat>, g: nat)
    requires Justified(vars, compiler, before, order) && g < |vars| && g !in before + Elements(order)
    requires compiler.compiles(g, before + Elements(order))
    ensures Justified(vars, compiler, before, order + [g])
    ensures before + Elements(order + [g]) == before + Elements(order) + {g}
    ensures InitOrder(vars, order + [g]) ==
      InitOrder(vars, order) + (if vars[g].hasProperty && !vars[g].isEnumValue then [g] else [])
    ensures Pending(vars, before + Elements(order) + {g}) < Pending(vars, before + Elements(order))
  {
    OneMoreElement(order, g);
    OneMoreJustified(vars, compiler, before, order, g);
    OneMoreInOrder(vars, order, g);
    FewerPending(vars, before + Elements(order), g);
  }

  lemma OneMoreElement(order: seq<nat>, g: nat)
    ensures Elements(order + [g]) == Elements(order) + {g}
  {
  }

  lemma OneMoreJustified(vars: seq<GlobalVar>, compiler: Compiler, before: set<nat>, order: seq<nat>, g: nat)
    requires Justified(vars, compiler, before, order) && g < |vars| && g !in before + Elements(order)
    requires compiler.compiles(g, before + Elements(order))
    ensures Justified(vars, compiler, before, order + [g])
  {
    hide Elements;
    var order' := order + [g];
    assert order'[..|order|] == order;
    assert forall i :: 0 <= i < |order| ==> order'[..i] == order[..i] && order'[i] == order[i];
  }

  lemma OneMoreInOrder(vars: seq<GlobalVar>, order: seq<nat>, g: nat)
    requires g < |vars|
    ensures InitOrder(vars, order + [g]) ==
      InitOrder(vars, order) + (if vars[g].hasProperty && !vars[g].isEnumValue then [g] else [])
  {
    assert (order + [g])[..|order|] == order;
  }

  lemma FewerPending(vars: seq<GlobalVar>, s: set<nat>, g: nat)
    requires g < |vars| && g !in s
    ensures Pending(vars, s + {g}) < Pending(vars, s)
  {
    var a, b := set h | 0 <= h < |vars| && h !in s, set h | 0 <= h < |vars| && h !in s + {g};
    assert a == b + {g};
  }
}
