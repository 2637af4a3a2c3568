/** `CompileClasses`: the virtual function table of each class, along inheritance and with a chunk for
    each interface. */
module VirtualTables {
  /** A method. Two methods with the same `overrideKey` override each other: they have the same name
      and parameters, and for conversion operators the same return type too. */
  datatype Func = Func(id: nat, signatureId: nat, overrideKey: nat, returnType: int, isFinal: bool)

  /** An entry in the list of methods: the function itself, or a stub that calls through the table. */
  datatype Method = Real(f: Func) | Virtual(f: Func, vfTableIdx: nat)

  datatype Slot = Null | Filled(f: Func)

  datatype InterfaceMethod = InterfaceMethod(objectType: nat, signatureId: nat, vfTableIdx: nat)

  datatype Interface = Interface(t: nat, methods: seq<InterfaceMethod>)

  // ----- interfaces -----

  /** An interface's own methods stand in front, numbered; inherited ones follow. */
  ghost predicate OwnFirst(t: nat, methods: seq<InterfaceMethod>, n: nat) {
    && n <= |methods|
    && (forall j :: 0 <= j < n ==> methods[j].objectType == t && methods[j].vfTableIdx == j)
    && (forall j :: n <= j < |methods| ==> methods[j].objectType != t)
  }

  predicate HasSignature(methods: seq<InterfaceMethod>, sig: nat) {
    exists m :: m in methods && m.signatureId == sig
  }

  class InterfaceType {
    const t: nat
    var methods: seq<InterfaceMethod>

    constructor (t: nat, methods: seq<InterfaceMethod>)
      ensures this.t == t && this.methods == methods
    {
      this.t, this.methods := t, methods;
    }

    /** Number the own methods and add those of the inherited interfaces. */
    method Compile(bases: seq<seq<InterfaceMethod>>)
      requires forall j :: 0 <= j < |methods| ==> methods[j].objectType == t
      requires forall b, m :: b in bases && m in b ==> m.objectType != t
      modifies this`methods
      ensures OwnFirst(t, methods, |old(methods)|)
      ensures forall sig :: HasSignature(methods, sig) <==>
        HasSignature(old(methods), sig) || exists b :: b in bases && HasSignature(b, sig)
      ensures forall j :: 0 <= j < |old(methods)| ==> methods[j].signatureId == old(methods)[j].signatureId
    {
      var d := 0;
      while d < |methods|
        invariant d <= |methods| == |old(methods)|
        invariant forall j :: 0 <= j < |methods| ==>
          methods[j] == if j < d then old(methods)[j].(vfTableIdx := j) else old(methods)[j]
      {
        methods := methods[d := methods[d].(vfTableIdx := d)];
        d := d + 1;
      }
      ghost var own := methods;
      SameSignatures(old(methods), own);
      var n := 0;
      while n < |bases|
        invariant n <= |bases| && OwnFirst(t, methods, |own|) && own <= methods
        invariant forall sig :: HasSignature(methods, sig) <==>
          HasSignature(own, sig) || exists b :: b in bases[..n] && HasSignature(b, sig)
      {
        AddMethods(bases[n], |own|);
        assert bases[..n + 1] == bases[..n] + [bases[n]];
        n := n + 1;
      }
      assert bases[..n] == bases;
    }

    method AddMethods(base: seq<InterfaceMethod>, ghost own: nat)
      requires OwnFirst(t, methods, own) && forall m :: m in base ==> m.objectType != t
      modifies this`methods
      ensures OwnFirst(t, methods, own) && old(methods) <= methods
      ensures forall sig :: HasSignature(methods, sig) <==> HasSignature(old(methods), sig) || HasSignature(base, sig)
    {
      var l := 0;
      while l < |base|
        invariant l <= |base| && OwnFirst(t, methods, own) && old(methods) <= methods
        invariant forall sig :: HasSignature(methods, sig) <==>
          HasSignature(old(methods), sig) || HasSignature(base[..l], sig)
      {
        OneMoreSignature(methods, base[l]);
        OneMoreSignature(base[..l], base[l]);
        assert base[..l + 1] == base[..l] + [base[l]];
        if !HasSignature(methods, base[l].signatureId) {
          methods := methods + [base[l]];
        }
        l := l + 1;
      }
      assert base[..l] == base;
    }
  }

  lemma OneMoreSignature(methods: seq<InterfaceMethod>, m: InterfaceMethod)
    ensures forall sig :: HasSignature(methods + [m], sig) <==> HasSignature(methods, sig) || sig == m.signatureId
  {
    assert m in methods + [m];
  }

  lemma SameSignatures(a: seq<InterfaceMethod>, b: seq<InterfaceMethod>)
    requires |a| == |b| && forall j :: 0 <= j < |a| ==> a[j].signatureId == b[j].signatureId
    ensures forall sig :: HasSignature(a, sig) <==> HasSignature(b, sig)
  {
    forall sig
      ensures HasSignature(a, sig) <==> HasSignature(b, sig)
    {
      if HasSignature(a, sig) {
        var j :| 0 <= j < |a| && a[j].signatureId == sig;
        assert b[j] in b;
      }
      if HasSignature(b, sig) {
        var j :| 0 <= j < |b| && b[j].signatureId == sig;
        assert a[j] in a;
      }
    }
  }

  // ----- one class -----

  ghost predicate DistinctKeys(own: seq<Func>) {
    forall i, j :: 0 <= i < j < |own| ==> own[i].overrideKey != own[j].overrideKey
  }

  /** The list of methods of a finished class: stubs, each with its own index. */
  ghost predicate StubsInOrder(methods: seq<Method>) {
    && (forall k :: 0 <= k < |methods| ==> methods[k].Virtual? && methods[k].vfTableIdx == k)
    && forall i, j :: 0 <= i < j < |methods| ==> methods[i].f.overrideKey != methods[j].f.overrideKey
  }

  function FindKey(own: seq<Func>, key: nat): (d: nat)
    ensures d <= |own| && (d < |own| ==> own[d].overrideKey == key)
    ensures forall i :: 0 <= i < d ==> own[i].overrideKey != key
  {
    if own == [] || own[0].overrideKey == key then 0 else 1 + FindKey(own[1..], key)
  }

  function HasKey(methods: seq<Method>, key: nat): bool {
    exists m :: m in methods && m.f.overrideKey == key
  }

  // What a slot that is inherited holds in a class with these methods of its own.
  function Override(own: seq<Func>, key: nat, inherited: Slot): Slot {
    var d := FindKey(own, key);
    if d < |own| then Filled(own[d]) else inherited
  }

  function Overridden(own: seq<Func>, methods: seq<Method>, table: seq<Slot>, n: nat): (r: seq<Slot>)
    requires n <= |methods| <= |table|
    ensures |r| == n && forall k :: 0 <= k < n ==> r[k] == Override(own, methods[k].f.overrideKey, table[k])
  {
    seq(n, k requires 0 <= k < n => Override(own, methods[k].f.overrideKey, table[k]))
  }

  /** The methods that override none of these. */
  function New(own: seq<Func>, methods: seq<Method>): (r: seq<Func>)
    ensures forall f :: f in r <==> f in own && !HasKey(methods, f.overrideKey)
  {
    if own == [] then []
    else New(own[..|own| - 1], methods) + (if HasKey(methods, own[|own| - 1].overrideKey) then [] else [own[|own| - 1]])
  }

  function Reals(fs: seq<Func>): (r: seq<Method>)
    ensures |r| == |fs| && forall k :: 0 <= k < |fs| ==> r[k] == Real(fs[k])
  {
    seq(|fs|, k requires 0 <= k < |fs| => Real(fs[k]))
  }

  function Stubs(fs: seq<Func>, from: nat): (r: seq<Method>)
    ensures |r| == |fs| && forall k :: 0 <= k < |fs| ==> r[k] == Virtual(fs[k], from + k)
  {
    seq(|fs|, k requires 0 <= k < |fs| => Virtual(fs[k], from + k))
  }

  function Slots(fs: seq<Func>): (r: seq<Slot>)
    ensures |r| == |fs| && forall k :: 0 <= k < |fs| ==> r[k] == Filled(fs[k])
  {
    seq(|fs|, k requires 0 <= k < |fs| => Filled(fs[k]))
  }

  function FinalMethods(own: seq<Func>, methods: seq<Method>): seq<Method> {
    methods + Stubs(New(own, methods), |methods|)
  }

  function FinalTable(own: seq<Func>, methods: seq<Method>, table: seq<Slot>): (r: seq<Slot>)
    requires |methods| <= |table|
    ensures |r| == |FinalMethods(own, methods)|
  {
    Overridden(own, methods, table, |methods|) + Slots(New(own, methods))
  }

  // Overriding keeps the return type, and leaves final methods alone.
  ghost predicate LegalOverride(own: seq<Func>, m: Method) {
    var d := FindKey(own, m.f.overrideKey);
    d < |own| ==> own[d].returnType == m.f.returnType && !m.f.isFinal
  }

  function FindSignature(methods: seq<Method>, sig: nat): (p: nat)
    ensures p <= |methods| && (p < |methods| ==> methods[p].f.signatureId == sig)
    ensures forall i :: 0 <= i < p ==> methods[i].f.signatureId != sig
  {
    if methods == [] || methods[0].f.signatureId == sig then 0 else 1 + FindSignature(methods[1..], sig)
  }

  function Implementation(methods: seq<Method>, table: seq<Slot>, sig: nat): Slot
    requires |methods| <= |table|
  {
    var p := FindSignature(methods, sig);
    if p < |methods| then table[p] else Null
  }

  // The chunk for the first `n` methods of an interface, inherited ones left out.
  function Chunk(methods: seq<Method>, table: seq<Slot>, intf: Interface, n: nat): seq<Slot>
    requires |methods| <= |table| && n <= |intf.methods|
  {
    if n == 0 then []
    else
      Chunk(methods, table, intf, n - 1)
      + (if intf.methods[n - 1].objectType != intf.t then []
         else [Implementation(methods, table, intf.methods[n - 1].signatureId)])
  }

  function Chunks(methods: seq<Method>, table: seq<Slot>, interfaces: seq<Interface>, n: nat): seq<Slot>
    requires |methods| <= |table| && n <= |interfaces|
  {
    if n == 0 then []
    else
      Chunks(methods, table, interfaces, n - 1)
      + Chunk(methods, table, interfaces[n - 1], |interfaces[n - 1].methods|)
  }

  function Offsets(methods: seq<Method>, table: seq<Slot>, interfaces: seq<Interface>, n: nat): (r: seq<nat>)
    requires |methods| <= |table| && n <= |interfaces|
    ensures |r| == n && forall m :: 0 <= m < n ==> r[m] == |table| + |Chunks(methods, table, interfaces, m)|
  {
    seq(n, m requires 0 <= m < n => |table| + |Chunks(methods, table, interfaces, m)|)
  }

  // ----- the passes over one class -----

  lemma NewMore(own: seq<Func>, f: Func, methods: seq<Method>)
    ensures New(own + [f], methods) == New(own, methods) + (if HasKey(methods, f.overrideKey) then [] else [f])
  {
    assert (own + [f])[..|own|] == own;
  }

  lemma HasKeyMore(methods: seq<Method>, m: Method, key: nat)
    ensures HasKey(methods + [m], key) <==> HasKey(methods, key) || m.f.overrideKey == key
  {
    assert m in methods + [m];
  }

  function Removed<T>(s: seq<T>, d: nat): (r: seq<T>)
    requires d < |s|
  {
    s[..d] + s[d + 1..]
  }

  lemma {:induction false} NewNone(own: seq<Func>)
    ensures New(own, []) == own
  {
    if own != [] {
      NewNone(own[..|own| - 1]);
      assert own == own[..|own| - 1] + [own[|own| - 1]];
    }
  }

  // One more inherited method takes the one that overrides it, if any, out of the new ones.
  lemma {:induction false} NewWithout(own: seq<Func>, methods: seq<Method>, m: Method) returns (d: nat)
    requires DistinctKeys(own) && !HasKey(methods, m.f.overrideKey)
    ensures d <= |New(own, methods)|
    ensures d < |New(own, methods)| ==>
      && FindKey(own, m.f.overrideKey) < |own| && New(own, methods)[d] == own[FindKey(own, m.f.overrideKey)]
      && New(own, methods + [m]) == Removed(New(own, methods), d)
    ensures d == |New(own, methods)| ==>
      FindKey(own, m.f.overrideKey) == |own| && New(own, methods + [m]) == New(own, methods)
    ensures forall k :: 0 <= k < |New(own, methods)| ==>
      (k == d <==> New(own, methods)[k].overrideKey == m.f.overrideKey)
  {
    hide New, FindKey, HasKey, Removed;
    d := 0;
    if own == [] {
      NewOfNone(methods, m);
    } else {
      var p, f, key := own[..|own| - 1], own[|own| - 1], m.f.overrideKey;
      assert own == p + [f];
      NewMore(p, f, methods);
      NewMore(p, f, methods + [m]);
      HasKeyMore(methods, m, f.overrideKey);
      assert DistinctKeys(p);
      d := NewWithout(p, methods, m);
      FindKeyMore(p, f, key);
      LastDiffers(p, f, key);
      d := WithoutStep(New(p, methods), New(p, methods + [m]), f, HasKey(methods, f.overrideKey), d, key);
    }
  }

  lemma NewOfNone(methods: seq<Method>, m: Method)
    ensures New([], methods) == [] && New([], methods + [m]) == [] && FindKey([], m.f.overrideKey) == 0
  {
  }

  lemma LastDiffers(p: seq<Func>, f: Func, key: nat)
    requires DistinctKeys(p + [f])
    ensures FindKey(p, key) < |p| ==> f.overrideKey != key
  {
    var k := FindKey(p, key);
    assert (p + [f])[|p|] == f && (k < |p| ==> (p + [f])[k] == p[k]);
  }

  // The same when there is one more method of the class itself, new or not.
  lemma WithoutStep(n: seq<Func>, n': seq<Func>, f: Func, known: bool, d: nat, key: nat) returns (d': nat)
    requires d <= |n| && n' == (if d < |n| then Removed(n, d) else n) && (d < |n| ==> f.overrideKey != key)
    requires forall k :: 0 <= k < |n| ==> (k == d <==> n[k].overrideKey == key)
    requires f.overrideKey == key ==> !known
    ensures var o, o' := n + (if known then [] else [f]), n' + (if known || f.overrideKey == key then [] else [f]);
      && d' <= |o| && o' == (if d' < |o| then Removed(o, d') else o)
      && (d' < |o| ==> if d < |n| then o[d'] == n[d] else o[d'] == f && f.overrideKey == key)
      && (d' == |o| ==> d == |n| && (f.overrideKey == key ==> known))
      && forall k :: 0 <= k < |o| ==> (k == d' <==> o[k].overrideKey == key)
  {
    hide Removed;
    d' := d;
    if known {
      assert n + [] == n && n' + [] == n';
    } else if d < |n| {
      WithoutMore(n, f, d);
    } else if f.overrideKey != key {
      d' := |n| + 1;
    } else {
      RemovedLast(n, f);
      assert n' + [] == n';
    }
  }

  lemma WithoutMore(n: seq<Func>, f: Func, d: nat)
    requires d < |n|
    ensures Removed(n + [f], d) == Removed(n, d) + [f]
  {
  }

  lemma RemovedLast(n: seq<Func>, f: Func)
    ensures Removed(n + [f], |n|) == n
  {
  }

  lemma {:induction false} FindKeyMore(own: seq<Func>, f: Func, key: nat)
    ensures FindKey(own + [f], key) ==
      if FindKey(own, key) < |own| then FindKey(own, key)
      else if f.overrideKey == key then |own| else |own| + 1
  {
    var a, b := FindKey(own + [f], key), FindKey(own, key);
    assert forall i :: 0 <= i < |own| ==> (own + [f])[i] == own[i];
    assert (own + [f])[|own|] == f;
    assert b < |own| ==> (own + [f])[b].overrideKey == key;
    assert a < |own| ==> own[a].overrideKey == key;
  }

  class ObjectType {
    var methods: seq<Method>
    var virtualFunctionTable: seq<Slot>
    var interfaceVFTOffsets: seq<nat>

    constructor (own: seq<Func>)
      ensures methods == Reals(own) && virtualFunctionTable == [] && interfaceVFTOffsets == []
    {
      methods, virtualFunctionTable, interfaceVFTOffsets := Reals(own), [], [];
    }

    /** Copy the methods of the base class; those of this class that override one take its slot. */
    method InheritMethods(baseMethods: seq<Method>, baseTable: seq<Slot>, ghost own: seq<Func>) returns (errors: nat)
      requires methods == Reals(own) && virtualFunctionTable == [] && DistinctKeys(own)
      requires StubsInOrder(baseMethods) && |baseMethods| <= |baseTable|
      modifies this`methods, this`virtualFunctionTable
      ensures methods == Reals(New(own, baseMethods)) + baseMethods
      ensures virtualFunctionTable == Overridden(own, baseMethods, baseTable, |baseMethods|)
      ensures errors == 0 <==> forall k :: 0 <= k < |baseMethods| ==> LegalOverride(own, baseMethods[k])
    {
      hide New, HasKey, Override, LegalOverride, StubsInOrder, DistinctKeys, Removed, Overridden, Reals;
      var m := 0;
      errors := 0;
      NewNone(own);
      OverriddenNone(own, baseMethods, baseTable);
      assert baseMethods[..0] == [] && methods + [] == methods;
      while m < |baseMethods|
        invariant m <= |baseMethods| && methods == Reals(New(own, baseMethods[..m])) + baseMethods[..m]
        invariant virtualFunctionTable == Overridden(own, baseMethods, baseTable, m)
        invariant errors == 0 <==> forall k :: 0 <= k < m ==> LegalOverride(own, baseMethods[k])
      {
        KeyNotBefore(baseMethods, m);
        OverriddenMore(own, baseMethods, baseTable, m);
        assert baseMethods[..m + 1] == baseMethods[..m] + [baseMethods[m]];
        var wrong := InheritMethod(baseMethods[m], baseTable[m], own, baseMethods[..m]);
        errors := errors + wrong;
        m := m + 1;
      }
      assert baseMethods[..m] == baseMethods;
    }

    // One method of the base class: it is copied, and takes out the one that overrides it.
    method InheritMethod(baseFunc: Method, baseSlot: Slot, ghost own: seq<Func>, ghost before: seq<Method>)
      returns (errors: nat)
      requires methods == Reals(New(own, before)) + before
      requires DistinctKeys(own) && !HasKey(before, baseFunc.f.overrideKey)
      modifies this`methods, this`virtualFunctionTable
      ensures methods == Reals(New(own, before + [baseFunc])) + (before + [baseFunc])
      ensures virtualFunctionTable == old(virtualFunctionTable) + [Override(own, baseFunc.f.overrideKey, baseSlot)]
      ensures errors == 0 <==> LegalOverride(own, baseFunc)
    {
      hide New, HasKey, Override, LegalOverride, DistinctKeys, Removed, Reals;
      errors := 0;
      ghost var news := New(own, before);
      ghost var e := NewWithout(own, before, baseFunc);
      OverrideIs(own, baseFunc, baseSlot);
      var d := FindMethod(baseFunc.f.overrideKey);
      FoundWhere(news, before, methods, d, e, baseFunc.f.overrideKey);
      if d < |methods| {
        var derivedFunc := methods[d].f;
        if baseFunc.f.returnType != derivedFunc.returnType {
          errors := errors + 1;
        }
        if baseFunc.f.isFinal {
          errors := errors + 1;
        }
        RealsWithout(news, before, d);
        methods := Removed(methods, d);
        virtualFunctionTable := virtualFunctionTable + [Filled(derivedFunc)];
      } else {
        virtualFunctionTable := virtualFunctionTable + [baseSlot];
      }
      methods := methods + [baseFunc];
    }

    method FindMethod(key: nat) returns (d: nat)
      ensures d <= |methods| && (d < |methods| ==> methods[d].f.overrideKey == key)
      ensures forall i :: 0 <= i < d ==> methods[i].f.overrideKey != key
    {
      d := 0;
      while d < |methods| && methods[d].f.overrideKey != key
        invariant d <= |methods| && forall i :: 0 <= i < d ==> methods[i].f.overrideKey != key
      {
        d := d + 1;
      }
    }

    /** Move the remaining methods of the class into the table, each replaced by a stub at the end. */
    method MoveOwnMethods(ghost news: seq<Func>, ghost baseMethods: seq<Method>)
      requires methods == Reals(news) + baseMethods && |virtualFunctionTable| == |baseMethods|
      requires forall k :: 0 <= k < |baseMethods| ==> baseMethods[k].Virtual?
      modifies this`methods, this`virtualFunctionTable
      ensures methods == baseMethods + Stubs(news, |baseMethods|)
      ensures virtualFunctionTable == old(virtualFunctionTable) + Slots(news)
    {
      ghost var i := 0;
      var m := 0;
      MovingStarts(news, baseMethods, virtualFunctionTable);
      while m < |methods|
        invariant i <= |news| && m <= |methods| && (i < |news| ==> m == 0)
        invariant methods == Moving(news, baseMethods, i)
        invariant virtualFunctionTable == old(virtualFunctionTable) + Slots(news[..i])
        decreases |news| - i, |methods| - m
      {
        MovingStep(news, baseMethods, i, m);
        if methods[m].Real? {
          // Move the reference to the table, and substitute a stub for it
          var func := methods[m].f;
          methods := Removed(methods, m);
          virtualFunctionTable := virtualFunctionTable + [Filled(func)];
          methods := methods + [Virtual(func, |virtualFunctionTable| - 1)];
          i := i + 1;
          m := m - 1;
        }
        m := m + 1;
      }
      MovingDone(news, baseMethods, i);
    }

    /** Add a chunk to the table for each interface. */
    method MakeInterfaceChunks(interfaces: seq<Interface>)
      requires |methods| <= |virtualFunctionTable| && interfaceVFTOffsets == []
      requires forall k :: 0 <= k < |methods| ==> methods[k].Virtual? && methods[k].vfTableIdx == k
      modifies this`virtualFunctionTable, this`interfaceVFTOffsets
      ensures var table := old(virtualFunctionTable);
        && virtualFunctionTable == table + Chunks(methods, table, interfaces, |interfaces|)
        && interfaceVFTOffsets == Offsets(methods, table, interfaces, |interfaces|)
    {
      hide Chunk, Chunks, Offsets;
      ghost var table := virtualFunctionTable;
      var m := 0;
      NoChunks(methods, table, interfaces);
      while m < |interfaces|
        invariant m <= |interfaces|
        invariant virtualFunctionTable == table + Chunks(methods, table, interfaces, m)
        invariant interfaceVFTOffsets == Offsets(methods, table, interfaces, m)
      {
        OneMoreChunk(methods, table, interfaces, m);
        interfaceVFTOffsets := interfaceVFTOffsets + [|virtualFunctionTable|];
        MakeChunk(interfaces[m], table);
        m := m + 1;
      }
    }

    method MakeChunk(intf: Interface, ghost table: seq<Slot>)
      requires |methods| <= |table| && table <= virtualFunctionTable
      requires forall k :: 0 <= k < |methods| ==> methods[k].Virtual? && methods[k].vfTableIdx == k
      modifies this`virtualFunctionTable
      ensures virtualFunctionTable == old(virtualFunctionTable) + Chunk(methods, table, intf, |intf.methods|)
    {
      hide Implementation;
      var j := 0;
      while j < |intf.methods|
        invariant j <= |intf.methods|
        invariant virtualFunctionTable == old(virtualFunctionTable) + Chunk(methods, table, intf, j)
      {
        if intf.methods[j].objectType == intf.t {
          var realFunc := FindImplementation(intf.methods[j].signatureId, table);
          virtualFunctionTable := virtualFunctionTable + [realFunc];
        }
        j := j + 1;
      }
    }

    // The implementation of an interface method, if the class has one.
    method FindImplementation(sig: nat, ghost table: seq<Slot>) returns (realFunc: Slot)
      requires |methods| <= |table| && table <= virtualFunctionTable
      requires forall k :: 0 <= k < |methods| ==> methods[k].Virtual? && methods[k].vfTableIdx == k
      ensures realFunc == Implementation(methods, table, sig)
    {
      var p := 0;
      while p < |methods| && methods[p].f.signatureId != sig
        invariant p <= |methods| && forall i :: 0 <= i < p ==> methods[i].f.signatureId != sig
      {
        p := p + 1;
      }
      realFunc := if p < |methods| then virtualFunctionTable[methods[p].vfTableIdx] else Null;
    }

    /** Lay out one class, given its base. */
    method CompileMethods(baseMethods: seq<Method>, baseTable: seq<Slot>, interfaces: seq<Interface>,
                          ghost own: seq<Func>)
      returns (errors: nat)
      requires methods == Reals(own) && virtualFunctionTable == [] && interfaceVFTOffsets == [] && DistinctKeys(own)
      requires StubsInOrder(baseMethods) && |baseMethods| <= |baseTable|
      modifies this
      ensures methods == FinalMethods(own, baseMethods) && StubsInOrder(methods)
      ensures var table := FinalTable(own, baseMethods, baseTable);
        && virtualFunctionTable == table + Chunks(methods, table, interfaces, |interfaces|)
        && interfaceVFTOffsets == Offsets(methods, table, interfaces, |interfaces|)
      ensures errors == 0 <==> forall k :: 0 <= k < |baseMethods| ==> LegalOverride(own, baseMethods[k])
    {
      hide LegalOverride, Chunks, New, DistinctKeys;
      errors := InheritMethods(baseMethods, baseTable, own);
      MoveOwnMethods(New(own, baseMethods), baseMethods);
      FinalInOrder(own, baseMethods);
      MakeInterfaceChunks(interfaces);
    }
  }

  lemma NoChunks(methods: seq<Method>, table: seq<Slot>, interfaces: seq<Interface>)
    requires |methods| <= |table|
    ensures Chunks(methods, table, interfaces, 0) == [] && Offsets(methods, table, interfaces, 0) == []
    ensures table + [] == table
  {
  }

  lemma OneMoreChunk(methods: seq<Method>, table: seq<Slot>, interfaces: seq<Interface>, m: nat)
    requires |methods| <= |table| && m < |interfaces|
    ensures Chunks(methods, table, interfaces, m + 1) ==
      Chunks(methods, table, interfaces, m) + Chunk(methods, table, interfaces[m], |interfaces[m].methods|)
    ensures table + Chunks(methods, table, interfaces, m + 1) ==
      table + Chunks(methods, table, interfaces, m) + Chunk(methods, table, interfaces[m], |interfaces[m].methods|)
    ensures Offsets(methods, table, interfaces, m + 1) ==
      Offsets(methods, table, interfaces, m) + [|table + Chunks(methods, table, interfaces, m)|]
  {
    hide Chunk;
  }

  // The list of methods when `i` have been moved.
  ghost function Moving(news: seq<Func>, baseMethods: seq<Method>, i: nat): seq<Method>
    requires i <= |news|
  {
    Reals(news[i..]) + baseMethods + Stubs(news[..i], |baseMethods|)
  }

  lemma MovingStarts(news: seq<Func>, baseMethods: seq<Method>, table: seq<Slot>)
    ensures Moving(news, baseMethods, 0) == Reals(news) + baseMethods && table + Slots(news[..0]) == table
  {
    assert news[0..] == news;
  }

  lemma MovingStep(news: seq<Func>, baseMethods: seq<Method>, i: nat, m: nat)
    requires i <= |news| && m < |Moving(news, baseMethods, i)| && (i < |news| ==> m == 0)
    requires forall k :: 0 <= k < |baseMethods| ==> baseMethods[k].Virtual?
    ensures var l := Moving(news, baseMethods, i);
      && (l[m].Real? <==> i < |news|)
      && (i < |news| ==> l[m] == Real(news[i]))
      && (i < |news| ==> Slots(news[..i + 1]) == Slots(news[..i]) + [Filled(news[i])])
      && (i < |news| ==> Removed(l, m) + [Virtual(news[i], |baseMethods| + i)] == Moving(news, baseMethods, i + 1))
  {
    hide Slots, Reals, Stubs, Removed;
    if i < |news| {
      FirstReal(news, i);
      OneMoreSlot(news, baseMethods, i);
      var rest := Reals(news[i + 1..]) + baseMethods + Stubs(news[..i], |baseMethods|);
      assert Moving(news, baseMethods, i) == [Real(news[i])] + rest;
      FirstRemoved(Real(news[i]), rest);
      assert rest + [Virtual(news[i], |baseMethods| + i)] == Moving(news, baseMethods, i + 1);
    } else {
      NoRealLeft(news, baseMethods, m);
    }
  }

  lemma FirstReal(news: seq<Func>, i: nat)
    requires i < |news|
    ensures Reals(news[i..]) == [Real(news[i])] + Reals(news[i + 1..])
  {
  }

  lemma OneMoreSlot(news: seq<Func>, baseMethods: seq<Method>, i: nat)
    requires i < |news|
    ensures Slots(news[..i + 1]) == Slots(news[..i]) + [Filled(news[i])]
    ensures Stubs(news[..i + 1], |baseMethods|) ==
      Stubs(news[..i], |baseMethods|) + [Virtual(news[i], |baseMethods| + i)]
  {
  }

  lemma FirstRemoved<T>(x: T, rest: seq<T>)
    ensures Removed([x] + rest, 0) == rest
  {
  }

  // Once all are moved, there are stubs only.
  lemma NoRealLeft(news: seq<Func>, baseMethods: seq<Method>, m: nat)
    requires m < |Moving(news, baseMethods, |news|)|
    requires forall k :: 0 <= k < |baseMethods| ==> baseMethods[k].Virtual?
    ensures !Moving(news, baseMethods, |news|)[m].Real?
  {
    var stubs := Stubs(news[..|news|], |baseMethods|);
    hide Stubs;
    assert news[|news|..] == [] && Reals(news[|news|..]) == [];
    assert Moving(news, baseMethods, |news|) == baseMethods + stubs;
  }

  lemma MovingDone(news: seq<Func>, baseMethods: seq<Method>, i: nat)
    requires i <= |news| && (i < |news| ==> |Moving(news, baseMethods, i)| == 0)
    ensures i == |news| && Moving(news, baseMethods, i) == baseMethods + Stubs(news, |baseMethods|)
    ensures Slots(news[..i]) == Slots(news)
  {
    assert i == |news| ==> news[..i] == news;
  }

  lemma {:induction false} NewDistinct(own: seq<Func>, methods: seq<Method>)
    requires DistinctKeys(own)
    ensures DistinctKeys(New(own, methods))
  {
    if own != [] {
      NewDistinct(own[..|own| - 1], methods);
    }
  }

  lemma FinalInOrder(own: seq<Func>, methods: seq<Method>)
    requires DistinctKeys(own) && StubsInOrder(methods)
    ensures StubsInOrder(FinalMethods(own, methods))
  {
    hide New;
    NewDistinct(own, methods);
    var n, r := New(own, methods), FinalMethods(own, methods);
    forall i, j | 0 <= i < j < |r|
      ensures r[i].f.overrideKey != r[j].f.overrideKey
    {
      if j >= |methods| {
        assert r[j].f == n[j - |methods|] && n[j - |methods|] in n;
        if i < |methods| {
          assert methods[i] in methods;
        }
      }
    }
  }

  // ----- the whole hierarchy -----

  datatype ClassDecl = ClassDecl(base: int, own: seq<Func>, interfaces: seq<Interface>)

  /** Bases stand before the classes derived from them, and no class declares the same method twice. */
  ghost predicate Sorted(classes: seq<ClassDecl>) {
    forall c :: 0 <= c < |classes| ==> -1 <= classes[c].base < c && DistinctKeys(classes[c].own)
  }

  ghost function MethodsOf(classes: seq<ClassDecl>, c: int): (r: seq<Method>)
    requires Sorted(classes) && -1 <= c < |classes|
    decreases c
  {
    if c == -1 then [] else FinalMethods(classes[c].own, MethodsOf(classes, classes[c].base))
  }

  ghost function TableOf(classes: seq<ClassDecl>, c: int): (r: seq<Slot>)
    requires Sorted(classes) && -1 <= c < |classes|
    ensures |r| == |MethodsOf(classes, c)|
    decreases c
  {
    if c == -1 then []
    else FinalTable(classes[c].own, MethodsOf(classes, classes[c].base), TableOf(classes, classes[c].base))
  }

  ghost predicate Inherits(classes: seq<ClassDecl>, c: int, a: int)
    requires Sorted(classes) && -1 <= c < |classes|
    decreases c
  {
    c == a || (c >= 0 && Inherits(classes, classes[c].base, a))
  }

  /** The nearest class up the hierarchy that has a method with this key of its own. */
  ghost function MostDerived(classes: seq<ClassDecl>, c: int, key: nat): Slot
    requires Sorted(classes) && -1 <= c < |classes|
    decreases c
  {
    if c == -1 then Null else Override(classes[c].own, key, MostDerived(classes, classes[c].base, key))
  }

  lemma {:induction false} MethodsInOrder(classes: seq<ClassDecl>, c: int)
    requires Sorted(classes) && -1 <= c < |classes|
    ensures StubsInOrder(MethodsOf(classes, c))
    decreases c
  {
    hide StubsInOrder, DistinctKeys, FinalMethods;
    if c >= 0 {
      MethodsInOrder(classes, classes[c].base);
      FinalInOrder(classes[c].own, MethodsOf(classes, classes[c].base));
    } else {
      NoStubs();
    }
  }

  lemma NoStubs()
    ensures StubsInOrder([])
  {
  }

  /** The slots of an ancestor keep their index, and their stubs, in every class that inherits from it. */
  lemma {:induction false} SlotsKeepIndex(classes: seq<ClassDecl>, c: int, a: int)
    requires Sorted(classes) && -1 <= a && -1 <= c < |classes| && a < |classes| && Inherits(classes, c, a)
    ensures MethodsOf(classes, a) <= MethodsOf(classes, c)
    decreases c
  {
    if c != a {
      SlotsKeepIndex(classes, classes[c].base, a);
    }
  }

  /** And each slot holds the most derived implementation of its method. */
  lemma {:induction false} SlotHoldsMostDerived(classes: seq<ClassDecl>, c: int, k: nat)
    requires Sorted(classes) && -1 <= c < |classes| && k < |MethodsOf(classes, c)|
    ensures TableOf(classes, c)[k] == MostDerived(classes, c, MethodsOf(classes, c)[k].f.overrideKey)
    decreases c
  {
    hide New;
    var decl, ms := classes[c], MethodsOf(classes, classes[c].base);
    var key := MethodsOf(classes, c)[k].f.overrideKey;
    if k < |ms| {
      SlotHoldsMostDerived(classes, decl.base, k);
      assert MethodsOf(classes, c)[k] == ms[k];
    } else {
      var f := New(decl.own, ms)[k - |ms|];
      assert f in New(decl.own, ms) && MethodsOf(classes, c)[k].f == f;
      FoundByKey(decl.own, f);
    }
  }

  lemma FoundByKey(own: seq<Func>, f: Func)
    requires DistinctKeys(own) && f in own
    ensures FindKey(own, f.overrideKey) < |own| && own[FindKey(own, f.overrideKey)] == f
  {
    var i :| 0 <= i < |own| && own[i] == f;
  }

  /** Every method of a class has a slot: its own or the one it overrides. */
  lemma OwnMethodHasSlot(classes: seq<ClassDecl>, c: nat, f: Func) returns (k: nat)
    requires Sorted(classes) && c < |classes| && f in classes[c].own
    ensures k < |MethodsOf(classes, c)| && MethodsOf(classes, c)[k].f.overrideKey == f.overrideKey
    ensures TableOf(classes, c)[k] == Filled(f)
  {
    hide New;
    var own, ms := classes[c].own, MethodsOf(classes, classes[c].base);
    if HasKey(ms, f.overrideKey) {
      k :| 0 <= k < |ms| && ms[k].f.overrideKey == f.overrideKey;
    } else {
      var i :| 0 <= i < |New(own, ms)| && New(own, ms)[i] == f;
      k := |ms| + i;
    }
    SlotHoldsMostDerived(classes, c, k);
    FoundByKey(own, f);
  }

  // ----- compiling the hierarchy -----

  // This object is the finished class `c`.
  ghost predicate Laid(classes: seq<ClassDecl>, c: nat, ot: ObjectType)
    requires Sorted(classes) && c < |classes|
    reads ot
  {
    var methods, table, interfaces := MethodsOf(classes, c), TableOf(classes, c), classes[c].interfaces;
    && ot.methods == methods
    && ot.virtualFunctionTable == table + Chunks(methods, table, interfaces, |interfaces|)
    && ot.interfaceVFTOffsets == Offsets(methods, table, interfaces, |interfaces|)
  }

  lemma TableBelow(own: seq<Func>, methods: seq<Method>, table: seq<Slot>, more: seq<Slot>)
    requires |methods| == |table|
    ensures FinalTable(own, methods, table + more) == FinalTable(own, methods, table)
  {
    hide New;
    assert Overridden(own, methods, table + more, |methods|) == Overridden(own, methods, table, |methods|);
  }

  // Laying out a class on top of its base.
  lemma LaidOnTop(classes: seq<ClassDecl>, c: nat, more: seq<Slot>)
    requires Sorted(classes) && c < |classes|
    ensures var b := classes[c].base;
      && MethodsOf(classes, c) == FinalMethods(classes[c].own, MethodsOf(classes, b))
      && TableOf(classes, c) == FinalTable(classes[c].own, MethodsOf(classes, b), TableOf(classes, b) + more)
      && StubsInOrder(MethodsOf(classes, b)) && DistinctKeys(classes[c].own)
  {
    hide StubsInOrder, DistinctKeys, FinalTable;
    TableBelow(classes[c].own, MethodsOf(classes, classes[c].base), TableOf(classes, classes[c].base), more);
    MethodsInOrder(classes, classes[c].base);
  }

  /** Lay out all classes, bases first. No error is reported exactly if all overriding is legal. */
  method CompileClasses(classes: seq<ClassDecl>) returns (types: seq<ObjectType>, numErrors: nat)
    requires Sorted(classes)
    ensures |types| == |classes| && forall c :: 0 <= c < |classes| ==> Laid(classes, c, types[c])
    ensures numErrors == 0 <==> forall c :: 0 <= c < |classes| ==> Legal(classes, c)
  {
    hide Laid, Legal, MethodsOf, TableOf;
    types, numErrors := [], 0;
    while |types| < |classes|
      invariant |types| <= |classes| && forall c :: 0 <= c < |types| ==> Laid(classes, c, types[c])
      invariant numErrors == 0 <==> forall c :: 0 <= c < |types| ==> Legal(classes, c)
      decreases |classes| - |types|
    {
      var c := |types|;
      var ot, errors := CompileClass(classes, types);
      assert forall i :: 0 <= i < c ==> Laid(classes, i, types[i]);
      types, numErrors := types + [ot], numErrors + errors;
    }
  }

  ghost predicate Legal(classes: seq<ClassDecl>, c: nat)
    requires Sorted(classes) && c < |classes|
  {
    forall m :: m in MethodsOf(classes, classes[c].base) ==> LegalOverride(classes[c].own, m)
  }

  method CompileClass(classes: seq<ClassDecl>, types: seq<ObjectType>) returns (ot: ObjectType, errors: nat)
    requires Sorted(classes) && |types| < |classes| && forall c :: 0 <= c < |types| ==> Laid(classes, c, types[c])
    ensures fresh(ot) && Laid(classes, |types|, ot)
    ensures errors == 0 <==> Legal(classes, |types|)
  {
    hide FinalMethods, FinalTable, LegalOverride, Chunks, Offsets;
    var decl := classes[|types|];
    ot := new ObjectType(decl.own);
    var baseMethods, baseTable := [], [];
    if decl.base >= 0 {
      baseMethods, baseTable := types[decl.base].methods, types[decl.base].virtualFunctionTable;
      assert Laid(classes, decl.base, types[decl.base]);
    }
    LaidOnTop(classes, |types|, baseTable[|TableOf(classes, decl.base)|..]);
    assert baseTable == TableOf(classes, decl.base) + baseTable[|TableOf(classes, decl.base)|..];
    errors := ot.CompileMethods(baseMethods, baseTable, decl.interfaces, decl.own);
  }

  // ----- interface chunks -----

  /** Own method `j` of interface `m` stands at the offset of the interface plus `j`, whenever the class
      has a method with its signature. */
  lemma InterfaceSlot(methods: seq<Method>, table: seq<Slot>, interfaces: seq<Interface>, m: nat, own: nat, j: nat)
    requires |methods| <= |table| && m < |interfaces| && j < own
    requires OwnFirst(interfaces[m].t, interfaces[m].methods, own)
    ensures var full := table + Chunks(methods, table, interfaces, |interfaces|);
      var at := Offsets(methods, table, interfaces, |interfaces|)[m] + j;
      at < |full| && full[at] == Implementation(methods, table, interfaces[m].methods[j].signatureId)
  {
    hide Implementation;
    var intf := interfaces[m];
    ChunkOwn(methods, table, intf, own, |intf.methods|, j);
    ChunksGrow(methods, table, interfaces, m + 1, |interfaces|);
    var a, b := Chunks(methods, table, interfaces, m), Chunk(methods, table, intf, |intf.methods|);
    assert (a + b)[|a| + j] == b[j];
  }

  lemma {:induction false} ChunkOwn(methods: seq<Method>, table: seq<Slot>, intf: Interface, own: nat, n: nat, j: nat)
    requires |methods| <= |table| && OwnFirst(intf.t, intf.methods, own) && j < own && j < n <= |intf.methods|
    ensures var chunk := Chunk(methods, table, intf, n);
      |chunk| == (if n <= own then n else own)
      && chunk[j] == Implementation(methods, table, intf.methods[j].signatureId)
  {
    hide Implementation;
    if n - 1 > j {
      ChunkOwn(methods, table, intf, own, n - 1, j);
    } else {
      ChunkLength(methods, table, intf, own, n);
      ChunkLength(methods, table, intf, own, j);
    }
  }

  lemma {:induction false} ChunkLength(methods: seq<Method>, table: seq<Slot>, intf: Interface, own: nat, n: nat)
    requires |methods| <= |table| && OwnFirst(intf.t, intf.methods, own) && n <= |intf.methods|
    ensures |Chunk(methods, table, intf, n)| == (if n <= own then n else own)
  {
    hide Implementation;
    if n > 0 {
      ChunkLength(methods, table, intf, own, n - 1);
    }
  }

  lemma {:induction false} ChunksGrow(methods: seq<Method>, table: seq<Slot>, interfaces: seq<Interface>, m: nat,
                                      n: nat)
    requires |methods| <= |table| && m <= n <= |interfaces|
    ensures Chunks(methods, table, interfaces, m) <= Chunks(methods, table, interfaces, n)
    decreases n
  {
    hide Chunk;
    if m < n {
      ChunksGrow(methods, table, interfaces, m, n - 1);
    }
  }

  /** A call through an interface reaches the most derived implementation: if the class has one method
      with the signature of own method `j` of interface `m`, what stands at the offset of `m` plus `j`
      is what the most derived class on the way up provides for it. */
  lemma InterfaceCallReaches(classes: seq<ClassDecl>, c: nat, m: nat, own: nat, j: nat, k: nat)
    requires Sorted(classes) && c < |classes| && m < |classes[c].interfaces| && j < own
    requires OwnFirst(classes[c].interfaces[m].t, classes[c].interfaces[m].methods, own)
    requires var methods, sig := MethodsOf(classes, c), classes[c].interfaces[m].methods[j].signatureId;
      && k < |methods| && methods[k].f.signatureId == sig
      && forall i :: 0 <= i < |methods| && methods[i].f.signatureId == sig ==> i == k
    ensures var methods, table, interfaces := MethodsOf(classes, c), TableOf(classes, c), classes[c].interfaces;
      var full := table + Chunks(methods, table, interfaces, |interfaces|);
      var at := Offsets(methods, table, interfaces, |interfaces|)[m] + j;
      at < |full| && full[at] == MostDerived(classes, c, methods[k].f.overrideKey)
  {
    hide Chunks, Offsets, MethodsOf, TableOf, OwnFirst, Sorted;
    var methods, table, interfaces := MethodsOf(classes, c), TableOf(classes, c), classes[c].interfaces;
    InterfaceSlot(methods, table, interfaces, m, own, j);
    SlotHoldsMostDerived(classes, c, k);
  }

  lemma KeyNotBefore(methods: seq<Method>, m: nat)
    requires StubsInOrder(methods) && m < |methods|
    ensures !HasKey(methods[..m], methods[m].f.overrideKey)
  {
  }

  lemma OverriddenNone(own: seq<Func>, methods: seq<Method>, table: seq<Slot>)
    requires |methods| <= |table|
    ensures Overridden(own, methods, table, 0) == []
  {
  }

  lemma OverriddenMore(own: seq<Func>, methods: seq<Method>, table: seq<Slot>, m: nat)
    requires m < |methods| <= |table|
    ensures Overridden(own, methods, table, m + 1) ==
      Overridden(own, methods, table, m) + [Override(own, methods[m].f.overrideKey, table[m])]
  {
    hide Override;
  }

  lemma OverrideIs(own: seq<Func>, m: Method, inherited: Slot)
    ensures var d := FindKey(own, m.f.overrideKey);
      if d < |own| then
        Override(own, m.f.overrideKey, inherited) == Filled(own[d])
        && (LegalOverride(own, m) <==> own[d].returnType == m.f.returnType && !m.f.isFinal)
      else Override(own, m.f.overrideKey, inherited) == inherited && LegalOverride(own, m)
  {
  }

  lemma RealsWithout(fs: seq<Func>, rest: seq<Method>, d: nat)
    requires d < |fs|
    ensures Removed(Reals(fs) + rest, d) == Reals(Removed(fs, d)) + rest
  {
  }

  // The search finds the method among the new ones, or not at all.
  lemma FoundWhere(fs: seq<Func>, rest: seq<Method>, methods: seq<Method>, d: nat, e: nat, key: nat)
    requires methods == Reals(fs) + rest && !HasKey(rest, key)
    requires d <= |methods| && (d < |methods| ==> methods[d].f.overrideKey == key)
    requires forall i :: 0 <= i < d ==> methods[i].f.overrideKey != key
    requires e <= |fs| && forall k :: 0 <= k < |fs| ==> (k == e <==> fs[k].overrideKey == key)
    ensures if d < |methods| then d == e < |fs| && methods[d].f == fs[d] else e == |fs|
  {
    assert forall k :: 0 <= k < |fs| ==> methods[k] == Real(fs[k]);
    assert forall k :: |fs| <= k < |methods| ==> methods[k] in rest;
    assert e < |fs| ==> methods[e].f.overrideKey == key;
  }
}
