/** The inheritance relation and the order in which classes are compiled. A class is known by the
    number of its type. */
module ClassOrder {
  datatype Option<T> = None | Some(value: T)

  // ----- inheritance -----

  type Inheritance = map<nat, nat>

  /** The ancestor `n` steps up, if there are so many. */
  function Up(derivedFrom: Inheritance, t: nat, n: nat): Option<nat>
    decreases n
  {
    if n == 0 then Some(t)
    else if t in derivedFrom then Up(derivedFrom, derivedFrom[t], n - 1)
    else None
  }

  /** Every chain of base classes ends. */
  ghost predicate Acyclic(derivedFrom: Inheritance) {
    forall t: nat :: Ends(derivedFrom, t)
  }

  ghost predicate Ends(derivedFrom: Inheritance, t: nat) {
    exists n: nat :: Up(derivedFrom, t, n) == None
  }

  ghost predicate IsOrInherits(derivedFrom: Inheritance, t: nat, c: nat) {
    exists n: nat :: Up(derivedFrom, t, n) == Some(c)
  }

  lemma {:induction false} UpAdds(d: Inheritance, t: nat, m: nat, n: nat)
    ensures Up(d, t, m + n) == match Up(d, t, m) case None => None case Some(u) => Up(d, u, n)
    decreases m
  {
    if m > 0 && t in d {
      UpAdds(d, d[t], m - 1, n);
    }
  }

  /** So no class is its own ancestor. */
  lemma {:induction false} NoSelfAncestor(d: Inheritance, t: nat, n: nat, m: nat)
    requires n > 0 && Up(d, t, n) == Some(t)
    ensures Up(d, t, m) != None
    decreases m
  {
    if m < n {
      UpAdds(d, t, m, n - m);
    } else {
      NoSelfAncestor(d, t, n, m - n);
      UpAdds(d, t, n, m - n);
    }
  }

  lemma AcyclicHasNoCycle(d: Inheritance, t: nat, n: nat)
    requires Acyclic(d) && n > 0
    ensures Up(d, t, n) != Some(t)
  {
    assert Ends(d, t);
    var m: nat :| Up(d, t, m) == None;
    if Up(d, t, n) == Some(t) {
      NoSelfAncestor(d, t, n, m);
    }
  }

  // A chain is not changed by a new base for a class that is not on it.
  lemma {:induction false} UpElsewhere(d: Inheritance, c: nat, b: nat, t: nat, n: nat)
    requires forall k: nat :: k < n ==> Up(d, t, k) != Some(c)
    ensures Up(d[c := b], t, n) == Up(d, t, n)
    decreases n
  {
    if n > 0 {
      assert Up(d, t, 0) == Some(t);
      if t in d {
        forall k: nat | k < n - 1
          ensures Up(d, d[t], k) != Some(c)
        {
          assert Up(d, t, k + 1) == Up(d, d[t], k);
        }
        UpElsewhere(d, c, b, d[t], n - 1);
      }
    }
  }

  lemma {:induction false} FirstAt(d: Inheritance, t: nat, c: nat, n: nat) returns (m: nat)
    requires Up(d, t, n) == Some(c)
    ensures m <= n && Up(d, t, m) == Some(c) && forall k: nat :: k < m ==> Up(d, t, k) != Some(c)
  {
    m := 0;
    while Up(d, t, m) != Some(c)
      invariant m <= n && forall k: nat :: k < m ==> Up(d, t, k) != Some(c)
      decreases n - m
    {
      m := m + 1;
    }
  }

  /** Giving a class without a base one that does not inherit from it makes no cycle. */
  lemma StaysAcyclic(d: Inheritance, c: nat, b: nat)
    requires Acyclic(d) && c !in d && !IsOrInherits(d, b, c)
    ensures Acyclic(d[c := b])
  {
    var d' := d[c := b];
    assert Ends(d, b);
    var nb: nat :| Up(d, b, nb) == None;
    UpElsewhere(d, c, b, b, nb);
    forall t: nat
      ensures Ends(d', t)
    {
      if IsOrInherits(d, t, c) {
        var k: nat :| Up(d, t, k) == Some(c);
        var m := FirstAt(d, t, c, k);
        UpElsewhere(d, c, b, t, m);
        UpAdds(d', t, m, 1 + nb);
        assert Up(d', t, m + (1 + nb)) == None;
      } else {
        assert Ends(d, t);
        var n: nat :| Up(d, t, n) == None;
        UpElsewhere(d, c, b, t, n);
        assert Up(d', t, n) == None;
      }
    }
  }

  // ----- DetermineTypeRelations -----

  /** What a name in the list behind a class was found to be. */
  datatype Named = Unknown | Mixin | NotInheritable | Interface(t: nat) | ScriptClass(t: nat, isShared: bool)

  datatype ClassDecl = ClassDecl(typeInfo: nat, isExistingShared: bool, isShared: bool, names: seq<Named>)

  // A class takes a base if it has none, does not make a cycle, and sharing allows it.
  ghost predicate Accepts(d: Inheritance, decl: ClassDecl, base: nat, baseIsShared: bool) {
    && !decl.isExistingShared && decl.typeInfo !in d && !IsOrInherits(d, base, decl.typeInfo)
    && (decl.isShared ==> baseIsShared)
  }

  ghost function AfterName(d: Inheritance, decl: ClassDecl, name: Named): Inheritance {
    if name.ScriptClass? && Accepts(d, decl, name.t, name.isShared) then d[decl.typeInfo := name.t] else d
  }

  // After the first `k` names of a declaration.
  ghost function AfterNames(d: Inheritance, decl: ClassDecl, k: nat): Inheritance
    requires k <= |decl.names|
  {
    if k == 0 then d else AfterName(AfterNames(d, decl, k - 1), decl, decl.names[k - 1])
  }

  /** Each class gets the first base that it accepts, declarations being taken in order. */
  ghost function Related(d: Inheritance, decls: seq<ClassDecl>, n: nat): Inheritance
    requires n <= |decls|
  {
    if n == 0 then d else AfterNames(Related(d, decls, n - 1), decls[n - 1], |decls[n - 1].names|)
  }

  // The class was declared before with the same base.
  ghost predicate Matches(d: Inheritance, decl: ClassDecl, base: nat, baseIsShared: bool) {
    && decl.isExistingShared && decl.typeInfo in d && d[decl.typeInfo] == base
    && !IsOrInherits(d, base, decl.typeInfo) && (decl.isShared ==> baseIsShared)
  }

  /** A name that causes no error. */
  ghost predicate Fine(d: Inheritance, decl: ClassDecl, name: Named) {
    match name
    case Unknown | NotInheritable => false
    case Mixin | Interface(_) => true
    case ScriptClass(base, isShared) => Accepts(d, decl, base, isShared) || Matches(d, decl, base, isShared)
  }

  ghost predicate NamesFine(d: Inheritance, decl: ClassDecl, n: nat)
    requires n <= |decl.names|
  {
    forall k :: 0 <= k < n ==> Fine(AfterNames(d, decl, k), decl, decl.names[k])
  }

  ghost predicate AllFine(d: Inheritance, decls: seq<ClassDecl>, n: nat)
    requires n <= |decls|
  {
    forall m :: 0 <= m < n ==> NamesFine(Related(d, decls, m), decls[m], |decls[m].names|)
  }

  lemma {:induction false} NamesKeep(d: Inheritance, decl: ClassDecl, k: nat, t: nat)
    requires k <= |decl.names| && t in d
    ensures t in AfterNames(d, decl, k) && AfterNames(d, decl, k)[t] == d[t]
  {
    if k > 0 {
      NamesKeep(d, decl, k - 1, t);
    }
  }

  lemma {:induction false} NamesKeepFrom(d: Inheritance, decl: ClassDecl, k: nat, m: nat, t: nat)
    requires k <= m <= |decl.names| && t in AfterNames(d, decl, k)
    ensures t in AfterNames(d, decl, m) && AfterNames(d, decl, m)[t] == AfterNames(d, decl, k)[t]
    decreases m
  {
    if k < m {
      NamesKeepFrom(d, decl, k, m - 1, t);
    }
  }

  lemma {:induction false} RelatedKeeps(d: Inheritance, decls: seq<ClassDecl>, n: nat, m: nat, t: nat)
    requires n <= m <= |decls| && t in Related(d, decls, n)
    ensures t in Related(d, decls, m) && Related(d, decls, m)[t] == Related(d, decls, n)[t]
    decreases m
  {
    if n < m {
      RelatedKeeps(d, decls, n, m - 1, t);
      NamesKeep(Related(d, decls, m - 1), decls[m - 1], |decls[m - 1].names|, t);
    }
  }

  /** Where a name causes no error, the script class named is the base in the end. */
  lemma NamedBaseTaken(d: Inheritance, decls: seq<ClassDecl>, n: nat, k: nat)
    requires n < |decls| && k < |decls[n].names| && decls[n].names[k].ScriptClass?
    requires Fine(AfterNames(Related(d, decls, n), decls[n], k), decls[n], decls[n].names[k])
    ensures var t := decls[n].typeInfo;
      t in Related(d, decls, |decls|) && Related(d, decls, |decls|)[t] == decls[n].names[k].t
  {
    hide IsOrInherits;
    var decl, was, t := decls[n], Related(d, decls, n), decls[n].typeInfo;
    assert t in AfterNames(was, decl, k + 1) && AfterNames(was, decl, k + 1)[t] == decl.names[k].t;
    NamesKeepFrom(was, decl, k + 1, |decl.names|, t);
    RelatedKeeps(d, decls, n + 1, |decls|, t);
  }

  class TypeRelations {
    var derivedFrom: Inheritance
    var numErrors: nat

    constructor (derivedFrom: Inheritance)
      ensures this.derivedFrom == derivedFrom && numErrors == 0
    {
      this.derivedFrom, numErrors := derivedFrom, 0;
    }

    // Does `base` inherit from `c`, or is it `c` itself?
    method InheritsFrom(base: nat, c: nat) returns (found: bool)
      requires Acyclic(derivedFrom)
      ensures found <==> IsOrInherits(derivedFrom, base, c)
    {
      assert Ends(derivedFrom, base);
      ghost var end: nat :| Up(derivedFrom, base, end) == None;
      ghost var n: nat := 0;
      var b := Some(base);
      while b != None
        invariant n <= end && b == Up(derivedFrom, base, n)
        invariant forall k: nat :: k < n ==> Up(derivedFrom, base, k) != Some(c)
        decreases end - n
      {
        if b.value == c {
          return true;
        }
        UpAdds(derivedFrom, base, n, 1);
        b := if b.value in derivedFrom then Some(derivedFrom[b.value]) else None;
        n := n + 1;
      }
      forall k: nat | k >= n
        ensures Up(derivedFrom, base, k) == None
      {
        UpAdds(derivedFrom, base, n, k - n);
      }
      return false;
    }

    // One base class named in a declaration.
    method AddBase(decl: ClassDecl, base: nat, baseIsShared: bool, multipleInheritance: bool)
      returns (multipleInheritance': bool)
      requires Acyclic(derivedFrom)
      modifies this
      ensures Acyclic(derivedFrom) && numErrors >= old(numErrors)
      ensures var d := old(derivedFrom);
        var accepted := Accepts(d, decl, base, baseIsShared);
        && derivedFrom == (if accepted then d[decl.typeInfo := base] else d)
        && (numErrors == old(numErrors) <==>
          || accepted || Matches(d, decl, base, baseIsShared)
          || (!decl.isExistingShared && decl.typeInfo in d && multipleInheritance))
      ensures multipleInheritance' ==> multipleInheritance || numErrors > old(numErrors)
    {
      hide Acyclic, IsOrInherits;
      multipleInheritance' := multipleInheritance;
      if !decl.isExistingShared && decl.typeInfo in derivedFrom {
        if !multipleInheritance {
          numErrors := numErrors + 1;
          multipleInheritance' := true;
        }
      } else {
        // Make sure none of the base classes inherit from this one
        var error := InheritsFrom(base, decl.typeInfo);
        if error {
          numErrors := numErrors + 1;
        }
        // A shared type may only inherit from other shared types
        if !error && decl.isShared && !baseIsShared {
          numErrors := numErrors + 1;
          error := true;
        }
        if !error {
          if decl.isExistingShared {
            if !(decl.typeInfo in derivedFrom && derivedFrom[decl.typeInfo] == base) {
              numErrors := numErrors + 1;
            }
          } else {
            StaysAcyclic(derivedFrom, decl.typeInfo, base);
            derivedFrom := derivedFrom[decl.typeInfo := base];
          }
        }
      }
    }

    // All names of one declaration.
    method AddBases(decl: ClassDecl)
      requires Acyclic(derivedFrom)
      modifies this
      ensures Acyclic(derivedFrom) && numErrors >= old(numErrors)
      ensures derivedFrom == AfterNames(old(derivedFrom), decl, |decl.names|)
      ensures numErrors == old(numErrors) <==> NamesFine(old(derivedFrom), decl, |decl.names|)
    {
      hide Acyclic, Accepts, Matches, NamesFine;
      var multipleInheritance, k := false, 0;
      NoNames(derivedFrom, decl);
      while k < |decl.names|
        invariant k <= |decl.names| && Acyclic(derivedFrom) && numErrors >= old(numErrors)
        invariant derivedFrom == AfterNames(old(derivedFrom), decl, k)
        invariant numErrors == old(numErrors) <==> NamesFine(old(derivedFrom), decl, k)
        invariant multipleInheritance ==> numErrors > old(numErrors)
      {
        NextName(old(derivedFrom), decl, k);
        match decl.names[k] {
          case Unknown => numErrors := numErrors + 1;
          case NotInheritable => numErrors := numErrors + 1;
          case ScriptClass(t, isShared) =>
            multipleInheritance := AddBase(decl, t, isShared, multipleInheritance);
          case _ =>
        }
        k := k + 1;
      }
    }

    /** Set the base class of every declared class; inheritance stays free of cycles, and what was
        set before stays. There is no error exactly if all names are fine. */
    method DetermineTypeRelations(classDeclarations: seq<ClassDecl>)
      requires Acyclic(derivedFrom)
      modifies this
      ensures Acyclic(derivedFrom) && numErrors >= old(numErrors)
      ensures derivedFrom == Related(old(derivedFrom), classDeclarations, |classDeclarations|)
      ensures numErrors == old(numErrors) <==> AllFine(old(derivedFrom), classDeclarations, |classDeclarations|)
      ensures forall t :: t in old(derivedFrom) ==> t in derivedFrom && derivedFrom[t] == old(derivedFrom)[t]
      ensures forall t :: t in derivedFrom && t !in old(derivedFrom) ==> Declares(classDeclarations, t, derivedFrom[t])
    {
      hide Acyclic, AfterNames, NamesFine, Declares, AllFine;
      var n := 0;
      NothingDeclared(derivedFrom, classDeclarations);
      while n < |classDeclarations|
        invariant n <= |classDeclarations| && Acyclic(derivedFrom) && numErrors >= old(numErrors)
        invariant derivedFrom == Related(old(derivedFrom), classDeclarations, n)
        invariant numErrors == old(numErrors) <==> AllFine(old(derivedFrom), classDeclarations, n)
      {
        NextDeclaration(old(derivedFrom), classDeclarations, n);
        AddBases(classDeclarations[n]);
        n := n + 1;
      }
      forall t | t in old(derivedFrom)
        ensures t in derivedFrom && derivedFrom[t] == old(derivedFrom)[t]
      {
        RelatedKeeps(old(derivedFrom), classDeclarations, 0, n, t);
      }
      forall t | t in derivedFrom && t !in old(derivedFrom)
        ensures Declares(classDeclarations, t, derivedFrom[t])
      {
        NewIsDeclared(old(derivedFrom), classDeclarations, n, t);
      }
    }
  }

  lemma NoNames(d: Inheritance, decl: ClassDecl)
    ensures NamesFine(d, decl, 0)
  {
  }

  lemma NextName(d: Inheritance, decl: ClassDecl, k: nat)
    requires k < |decl.names|
    ensures NamesFine(d, decl, k + 1) <==> NamesFine(d, decl, k) && Fine(AfterNames(d, decl, k), decl, decl.names[k])
  {
    hide Fine, AfterNames;
  }

  lemma NothingDeclared(d: Inheritance, decls: seq<ClassDecl>)
    ensures AllFine(d, decls, 0)
  {
  }

  lemma NextDeclaration(d: Inheritance, decls: seq<ClassDecl>, n: nat)
    requires n < |decls|
    ensures AllFine(d, decls, n + 1) <==>
      AllFine(d, decls, n) && NamesFine(Related(d, decls, n), decls[n], |decls[n].names|)
  {
    hide NamesFine, Related;
  }

  lemma {:induction false} NewIsNamed(d: Inheritance, decl: ClassDecl, k: nat, t: nat)
    requires k <= |decl.names| && t in AfterNames(d, decl, k) && t !in d
    ensures t == decl.typeInfo && !decl.isExistingShared && IsNamed(decl, AfterNames(d, decl, k)[t])
  {
    if k > 0 && t in AfterNames(d, decl, k - 1) {
      NewIsNamed(d, decl, k - 1, t);
      NamesKeepFrom(d, decl, k - 1, k, t);
    }
  }

  lemma {:induction false} NewIsDeclared(d: Inheritance, decls: seq<ClassDecl>, n: nat, t: nat)
    requires n <= |decls| && t in Related(d, decls, n) && t !in d
    ensures Declares(decls, t, Related(d, decls, n)[t])
  {
    hide AfterNames;
    if n > 0 {
      if t in Related(d, decls, n - 1) {
        NewIsDeclared(d, decls, n - 1, t);
        RelatedKeeps(d, decls, n - 1, n, t);
      } else {
        NewIsNamed(Related(d, decls, n - 1), decls[n - 1], |decls[n - 1].names|, t);
      }
    }
  }

  ghost predicate IsNamed(decl: ClassDecl, base: nat) {
    exists k :: 0 <= k < |decl.names| && decl.names[k].ScriptClass? && decl.names[k].t == base
  }

  // A new base class is one that the class names.
  ghost predicate Declares(classDeclarations: seq<ClassDecl>, t: nat, base: nat) {
    exists n :: 0 <= n < |classDeclarations| && classDeclarations[n].typeInfo == t
      && !classDeclarations[n].isExistingShared && IsNamed(classDeclarations[n], base)
  }

  // ----- ordering -----

  ghost predicate Distinct(s: seq<nat>) {
    forall i, j :: 0 <= i < j < |s| ==> s[i] != s[j]
  }

  // The base of `t` is among these.
  predicate BaseIn(d: Inheritance, t: nat, s: seq<nat>) {
    t in d && d[t] in s
  }

  /** The distance to the first class whose base is not among them. */
  function FirstRoot(d: Inheritance, s: seq<nat>, all: seq<nat>): (r: nat)
    ensures r <= |s| && forall i :: 0 <= i < r ==> BaseIn(d, s[i], all)
    ensures r < |s| ==> !BaseIn(d, s[r], all)
  {
    if s == [] || !BaseIn(d, s[0], all) then 0 else 1 + FirstRoot(d, s[1..], all)
  }

  /** Going up from a class one comes to one whose base is elsewhere. */
  lemma {:induction false} RootExists(d: Inheritance, s: seq<nat>, t: nat, n: nat) returns (root: nat)
    requires t in s && Up(d, t, n) == None
    ensures root in s && !BaseIn(d, root, s)
    decreases n
  {
    root := t;
    if BaseIn(d, t, s) {
      root := RootExists(d, s, d[t], n - 1);
    }
  }

  // Rotating brings the first such class one step nearer.
  lemma RotationNearer(d: Inheritance, s: seq<nat>)
    requires Acyclic(d) && s != [] && BaseIn(d, s[0], s)
    ensures var s' := s[1..] + [s[0]]; FirstRoot(d, s', s') < FirstRoot(d, s, s)
  {
    var s' := s[1..] + [s[0]];
    assert Ends(d, s[0]);
    var n: nat :| Up(d, s[0], n) == None;
    var root := RootExists(d, s, s[0], n);
    assert s == [s[0]] + s[1..];
    assert forall t :: t in s' <==> t in s;
    var r := FirstRoot(d, s, s);
    var i :| 0 <= i < |s| && s[i] == root;
    assert r <= i;
    assert s'[r - 1] == s[r] && !BaseIn(d, s'[r - 1], s');
  }

  class ClassSorter {
    var classDeclarations: seq<nat>
    const derivedFrom: Inheritance

    constructor (classDeclarations: seq<nat>, derivedFrom: Inheritance)
      ensures this.classDeclarations == classDeclarations && this.derivedFrom == derivedFrom
    {
      this.classDeclarations, this.derivedFrom := classDeclarations, derivedFrom;
    }

    /** Order the declarations so that base classes come first: a class whose base is found behind it
        is moved to the end. This ends because inheritance has no cycles. */
    method OrderClasses()
      requires Acyclic(derivedFrom) && Distinct(classDeclarations)
      modifies this`classDeclarations
      ensures multiset(classDeclarations) == multiset(old(classDeclarations))
      ensures Ordered(classDeclarations, derivedFrom)
    {
      hide Acyclic, Settled, Distinct, FirstRoot;
      NoneSettled(derivedFrom, classDeclarations);
      var n := 0;
      while n < |classDeclarations|
        invariant n <= |classDeclarations| && multiset(classDeclarations) == multiset(old(classDeclarations))
        invariant Distinct(classDeclarations)
        invariant Settled(derivedFrom, classDeclarations, n)
        decreases |classDeclarations| - n, FirstRoot(derivedFrom, classDeclarations[n..], classDeclarations[n..])
      {
        var decl := classDeclarations[n];
        var m := n + 1;
        while m < |classDeclarations| && !(decl in derivedFrom && derivedFrom[decl] == classDeclarations[m])
          invariant n < m <= |classDeclarations| && NoBaseBehind(derivedFrom, classDeclarations, n, m)
        {
          m := m + 1;
        }
        NotOwnBase(derivedFrom, decl);
        if m < |classDeclarations| {
          RotationStep(derivedFrom, classDeclarations, n, m);
          classDeclarations := classDeclarations[..n] + classDeclarations[n + 1..] + [decl];
        } else {
          OneMoreSettled(derivedFrom, classDeclarations, n);
          n := n + 1;
        }
      }
      SettledIsOrdered(derivedFrom, classDeclarations);
    }
  }

  lemma NotOwnBase(d: Inheritance, t: nat)
    requires Acyclic(d)
    ensures t in d ==> d[t] != t
  {
    AcyclicHasNoCycle(d, t, 1);
    if t in d {
      assert Up(d, t, 1) == Up(d, d[t], 0);
    }
  }

  function Rotated(s: seq<nat>, n: nat): seq<nat>
    requires n < |s|
  {
    s[..n] + s[n + 1..] + [s[n]]
  }

  // The first `n` have their bases, if any, in front of them.
  ghost predicate Settled(d: Inheritance, s: seq<nat>, n: nat)
    requires n <= |s|
  {
    forall i :: 0 <= i < n ==> !BaseIn(d, s[i], s[i..])
  }

  lemma NoneSettled(d: Inheritance, s: seq<nat>)
    ensures Settled(d, s, 0)
  {
  }

  lemma OneMoreSettled(d: Inheritance, s: seq<nat>, n: nat)
    requires n < |s| && Settled(d, s, n) && NoBaseBehind(d, s, n, |s|) && (s[n] in d ==> d[s[n]] != s[n])
    ensures Settled(d, s, n + 1)
  {
    assert forall t :: t in s[n..] ==> t == s[n] || t in s[n + 1..];
  }

  ghost predicate NoBaseBehind(d: Inheritance, s: seq<nat>, n: nat, m: nat)
    requires n < m <= |s|
  {
    s[n] in d ==> forall j :: n < j < m ==> s[j] != d[s[n]]
  }

  // The settled part is not disturbed by rotating the rest.
  lemma RotatedOrder(d: Inheritance, s: seq<nat>, n: nat)
    requires n < |s| && Distinct(s) && Settled(d, s, n)
    ensures multiset(Rotated(s, n)) == multiset(s) && Distinct(Rotated(s, n))
    ensures Settled(d, Rotated(s, n), n)
  {
    hide Distinct;
    RotatedContents(s, n);
    forall i | 0 <= i < n
      ensures !BaseIn(d, Rotated(s, n)[i], Rotated(s, n)[i..])
    {
      RotatedRest(s, n, i);
      assert !BaseIn(d, s[i], s[i..]);
    }
  }

  lemma RotationStep(d: Inheritance, s: seq<nat>, n: nat, m: nat)
    requires n < m < |s| && Acyclic(d) && Distinct(s) && Settled(d, s, n) && s[n] in d && d[s[n]] == s[m]
    ensures multiset(Rotated(s, n)) == multiset(s) && Distinct(Rotated(s, n)) && Settled(d, Rotated(s, n), n)
    ensures FirstRoot(d, Rotated(s, n)[n..], Rotated(s, n)[n..]) < FirstRoot(d, s[n..], s[n..])
  {
    hide Acyclic, Settled, Distinct, FirstRoot;
    RotatedOrder(d, s, n);
    assert s[n..][m - n] == s[m];
    RotationNearer(d, s[n..]);
    assert Rotated(s, n)[n..] == s[n..][1..] + [s[n..][0]];
  }

  lemma RotatedContents(s: seq<nat>, n: nat)
    requires n < |s| && Distinct(s)
    ensures multiset(Rotated(s, n)) == multiset(s) && Distinct(Rotated(s, n))
  {
    assert s == s[..n] + [s[n]] + s[n + 1..];
  }

  lemma RotatedRest(s: seq<nat>, n: nat, i: nat)
    requires i < n < |s|
    ensures Rotated(s, n)[i] == s[i] && forall t :: t in Rotated(s, n)[i..] <==> t in s[i..]
  {
    var a := s[i..n];
    assert Rotated(s, n)[i..] == a + s[n + 1..] + [s[n]];
    assert s[i..] == a + [s[n]] + s[n + 1..];
  }

  /** No class stands before its own base. */
  ghost predicate Ordered(s: seq<nat>, d: Inheritance) {
    forall i, j :: 0 <= i < j < |s| ==> !(s[i] in d && d[s[i]] == s[j])
  }

  lemma SettledIsOrdered(d: Inheritance, s: seq<nat>)
    requires Settled(d, s, |s|)
    ensures Ordered(s, d)
  {
    forall i, j | 0 <= i < j < |s|
      ensures !(s[i] in d && d[s[i]] == s[j])
    {
      assert s[i..][j - i] == s[j] && !BaseIn(d, s[i], s[i..]);
    }
  }

  /** Nor before any ancestor, as far as the classes between them are declared too. */
  lemma {:induction false} AncestorsFirst(d: Inheritance, s: seq<nat>, i: nat, j: nat, n: nat)
    requires Ordered(s, d) && Acyclic(d) && i < |s| && j < |s| && n > 0 && Up(d, s[i], n) == Some(s[j])
    requires forall k: nat :: k <= n ==> Up(d, s[i], k).Some? && Up(d, s[i], k).value in s
    ensures j < i
  {
    assert Up(d, s[i], 1) == Some(d[s[i]]) && d[s[i]] in s;
    var b :| 0 <= b < |s| && s[b] == d[s[i]];
    AcyclicHasNoCycle(d, s[i], 1);
    assert b < i;
    if n > 1 {
      forall k: nat | k <= n - 1
        ensures Up(d, s[b], k).Some? && Up(d, s[b], k).value in s
      {
        assert Up(d, s[i], k + 1) == Up(d, s[b], k);
      }
      AncestorsFirst(d, s, b, j, n - 1);
    }
  }
}
