/** `CompileClasses`: the check that no class contains itself by value. */
module Containment {
  // ----- graphs -----

  // Which classes each class contains by value, by the index of their declarations.
  type Members = seq<seq<nat>>

  ghost predicate Edge(members: Members, c: nat, d: nat) {
    c < |members| && d < |members| && d in members[c]
  }

  ghost predicate IsWalk(members: Members, p: seq<nat>) {
    |p| > 0 && forall k :: 0 <= k < |p| - 1 ==> Edge(members, p[k], p[k + 1])
  }

  /** A class that contains itself, directly or not. */
  ghost predicate HasCycle(members: Members) {
    exists p :: IsCycle(members, p)
  }

  ghost predicate IsCycle(members: Members, p: seq<nat>) {
    IsWalk(members, p) && |p| > 1 && p[0] == p[|p| - 1]
  }

  // Every class of the set contains another class of the set.
  ghost predicate IsTrap(members: Members, s: set<nat>) {
    forall c :: c in s ==> exists d :: d in s && Edge(members, c, d)
  }

  lemma {:induction false} WalkInTrap(members: Members, s: set<nat>, c: nat, n: nat) returns (p: seq<nat>)
    requires IsTrap(members, s) && c in s
    ensures IsWalk(members, p) && |p| == n + 1 && forall k :: 0 <= k < |p| ==> p[k] in s
  {
    hide Edge, IsWalk, IsTrap;
    if n == 0 {
      p := [c];
      OneStop(members, c);
    } else {
      var q := WalkInTrap(members, s, c, n - 1);
      var d := NextInTrap(members, s, q[n - 1]);
      WalkOn(members, q, d);
      p := q + [d];
    }
  }

  lemma NextInTrap(members: Members, s: set<nat>, c: nat) returns (d: nat)
    requires IsTrap(members, s) && c in s
    ensures d in s && Edge(members, c, d)
  {
    hide Edge;
    d :| d in s && Edge(members, c, d);
  }

  lemma OneStop(members: Members, c: nat)
    ensures IsWalk(members, [c])
  {
  }

  lemma WalkOn(members: Members, p: seq<nat>, d: nat)
    requires IsWalk(members, p) && Edge(members, p[|p| - 1], d)
    ensures IsWalk(members, p + [d])
  {
    hide Edge;
    var q := p + [d];
    assert forall k :: 0 <= k < |p| ==> q[k] == p[k];
  }

  lemma PartOfWalk(members: Members, p: seq<nat>, i: nat, j: nat)
    requires IsWalk(members, p) && i < j <= |p|
    ensures IsWalk(members, p[i..j])
  {
    hide Edge;
    var q := p[i..j];
    forall k | 0 <= k < |q| - 1
      ensures Edge(members, q[k], q[k + 1])
    {
      assert q[k] == p[i + k] && q[k + 1] == p[i + k + 1];
    }
  }

  // More places than classes: one comes twice.
  lemma {:induction false} Repeats(p: seq<nat>, s: set<nat>) returns (i: nat, j: nat)
    requires |p| > |s| && forall k :: 0 <= k < |p| ==> p[k] in s
    ensures i < j < |p| && p[i] == p[j]
  {
    if k :| 0 <= k < |p| - 1 && p[k] == p[|p| - 1] {
      i, j := k, |p| - 1;
    } else {
      i, j := Repeats(p[..|p| - 1], s - {p[|p| - 1]});
    }
  }

  /** A trap of which one class is known has a cycle. */
  lemma TrapHasCycle(members: Members, s: set<nat>, c: nat)
    requires IsTrap(members, s) && c in s
    ensures HasCycle(members)
  {
    hide Edge, IsWalk, IsTrap;
    var p := WalkInTrap(members, s, c, |s|);
    var i, j := Repeats(p, s);
    PartOfWalk(members, p, i, j + 1);
    assert IsCycle(members, p[i..j + 1]);
  }

  // ----- what the properties say -----

  datatype Property = Property(typeInfo: nat, isObject: bool, isHandle: bool)

  // `isExistingShared`: another module has compiled the class already.
  datatype ClassDecl = ClassDecl(typeInfo: nat, properties: seq<Property>, isExistingShared: bool)

  ghost predicate DistinctTypes(decls: seq<ClassDecl>) {
    forall i, j :: 0 <= i < j < |decls| ==> decls[i].typeInfo != decls[j].typeInfo
  }

  function IndexOf(decls: seq<ClassDecl>, t: nat, from: nat): (p: nat)
    requires from <= |decls|
    ensures from <= p <= |decls| && (p < |decls| ==> decls[p].typeInfo == t)
    ensures forall j :: from <= j < p ==> decls[j].typeInfo != t
    decreases |decls| - from
  {
    if from == |decls| || decls[from].typeInfo == t then from else IndexOf(decls, t, from + 1)
  }

  // The declared classes among the first `n` properties, where they are held by value.
  function ByValue(decls: seq<ClassDecl>, properties: seq<Property>, n: nat): (r: seq<nat>)
    requires n <= |properties|
    ensures forall d :: d in r ==> d < |decls|
  {
    if n == 0 then []
    else
      var prop := properties[n - 1];
      var p := IndexOf(decls, prop.typeInfo, 0);
      ByValue(decls, properties, n - 1) + (if prop.isObject && !prop.isHandle && p < |decls| then [p] else [])
  }

  function MembersOf(decls: seq<ClassDecl>): (m: Members)
    ensures |m| == |decls|
  {
    seq(|decls|, i requires 0 <= i < |decls| => ByValue(decls, decls[i].properties, |decls[i].properties|))
  }

  lemma MembersAre(decls: seq<ClassDecl>, c: nat)
    requires c < |decls|
    ensures MembersOf(decls)[c] == ByValue(decls, decls[c].properties, |decls[c].properties|)
    ensures forall d :: d in MembersOf(decls)[c] ==> d < |decls|
  {
  }

  /** Nothing but the properties decides: `d` is a member by value of `c` when a property says so. */
  lemma {:induction false} ByValueMeans(decls: seq<ClassDecl>, properties: seq<Property>, n: nat, d: nat)
    requires n <= |properties| && d < |decls| && DistinctTypes(decls)
    ensures d in ByValue(decls, properties, n) <==>
      exists k :: 0 <= k < n && properties[k].isObject && !properties[k].isHandle
        && properties[k].typeInfo == decls[d].typeInfo
  {
    if n > 0 {
      ByValueMeans(decls, properties, n - 1, d);
    }
  }

  // ----- what each validation establishes -----

  const UNKNOWN := 0
  const VALID := 1
  const INVALID := 2

  /** The classes that were valid beforehand only contain such classes, and none contains itself. */
  ghost predicate ValidBefore(members: Members, state: seq<int>) {
    && |state| == |members|
    && (forall c :: 0 <= c < |state| ==> state[c] == UNKNOWN || state[c] == VALID)
    && (forall c: nat, d: nat :: Edge(members, c, d) && state[c] == VALID ==> state[d] == VALID)
    && (forall p :: IsCycle(members, p) && p[0] < |state| ==> state[p[0]] != VALID)
  }

  /** What holds all the time: valid classes contain valid ones only, and those validated now only
      ones validated before them; an invalid class is there only if a cycle was found. */
  ghost predicate Sound(members: Members, before: seq<int>, state: seq<int>, order: seq<nat>, found: bool) {
    && ValidBefore(members, before) && |state| == |members|
    && (forall c :: 0 <= c < |state| ==> state[c] in {UNKNOWN, VALID, INVALID})
    && (forall c :: 0 <= c < |state| ==> (state[c] == VALID <==> before[c] == VALID || c in order))
    && (forall c :: 0 <= c < |state| && state[c] == INVALID ==> found)
    && (forall i, d: nat :: 0 <= i < |order| && Edge(members, order[i], d) ==> before[d] == VALID || d in order[..i])
    && (found ==> HasCycle(members))
  }

  // The first `n` members are valid.
  ghost predicate FirstValid(ms: seq<nat>, state: seq<int>, n: nat)
    requires n <= |ms|
  {
    forall k :: 0 <= k < n ==> ms[k] < |state| && state[ms[k]] == VALID
  }

  lemma OneMoreValid(members: Members, before: seq<int>, state: seq<int>, order: seq<nat>, found: bool, c: nat)
    returns (order': seq<nat>)
    requires Sound(members, before, state, order, found) && c < |members| && FirstValid(members[c], state, |members[c]|)
    ensures Sound(members, before, state[c := VALID], order', found)
  {
    order' := if state[c] == VALID then order else order + [c];
    forall i, d: nat | 0 <= i < |order'| && Edge(members, order'[i], d)
      ensures before[d] == VALID || d in order'[..i]
    {
      if i < |order| {
        assert order'[..i] == order[..i];
      } else {
        assert order'[..i] == order;
        assert state[d] == VALID;
      }
    }
  }

  lemma OneMoreInvalid(members: Members, before: seq<int>, state: seq<int>, order: seq<nat>, found: bool, c: nat)
    requires Sound(members, before, state, order, found) && c < |members|
    requires before[c] != VALID && c !in order
    requires Edge(members, c, c) || found
    ensures Sound(members, before, state[c := INVALID], order, true)
  {
    if Edge(members, c, c) {
      assert IsCycle(members, [c, c]);
    }
  }

  // A walk from a class validated now leads to ones validated earlier, or to ones valid before.
  lemma {:induction false} WalkGoesDown(members: Members, before: seq<int>, state: seq<int>, order: seq<nat>,
                                        p: seq<nat>, i: nat)
    requires Sound(members, before, state, order, false) && IsWalk(members, p) && |p| > 1
    requires i < |order| && p[0] == order[i]
    ensures p[|p| - 1] < |before| && (before[p[|p| - 1]] == VALID || p[|p| - 1] in order[..i])
    decreases |p|
  {
    assert Edge(members, p[0], p[1]);
    if |p| > 2 {
      PartOfWalk(members, p, 1, |p|);
      if before[p[1]] == VALID {
        WalkStaysValid(members, before, p[1..]);
      } else {
        var j :| 0 <= j < i && order[j] == p[1];
        WalkGoesDown(members, before, state, order, p[1..], j);
        assert order[..j] <= order[..i];
      }
    }
  }

  lemma {:induction false} WalkStaysValid(members: Members, before: seq<int>, p: seq<nat>)
    requires ValidBefore(members, before) && IsWalk(members, p) && p[0] < |before| && before[p[0]] == VALID
    ensures p[|p| - 1] < |before| && before[p[|p| - 1]] == VALID
  {
    if |p| > 1 {
      assert Edge(members, p[0], p[1]);
      PartOfWalk(members, p, 1, |p|);
      WalkStaysValid(members, before, p[1..]);
    }
  }

  /** When every class was found valid there is no cycle. */
  lemma AllValidNoCycle(members: Members, before: seq<int>, state: seq<int>, order: seq<nat>)
    requires Sound(members, before, state, order, false) && forall c :: 0 <= c < |state| ==> state[c] == VALID
    ensures !HasCycle(members)
  {
    forall p
      ensures !IsCycle(members, p)
    {
      if IsCycle(members, p) {
        assert Edge(members, p[0], p[1]);
        assert before[p[0]] != VALID && state[p[0]] == VALID;
        var i := First(order, p[0]);
        WalkGoesDown(members, before, state, order, p, i);
      }
    }
  }

  lemma First(s: seq<nat>, c: nat) returns (i: nat)
    requires c in s
    ensures i < |s| && s[i] == c && c !in s[..i]
  {
    i := 0;
    while s[i] != c
      invariant i < |s| && c !in s[..i] && c in s[i..]
      decreases |s| - i
    {
      i := i + 1;
    }
  }

  lemma SoundAtFirst(members: Members, before: seq<int>)
    requires ValidBefore(members, before)
    ensures Sound(members, before, before, [], false)
  {
  }

  lemma SoundFound(members: Members, before: seq<int>, state: seq<int>, order: seq<nat>, found: bool)
    requires Sound(members, before, state, order, found) && HasCycle(members)
    ensures Sound(members, before, state, order, true)
  {
  }

  lemma SoundStates(members: Members, before: seq<int>, state: seq<int>, order: seq<nat>, found: bool)
    requires Sound(members, before, state, order, found)
    ensures |state| == |members| && forall c :: 0 <= c < |state| ==> state[c] in {UNKNOWN, VALID, INVALID}
    ensures forall c :: 0 <= c < |state| && state[c] == INVALID ==> found
  {
  }

  // Valid classes contain valid ones, and not themselves.
  lemma ValidClosed(members: Members, before: seq<int>, state: seq<int>, order: seq<nat>, found: bool, c: nat, d: nat)
    requires Sound(members, before, state, order, found) && Edge(members, c, d) && state[c] == VALID
    ensures state[d] == VALID && d != c
  {
    if before[c] == VALID {
      if d == c {
        assert IsCycle(members, [c, c]);
      }
    } else {
      var i := First(order, c);
    }
  }

  // Every class whose state is not known is still to be looked at.
  ghost predicate Waiting(state: seq<int>, rest: seq<nat>, next: seq<nat>) {
    forall c :: 0 <= c < |state| && state[c] == UNKNOWN ==> c in rest || c in next
  }

  ghost predicate AllIn(s: seq<nat>, n: nat) {
    forall i :: 0 <= i < |s| ==> s[i] < n
  }

  // The classes that are still to be validated: all but the existing shared ones.
  ghost predicate Listed(decls: seq<ClassDecl>, s: seq<nat>, n: nat)
    requires n <= |decls|
  {
    && AllIn(s, n)
    && forall c :: 0 <= c < n ==> (c in s <==> !decls[c].isExistingShared)
  }

  lemma ListOne(decls: seq<ClassDecl>, s: seq<nat>, n: nat)
    requires n < |decls| && Listed(decls, s, n)
    ensures Listed(decls, if decls[n].isExistingShared then s else s + [n], n + 1)
  {
    assert n !in s;
  }

  lemma ListedWaiting(decls: seq<ClassDecl>, s: seq<nat>, state: seq<int>)
    requires Listed(decls, s, |decls|) && |state| == |decls|
    requires forall c :: 0 <= c < |decls| && decls[c].isExistingShared ==> state[c] == VALID
    ensures Waiting(state, s, []) && AllIn(s, |state|)
  {
  }

  lemma PopWaiting(state: seq<int>, rest: seq<nat>, next: seq<nat>, v: int)
    requires Waiting(state, rest, next) && |rest| > 0 && rest[|rest| - 1] < |state|
    ensures Waiting(state, rest[..|rest| - 1], next + [rest[|rest| - 1]])
    ensures v != UNKNOWN ==> Waiting(state[rest[|rest| - 1] := v], rest[..|rest| - 1], next)
  {
    assert rest == rest[..|rest| - 1] + [rest[|rest| - 1]];
  }

  lemma NoneLeft(state: seq<int>, rest: seq<nat>, next: seq<nat>)
    requires Waiting(state, rest, next) && |rest| == 0
    ensures Waiting(state, next, [])
  {
  }

  // Each of these has a member whose state is not known.
  ghost predicate Stuck(members: Members, state: seq<int>, next: seq<nat>) {
    forall c :: c in next ==> exists d: nat :: d < |state| && Edge(members, c, d) && state[d] == UNKNOWN
  }

  lemma StuckHasCycle(members: Members, state: seq<int>, next: seq<nat>)
    requires |next| > 0 && Stuck(members, state, next) && Waiting(state, next, [])
    ensures HasCycle(members)
  {
    hide HasCycle, Edge;
    var s := set c | c in next;
    forall c | c in s
      ensures exists d :: d in s && Edge(members, c, d)
    {
      var d: nat :| d < |state| && Edge(members, c, d) && state[d] == UNKNOWN;
      assert d in s;
    }
    TrapHasCycle(members, s, next[0]);
  }

  lemma Concluded(members: Members, before: seq<int>, state: seq<int>, order: seq<nat>, found: bool, rest: seq<nat>)
    requires Sound(members, before, state, order, found) && Waiting(state, rest, []) && (found || |rest| == 0)
    ensures |state| == |members| && (found <==> HasCycle(members))
    ensures forall c: nat, d: nat :: Edge(members, c, d) && state[c] == VALID ==> state[d] == VALID
    ensures !found ==> forall c :: 0 <= c < |state| ==> state[c] == VALID
  {
    hide HasCycle;
    if !found {
      AllValidNoCycle(members, before, state, order);
    }
    forall c: nat, d: nat | Edge(members, c, d) && state[c] == VALID
      ensures state[d] == VALID
    {
      ValidClosed(members, before, state, order, found, c, d);
    }
  }

  // What one validation makes of the state of a class.
  lemma StateSound(members: Members, before: seq<int>, state: seq<int>, order: seq<nat>, found: bool, c: nat,
                   valid: int,
                   found': bool) returns (order': seq<nat>)
    requires Sound(members, before, state, order, found) && c < |members|
    requires valid == VALID ==> FirstValid(members[c], state, |members[c]|) && found' == found
    requires valid == INVALID ==>
      (exists d :: d in members[c] && d < |state| && state[d] == INVALID) || (c in members[c] && found')
    requires (found ==> found') && (found' ==> found || c in members[c])
    requires valid == VALID || valid == INVALID
    ensures Sound(members, before, state[c := valid], order', found')
  {
    hide Sound, HasCycle;
    order' := order;
    SoundStates(members, before, state, order, found);
    if valid == VALID {
      order' := OneMoreValid(members, before, state, order, found, c);
    } else {
      var d: nat :| d in members[c] && (d == c || (d < |state| && state[d] == INVALID));
      if state[c] == VALID {
        ValidClosed(members, before, state, order, found, c, d);
      }
      NotValidBefore(members, before, state, order, found, c);
      OneMoreInvalid(members, before, state, order, found, c);
    }
  }

  lemma NotValidBefore(members: Members, before: seq<int>, state: seq<int>, order: seq<nat>, found: bool, c: nat)
    requires Sound(members, before, state, order, found) && c < |members| && state[c] != VALID
    ensures before[c] != VALID && c !in order
  {
  }

  function StatesBefore(decls: seq<ClassDecl>): (r: seq<int>)
    ensures |r| == |decls|
  {
    seq(|decls|, c requires 0 <= c < |decls| => if decls[c].isExistingShared then VALID else UNKNOWN)
  }

  lemma NoneListed(decls: seq<ClassDecl>)
    ensures Listed(decls, [], 0)
  {
  }

  lemma ListedAre(decls: seq<ClassDecl>, s: seq<nat>)
    requires Listed(decls, s, |decls|)
    ensures forall c :: 0 <= c < |decls| ==> (c in s <==> !decls[c].isExistingShared)
  {
  }

  // ----- the check -----

  class Validator {
    const classDeclarations: seq<ClassDecl>
    var validState: seq<int>
    var numErrors: nat

    // Existing shared classes are valid from the start.
    constructor (classDeclarations: seq<ClassDecl>)
      ensures this.classDeclarations == classDeclarations && numErrors == 0
      ensures validState == StatesBefore(classDeclarations)
    {
      this.classDeclarations, numErrors := classDeclarations, 0;
      validState := StatesBefore(classDeclarations);
    }

    // What the state of a class should be, going by the present states of its members.
    method Validate(decl: nat) returns (valid: int)
      requires decl < |classDeclarations| == |validState| && DistinctTypes(classDeclarations)
      requires forall c :: 0 <= c < |validState| ==> validState[c] in {UNKNOWN, VALID, INVALID}
      modifies this`numErrors
      ensures var ms := MembersOf(classDeclarations)[decl];
        && valid in {UNKNOWN, VALID, INVALID}
        && (valid == VALID ==> FirstValid(ms, validState, |ms|))
        && (valid == INVALID ==> decl in ms || exists d :: d in ms && validState[d] == INVALID)
        && (valid == UNKNOWN ==> exists d :: d in ms && validState[d] == UNKNOWN)
        && numErrors >= old(numErrors)
        && (numErrors > old(numErrors) ==> valid == INVALID && decl in ms)
        && (valid == INVALID && numErrors == old(numErrors) ==> exists d :: d in ms && validState[d] == INVALID)
    {
      hide MembersOf, ByValue, DistinctTypes;
      var properties, n := classDeclarations[decl].properties, 0;
      MembersAre(classDeclarations, decl);
      NoneByValue(classDeclarations, properties);
      while n < |properties|
        invariant n <= |properties| && numErrors == old(numErrors)
        invariant var ms := ByValue(classDeclarations, properties, n); FirstValid(ms, validState, |ms|)
      {
        ByValueGrows(classDeclarations, properties, n + 1, |properties|);
        OneMoreByValue(classDeclarations, properties, n);
        var prop := properties[n];
        if prop.isObject && !prop.isHandle {
          var p := IndexOf(classDeclarations, prop.typeInfo, 0);
          if p < |classDeclarations| {
            SameIndex(classDeclarations, p, decl);
            assert ByValue(classDeclarations, properties, n + 1)[|ByValue(classDeclarations, properties, n)|] == p;
            assert p in MembersOf(classDeclarations)[decl];
            if classDeclarations[p].typeInfo == classDeclarations[decl].typeInfo {
              numErrors := numErrors + 1;
              return INVALID;
            } else if validState[p] != VALID {
              return validState[p];
            }
          }
        }
        n := n + 1;
      }
      return VALID;
    }

    // The work list: existing shared classes are left off it.
    method ListClasses() returns (toValidate: seq<nat>)
      requires validState == StatesBefore(classDeclarations)
      ensures Waiting(validState, toValidate, []) && AllIn(toValidate, |validState|)
      ensures forall c :: 0 <= c < |classDeclarations| ==> (c in toValidate <==> !classDeclarations[c].isExistingShared)
    {
      hide Waiting, Listed;
      toValidate := [];
      var n := 0;
      assert Listed(classDeclarations, [], 0) by {
        NoneListed(classDeclarations);
      }
      while n < |classDeclarations|
        invariant n <= |classDeclarations| && Listed(classDeclarations, toValidate, n)
      {
        ListOne(classDeclarations, toValidate, n);
        if !classDeclarations[n].isExistingShared {
          toValidate := toValidate + [n];
        }
        n := n + 1;
      }
      ListedWaiting(classDeclarations, toValidate, validState);
      ListedAre(classDeclarations, toValidate);
    }

    /** Validate all classes that are not shared and known already. It ends, reports an error exactly if
        some class contains itself, and calls a class valid only if all it contains by value is valid. */
    method ValidateAll()
      requires DistinctTypes(classDeclarations) && validState == StatesBefore(classDeclarations)
      requires ValidBefore(MembersOf(classDeclarations), validState)
      modifies this`validState, this`numErrors
      ensures |validState| == |classDeclarations|
      ensures numErrors > old(numErrors) <==> HasCycle(MembersOf(classDeclarations))
      ensures forall c: nat, d: nat :: Edge(MembersOf(classDeclarations), c, d) && validState[c] == VALID ==>
        validState[d] == VALID
      ensures numErrors == old(numErrors) ==> forall c :: 0 <= c < |validState| ==> validState[c] == VALID
    {
      hide Sound, HasCycle, MembersOf, Edge, ValidBefore, Waiting, Stuck;
      ghost var members, before, order := MembersOf(classDeclarations), validState, [];
      ghost var errors := numErrors;
      SoundAtFirst(members, before);
      var toValidate := ListClasses();
      while |toValidate| > 0
        invariant numErrors >= errors && |validState| == |classDeclarations|
        invariant Sound(members, before, validState, order, numErrors > errors)
        invariant AllIn(toValidate, |validState|) && Waiting(validState, toValidate, [])
        decreases |toValidate|
      {
        var toValidateNext;
        toValidateNext, order := ValidateRound(toValidate, errors, before, order);
        var numClasses := |toValidate|;
        toValidate := toValidateNext;
        if numClasses == |toValidate| {
          StuckHasCycle(members, validState, toValidate);
          SoundFound(members, before, validState, order, numErrors > errors);
          numErrors := numErrors + 1;
          break;
        }
      }
      Concluded(members, before, validState, order, numErrors > errors, toValidate);
    }

    // One pass over the classes, from the last to the first.
    method ValidateRound(toValidate: seq<nat>, ghost errors: nat, ghost before: seq<int>, ghost order: seq<nat>)
      returns (toValidateNext: seq<nat>, ghost order': seq<nat>)
      requires DistinctTypes(classDeclarations) && numErrors >= errors && |validState| == |classDeclarations|
      requires Sound(MembersOf(classDeclarations), before, validState, order, numErrors > errors)
      requires AllIn(toValidate, |validState|) && Waiting(validState, toValidate, [])
      modifies this`validState, this`numErrors
      ensures numErrors >= errors && |validState| == |classDeclarations|
      ensures Sound(MembersOf(classDeclarations), before, validState, order', numErrors > errors)
      ensures AllIn(toValidateNext, |validState|) && Waiting(validState, toValidateNext, [])
      ensures |toValidateNext| <= |toValidate|
      ensures |toValidateNext| == |toValidate| ==> Stuck(MembersOf(classDeclarations), validState, toValidateNext)
    {
      hide Sound, MembersOf, Waiting;
      ghost var members := MembersOf(classDeclarations);
      toValidateNext, order' := [], order;
      var rest := toValidate;
      while |rest| > 0
        invariant numErrors >= errors && |validState| == |classDeclarations|
        invariant Sound(members, before, validState, order', numErrors > errors)
        invariant AllIn(rest, |validState|) && AllIn(toValidateNext, |validState|)
        invariant Waiting(validState, rest, toValidateNext)
        invariant |rest| + |toValidateNext| <= |toValidate|
        invariant |rest| + |toValidateNext| == |toValidate| ==> Stuck(members, validState, toValidateNext)
      {
        var decl := rest[|rest| - 1];
        SoundStates(members, before, validState, order', numErrors > errors);
        ghost var found := numErrors > errors;
        var valid := Validate(decl);
        MembersAre(classDeclarations, decl);
        PopWaiting(validState, rest, toValidateNext, valid);
        if valid == VALID {
          order' := StateSound(members, before, validState, order', found, decl, VALID, numErrors > errors);
          validState := validState[decl := VALID];
        } else if valid == INVALID {
          order' := StateSound(members, before, validState, order', found, decl, INVALID, numErrors > errors);
          validState := validState[decl := INVALID];
        } else {
          toValidateNext := toValidateNext + [decl];
        }
        rest := rest[..|rest| - 1];
      }
      NoneLeft(validState, rest, toValidateNext);
    }
  }

  lemma {:induction false} ByValueGrows(decls: seq<ClassDecl>, properties: seq<Property>, i: nat, n: nat)
    requires i <= n <= |properties|
    ensures ByValue(decls, properties, i) <= ByValue(decls, properties, n)
    decreases n
  {
    if i < n {
      ByValueGrows(decls, properties, i, n - 1);
    }
  }

  lemma NoneByValue(decls: seq<ClassDecl>, properties: seq<Property>)
    ensures ByValue(decls, properties, 0) == []
  {
  }

  lemma OneMoreByValue(decls: seq<ClassDecl>, properties: seq<Property>, n: nat)
    requires n < |properties|
    ensures var prop := properties[n];
      var p := IndexOf(decls, prop.typeInfo, 0);
      ByValue(decls, properties, n + 1)
        == ByValue(decls, properties, n) + (if prop.isObject && !prop.isHandle && p < |decls| then [p] else [])
  {
  }

  lemma SameIndex(decls: seq<ClassDecl>, p: nat, c: nat)
    requires DistinctTypes(decls) && p < |decls| && c < |decls|
    ensures decls[p].typeInfo == decls[c].typeInfo <==> p == c
  {
  }
}
