/** `CompileClasses`: which script classes need the garbage collector. A class whose flag ends cleared
    can never be part of a circle of references. */
module GarbageFlags {
  // ----- types -----

  datatype Member =
    | Primitive
    | Funcdef               // a function pointer, possibly a delegate that holds an object
    | ByValue(t: nat)
    | Handle(t: nat)

  /** `isFinal` is asOBJ_NOINHERIT. The members of a registered type are not known. */
  datatype ObjectType = ObjectType(isScript: bool, isFinal: bool, derivedFrom: int, members: seq<Member>)

  type Types = seq<ObjectType>

  predicate WellFormed(types: Types) {
    forall t :: 0 <= t < |types| ==> -1 <= types[t].derivedFrom < |types| && MembersIn(types, types[t].members)
  }

  predicate MembersIn(types: Types, members: seq<Member>) {
    forall m :: m in members && (m.ByValue? || m.Handle?) ==> m.t < |types|
  }

  // ----- what can refer to what -----

  ghost predicate Derives(types: Types, d: nat, t: nat, n: nat)
    requires WellFormed(types) && d < |types|
    decreases n
  {
    d == t || (n > 0 && types[d].derivedFrom >= 0 && Derives(types, types[d].derivedFrom, t, n - 1))
  }

  // An object of type `d` can be held by a handle to `t`.
  ghost predicate IsA(types: Types, d: nat, t: nat)
    requires WellFormed(types) && d < |types|
  {
    exists n :: Derives(types, d, t, n)
  }

  /** Only script classes that are not final are derived from. */
  ghost predicate Inherits(types: Types) {
    forall d :: 0 <= d < |types| && types[d].derivedFrom >= 0 && WellFormed(types) ==>
      types[types[d].derivedFrom].isScript && !types[types[d].derivedFrom].isFinal
  }

  /** An object of type `a` can hold a reference to, or contain, one of type `b`. For registered types
      `refs` says so. */
  ghost predicate MayRefer(types: Types, refs: (nat, nat) -> bool, a: nat, b: nat)
    requires WellFormed(types)
  {
    && a < |types| && b < |types|
    && if !types[a].isScript then refs(a, b)
       else
         || Funcdef in types[a].members
         || ByValue(b) in types[a].members
         || exists t: nat :: Handle(t) in types[a].members && IsA(types, b, t)
  }

  ghost predicate IsPath(types: Types, refs: (nat, nat) -> bool, p: seq<nat>)
    requires WellFormed(types)
  {
    |p| > 0 && forall k :: 0 <= k < |p| - 1 ==> MayRefer(types, refs, p[k], p[k + 1])
  }

  /** A circle of references through an object of type `t`. */
  ghost predicate InCircle(types: Types, refs: (nat, nat) -> bool, t: nat)
    requires WellFormed(types)
  {
    exists p :: IsPath(types, refs, p) && |p| > 1 && p[0] == t && p[|p| - 1] == t
  }

  // A class with a function pointer can be reached.
  ghost predicate ReachesDelegate(types: Types, refs: (nat, nat) -> bool, t: nat)
    requires WellFormed(types)
  {
    exists p :: IsPath(types, refs, p) && p[0] == t && p[|p| - 1] < |types|
      && types[p[|p| - 1]].isScript && Funcdef in types[p[|p| - 1]].members
  }

  // ----- evaluating one class -----

  // The final-class shortcut: could an object held by a handle to this final class refer back?
  predicate FinalMayRefer(types: Types, gc: set<nat>, members: seq<Member>)
    requires MembersIn(types, members)
  {
    exists m :: m in members &&
      ((m.Handle? && (types[m.t].isScript || m.t in gc)) || (m.ByValue? && m.t in gc))
  }

  /** Does this member make the class garbage collected? */
  predicate NeedsGc(types: Types, gc: set<nat>, m: Member)
    requires WellFormed(types) && (m.ByValue? || m.Handle? ==> m.t < |types|)
  {
    match m
    case Primitive => false
    case Funcdef => true
    case ByValue(t) => t in gc
    case Handle(t) =>
      if types[t].isScript then MayReferBack(types, gc, t) else t in gc
  }

  // A class with these members, when only `rest` are still to be evaluated, cannot refer to itself.
  ghost predicate Cleared(types: Types, gc: set<nat>, rest: set<nat>, members: seq<Member>)
    requires WellFormed(types) && MembersIn(types, members)
  {
    forall m :: m in members ==> !NeedsGc(types, gc, m) && (m.ByValue? || m.Handle? ==> m.t !in rest)
  }

  class Evaluator {
    const types: Types
    var gc: set<nat>  // the types with asOBJ_GC

    constructor (types: Types, gc: set<nat>)
      ensures this.types == types && this.gc == gc
    {
      this.types, this.gc := types, gc;
    }

    // The loop over the members of a final class held by a handle.
    method CheckFinal(members: seq<Member>) returns (found: bool)
      requires MembersIn(types, members)
      ensures found <==> FinalMayRefer(types, gc, members)
    {
      var sp := 0;
      while sp < |members|
        invariant sp <= |members| && !FinalMayRefer(types, gc, members[..sp])
      {
        var m := members[sp];
        assert members[..sp + 1] == members[..sp] + [m];
        if m.Handle? {
          if types[m.t].isScript || m.t in gc {
            return true;
          }
        } else if m.ByValue? {
          if m.t in gc {
            return true;
          }
        }
        sp := sp + 1;
      }
      assert members[..sp] == members;
      return false;
    }

    /** Evaluate one class while `rest` are still to be evaluated. */
    method Evaluate(members: seq<Member>, rest: seq<nat>) returns (needsGc: bool, mustReevaluate: bool)
      requires WellFormed(types) && MembersIn(types, members)
      ensures needsGc ==>
        exists m :: m in members && NeedsGc(types, gc, m) && (m.ByValue? || m.Handle? ==> m.t !in rest)
      ensures !needsGc && !mustReevaluate ==> Cleared(types, gc, (set t | t in rest), members)
      ensures mustReevaluate ==> exists m :: m in members && (m.ByValue? || m.Handle?) && m.t in rest
    {
      needsGc, mustReevaluate := false, false;
      var p := 0;
      while p < |members|
        invariant p <= |members|
        invariant !mustReevaluate ==> Cleared(types, gc, (set t | t in rest), members[..p])
        invariant mustReevaluate ==> exists m :: m in members && (m.ByValue? || m.Handle?) && m.t in rest
      {
        var m := members[p];
        assert members[..p + 1] == members[..p] + [m];
        if m.Funcdef? {
          assert NeedsGc(types, gc, m);
          return true, mustReevaluate;
        }
        if m.ByValue? || m.Handle? {
          if m.t in rest {
            mustReevaluate := true;
          } else if m.Handle? {
            if types[m.t].isScript {
              if types[m.t].isFinal {
                var found := CheckFinal(types[m.t].members);
                if found {
                  return true, mustReevaluate;
                }
              } else {
                return true, mustReevaluate;
              }
            } else if m.t in gc {
              return true, mustReevaluate;
            }
          } else if m.t in gc {
            return true, mustReevaluate;
          }
        }
        p := p + 1;
      }
      assert members[..p] == members;
    }

    /** Evaluate all classes. What is cleared is safe, in the order of evaluation; nothing but the
        flags of these classes changes; and it ends, whatever the classes refer to. */
    method EvaluateAll(classes: seq<nat>) returns (ghost order: seq<nat>)
      requires WellFormed(types) && Listed(types, classes) && forall t :: t in classes ==> t in gc
      modifies this`gc
      ensures gc <= old(gc)
      ensures forall t :: t in old(gc) && t !in gc ==> t in order
      ensures Evaluated(types, classes, gc, order, [])
      ensures forall t :: t in classes && t in gc ==> t < |types| && Suspect(types, old(gc), gc, t)
    {
      hide Evaluated, Covered, Suspects, WellFormed, Cleared;
      order := [];
      var typesToValidate, numReevaluations := classes, 0;
      NoneEvaluated(types, classes, gc);
      NoneSuspect(types, classes, gc);
      while |typesToValidate| > 0
        invariant gc <= old(gc)
        invariant forall t :: t in old(gc) && t !in gc ==> t in order
        invariant Evaluated(types, classes, gc, order, typesToValidate) && Covered(classes, order, typesToValidate)
        invariant Suspects(types, old(gc), gc, order, typesToValidate, numReevaluations)
        invariant numReevaluations <= |typesToValidate| + 1
        decreases |typesToValidate|, |typesToValidate| + 1 - numReevaluations
      {
        if numReevaluations > |typesToValidate| {
          // No type could be completely evaluated in the last iteration
          break;
        }
        var t := typesToValidate[0];
        ghost var was := typesToValidate;
        EvaluatedFacts(types, classes, gc, order, was);
        typesToValidate := typesToValidate[1..];
        var base := types[t].derivedFrom;
        if base >= 0 && base in typesToValidate {
          Requeued(types, classes, gc, order, was);
          RequeuedSuspect(types, classes, old(gc), gc, order, was, numReevaluations);
          typesToValidate := typesToValidate + [t];
          numReevaluations := numReevaluations + 1;
          continue;
        }
        if base >= 0 && base in gc {
          KeptFlag(types, classes, gc, order, was);
          KeptSuspect(types, classes, old(gc), gc, order, was, numReevaluations, numReevaluations);
          order := order + [t];
          continue;
        }
        var needsGc, mustReevaluate := Evaluate(types[t].members, typesToValidate);
        if !needsGc && mustReevaluate {
          Requeued(types, classes, gc, order, was);
          RequeuedSuspect(types, classes, old(gc), gc, order, was, numReevaluations);
          typesToValidate := typesToValidate + [t];
          numReevaluations := numReevaluations + 1;
          continue;
        }
        if needsGc {
          KeptFlag(types, classes, gc, order, was);
          KeptSuspect(types, classes, old(gc), gc, order, was, numReevaluations, 0);
        } else {
          ClearedFlag(types, classes, gc, order, was);
          ClearedSuspect(types, classes, old(gc), gc, order, was, numReevaluations);
          gc := gc - {t};
        }
        order := order + [t];
        // Reset the counter
        numReevaluations := 0;
      }
      AllSuspect(types, classes, old(gc), gc, order, typesToValidate, numReevaluations);
      StillFlagged(types, classes, gc, order, typesToValidate);
    }
  }

  // ----- what the evaluation establishes -----

  // The classes being compiled: each once, all of them script classes.
  ghost predicate Listed(types: Types, classes: seq<nat>) {
    && (forall t :: t in classes ==> t < |types| && types[t].isScript)
    && forall i, j :: 0 <= i < j < |classes| ==> classes[i] != classes[j]
  }

  // Not garbage collected, and either not compiled now or evaluated before.
  ghost predicate Done(classes: seq<nat>, gc: set<nat>, before: seq<nat>, t: nat) {
    t !in gc && (t in classes ==> t in before)
  }

  ghost predicate SafeFinal(types: Types, classes: seq<nat>, gc: set<nat>, before: seq<nat>, members: seq<Member>)
    requires MembersIn(types, members)
  {
    forall m :: m in members ==>
      && (m.Handle? ==> !types[m.t].isScript && m.t !in gc)
      && (m.ByValue? ==> Done(classes, gc, before, m.t))
  }

  ghost predicate SafeMember(types: Types, classes: seq<nat>, gc: set<nat>, before: seq<nat>, m: Member)
    requires WellFormed(types) && (m.ByValue? || m.Handle? ==> m.t < |types|)
  {
    && !m.Funcdef?
    && (m.ByValue? ==> Done(classes, gc, before, m.t))
    && (m.Handle? ==>
      && (m.t in classes ==> m.t in before)
      && if types[m.t].isScript then types[m.t].isFinal && SafeFinal(types, classes, gc, before, types[m.t].members)
         else m.t !in gc)
  }

  // A class whose flag was cleared when those before it were evaluated.
  ghost predicate SafeClass(types: Types, classes: seq<nat>, gc: set<nat>, before: seq<nat>, t: nat)
    requires WellFormed(types) && t < |types|
  {
    && (types[t].derivedFrom >= 0 ==> types[t].derivedFrom !in gc)
    && forall m :: m in types[t].members ==> SafeMember(types, classes, gc, before, m)
  }

  /** The classes are those evaluated and those remaining; the remaining ones keep their flag; and every
      evaluated one without a flag is safe. */
  ghost predicate Evaluated(types: Types, classes: seq<nat>, gc: set<nat>, order: seq<nat>, rest: seq<nat>)
    requires WellFormed(types)
  {
    && Listed(types, classes) && Listed(types, order) && Listed(types, rest)
    && (forall t :: t in order || t in rest ==> t in classes)
    && (forall t :: t in order ==> t !in rest)
    && (forall t :: t in classes && t !in order ==> t in gc)
    && (forall i :: 0 <= i < |order| && order[i] !in gc ==> SafeClass(types, classes, gc, order[..i], order[i]))
  }

  // None is lost.
  ghost predicate Covered(classes: seq<nat>, order: seq<nat>, rest: seq<nat>) {
    forall t :: t in classes ==> t in order || t in rest
  }

  lemma NoneEvaluated(types: Types, classes: seq<nat>, gc: set<nat>)
    requires WellFormed(types) && Listed(types, classes) && forall t :: t in classes ==> t in gc
    ensures Evaluated(types, classes, gc, [], classes) && Covered(classes, [], classes)
  {
  }

  lemma EvaluatedFacts(types: Types, classes: seq<nat>, gc: set<nat>, order: seq<nat>, rest: seq<nat>)
    requires WellFormed(types) && Evaluated(types, classes, gc, order, rest) && Covered(classes, order, rest)
    requires |rest| > 0
    ensures rest[0] < |types| && MembersIn(types, types[rest[0]].members) && rest[0] in gc && rest[0] !in order
  {
    assert rest[0] in rest;
  }

  lemma RestOf(types: Types, rest: seq<nat>)
    requires Listed(types, rest) && |rest| > 0
    ensures Listed(types, rest[1..]) && Listed(types, rest[1..] + [rest[0]]) && rest[0] in rest
    ensures forall t :: t in rest <==> t == rest[0] || t in rest[1..]
    ensures rest[0] !in rest[1..]
  {
    assert rest == [rest[0]] + rest[1..];
    assert forall t :: t in rest[1..] ==> t in rest;
    assert forall t :: t in rest[1..] + [rest[0]] ==> t in rest;
  }

  lemma Requeued(types: Types, classes: seq<nat>, gc: set<nat>, order: seq<nat>, rest: seq<nat>)
    requires WellFormed(types) && Evaluated(types, classes, gc, order, rest) && Covered(classes, order, rest)
    requires |rest| > 0
    ensures Evaluated(types, classes, gc, order, rest[1..] + [rest[0]])
    ensures Covered(classes, order, rest[1..] + [rest[0]])
  {
    hide Listed, SafeClass;
    RestOf(types, rest);
  }

  lemma Appended(types: Types, order: seq<nat>, t: nat)
    requires Listed(types, order) && t < |types| && types[t].isScript && t !in order
    ensures Listed(types, order + [t])
  {
  }

  lemma KeptFlag(types: Types, classes: seq<nat>, gc: set<nat>, order: seq<nat>, rest: seq<nat>)
    requires WellFormed(types) && Evaluated(types, classes, gc, order, rest) && Covered(classes, order, rest)
    requires |rest| > 0
    ensures Evaluated(types, classes, gc, order + [rest[0]], rest[1..])
    ensures Covered(classes, order + [rest[0]], rest[1..])
  {
    hide SafeClass;
    var t, order' := rest[0], order + [rest[0]];
    RestOf(types, rest);
    Appended(types, order, t);
    assert forall i :: 0 <= i < |order| ==> order'[..i] == order[..i];
    hide Listed;
  }

  // Flags are only ever cleared, which makes nothing unsafe.
  lemma SafeStays(types: Types, classes: seq<nat>, gc: set<nat>, gc': set<nat>, before: seq<nat>, t: nat)
    requires WellFormed(types) && t < |types| && SafeClass(types, classes, gc, before, t) && gc' <= gc
    ensures SafeClass(types, classes, gc', before, t)
  {
    forall m | m in types[t].members
      ensures SafeMember(types, classes, gc', before, m)
    {
      assert SafeMember(types, classes, gc, before, m);
    }
  }

  lemma ClearedFlag(types: Types, classes: seq<nat>, gc: set<nat>, order: seq<nat>, rest: seq<nat>)
    requires WellFormed(types) && Evaluated(types, classes, gc, order, rest) && Covered(classes, order, rest)
    requires |rest| > 0 && rest[0] < |types|
    requires Cleared(types, gc, (set t | t in rest[1..]), types[rest[0]].members)
    requires types[rest[0]].derivedFrom >= 0 ==> types[rest[0]].derivedFrom !in gc
    ensures Evaluated(types, classes, gc - {rest[0]}, order + [rest[0]], rest[1..])
    ensures Covered(classes, order + [rest[0]], rest[1..])
  {
    hide SafeClass, Cleared, WellFormed;
    var t, order', gc' := rest[0], order + [rest[0]], gc - {rest[0]};
    RestOf(types, rest);
    Appended(types, order, t);
    forall i | 0 <= i < |order'| && order'[i] !in gc'
      ensures SafeClass(types, classes, gc', order'[..i], order'[i])
    {
      assert order'[..i] == order[..i];
      if i == |order| {
        ClearedIsSafe(types, classes, gc, order, rest);
      }
      SafeStays(types, classes, gc, gc', order'[..i], order'[i]);
    }
  }

  lemma HandleToSelf(types: Types, gc: set<nat>, t: nat)
    requires WellFormed(types) && t < |types| && types[t].isScript && Handle(t) in types[t].members
    ensures NeedsGc(types, gc, Handle(t))
  {
  }

  lemma ClearedIsSafe(types: Types, classes: seq<nat>, gc: set<nat>, order: seq<nat>, rest: seq<nat>)
    requires WellFormed(types) && Evaluated(types, classes, gc, order, rest) && Covered(classes, order, rest)
    requires |rest| > 0 && rest[0] < |types|
    requires Cleared(types, gc, (set t | t in rest[1..]), types[rest[0]].members)
    requires types[rest[0]].derivedFrom >= 0 ==> types[rest[0]].derivedFrom !in gc
    ensures SafeClass(types, classes, gc, order[..|order|], rest[0])
  {
    hide Listed;
    RestOf(types, rest);
    var t := rest[0];
    assert order[..|order|] == order;
    if Handle(t) in types[t].members {
      HandleToSelf(types, gc, t);
    }
    forall m | m in types[t].members
      ensures SafeMember(types, classes, gc, order, m)
    {
      assert !NeedsGc(types, gc, m);
    }
  }

  lemma StillFlagged(types: Types, classes: seq<nat>, gc: set<nat>, order: seq<nat>, rest: seq<nat>)
    requires WellFormed(types) && Evaluated(types, classes, gc, order, rest)
    ensures Evaluated(types, classes, gc, order, [])
  {
  }

  // ----- no flag without a reason -----

  // The base or a member is garbage collected.
  ghost predicate HasFlagged(types: Types, gc: set<nat>, t: nat)
    requires t < |types|
  {
    || (types[t].derivedFrom >= 0 && types[t].derivedFrom in gc)
    || exists m :: m in types[t].members && (m.ByValue? || m.Handle?) && m.t in gc
  }

  // An object held by a handle to this class could refer back.
  predicate MayReferBack(types: Types, gc: set<nat>, u: nat)
    requires WellFormed(types) && u < |types|
  {
    types[u].isScript && (!types[u].isFinal || FinalMayRefer(types, gc, types[u].members))
  }

  /** Why a class can be garbage collected, `gc0` being the flags at the beginning. */
  ghost predicate Suspect(types: Types, gc0: set<nat>, gc: set<nat>, t: nat)
    requires WellFormed(types) && t < |types|
  {
    || HasFlagged(types, gc, t)
    || Funcdef in types[t].members
    || exists u: nat :: Handle(u) in types[t].members && MayReferBack(types, gc0, u)
  }

  // The evaluated classes with a flag have a reason; so do those put back since the last evaluation.
  ghost predicate Suspects(types: Types, gc0: set<nat>, gc: set<nat>, order: seq<nat>, rest: seq<nat>, n: nat)
    requires WellFormed(types)
  {
    && gc <= gc0
    && (forall t :: t in order && t in gc ==> t < |types| && Suspect(types, gc0, gc - (set u | u in rest), t))
    && (forall k :: 0 <= k < |rest| && |rest| - n <= k ==> rest[k] < |types| && HasFlagged(types, gc, rest[k]))
  }

  lemma NoneSuspect(types: Types, classes: seq<nat>, gc: set<nat>)
    requires WellFormed(types)
    ensures Suspects(types, gc, gc, [], classes, 0)
  {
  }

  lemma SuspectMore(types: Types, gc0: set<nat>, gc: set<nat>, gc': set<nat>, t: nat)
    requires WellFormed(types) && t < |types| && Suspect(types, gc0, gc, t) && gc <= gc'
    ensures Suspect(types, gc0, gc', t)
  {
  }

  lemma RequeuedSuspect(types: Types, classes: seq<nat>, gc0: set<nat>, gc: set<nat>, order: seq<nat>,
                        rest: seq<nat>, n: nat)
    requires WellFormed(types) && Suspects(types, gc0, gc, order, rest, n) && Evaluated(types, classes, gc, order, rest)
    requires |rest| > 0 && rest[0] < |types|
    requires (types[rest[0]].derivedFrom >= 0 && types[rest[0]].derivedFrom in rest[1..])
      || exists m :: m in types[rest[0]].members && (m.ByValue? || m.Handle?) && m.t in rest[1..]
    ensures Suspects(types, gc0, gc, order, rest[1..] + [rest[0]], n + 1)
  {
    hide WellFormed, Suspect;
    RestOf(types, rest);
    var rest' := rest[1..] + [rest[0]];
    assert (set u | u in rest') == (set u | u in rest);
    assert forall u :: u in rest[1..] ==> u in gc;
    forall t | t in order && t in gc
      ensures t < |types| && Suspect(types, gc0, gc - (set u | u in rest'), t)
    {
      assert gc - (set u | u in rest') == gc - (set u | u in rest);
    }
    forall k | 0 <= k < |rest'| && |rest'| - (n + 1) <= k
      ensures rest'[k] < |types| && HasFlagged(types, gc, rest'[k])
    {
      assert k < |rest| - 1 ==> rest'[k] == rest[k + 1];
    }
  }

  lemma KeptSuspect(types: Types, classes: seq<nat>, gc0: set<nat>, gc: set<nat>, order: seq<nat>, rest: seq<nat>,
                    n: nat, n': nat)
    requires WellFormed(types) && Suspects(types, gc0, gc, order, rest, n) && Evaluated(types, classes, gc, order, rest)
    requires |rest| > 0 && rest[0] < |types| && (n' == n || n' == 0)
    requires var t := rest[0];
      || (types[t].derivedFrom >= 0 && types[t].derivedFrom in gc && types[t].derivedFrom !in rest[1..])
      || (exists m :: m in types[t].members && NeedsGc(types, gc, m) && (m.ByValue? || m.Handle? ==> m.t !in rest[1..]))
    ensures Suspects(types, gc0, gc, order + [rest[0]], rest[1..], n')
  {
    hide WellFormed;
    RestOf(types, rest);
    var rest', order' := rest[1..], order + [rest[0]];
    forall t | t in order' && t in gc
      ensures t < |types| && Suspect(types, gc0, gc - (set u | u in rest'), t)
    {
      if t in order {
        SuspectMore(types, gc0, gc - (set u | u in rest), gc - (set u | u in rest'), t);
      } else {
        SuspectNow(types, gc0, gc, rest', t);
      }
    }
  }

  lemma SuspectNow(types: Types, gc0: set<nat>, gc: set<nat>, rest: seq<nat>, t: nat)
    requires WellFormed(types) && t < |types| && gc <= gc0
    requires || (types[t].derivedFrom >= 0 && types[t].derivedFrom in gc && types[t].derivedFrom !in rest)
             || (exists m :: m in types[t].members && NeedsGc(types, gc, m)
                           && (m.ByValue? || m.Handle? ==> m.t !in rest))
    ensures Suspect(types, gc0, gc - (set u | u in rest), t)
  {
    if !(types[t].derivedFrom >= 0 && types[t].derivedFrom in gc && types[t].derivedFrom !in rest) {
      var m :| m in types[t].members && NeedsGc(types, gc, m) && (m.ByValue? || m.Handle? ==> m.t !in rest);
      if m.Handle? && types[m.t].isScript {
        assert Handle(m.t) in types[t].members;
      }
    }
  }

  lemma ClearedSuspect(types: Types, classes: seq<nat>, gc0: set<nat>, gc: set<nat>, order: seq<nat>, rest: seq<nat>,
                       n: nat)
    requires WellFormed(types) && Suspects(types, gc0, gc, order, rest, n) && Evaluated(types, classes, gc, order, rest)
    requires |rest| > 0 && rest[0] < |types|
    ensures Suspects(types, gc0, gc - {rest[0]}, order + [rest[0]], rest[1..], 0)
  {
    hide WellFormed, Suspect;
    RestOf(types, rest);
    var t0, rest', order' := rest[0], rest[1..], order + [rest[0]];
    forall t | t in order' && t in gc - {t0}
      ensures t < |types| && Suspect(types, gc0, gc - {t0} - (set u | u in rest'), t)
    {
      assert t in order;
      SuspectMore(types, gc0, gc - (set u | u in rest), gc - {t0} - (set u | u in rest'), t);
    }
  }

  lemma AllSuspect(types: Types, classes: seq<nat>, gc0: set<nat>, gc: set<nat>, order: seq<nat>, rest: seq<nat>,
                   n: nat)
    requires WellFormed(types) && Suspects(types, gc0, gc, order, rest, n) && Evaluated(types, classes, gc, order, rest)
    requires Covered(classes, order, rest) && n >= |rest|
    ensures forall t :: t in classes && t in gc ==> t < |types| && Suspect(types, gc0, gc, t)
  {
    hide WellFormed, HasFlagged;
    forall t | t in classes && t in gc
      ensures t < |types| && Suspect(types, gc0, gc, t)
    {
      if t in order {
        SuspectMore(types, gc0, gc - (set u | u in rest), gc, t);
      }
    }
  }

  // ----- safety -----

  /** Registered types and earlier classes that are not garbage collected never lead to a class being
      compiled. */
  ghost predicate OutsideSafe(types: Types, refs: (nat, nat) -> bool, classes: seq<nat>, gc: set<nat>)
    requires WellFormed(types)
  {
    forall p: seq<nat> {:trigger IsPath(types, refs, p)} ::
      IsPath(types, refs, p) && p[0] !in classes && p[0] !in gc ==>
      p[|p| - 1] !in classes
  }

  ghost predicate NoDelegate(types: Types, p: seq<nat>) {
    forall k :: 0 <= k < |p| && p[k] < |types| && types[p[k]].isScript ==> Funcdef !in types[p[k]].members
  }

  // A handle to a registered type or a final class holds just that type.
  lemma ExactType(types: Types, d: nat, t: nat)
    requires WellFormed(types) && Inherits(types) && d < |types| && t < |types| && IsA(types, d, t)
    requires !types[t].isScript || types[t].isFinal
    ensures d == t
  {
    var n :| Derives(types, d, t, n);
    NotDerived(types, d, t, n);
  }

  lemma {:induction false} NotDerived(types: Types, d: nat, t: nat, n: nat)
    requires WellFormed(types) && Inherits(types) && d < |types| && t < |types| && Derives(types, d, t, n)
    requires !types[t].isScript || types[t].isFinal
    ensures d == t
    decreases n
  {
    if d != t {
      NotDerived(types, types[d].derivedFrom, t, n - 1);
    }
  }

  lemma TailPath(types: Types, refs: (nat, nat) -> bool, p: seq<nat>, k: nat)
    requires WellFormed(types) && IsPath(types, refs, p) && k < |p| && NoDelegate(types, p)
    ensures IsPath(types, refs, p[k..]) && NoDelegate(types, p[k..])
  {
    hide WellFormed, MayRefer;
    forall i | 0 <= i < |p| - k - 1
      ensures MayRefer(types, refs, p[k..][i], p[k..][i + 1])
    {
      assert p[k..][i] == p[i + k] && p[k..][i + 1] == p[i + k + 1];
    }
  }

  lemma NoFuncdef(types: Types, classes: seq<nat>, gc: set<nat>, before: seq<nat>, t: nat)
    requires WellFormed(types) && t < |types| && SafeClass(types, classes, gc, before, t)
    ensures Funcdef !in types[t].members
  {
    forall m | m in types[t].members
      ensures !m.Funcdef?
    {
      assert SafeMember(types, classes, gc, before, m);
    }
  }

  // From a safe class the next step leads to something done, or to a final class that leads there.
  lemma NextStep(types: Types, refs: (nat, nat) -> bool, classes: seq<nat>, gc: set<nat>, order: seq<nat>, i: nat,
                 b: nat)
    requires WellFormed(types) && Inherits(types) && i < |order| && order[i] < |types| && types[order[i]].isScript
    requires SafeClass(types, classes, gc, order[..i], order[i]) && MayRefer(types, refs, order[i], b)
    requires forall t :: t in classes ==> t < |types| && types[t].isScript
    ensures b < |types|
    ensures Done(classes, gc, order[..i], b) ||
      (types[b].isScript && (b in classes ==> b in order[..i])
       && SafeFinal(types, classes, gc, order[..i], types[b].members))
  {
    hide SafeFinal, IsA;
    var members := types[order[i]].members;
    NoFuncdef(types, classes, gc, order[..i], order[i]);
    if ByValue(b) in members {
      assert SafeMember(types, classes, gc, order[..i], ByValue(b));
    } else {
      var t: nat :| Handle(t) in members && IsA(types, b, t);
      assert SafeMember(types, classes, gc, order[..i], Handle(t));
      ExactType(types, b, t);
    }
  }

  lemma FinalStep(types: Types,
                  refs: (nat, nat) -> bool, classes: seq<nat>, gc: set<nat>, before: seq<nat>, a: nat, b: nat)
    requires WellFormed(types) && Inherits(types) && a < |types| && types[a].isScript && Funcdef !in types[a].members
    requires SafeFinal(types, classes, gc, before, types[a].members) && MayRefer(types, refs, a, b)
    requires forall t :: t in classes ==> t < |types| && types[t].isScript
    ensures Done(classes, gc, before, b)
  {
    hide IsA;
    if ByValue(b) !in types[a].members {
      var t: nat :| Handle(t) in types[a].members && IsA(types, b, t);
      ExactType(types, b, t);
    }
  }

  /** No path leads from a cleared class back to it, or on to one evaluated later. */
  lemma {:induction false} NoReturn(types: Types, refs: (nat, nat) -> bool, classes: seq<nat>, gc: set<nat>,
                                    order: seq<nat>, p: seq<nat>, i: nat)
    requires WellFormed(types) && Inherits(types) && Evaluated(types, classes, gc, order, [])
    requires OutsideSafe(types, refs, classes, gc) && IsPath(types, refs, p) && |p| > 1 && NoDelegate(types, p)
    requires i < |order| && p[0] == order[i] && order[i] !in gc
    ensures p[|p| - 1] in classes ==> p[|p| - 1] in order[..i]
    decreases |p|
  {
    hide WellFormed, Inherits, MayRefer, SafeClass, SafeFinal;
    assert order[i] in order;
    assert MayRefer(types, refs, p[0], p[1]);
    NextStep(types, refs, classes, gc, order, i, p[1]);
    if Done(classes, gc, order[..i], p[1]) {
      FromDone(types, refs, classes, gc, order, p, i, 1);
    } else if |p| > 2 {
      assert MayRefer(types, refs, p[1], p[2]);
      FinalStep(types, refs, classes, gc, order[..i], p[1], p[2]);
      FromDone(types, refs, classes, gc, order, p, i, 2);
    }
  }

  lemma {:induction false} FromDone(types: Types, refs: (nat, nat) -> bool, classes: seq<nat>, gc: set<nat>,
                                    order: seq<nat>, p: seq<nat>, i: nat, k: nat)
    requires WellFormed(types) && Inherits(types) && Evaluated(types, classes, gc, order, [])
    requires OutsideSafe(types, refs, classes, gc) && IsPath(types, refs, p) && 0 < k < |p| && NoDelegate(types, p)
    requires i < |order| && Done(classes, gc, order[..i], p[k])
    ensures p[|p| - 1] in classes ==> p[|p| - 1] in order[..i]
    decreases |p|, 0
  {
    hide WellFormed, Inherits, MayRefer, Evaluated, OutsideSafe, IsPath, NoDelegate;
    var q := p[k..];
    TailPath(types, refs, p, k);
    assert q[0] == p[k] && q[|q| - 1] == p[|p| - 1];
    if p[k] !in classes {
      OutsidePath(types, refs, classes, gc, q);
    } else {
      var j :| 0 <= j < i && order[j] == p[k];
      if |q| > 1 {
        NoReturn(types, refs, classes, gc, order, q, j);
        assert order[..j] <= order[..i];
      }
    }
  }

  lemma OutsidePath(types: Types, refs: (nat, nat) -> bool, classes: seq<nat>, gc: set<nat>, p: seq<nat>)
    requires WellFormed(types) && OutsideSafe(types, refs, classes, gc) && IsPath(types, refs, p)
    requires p[0] !in classes && p[0] !in gc
    ensures p[|p| - 1] !in classes
  {
  }

  /** A class that ends without the flag is in a circle of references exactly if a class with a function
      pointer can be reached from it: that is what the look into final classes misses. */
  lemma ClearedInCircle(types: Types,
                        refs: (nat, nat) -> bool, classes: seq<nat>, gc: set<nat>, order: seq<nat>, t: nat)
    requires WellFormed(types) && Inherits(types) && Evaluated(types, classes, gc, order, [])
    requires OutsideSafe(types, refs, classes, gc) && t in classes && t !in gc
    ensures InCircle(types, refs, t) <==> ReachesDelegate(types, refs, t)
  {
    hide WellFormed, Inherits, MayRefer, OutsideSafe;
    if ReachesDelegate(types, refs, t) {
      DelegateMakesCircle(types, refs, t);
    } else if InCircle(types, refs, t) {
      var p :| IsPath(types, refs, p) && |p| > 1 && p[0] == t && p[|p| - 1] == t;
      NoDelegateOn(types, refs, p, t);
      var i := Place(order, t);
      NoReturn(types, refs, classes, gc, order, p, i);
      assert false;
    }
  }

  lemma Place(order: seq<nat>, t: nat) returns (i: nat)
    requires t in order && forall i, j :: 0 <= i < j < |order| ==> order[i] != order[j]
    ensures i < |order| && order[i] == t && t !in order[..i]
  {
    i :| 0 <= i < |order| && order[i] == t;
  }

  lemma NoDelegateOn(types: Types, refs: (nat, nat) -> bool, p: seq<nat>, t: nat)
    requires WellFormed(types) && IsPath(types, refs, p) && p[0] == t && !ReachesDelegate(types, refs, t)
    ensures NoDelegate(types, p)
  {
    hide WellFormed, MayRefer;
    forall k | 0 <= k < |p| && p[k] < |types| && types[p[k]].isScript
      ensures Funcdef !in types[p[k]].members
    {
      var q := p[..k + 1];
      assert IsPath(types, refs, q) && q[|q| - 1] == p[k];
    }
  }

  lemma DelegateMakesCircle(types: Types, refs: (nat, nat) -> bool, t: nat)
    requires WellFormed(types) && t < |types| && ReachesDelegate(types, refs, t)
    ensures InCircle(types, refs, t)
  {
    hide WellFormed;
    var p :| IsPath(types, refs, p) && p[0] == t && p[|p| - 1] < |types|
      && types[p[|p| - 1]].isScript && Funcdef in types[p[|p| - 1]].members;
    var q := p + [t];
    assert MayRefer(types, refs, p[|p| - 1], t);
    assert forall k :: 0 <= k < |p| ==> q[k] == p[k];
    assert IsPath(types, refs, q);
  }

  /** And it does miss some: a class with a handle to a final class with a function pointer is cleared,
      although a delegate can hold an object of it. */
  lemma DelegateMissed(refs: (nat, nat) -> bool) returns (types: Types)
    ensures WellFormed(types) && Inherits(types) && |types| == 2 && types[0].derivedFrom == -1
    ensures Cleared(types, {0, 1}, {}, types[0].members) && InCircle(types, refs, 0)
  {
    types := [ObjectType(true, false, -1, [Handle(1)]), ObjectType(true, true, -1, [Funcdef])];
    assert types[0].members == [Handle(1)] && types[1].members == [Funcdef];
    assert Derives(types, 1, 1, 0) && IsA(types, 1, 1);
    var p: seq<nat> := [0, 1, 0];
    assert MayRefer(types, refs, 0, 1) && MayRefer(types, refs, 1, 0);
    assert IsPath(types, refs, p) && |p| > 1 && p[0] == 0 && p[|p| - 1] == 0;
  }
}
