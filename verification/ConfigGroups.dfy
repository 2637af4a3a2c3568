/** `asCConfigGroup`: which groups a group refers to, and which template instances it uses. */
module ConfigGroups {
  /** What the engine knows: the group of each registered type, the generated template instances, and
      for each of these the types in its constructors' parameters and its methods' signatures. */
  datatype Engine = Engine(group: map<nat, ConfigGroup>, generated: set<nat>, signatureTypes: map<nat, seq<nat>>)

  function GroupOf(engine: Engine, t: nat): ConfigGroup? {
    if t in engine.group then engine.group[t] else null
  }

  function SignatureTypes(engine: Engine, t: nat): seq<nat> {
    if t in engine.signatureTypes then engine.signatureTypes[t] else []
  }

  // ----- counting references -----

  type Lists = map<ConfigGroup, seq<ConfigGroup>>

  // The groups that list `g`.
  function Listing(groups: set<ConfigGroup>, lists: Lists, g: ConfigGroup): set<ConfigGroup> {
    set h | h in groups && h in lists && g in lists[h]
  }

  /** The references of each group are those that others hold, and one for each group that lists it. */
  ghost predicate CountedIn(groups: set<ConfigGroup>, lists: Lists, counts: map<ConfigGroup, int>,
                            others: map<ConfigGroup, int>) {
    forall g :: g in groups ==> CountedAt(groups, lists, counts, others, g)
  }

  ghost predicate CountedAt(groups: set<ConfigGroup>, lists: Lists, counts: map<ConfigGroup, int>,
                            others: map<ConfigGroup, int>, g: ConfigGroup) {
    && g in lists && g in counts && g in others && counts[g] == others[g] + |Listing(groups, lists, g)|
    && (forall h :: h in lists[g] ==> h in groups && h != g)
    && (forall i, j :: 0 <= i < j < |lists[g]| ==> lists[g][i] != lists[g][j])
  }

  ghost function ListsOf(groups: set<ConfigGroup>): Lists
    reads groups
  {
    map g | g in groups :: g.referencedConfigGroups
  }

  ghost function CountsOf(groups: set<ConfigGroup>): map<ConfigGroup, int>
    reads groups
  {
    map g | g in groups :: g.refCount
  }

  ghost predicate Counted(groups: set<ConfigGroup>, others: map<ConfigGroup, int>)
    reads groups
  {
    CountedIn(groups, ListsOf(groups), CountsOf(groups), others)
  }

  lemma OneMoreReference(groups: set<ConfigGroup>, lists: Lists, counts: map<ConfigGroup, int>,
                         others: map<ConfigGroup, int>,
                         a: ConfigGroup, b: ConfigGroup)
    requires CountedIn(groups, lists, counts, others) && a in groups && b in groups && a != b && b !in lists[a]
    ensures CountedIn(groups, lists[a := lists[a] + [b]], counts[b := counts[b] + 1], others)
  {
    assert CountedAt(groups, lists, counts, others, a) && CountedAt(groups, lists, counts, others, b);
    hide CountedAt;
    forall g | g in groups
      ensures CountedAt(groups, lists[a := lists[a] + [b]], counts[b := counts[b] + 1], others, g)
    {
      assert CountedAt(groups, lists, counts, others, g);
      OneMoreAt(groups, lists, counts, others, a, b, g);
    }
  }

  lemma OneMoreAt(groups: set<ConfigGroup>, lists: Lists, counts: map<ConfigGroup, int>,
                  others: map<ConfigGroup, int>, a: ConfigGroup, b: ConfigGroup, g: ConfigGroup)
    requires CountedAt(groups, lists, counts, others, g) && CountedAt(groups, lists, counts, others, a)
    requires a in groups && b in groups && b in counts && a != b && b !in lists[a]
    ensures CountedAt(groups, lists[a := lists[a] + [b]], counts[b := counts[b] + 1], others, g)
  {
    hide Listing;
    ListedOnceMore(groups, lists, a, b, g);
    ListingIs(groups, lists, a, g);
    ListingIs(groups, lists, a, b);
  }

  lemma ListedOnceMore(groups: set<ConfigGroup>, lists: Lists, a: ConfigGroup, b: ConfigGroup, g: ConfigGroup)
    requires a in groups && a in lists
    ensures Listing(groups, lists[a := lists[a] + [b]], g) ==
      if g == b then Listing(groups, lists, g) + {a} else Listing(groups, lists, g)
  {
  }

  lemma ListingIs(groups: set<ConfigGroup>, lists: Lists, a: ConfigGroup, g: ConfigGroup)
    requires a in groups && a in lists
    ensures a in Listing(groups, lists, g) <==> g in lists[a]
  {
  }

  lemma NoReferences(groups: set<ConfigGroup>, lists: Lists, counts: map<ConfigGroup, int>,
                     counts': map<ConfigGroup, int>,
                     others: map<ConfigGroup, int>, a: ConfigGroup)
    requires CountedIn(groups, lists, counts, others) && a in groups
    requires forall g :: g in groups ==> g in counts' && counts'[g] == counts[g] - (if g in lists[a] then 1 else 0)
    ensures CountedIn(groups, lists[a := []], counts', others)
  {
    var lists' := lists[a := []];
    forall g | g in groups
      ensures Listing(groups, lists', g) == Listing(groups, lists, g) - {a}
    {
      assert CountedAt(groups, lists, counts, others, g);
    }
  }

  // ----- template instances -----

  // Every generated instance in the signatures of `t` is known.
  ghost predicate ClosedAt(engine: Engine, instances: seq<nat>, t: nat) {
    forall u :: u in SignatureTypes(engine, t) && u in engine.generated ==> u in instances
  }

  class ConfigGroup {
    var refCount: int
    var referencedConfigGroups: seq<ConfigGroup>
    var generatedTemplateInstances: seq<nat>

    constructor ()
      ensures refCount == 0 && referencedConfigGroups == [] && generatedTemplateInstances == []
    {
      refCount, referencedConfigGroups, generatedTemplateInstances := 0, [], [];
    }

    /** Refer to another group, once. */
    method RefConfigGroup(group: ConfigGroup?, ghost groups: set<ConfigGroup>, ghost others: map<ConfigGroup, int>)
      requires this in groups && (group != null ==> group in groups) && Counted(groups, others)
      modifies groups
      ensures Counted(groups, others)
      ensures forall g :: g in groups ==> g.generatedTemplateInstances == old(g.generatedTemplateInstances)
      ensures forall g :: g in groups && g != this ==> g.referencedConfigGroups == old(g.referencedConfigGroups)
      ensures referencedConfigGroups ==
        if group == null || group == this || group in old(referencedConfigGroups) then old(referencedConfigGroups)
        else old(referencedConfigGroups) + [group]
    {
      hide CountedIn;
      if group == this || group == null {
        return;
      }
      var group: ConfigGroup := group;
      // Verify if the group is already referenced
      var n := 0;
      while n < |referencedConfigGroups|
        invariant n <= |referencedConfigGroups| && group !in referencedConfigGroups[..n]
      {
        if referencedConfigGroups[n] == group {
          return;
        }
        n := n + 1;
      }
      ghost var lists, counts := ListsOf(groups), CountsOf(groups);
      OneMoreReference(groups, lists, counts, others, this, group);
      referencedConfigGroups := referencedConfigGroups + [group];
      group.refCount := group.refCount + 1;
      assert ListsOf(groups) == lists[this := lists[this] + [group]];
      assert CountsOf(groups) == counts[group := counts[group] + 1];
    }

    /** Give up the references to other groups. */
    method ReleaseReferences(ghost groups: set<ConfigGroup>, ghost others: map<ConfigGroup, int>)
      requires this in groups && Counted(groups, others)
      modifies groups
      ensures Counted(groups, others) && referencedConfigGroups == []
      ensures forall g :: g in groups && g != this ==> g.referencedConfigGroups == old(g.referencedConfigGroups)
    {
      hide CountedIn;
      ghost var lists, counts := ListsOf(groups), CountsOf(groups);
      OwnList(groups, lists, counts, others, this);
      var n := 0;
      while n < |referencedConfigGroups|
        invariant n <= |referencedConfigGroups| && ListsOf(groups) == lists && referencedConfigGroups == lists[this]
        invariant forall g :: g in groups ==> g.refCount == counts[g] - (if g in lists[this][..n] then 1 else 0)
      {
        var group := referencedConfigGroups[n];
        assert lists[this][..n + 1] == lists[this][..n] + [group] && group !in lists[this][..n];
        group.refCount := group.refCount - 1;
        n := n + 1;
      }
      assert lists[this][..n] == lists[this];
      referencedConfigGroups := [];
      NoReferences(groups, lists, counts, CountsOf(groups), others, this);
      assert ListsOf(groups) == lists[this := []];
    }

    /** Refer to the groups of a type and, if it is a generated template instance, of all those that it
        leads to. This ends although instances may lead to each other. */
    method AddReferencesForType(engine: Engine, t: nat, ghost groups: set<ConfigGroup>,
                                ghost others: map<ConfigGroup, int>)
      requires this in groups && engine.group.Values <= groups && Counted(groups, others)
      modifies groups
      ensures Counted(groups, others)
      ensures forall g :: g in groups && g != this ==> g.generatedTemplateInstances == old(g.generatedTemplateInstances)
      ensures forall g :: g in groups && g != this ==> g.referencedConfigGroups == old(g.referencedConfigGroups)
      ensures Added(this, engine, old(generatedTemplateInstances), generatedTemplateInstances,
                    old(referencedConfigGroups), referencedConfigGroups)
      ensures Refers(this, engine, referencedConfigGroups, t)
      ensures (t in engine.generated ==> t in generatedTemplateInstances)
      decreases |engine.generated - (set u | u in generatedTemplateInstances)|, 0
    {
      hide CountedIn, Added, Listing;
      var group := GroupOf(engine, t);
      assert group != null ==> group in groups;
      ghost var refs := referencedConfigGroups;
      RefConfigGroup(group, groups, others);
      AddedNothing(this, engine, generatedTemplateInstances, refs, referencedConfigGroups);
      if t in engine.generated && t !in generatedTemplateInstances {
        ghost var was, wasRefs := generatedTemplateInstances, referencedConfigGroups;
        ghost var lists, counts := ListsOf(groups), CountsOf(groups);
        generatedTemplateInstances := generatedTemplateInstances + [t];
        assert ListsOf(groups) == lists && CountsOf(groups) == counts;
        FewerLeft(engine.generated, was, t);
        AddTypes(engine, SignatureTypes(engine, t), groups, others);
        AddedAll(this, engine, was, t, generatedTemplateInstances, refs, wasRefs, referencedConfigGroups);
      }
    }

    // The loops over the signatures of a template instance.
    method AddTypes(engine: Engine, types: seq<nat>, ghost groups: set<ConfigGroup>,
                    ghost others: map<ConfigGroup, int>)
      requires this in groups && engine.group.Values <= groups && Counted(groups, others)
      modifies groups
      ensures Counted(groups, others)
      ensures forall g :: g in groups && g != this ==> g.generatedTemplateInstances == old(g.generatedTemplateInstances)
      ensures forall g :: g in groups && g != this ==> g.referencedConfigGroups == old(g.referencedConfigGroups)
      ensures Added(this, engine, old(generatedTemplateInstances), generatedTemplateInstances,
                    old(referencedConfigGroups), referencedConfigGroups)
      ensures forall u :: u in types && u in engine.generated ==> u in generatedTemplateInstances
      decreases |engine.generated - (set u | u in generatedTemplateInstances)|, 1
    {
      hide Counted, Added, Refers;
      AddedNothing(this, engine, generatedTemplateInstances, referencedConfigGroups, referencedConfigGroups);
      ghost var start, startRefs := generatedTemplateInstances, referencedConfigGroups;
      var n := 0;
      while n < |types|
        invariant n <= |types| && Counted(groups, others)
        invariant forall g :: g in groups && g != this ==>
          g.generatedTemplateInstances == old(g.generatedTemplateInstances)
        invariant forall g :: g in groups && g != this ==> g.referencedConfigGroups == old(g.referencedConfigGroups)
        invariant Added(this, engine, start, generatedTemplateInstances, startRefs, referencedConfigGroups)
        invariant forall u :: u in types[..n] && u in engine.generated ==> u in generatedTemplateInstances
      {
        assert types[..n + 1] == types[..n] + [types[n]];
        if types[n] in engine.generated && types[n] !in generatedTemplateInstances {
          ghost var inst, refs := generatedTemplateInstances, referencedConfigGroups;
          StillFewer(this, engine, start, inst, startRefs, refs);
          AddReferencesForType(engine, types[n], groups, others);
          AddedMore(this, engine, start, inst, generatedTemplateInstances, startRefs, refs, referencedConfigGroups);
        }
        n := n + 1;
      }
      assert types[..n] == types;
    }
  }

  lemma OwnList(groups: set<ConfigGroup>, lists: Lists, counts: map<ConfigGroup, int>, others: map<ConfigGroup, int>,
                a: ConfigGroup)
    requires CountedIn(groups, lists, counts, others) && a in groups
    ensures a in lists && (forall h :: h in lists[a] ==> h in groups && h != a)
    ensures forall i, j :: 0 <= i < j < |lists[a]| ==> lists[a][i] != lists[a][j]
  {
  }

  // The group of a type is this group, or none, or one referred to.
  ghost predicate Refers(self: ConfigGroup, engine: Engine, refs: seq<ConfigGroup>, t: nat) {
    var g := GroupOf(engine, t); g == null || g == self || g in refs
  }

  /** Only additions were made: instances that are closed, and whose groups are referred to. */
  ghost predicate Added(self: ConfigGroup, engine: Engine, was: seq<nat>, now: seq<nat>, wasRefs: seq<ConfigGroup>,
                        refs: seq<ConfigGroup>) {
    && was <= now && wasRefs <= refs
    && (forall u :: u in now && u !in was ==>
          u in engine.generated && ClosedAt(engine, now, u) && Refers(self, engine, refs, u))
  }

  lemma AddedNothing(self: ConfigGroup, engine: Engine, s: seq<nat>, wasRefs: seq<ConfigGroup>, refs: seq<ConfigGroup>)
    requires wasRefs <= refs
    ensures Added(self, engine, s, s, wasRefs, refs)
  {
  }

  lemma AddedMore(self: ConfigGroup, engine: Engine, a: seq<nat>, b: seq<nat>, c: seq<nat>,
                  ra: seq<ConfigGroup>, rb: seq<ConfigGroup>, rc: seq<ConfigGroup>)
    requires Added(self, engine, a, b, ra, rb) && Added(self, engine, b, c, rb, rc)
    ensures Added(self, engine, a, c, ra, rc) && b <= c
  {
    forall u | u in c && u !in a
      ensures u in engine.generated && ClosedAt(engine, c, u) && Refers(self, engine, rc, u)
    {
      if u in b {
        assert ClosedAt(engine, b, u) && Refers(self, engine, rb, u);
      }
    }
  }

  lemma AddedAll(self: ConfigGroup, engine: Engine, was: seq<nat>, t: nat, now: seq<nat>,
                 oldRefs: seq<ConfigGroup>, wasRefs: seq<ConfigGroup>, refs: seq<ConfigGroup>)
    requires t in engine.generated && Added(self, engine, was + [t], now, wasRefs, refs) && ClosedAt(engine, now, t)
    requires Refers(self, engine, wasRefs, t) && oldRefs <= wasRefs
    ensures Added(self, engine, was, now, oldRefs, refs) && t in now && Refers(self, engine, refs, t)
  {
    assert t in was + [t];
  }

  lemma FewerLeft(generated: set<nat>, s: seq<nat>, t: nat)
    requires t in generated && t !in s
    ensures |generated - (set u | u in s + [t])| < |generated - (set u | u in s)|
  {
    assert generated - (set u | u in s) == (generated - (set u | u in s + [t])) + {t};
  }

  lemma StillFewer(self: ConfigGroup, engine: Engine, s: seq<nat>, s': seq<nat>, refs: seq<ConfigGroup>,
                   refs': seq<ConfigGroup>)
    requires Added(self, engine, s, s', refs, refs')
    ensures |engine.generated - (set u | u in s')| <= |engine.generated - (set u | u in s)|
  {
    var a, b := engine.generated - (set u | u in s'), engine.generated - (set u | u in s);
    assert b == a + (b - a);
  }
}
