/**
 Mapping environments to ordered groups: buckets by group name, distances to upstream, two sorts, and
 priorities derived from the distances.
 */
module Mapper {
  import opened Config
  import opened Distance
  import opened Finite
  import opened Sorting
  import Strings

  datatype Priority = PROD | PRE_PROD | UPSTREAM | OTHER

  datatype Environment = Environment(name: string, group: string, distance: nat, priority: Priority)

  /** `distance` is the distance of the environment that happened to come first before sorting. */
  datatype Group = Group(name: string, distance: nat, environments: seq<Environment>)

  /** By distance, then by name. */
  predicate EnvironmentLess(a: Environment, b: Environment) {
    if a.distance != b.distance then a.distance < b.distance else Strings.Less(a.name, b.name)
  }

  /** Groups are ordered by their first environments. */
  predicate GroupLess(g: Group, h: Group) {
    g.environments != [] && h.environments != [] && EnvironmentLess(g.environments[0], h.environments[0])
  }

  lemma EnvironmentOrder(s: seq<Environment>)
    requires forall a, b | a in s && b in s && a.name == b.name :: a == b
    ensures StrictOn(s, EnvironmentLess)
  {
    forall a, b | a in s && b in s
      ensures !(EnvironmentLess(a, b) && EnvironmentLess(b, a))
      ensures a == b || EnvironmentLess(a, b) || EnvironmentLess(b, a)
    {
      Strings.LessTotal(a.name, b.name);
    }
    forall a, b, c | a in s && b in s && c in s && EnvironmentLess(a, b) && EnvironmentLess(b, c)
      ensures EnvironmentLess(a, c)
    {
      if a.distance == b.distance == c.distance {
        Strings.LessTrans(a.name, b.name, c.name);
      }
    }
  }

  /** The priority rule; `maxDistance - 1` is computed on 32 bits without a sign. */
  function PriorityOf(maxDistance: nat, distance: nat): Priority {
    if distance == maxDistance then PROD
    else if distance == (maxDistance - 1) % 0x1_0000_0000 then PRE_PROD
    else if distance == 0 then UPSTREAM
    else OTHER
  }

  /** The wrap-around does not show: the farthest are PROD, one step before it is PRE_PROD, and distance 0 comes next. */
  lemma PriorityMeans(maxDistance: nat, distance: nat)
    requires distance <= maxDistance < 0x1_0000_0000
    ensures PriorityOf(maxDistance, distance) == PROD <==> distance == maxDistance
    ensures PriorityOf(maxDistance, distance) == PRE_PROD <==> distance + 1 == maxDistance
    ensures PriorityOf(maxDistance, distance) == UPSTREAM <==> distance == 0 && maxDistance > 1
    ensures PriorityOf(maxDistance, distance) == OTHER <==> 0 < distance && distance + 1 < maxDistance
  {
  }

  /** How far an environment is from the developers, read off its priority. */
  function Rank(p: Priority): nat {
    match p
    case UPSTREAM => 0
    case OTHER => 1
    case PRE_PROD => 2
    case PROD => 3
  }

  lemma PriorityMonotone(maxDistance: nat, d1: nat, d2: nat)
    requires d1 <= d2 <= maxDistance < 0x1_0000_0000
    ensures Rank(PriorityOf(maxDistance, d1)) <= Rank(PriorityOf(maxDistance, d2))
  {
  }

  function Max(a: nat, b: nat): nat {
    if a > b then a else b
  }

  function MaxDistance(environments: seq<Environment>): nat {
    if environments == [] then 0
    else Max(MaxDistance(environments[..|environments| - 1]), environments[|environments| - 1].distance)
  }

  lemma {:induction false} MaxIsGreatest(environments: seq<Environment>)
    ensures forall e | e in environments :: e.distance <= MaxDistance(environments)
    ensures environments != [] ==> exists e | e in environments :: e.distance == MaxDistance(environments)
  {
    if environments != [] {
      var front, last := environments[..|environments| - 1], environments[|environments| - 1];
      MaxIsGreatest(front);
      assert environments == front + [last];
      assert last in environments;
    }
  }

  /** The priority assignment: one loop for the greatest distance, one to set the priorities. */
  method CalculatePriorities(environments: seq<Environment>) returns (r: seq<Environment>)
    ensures r == Prioritized(environments, MaxDistance(environments))
  {
    var m: nat := 0;
    for i := 0 to |environments|
      invariant m == MaxDistance(environments[..i])
    {
      assert environments[..i + 1][..i] == environments[..i];
      m := Max(m, environments[i].distance);
    }
    assert environments[..|environments|] == environments;
    r := [];
    for i := 0 to |environments|
      invariant |r| == i
      invariant forall j | 0 <= j < i ::
                  r[j] == environments[j].(priority := PriorityOf(m, environments[j].distance))
    {
      var env := environments[i];
      r := r + [env.(priority := PriorityOf(m, env.distance))];
    }
  }

  function Prioritized(environments: seq<Environment>, m: nat): (r: seq<Environment>)
    ensures |r| == |environments|
    ensures forall i | 0 <= i < |r| :: r[i] == environments[i].(priority := PriorityOf(m, environments[i].distance))
  {
    seq(|environments|, i requires 0 <= i < |environments| => environments[i].(priority := PriorityOf(m, environments[i].distance)))
  }

  function GroupOf(envs: Configs, e: string): string
    requires e in envs
  {
    DeriveGroupName(envs[e], e)
  }

  /** Every bucket holds the given environments of its group, once each. */
  ghost predicate Bucketed(envs: Configs, seen: seq<string>, buckets: map<string, seq<string>>) {
    && (forall e | e in seen :: e in envs && GroupOf(envs, e) in buckets && e in buckets[GroupOf(envs, e)])
    && (forall k | k in buckets :: BucketOk(envs, k, buckets[k]))
    && (forall k, e | k in buckets && e in buckets[k] :: e in seen)
  }

  /** The first element of every bucket is the first one given for its group. */
  ghost predicate FirstAreFirst(envs: Configs, seen: seq<string>, buckets: map<string, seq<string>>) {
    forall k | k in buckets :: buckets[k] != [] && FirstOf(envs, seen, k) == Some(buckets[k][0])
  }

  predicate BucketOk(envs: Configs, key: string, bucket: seq<string>) {
    bucket != [] && NoDuplicates(bucket) && forall e | e in bucket :: e in envs && GroupOf(envs, e) == key
  }

  ghost predicate IsIteration(envs: Configs, order: seq<string>) {
    NoDuplicates(order) && forall e :: e in order <==> e in envs
  }

  /** The environment of a group that the iteration yields first. */
  function FirstOf(envs: Configs, order: seq<string>, group: string): (r: Option<string>)
    ensures r.Some? ==> r.value in order && r.value in envs && GroupOf(envs, r.value) == group
  {
    if order == [] then None
    else
      var first, last := FirstOf(envs, order[..|order| - 1], group), order[|order| - 1];
      if first.None? && last in envs && GroupOf(envs, last) == group then Some(last) else first
  }

  lemma {:induction false} FirstOfExists(envs: Configs, order: seq<string>, e: string)
    requires e in order && e in envs
    ensures FirstOf(envs, order, GroupOf(envs, e)).Some?
  {
    var front, last := order[..|order| - 1], order[|order| - 1];
    assert order == front + [last];
    if e != last {
      FirstOfExists(envs, front, e);
    }
  }

  lemma {:induction false} FirstOfHead(envs: Configs, e: string, rest: seq<string>)
    requires e in envs
    ensures FirstOf(envs, [e] + rest, GroupOf(envs, e)) == Some(e)
  {
    var order := [e] + rest;
    assert FirstOf(envs, [], GroupOf(envs, e)) == None;
    if rest == [] {
      assert order[..0] == [];
    } else {
      FirstOfHead(envs, e, rest[..|rest| - 1]);
      assert order[..|order| - 1] == [e] + rest[..|rest| - 1];
    }
  }

  lemma AddToBucket(envs: Configs, seen: seq<string>, buckets: map<string, seq<string>>, e: string)
    requires Bucketed(envs, seen, buckets) && e in envs && e !in seen
    ensures var k := GroupOf(envs, e);
            var bucket := if k in buckets then buckets[k] else [];
            Bucketed(envs, seen + [e], buckets[k := bucket + [e]])
  {
    var k := GroupOf(envs, e);
    var bucket := if k in buckets then buckets[k] else [];
    assert e !in bucket;
    ConcatNoDuplicates(bucket, [e]);
    var after := buckets[k := bucket + [e]];
    forall x | x in seen + [e] ensures x in envs && GroupOf(envs, x) in after && x in after[GroupOf(envs, x)] {
      if x != e { assert x in seen; }
    }
  }

  lemma AddToFirst(envs: Configs, seen: seq<string>, buckets: map<string, seq<string>>, e: string)
    requires Bucketed(envs, seen, buckets) && e in envs && e !in seen
    requires FirstAreFirst(envs, seen, buckets)
    ensures var k := GroupOf(envs, e);
            var bucket := if k in buckets then buckets[k] else [];
            FirstAreFirst(envs, seen + [e], buckets[k := bucket + [e]])
  {
    var group := GroupOf(envs, e);
    var bucket := if group in buckets then buckets[group] else [];
    var after := buckets[group := bucket + [e]];
    assert (seen + [e])[..|seen|] == seen;
    assert group !in buckets ==> FirstOf(envs, seen, group).None?;
    forall k | k in after ensures FirstOf(envs, seen + [e], k) == Some(after[k][0]) {
      assert k != group ==> k in buckets;
    }
  }

  lemma AddNext(envs: Configs, order: seq<string>, i: nat, buckets: map<string, seq<string>>)
    requires IsIteration(envs, order) && i < |order|
    requires Bucketed(envs, order[..i], buckets) && FirstAreFirst(envs, order[..i], buckets)
    ensures order[i] in envs
    ensures var e := order[i];
            var k := GroupOf(envs, e);
            var after := buckets[k := (if k in buckets then buckets[k] else []) + [e]];
            Bucketed(envs, order[..i + 1], after) && FirstAreFirst(envs, order[..i + 1], after)
  {
    var e := order[i];
    assert e in order && e !in order[..i];
    assert order[..i + 1] == order[..i] + [e];
    AddToBucket(envs, order[..i], buckets, e);
    AddToFirst(envs, order[..i], buckets, e);
  }

  lemma ConcatNoDuplicates(s: seq<string>, t: seq<string>)
    requires NoDuplicates(s) && NoDuplicates(t) && forall x | x in s :: x !in t
    ensures NoDuplicates(s + t)
  {
    forall i, j | 0 <= i < j < |s + t| ensures (s + t)[i] != (s + t)[j] {
      if i < |s| <= j {
        assert s[i] in s && t[j - |s|] in t;
      }
    }
  }

  /** `order` is the order in which the iteration over the configuration map yields its keys: any order. */
  method FillBuckets(envs: Configs, order: seq<string>) returns (buckets: map<string, seq<string>>)
    requires IsIteration(envs, order)
    ensures Bucketed(envs, order, buckets) && FirstAreFirst(envs, order, buckets)
  {
    buckets := map[];
    for i := 0 to |order|
      invariant Bucketed(envs, order[..i], buckets) && FirstAreFirst(envs, order[..i], buckets)
    {
      var e := order[i];
      AddNext(envs, order, i, buckets);
      var group := DeriveGroupName(envs[e], e);
      var bucket := if group in buckets then buckets[group] else [];
      buckets := buckets[group := bucket + [e]];
    }
    assert order[..|order|] == order;
  }

  /** The keys in whatever order the map yields them, sorted. */
  method SortedKeys(buckets: map<string, seq<string>>) returns (keys: seq<string>)
    ensures NoDuplicates(keys) && forall k :: k in keys <==> k in buckets
    ensures Sorted(keys, ByName)
  {
    var found := Listed(buckets.Keys);
    NameOrder(found);
    keys := SortBy(found, ByName);
    SortedNoDuplicates(keys);
  }

  lemma SortedNoDuplicates(r: seq<string>)
    requires Sorted(r, ByName)
    ensures NoDuplicates(r)
  {
    forall i, j | 0 <= i < j < |r| ensures r[i] != r[j] {
      Strings.LessTotal(r[i], r[j]);
    }
  }

  /** The environments bucket by bucket. */
  method Sequence(ghost envs: Configs, ghost order: seq<string>, buckets: map<string, seq<string>>, keys: seq<string>)
    returns (sequence: seq<string>)
    requires Bucketed(envs, order, buckets) && IsIteration(envs, order)
    requires NoDuplicates(keys) && forall k :: k in keys <==> k in buckets
    ensures IsIteration(envs, sequence)
  {
    assert forall e | e in envs :: e in order;
    sequence := [];
    for i := 0 to |keys|
      invariant NoDuplicates(sequence)
      invariant forall e :: e in sequence <==> e in envs && GroupOf(envs, e) in keys[..i]
    {
      assert keys[i] in keys && keys[i] !in keys[..i];
      assert keys[..i + 1] == keys[..i] + [keys[i]];
      ConcatNoDuplicates(sequence, buckets[keys[i]]);
      sequence := sequence + buckets[keys[i]];
    }
    assert keys[..|keys|] == keys;
  }

  /** A group with its distance taken from the first environment, before its environments are sorted. */
  method BuildGroup(envs: Configs, key: string, bucket: seq<string>, distance: map<string, nat>) returns (g: Group)
    requires BucketOk(envs, key, bucket) && distance.Keys == envs.Keys
    ensures BuiltFrom(envs, key, bucket, distance, g)
    ensures forall x | x in g.environments :: x.priority == PROD
  {
    var es: seq<Environment> := [];
    for i := 0 to |bucket|
      invariant |es| == i
      invariant forall j | 0 <= j < i :: es[j] == Environment(bucket[j], key, distance[bucket[j]], PROD)
    {
      es := es + [Environment(bucket[i], key, distance[bucket[i]], PROD)];
    }
    EnvironmentOrder(es);
    var sorted := SortBy(es, EnvironmentLess);
    g := Group(key, es[0].distance, sorted);
    assert es[0] in g.environments;
    forall e | e in bucket ensures Holds(g, e) {
      var j :| 0 <= j < |bucket| && bucket[j] == e;
      assert es[j] in g.environments;
    }
  }

  /** A group's environments belong to it, have their distances and are in order; its own distance is one of theirs. */
  ghost predicate GroupOk(envs: Configs, distance: map<string, nat>, g: Group) {
    && g.environments != []
    && Sorted(g.environments, EnvironmentLess)
    && (forall x | x in g.environments ::
          x.name in envs && x.name in distance && x.group == g.name == GroupOf(envs, x.name) && x.distance == distance[x.name])
    && (exists x | x in g.environments :: x.distance == g.distance)
  }

  function Flatten(groups: seq<Group>): seq<Environment> {
    if groups == [] then [] else Flatten(groups[..|groups| - 1]) + groups[|groups| - 1].environments
  }

  lemma {:induction false} FlattenElements(groups: seq<Group>)
    ensures forall x :: x in Flatten(groups) <==> exists g | g in groups :: x in g.environments
  {
    if groups != [] {
      var front, last := groups[..|groups| - 1], groups[|groups| - 1];
      FlattenElements(front);
      assert groups == front + [last];
    }
  }

  lemma {:induction false} FlattenSlice(groups: seq<Group>, i: nat)
    requires i < |groups|
    ensures var k, n := |Flatten(groups[..i])|, |groups[i].environments|;
            k + n <= |Flatten(groups)| && Flatten(groups)[k..k + n] == groups[i].environments
  {
    var front := groups[..|groups| - 1];
    if i < |groups| - 1 {
      FlattenSlice(front, i);
      assert front[..i] == groups[..i];
    } else {
      assert front == groups[..i];
    }
  }

  method FlattenGroups(groups: seq<Group>) returns (flat: seq<Environment>)
    ensures flat == Flatten(groups)
  {
    flat := [];
    for i := 0 to |groups|
      invariant flat == Flatten(groups[..i])
    {
      assert groups[..i + 1][..i] == groups[..i];
      flat := flat + groups[i].environments;
    }
    assert groups[..|groups|] == groups;
  }

  /** Priorities are set through the flattened list and show in the groups. */
  method AssignPriorities(groups: seq<Group>) returns (r: seq<Group>)
    ensures PrioritizedGroups(groups, r, MaxDistance(Flatten(groups)))
  {
    var tmpEnvs := FlattenGroups(groups);
    ghost var m := MaxDistance(tmpEnvs);
    var flat := CalculatePriorities(tmpEnvs);
    r := [];
    var offset: nat := 0;
    for i := 0 to |groups|
      invariant |r| == i && offset == |Flatten(groups[..i])|
      invariant PrioritizedGroups(groups[..i], r, m)
    {
      PrioritizedNext(groups, i, m);
      var n := |groups[i].environments|;
      r := r + [groups[i].(environments := flat[offset..offset + n])];
      offset := offset + n;
    }
    assert groups[..|groups|] == groups;
  }

  /** The part of the flattened list that belongs to one group. */
  lemma PrioritizedNext(groups: seq<Group>, i: nat, m: nat)
    requires i < |groups|
    ensures var k, n := |Flatten(groups[..i])|, |groups[i].environments|;
            && k + n <= |Flatten(groups)| && |Flatten(groups[..i + 1])| == k + n
            && Prioritized(Flatten(groups), m)[k..k + n] == Prioritized(groups[i].environments, m)
  {
    FlattenSlice(groups, i);
    assert groups[..i + 1][..i] == groups[..i];
    PrioritizedSlice(Flatten(groups), m, |Flatten(groups[..i])|, |groups[i].environments|);
  }

  lemma PrioritizedSlice(s: seq<Environment>, m: nat, k: nat, n: nat)
    requires k + n <= |s|
    ensures Prioritized(s, m)[k..k + n] == Prioritized(s[k..k + n], m)
  {
  }

  /** The ordered groups of a configuration, for the given distances. */
  ghost predicate IsMapping(envs: Configs, distance: map<string, nat>, r: seq<Group>) {
    && distance.Keys == envs.Keys
    && (forall e | e in envs :: DistanceOk(envs, e, distance[e]))
    && Grouped(envs, distance, r)
    && Sorted(r, GroupLess)
    && (forall g, x | g in r && x in g.environments :: x.priority == PriorityOf(MaxDistance(Flatten(r)), x.distance))
  }

  /** Each group is well-formed, no group name occurs twice, and no environment is missing. */
  ghost predicate Grouped(envs: Configs, distance: map<string, nat>, r: seq<Group>) {
    && (forall g | g in r :: GroupOk(envs, distance, g))
    && (forall i, j | 0 <= i < j < |r| :: r[i].name != r[j].name)
    && (forall e {:trigger Covered(r, e)} | e in envs :: Covered(r, e))
  }

  ghost predicate Covered(r: seq<Group>, e: string) {
    exists g | g in r :: Holds(g, e)
  }

  ghost predicate Holds(g: Group, e: string) {
    exists x | x in g.environments :: x.name == e
  }

  /** The group of one bucket. */
  ghost predicate BuiltFrom(envs: Configs, key: string, bucket: seq<string>, distance: map<string, nat>, g: Group) {
    && g.name == key && GroupOk(envs, distance, g)
    && bucket != [] && bucket[0] in distance && g.distance == distance[bucket[0]]
    && forall e | e in bucket :: Holds(g, e)
  }

  /** One group for each bucket. */
  method BuildGroups(envs: Configs, buckets: map<string, seq<string>>, keys: seq<string>, distance: map<string, nat>)
    returns (groups: seq<Group>)
    requires forall k | k in keys :: k in buckets && BucketOk(envs, k, buckets[k])
    requires distance.Keys == envs.Keys
    ensures BuiltGroups(envs, buckets, keys, distance, groups)
  {
    groups := [];
    for i := 0 to |keys|
      invariant BuiltGroups(envs, buckets, keys[..i], distance, groups)
    {
      assert keys[i] in keys;
      var g := BuildGroup(envs, keys[i], buckets[keys[i]], distance);
      groups := groups + [g];
    }
    assert keys[..|keys|] == keys;
  }

  ghost predicate BuiltGroups(envs: Configs, buckets: map<string, seq<string>>, keys: seq<string>,
                              distance: map<string, nat>, groups: seq<Group>) {
    && |groups| == |keys|
    && forall j | 0 <= j < |keys| :: keys[j] in buckets && BuiltFrom(envs, keys[j], buckets[keys[j]], distance, groups[j])
  }

  lemma BuiltCover(envs: Configs, buckets: map<string, seq<string>>, keys: seq<string>, distance: map<string, nat>,
                   groups: seq<Group>, e: string)
    requires BuiltGroups(envs, buckets, keys, distance, groups)
    requires e in envs && GroupOf(envs, e) in keys
    requires GroupOf(envs, e) in buckets && e in buckets[GroupOf(envs, e)]
    ensures Covered(groups, e)
  {
    var j :| 0 <= j < |keys| && keys[j] == GroupOf(envs, e);
    assert BuiltFrom(envs, keys[j], buckets[keys[j]], distance, groups[j]);
    assert groups[j] in groups && Holds(groups[j], e);
  }

  lemma BuiltDiffer(envs: Configs, buckets: map<string, seq<string>>, keys: seq<string>, distance: map<string, nat>,
                    groups: seq<Group>)
    requires BuiltGroups(envs, buckets, keys, distance, groups) && NoDuplicates(keys)
    ensures forall g | g in groups :: GroupOk(envs, distance, g)
    ensures forall i, j | 0 <= i < j < |groups| :: groups[i].name != groups[j].name
    ensures NoDuplicates(groups)
  {
    assert forall j | 0 <= j < |groups| :: BuiltFrom(envs, keys[j], buckets[keys[j]], distance, groups[j]);
    assert forall i, j | 0 <= i < j < |groups| :: groups[i].name == keys[i] != keys[j] == groups[j].name;
  }

  lemma BuiltAreGrouped(envs: Configs, order: seq<string>, buckets: map<string, seq<string>>, keys: seq<string>,
                        distance: map<string, nat>, groups: seq<Group>)
    requires Bucketed(envs, order, buckets) && IsIteration(envs, order)
    requires NoDuplicates(keys) && forall k :: k in keys <==> k in buckets
    requires BuiltGroups(envs, buckets, keys, distance, groups)
    ensures Grouped(envs, distance, groups) && NoDuplicates(groups)
  {
    BuiltDiffer(envs, buckets, keys, distance, groups);
    forall e | e in envs ensures Covered(groups, e) {
      assert e in order;
      BuiltCover(envs, buckets, keys, distance, groups, e);
    }
  }

  lemma BuiltFirstDistances(envs: Configs, order: seq<string>, buckets: map<string, seq<string>>, keys: seq<string>,
                            distance: map<string, nat>, groups: seq<Group>)
    requires FirstAreFirst(envs, order, buckets) && distance.Keys == envs.Keys
    requires BuiltGroups(envs, buckets, keys, distance, groups)
    ensures FirstDistances(envs, order, distance, groups)
  {
    forall i | 0 <= i < |groups|
      ensures FirstOf(envs, order, groups[i].name).Some?
      ensures groups[i].distance == distance[FirstOf(envs, order, groups[i].name).value]
    {
      assert groups[i].name == keys[i] && FirstOf(envs, order, keys[i]) == Some(buckets[keys[i]][0]);
    }
  }

  /** Each group has the distance of the environment of it that the iteration yields first. */
  ghost predicate FirstDistances(envs: Configs, order: seq<string>, distance: map<string, nat>, r: seq<Group>)
    requires distance.Keys == envs.Keys
  {
    forall i | 0 <= i < |r| ::
      var first := FirstOf(envs, order, r[i].name);
      first.Some? && r[i].distance == distance[first.value]
  }

  /** The groups for one iteration order. */
  ghost predicate IsMappingOf(envs: Configs, order: seq<string>, distance: map<string, nat>, r: seq<Group>) {
    IsMapping(envs, distance, r) && FirstDistances(envs, order, distance, r)
  }

  /** Groups and their order, for any iteration order of the configuration map. */
  method MapEnvironmentsToGroups(envs: Configs, order: seq<string>) returns (result: seq<Group>)
    requires IsIteration(envs, order)
    ensures exists distance :: IsMappingOf(envs, order, distance, result)
  {
    var buckets := FillBuckets(envs, order);
    var keys := SortedKeys(buckets);
    var sequence := Sequence(envs, order, buckets, keys);
    var distance := Distances(envs, sequence);
    var groups := BuildGroups(envs, buckets, keys, distance);
    BuiltAreGrouped(envs, order, buckets, keys, distance, groups);
    BuiltFirstDistances(envs, order, buckets, keys, distance, groups);
    result := SortAndPrioritize(envs, order, distance, groups);
  }

  method SortAndPrioritize(ghost envs: Configs, ghost order: seq<string>, ghost distance: map<string, nat>, groups: seq<Group>)
    returns (result: seq<Group>)
    requires distance.Keys == envs.Keys && forall e | e in envs :: DistanceOk(envs, e, distance[e])
    requires Grouped(envs, distance, groups) && NoDuplicates(groups) && FirstDistances(envs, order, distance, groups)
    ensures IsMappingOf(envs, order, distance, result)
  {
    GroupOrder(envs, distance, groups);
    var sorted := SortBy(groups, GroupLess);
    SortedGroups(envs, distance, groups, sorted);
    SortedFirstDistances(envs, order, distance, groups, sorted);
    result := AssignPriorities(sorted);
    PrioritiesKeepOrder(envs, distance, sorted, result);
  }

  lemma SortedFirstDistances(envs: Configs, order: seq<string>, distance: map<string, nat>, groups: seq<Group>, sorted: seq<Group>)
    requires distance.Keys == envs.Keys && FirstDistances(envs, order, distance, groups)
    requires SameElements(sorted, groups)
    ensures FirstDistances(envs, order, distance, sorted)
  {
    forall i | 0 <= i < |sorted|
      ensures FirstOf(envs, order, sorted[i].name).Some?
      ensures sorted[i].distance == distance[FirstOf(envs, order, sorted[i].name).value]
    {
      assert sorted[i] in groups;
      var j :| 0 <= j < |groups| && groups[j] == sorted[i];
    }
  }

  lemma GroupOrder(envs: Configs, distance: map<string, nat>, groups: seq<Group>)
    requires Grouped(envs, distance, groups)
    ensures StrictOn(groups, GroupLess)
  {
    forall g, h | g in groups && h in groups
      ensures !(GroupLess(g, h) && GroupLess(h, g))
      ensures g == h || GroupLess(g, h) || GroupLess(h, g)
    {
      var x, y := g.environments[0], h.environments[0];
      assert x in g.environments && y in h.environments;
      Strings.LessTotal(x.name, y.name);
      if x.name == y.name {
        assert g.name == h.name;
      }
    }
    forall f, g, h | f in groups && g in groups && h in groups && GroupLess(f, g) && GroupLess(g, h)
      ensures GroupLess(f, h)
    {
      var x, y, z := f.environments[0], g.environments[0], h.environments[0];
      if x.distance == y.distance == z.distance {
        Strings.LessTrans(x.name, y.name, z.name);
      }
    }
  }

  lemma SortedGroups(envs: Configs, distance: map<string, nat>, groups: seq<Group>, sorted: seq<Group>)
    requires Grouped(envs, distance, groups)
    requires SameElements(sorted, groups) && Sorted(sorted, GroupLess)
    ensures Grouped(envs, distance, sorted)
  {
    GroupOrder(envs, distance, groups);
    forall i, j | 0 <= i < j < |sorted| ensures sorted[i].name != sorted[j].name {
      assert sorted[i] in groups && sorted[j] in groups && GroupLess(sorted[i], sorted[j]);
      assert sorted[i] != sorted[j];
    }
    forall e | e in envs ensures Covered(sorted, e) {
      assert Covered(groups, e);
      var g :| g in groups && Holds(g, e);
      assert g in sorted;
    }
  }

  /** The groups of `r` are those of `s` with priorities for the greatest distance `m`. */
  predicate PrioritizedGroups(s: seq<Group>, r: seq<Group>, m: nat) {
    && |r| == |s|
    && forall i | 0 <= i < |r| :: r[i] == s[i].(environments := Prioritized(s[i].environments, m))
  }

  lemma PrioritiesKeepOrder(envs: Configs, distance: map<string, nat>, s: seq<Group>, r: seq<Group>)
    requires distance.Keys == envs.Keys && forall e | e in envs :: DistanceOk(envs, e, distance[e])
    requires Grouped(envs, distance, s) && Sorted(s, GroupLess)
    requires PrioritizedGroups(s, r, MaxDistance(Flatten(s)))
    ensures IsMapping(envs, distance, r)
  {
    var m := MaxDistance(Flatten(s));
    PrioritiesKeepGroups(envs, distance, s, r, m);
    forall i, j | 0 <= i < j < |r| ensures GroupLess(r[i], r[j]) {
      assert GroupLess(s[i], s[j]);
    }
    FlattenDistances(s, r, m);
    PrioritiesAreSet(s, r, m);
  }

  lemma PrioritiesAreSet(s: seq<Group>, r: seq<Group>, m: nat)
    requires PrioritizedGroups(s, r, m)
    ensures forall g, x | g in r && x in g.environments :: x.priority == PriorityOf(m, x.distance)
  {
    forall g, x | g in r && x in g.environments ensures x.priority == PriorityOf(m, x.distance) {
      var i :| 0 <= i < |r| && r[i] == g;
    }
  }

  lemma PrioritiesKeepGroups(envs: Configs, distance: map<string, nat>, s: seq<Group>, r: seq<Group>, m: nat)
    requires Grouped(envs, distance, s)
    requires PrioritizedGroups(s, r, m)
    ensures Grouped(envs, distance, r)
  {
    forall i | 0 <= i < |r| ensures GroupOk(envs, distance, r[i]) {
      assert s[i] in s;
      PrioritizedGroupOk(envs, distance, s[i], m);
    }
    forall e | e in envs ensures Covered(r, e) {
      assert Covered(s, e);
      PrioritizedCovers(s, r, m, e);
    }
  }

  lemma PrioritizedCovers(s: seq<Group>, r: seq<Group>, m: nat, e: string)
    requires PrioritizedGroups(s, r, m)
    requires Covered(s, e)
    ensures Covered(r, e)
  {
    var g :| g in s && Holds(g, e);
    var i :| 0 <= i < |s| && s[i] == g;
    var x :| x in g.environments && x.name == e;
    var k :| 0 <= k < |g.environments| && g.environments[k] == x;
    assert r[i].environments[k] in r[i].environments;
    assert r[i] in r && Holds(r[i], e);
  }

  lemma PrioritizedGroupOk(envs: Configs, distance: map<string, nat>, g: Group, m: nat)
    requires GroupOk(envs, distance, g)
    ensures GroupOk(envs, distance, g.(environments := Prioritized(g.environments, m)))
  {
    var x :| x in g.environments && x.distance == g.distance;
    var k :| 0 <= k < |g.environments| && g.environments[k] == x;
    var p := Prioritized(g.environments, m);
    assert p[k] in p && p[k].distance == g.distance;
    forall i, j | 0 <= i < j < |p| ensures EnvironmentLess(p[i], p[j]) {
      assert EnvironmentLess(g.environments[i], g.environments[j]);
    }
    forall x | x in p ensures x.name in envs && x.name in distance && x.group == g.name == GroupOf(envs, x.name) && x.distance == distance[x.name] {
      var i :| 0 <= i < |p| && p[i] == x;
      assert g.environments[i] in g.environments;
    }
  }

  lemma {:induction false} FlattenDistances(s: seq<Group>, r: seq<Group>, m: nat)
    requires PrioritizedGroups(s, r, m)
    ensures Flatten(r) == Prioritized(Flatten(s), m)
    ensures MaxDistance(Flatten(r)) == MaxDistance(Flatten(s))
  {
    if r != [] {
      var k := |r| - 1;
      FlattenDistances(s[..k], r[..k], m);
      PrioritizedConcat(Flatten(s[..k]), s[k].environments, m);
    }
    SameDistances(Flatten(s), Prioritized(Flatten(s), m));
  }

  lemma PrioritizedConcat(s: seq<Environment>, t: seq<Environment>, m: nat)
    ensures Prioritized(s + t, m) == Prioritized(s, m) + Prioritized(t, m)
  {
  }

  lemma {:induction false} SameDistances(s: seq<Environment>, r: seq<Environment>)
    requires |r| == |s| && forall i | 0 <= i < |r| :: r[i].distance == s[i].distance
    ensures MaxDistance(r) == MaxDistance(s)
  {
    if r != [] {
      SameDistances(s[..|s| - 1], r[..|r| - 1]);
    }
  }

  /** Each environment lies in exactly one group, the one its configuration names. */
  lemma ExactlyOneGroup(envs: Configs, distance: map<string, nat>, r: seq<Group>, e: string)
    requires IsMapping(envs, distance, r) && e in envs
    ensures forall g | g in r :: Holds(g, e) <==> g.name == if envs[e].group.Some? then envs[e].group.value else e
    ensures exists g | g in r :: Holds(g, e)
  {
    assert Covered(r, e);
    var g :| g in r && Holds(g, e);
    forall h | h in r && h.name == g.name ensures h == g {
      var i :| 0 <= i < |r| && r[i] == g;
      var j :| 0 <= j < |r| && r[j] == h;
    }
  }

  lemma ShownOnce(envs: Configs, distance: map<string, nat>, r: seq<Group>, e: string) returns (x: Environment)
    requires IsMapping(envs, distance, r) && e in envs
    ensures x in Flatten(r) && x.name == e && x.distance == distance[e]
  {
    FlattenElements(r);
    assert Covered(r, e);
    var g :| g in r && Holds(g, e);
    x :| x in g.environments && x.name == e;
  }

  lemma MaxOfMapping(envs: Configs, distance: map<string, nat>, r: seq<Group>)
    requires IsMapping(envs, distance, r)
    ensures forall e | e in envs :: distance[e] <= MaxDistance(Flatten(r))
    ensures envs != map[] ==> exists e | e in envs :: distance[e] == MaxDistance(Flatten(r))
    ensures envs == map[] ==> Flatten(r) == []
  {
    MaxIsGreatest(Flatten(r));
    FlattenElements(r);
    forall e | e in envs ensures distance[e] <= MaxDistance(Flatten(r)) {
      var x := ShownOnce(envs, distance, r, e);
    }
    if e: string :| e in envs {
      var y := ShownOnce(envs, distance, r, e);
      var x :| x in Flatten(r) && x.distance == MaxDistance(Flatten(r));
      assert x.name in envs;
    } else if Flatten(r) != [] {
      assert Flatten(r)[0] in Flatten(r);
    }
  }

  lemma ProdIffFarthest(envs: Configs, distance: map<string, nat>, r: seq<Group>, g: Group, x: Environment)
    requires IsMapping(envs, distance, r) && g in r && x in g.environments
    ensures x.priority == PROD <==> forall e | e in envs :: distance[e] <= x.distance
  {
    MaxOfMapping(envs, distance, r);
    var m := MaxDistance(Flatten(r));
    assert x.name in envs && x.distance == distance[x.name] && x.priority == PriorityOf(m, x.distance);
    var e :| e in envs && distance[e] == m;
  }

  /** Some environment has priority PROD, and these are exactly the ones farthest from the developers. */
  lemma SomeProd(envs: Configs, distance: map<string, nat>, r: seq<Group>)
    requires IsMapping(envs, distance, r) && envs != map[]
    ensures exists g, x | g in r && x in g.environments :: x.priority == PROD
    ensures forall g, x | g in r && x in g.environments ::
              x.priority == PROD <==> forall e | e in envs :: distance[e] <= x.distance
  {
    MaxOfMapping(envs, distance, r);
    var e :| e in envs && distance[e] == MaxDistance(Flatten(r));
    assert Covered(r, e);
    var g :| g in r && Holds(g, e);
    var x :| x in g.environments && x.name == e;
    ProdIffFarthest(envs, distance, r, g, x);
    forall h, y | h in r && y in h.environments
      ensures y.priority == PROD <==> forall e | e in envs :: distance[e] <= y.distance
    {
      ProdIffFarthest(envs, distance, r, h, y);
    }
  }

  lemma EnvironmentsOfGroup(envs: Configs, distance: map<string, nat>, r: seq<Group>, g: Group, m: nat)
    requires IsMapping(envs, distance, r) && g in r && m == MaxDistance(Flatten(r))
    ensures forall x :: x in g.environments <==>
                          x.name in envs && GroupOf(envs, x.name) == g.name
                          && x == Environment(x.name, g.name, distance[x.name], PriorityOf(m, distance[x.name]))
  {
    forall x: Environment | x.name in envs && GroupOf(envs, x.name) == g.name
               && x == Environment(x.name, g.name, distance[x.name], PriorityOf(m, distance[x.name]))
      ensures x in g.environments
    {
      ExactlyOneGroup(envs, distance, r, x.name);
      var y :| y in g.environments && y.name == x.name;
      assert y == x;
    }
  }

  function WithoutDistance(g: Group): Group {
    g.(distance := 0)
  }

  function WithoutDistances(r: seq<Group>): seq<Group> {
    seq(|r|, i requires 0 <= i < |r| => WithoutDistance(r[i]))
  }

  lemma GroupsAgree(envs: Configs, distance: map<string, nat>, r1: seq<Group>, r2: seq<Group>, g: Group)
    requires IsMapping(envs, distance, r1) && IsMapping(envs, distance, r2)
    requires g in r1
    ensures exists h | h in r2 :: WithoutDistance(h) == WithoutDistance(g)
  {
    MaxOfMapping(envs, distance, r1);
    MaxOfMapping(envs, distance, r2);
    var m := MaxDistance(Flatten(r1));
    assert g.environments[0] in g.environments;
    var e := g.environments[0].name;
    assert m == MaxDistance(Flatten(r2));
    assert Covered(r2, e);
    var h :| h in r2 && Holds(h, e);
    assert h.name == g.name;
    EnvironmentsOfGroup(envs, distance, r1, g, m);
    EnvironmentsOfGroup(envs, distance, r2, h, m);
    assert SameElements(g.environments, h.environments);
    EnvironmentOrder(g.environments);
    SortedUnique(g.environments, h.environments, EnvironmentLess);
  }

  /**
   Without cycles, groups, their order, their environments with distances and priorities are determined by
   the configuration alone, not by the order in which its map is iterated. A group's own distance is left out.
   */
  lemma MappingUnique(envs: Configs, d1: map<string, nat>, r1: seq<Group>, d2: map<string, nat>, r2: seq<Group>)
    requires forall e | e in envs :: !ReachesCycle(envs, e)
    requires IsMapping(envs, d1, r1) && IsMapping(envs, d2, r2)
    ensures WithoutDistances(r1) == WithoutDistances(r2)
  {
    forall e | e in envs ensures d1[e] == d2[e] {
      UngroundedIffReachesCycle(envs, e);
    }
    assert d1 == d2;
    var s1, s2 := WithoutDistances(r1), WithoutDistances(r2);
    SubsetOfGroups(envs, d1, r1, r2);
    SubsetOfGroups(envs, d1, r2, r1);
    GroupOrder(envs, d1, r1);
    StrippedOrder(r1);
    StrippedSorted(r1);
    StrippedSorted(r2);
    SortedUnique(s1, s2, GroupLess);
  }

  lemma SubsetOfGroups(envs: Configs, distance: map<string, nat>, r1: seq<Group>, r2: seq<Group>)
    requires IsMapping(envs, distance, r1) && IsMapping(envs, distance, r2)
    ensures forall s | s in WithoutDistances(r1) :: s in WithoutDistances(r2)
  {
    forall s | s in WithoutDistances(r1) ensures s in WithoutDistances(r2) {
      var i :| 0 <= i < |r1| && WithoutDistances(r1)[i] == s;
      GroupsAgree(envs, distance, r1, r2, r1[i]);
      var h :| h in r2 && WithoutDistance(h) == s;
      var j :| 0 <= j < |r2| && r2[j] == h;
      assert WithoutDistances(r2)[j] == s;
    }
  }

  lemma StrippedOrder(r: seq<Group>)
    requires StrictOn(r, GroupLess)
    ensures StrictOn(WithoutDistances(r), GroupLess)
  {
    var s := WithoutDistances(r);
    forall g | g in s ensures exists h | h in r :: WithoutDistance(h) == g {
      var i :| 0 <= i < |s| && s[i] == g;
      assert r[i] in r && WithoutDistance(r[i]) == g;
    }
    assert forall a, b :: GroupLess(a, b) <==> GroupLess(WithoutDistance(a), WithoutDistance(b));
  }

  lemma StrippedSorted(r: seq<Group>)
    requires Sorted(r, GroupLess)
    ensures Sorted(WithoutDistances(r), GroupLess)
  {
    forall i, j | 0 <= i < j < |r| ensures GroupLess(WithoutDistances(r)[i], WithoutDistances(r)[j]) {
      assert GroupLess(r[i], r[j]);
    }
  }

  // ---- The distance of a group ----

  /** The environments of each group are equally far from the start of their upstream chains. */
  ghost predicate EvenGroups(envs: Configs)
    requires forall e | e in envs :: Grounded(envs, e)
  {
    forall a, b | a in envs && b in envs && GroupOf(envs, a) == GroupOf(envs, b) :: Dist(envs, a) == Dist(envs, b)
  }

  /** The same groups with the distances another iteration order gives them. */
  ghost function Redistance(envs: Configs, order: seq<string>, distance: map<string, nat>, r: seq<Group>): (s: seq<Group>)
    requires distance.Keys == envs.Keys && forall i | 0 <= i < |r| :: FirstOf(envs, order, r[i].name).Some?
    ensures |s| == |r|
    ensures forall i | 0 <= i < |s| :: s[i] == r[i].(distance := distance[FirstOf(envs, order, r[i].name).value])
  {
    seq(|r|, i requires 0 <= i < |r| => r[i].(distance := distance[FirstOf(envs, order, r[i].name).value]))
  }

  lemma {:induction false} FlattenIgnoresDistances(r: seq<Group>, s: seq<Group>)
    requires |r| == |s| && forall i | 0 <= i < |r| :: r[i].environments == s[i].environments
    ensures Flatten(r) == Flatten(s)
  {
    if r != [] {
      FlattenIgnoresDistances(r[..|r| - 1], s[..|s| - 1]);
    }
  }

  lemma NamedGroup(envs: Configs, distance: map<string, nat>, r: seq<Group>, i: nat) returns (e: string)
    requires IsMapping(envs, distance, r) && i < |r|
    ensures e in envs && GroupOf(envs, e) == r[i].name
  {
    assert r[i] in r && r[i].environments[0] in r[i].environments;
    e := r[i].environments[0].name;
  }

  /** Every iteration order has its mapping. */
  lemma MappingForOrder(envs: Configs, distance: map<string, nat>, r: seq<Group>, order: seq<string>) returns (s: seq<Group>)
    requires IsMapping(envs, distance, r) && IsIteration(envs, order)
    ensures IsMappingOf(envs, order, distance, s) && WithoutDistances(s) == WithoutDistances(r)
  {
    forall i | 0 <= i < |r| ensures FirstOf(envs, order, r[i].name).Some? {
      var e := NamedGroup(envs, distance, r, i);
      FirstOfExists(envs, order, e);
    }
    s := Redistance(envs, order, distance, r);
    RedistancedSorted(envs, distance, r, s);
    RedistancedGroups(envs, order, distance, r, s);
  }

  lemma RedistancedGroups(envs: Configs, order: seq<string>, distance: map<string, nat>, r: seq<Group>, s: seq<Group>)
    requires IsMapping(envs, distance, r) && |s| == |r|
    requires forall i | 0 <= i < |s| :: s[i] == r[i].(distance := s[i].distance)
    requires FirstDistances(envs, order, distance, s)
    ensures forall g | g in s :: GroupOk(envs, distance, g)
    ensures forall e {:trigger Covered(s, e)} | e in envs :: Covered(s, e)
  {
    forall i | 0 <= i < |s| ensures GroupOk(envs, distance, s[i]) {
      RedistancedGroup(envs, distance, r, r[i], FirstOf(envs, order, s[i].name).value);
    }
    forall e | e in envs ensures Covered(s, e) {
      assert Covered(r, e);
      var g :| g in r && Holds(g, e);
      var i :| 0 <= i < |r| && r[i] == g;
      assert s[i] in s && Holds(s[i], e);
    }
  }

  lemma RedistancedGroup(envs: Configs, distance: map<string, nat>, r: seq<Group>, g: Group, e: string)
    requires IsMapping(envs, distance, r) && g in r && e in envs && GroupOf(envs, e) == g.name
    ensures GroupOk(envs, distance, g.(distance := distance[e]))
  {
    ExactlyOneGroup(envs, distance, r, e);
    var x :| x in g.environments && x.name == e;
  }

  lemma RedistancedSorted(envs: Configs, distance: map<string, nat>, r: seq<Group>, s: seq<Group>)
    requires IsMapping(envs, distance, r)
    requires |s| == |r| && forall i | 0 <= i < |s| :: s[i] == r[i].(distance := s[i].distance)
    ensures Sorted(s, GroupLess) && WithoutDistances(s) == WithoutDistances(r)
    ensures forall i, j | 0 <= i < j < |s| :: s[i].name != s[j].name
    ensures forall g, x | g in s && x in g.environments :: x.priority == PriorityOf(MaxDistance(Flatten(s)), x.distance)
  {
    forall i, j | 0 <= i < j < |s| ensures GroupLess(s[i], s[j]) {
      assert GroupLess(r[i], r[j]);
    }
    RedistancedPriorities(r, s);
  }

  lemma RedistancedPriorities(r: seq<Group>, s: seq<Group>)
    requires |s| == |r| && forall i | 0 <= i < |s| :: s[i] == r[i].(distance := s[i].distance)
    requires forall g, x | g in r && x in g.environments :: x.priority == PriorityOf(MaxDistance(Flatten(r)), x.distance)
    ensures forall g, x | g in s && x in g.environments :: x.priority == PriorityOf(MaxDistance(Flatten(s)), x.distance)
  {
    FlattenIgnoresDistances(r, s);
    forall g, x | g in s && x in g.environments ensures x.priority == PriorityOf(MaxDistance(Flatten(s)), x.distance) {
      var i :| 0 <= i < |s| && s[i] == g;
      assert r[i] in r;
    }
  }

  lemma DistancesAreDist(envs: Configs, distance: map<string, nat>, r: seq<Group>)
    requires IsMapping(envs, distance, r) && forall e | e in envs :: !ReachesCycle(envs, e)
    ensures forall e | e in envs :: Grounded(envs, e) && distance[e] == Dist(envs, e)
  {
    forall e | e in envs ensures Grounded(envs, e) && distance[e] == Dist(envs, e) {
      UngroundedIffReachesCycle(envs, e);
    }
  }

  lemma EvenGroupsAgree(envs: Configs, order1: seq<string>, d1: map<string, nat>, r1: seq<Group>,
                        order2: seq<string>, d2: map<string, nat>, r2: seq<Group>)
    requires forall e | e in envs :: !ReachesCycle(envs, e) && Grounded(envs, e)
    requires IsMappingOf(envs, order1, d1, r1) && IsMappingOf(envs, order2, d2, r2)
    requires EvenGroups(envs)
    ensures r1 == r2
  {
    MappingUnique(envs, d1, r1, d2, r2);
    DistancesAreDist(envs, d1, r1);
    DistancesAreDist(envs, d2, r2);
    assert |WithoutDistances(r1)| == |WithoutDistances(r2)|;
    forall i | 0 <= i < |r1| ensures r1[i] == r2[i] {
      assert WithoutDistances(r1)[i] == WithoutDistances(r2)[i];
    }
  }

  /** An iteration that yields `e` before the others. */
  lemma StartWith(envs: Configs, order: seq<string>, e: string) returns (r: seq<string>)
    requires IsIteration(envs, order) && e in envs
    ensures IsIteration(envs, r) && FirstOf(envs, r, GroupOf(envs, e)) == Some(e)
  {
    var rest := Without(order, e);
    ConcatNoDuplicates([e], rest);
    r := [e] + rest;
    FirstOfHead(envs, e, rest);
  }

  lemma Without(s: seq<string>, x: string) returns (r: seq<string>)
    requires NoDuplicates(s) && x in s
    ensures NoDuplicates(r) && forall y :: y in r <==> y in s && y != x
  {
    var k :| 0 <= k < |s| && s[k] == x;
    r := s[..k] + s[k + 1..];
    assert s == s[..k] + [x] + s[k + 1..];
  }

  /**
   Without cycles, the whole result, with the distances of the groups, is the same for every iteration order
   exactly if the environments of each group are equally far from the start of their upstream chains.
   */
  lemma MappingUniqueIff(envs: Configs, order: seq<string>, distance: map<string, nat>, r: seq<Group>)
    requires forall e | e in envs :: !ReachesCycle(envs, e) && Grounded(envs, e)
    requires IsIteration(envs, order) && IsMappingOf(envs, order, distance, r)
    ensures (forall order2, d2, r2 | IsIteration(envs, order2) && IsMappingOf(envs, order2, d2, r2) :: r2 == r) <==> EvenGroups(envs)
  {
    if EvenGroups(envs) {
      forall order2, d2, r2 | IsIteration(envs, order2) && IsMappingOf(envs, order2, d2, r2) ensures r2 == r {
        EvenGroupsAgree(envs, order, distance, r, order2, d2, r2);
      }
    } else {
      var order2, r2 := OtherOrder(envs, order, distance, r);
    }
  }

  lemma OtherOrder(envs: Configs, order: seq<string>, distance: map<string, nat>, r: seq<Group>)
    returns (order2: seq<string>, r2: seq<Group>)
    requires forall e | e in envs :: !ReachesCycle(envs, e) && Grounded(envs, e)
    requires IsIteration(envs, order) && IsMappingOf(envs, order, distance, r) && !EvenGroups(envs)
    ensures IsIteration(envs, order2) && IsMappingOf(envs, order2, distance, r2) && r2 != r
  {
    DistancesAreDist(envs, distance, r);
    var a, b :| a in envs && b in envs && GroupOf(envs, a) == GroupOf(envs, b) && Dist(envs, a) != Dist(envs, b);
    var group := GroupOf(envs, a);
    FirstOfExists(envs, order, a);
    var first := FirstOf(envs, order, group).value;
    var c := if Dist(envs, a) == Dist(envs, first) then b else a;
    order2 := StartWith(envs, order, c);
    r2 := MappingForOrder(envs, distance, r, order2);
    ExactlyOneGroup(envs, distance, r, a);
    var g :| g in r && Holds(g, a);
    var i :| 0 <= i < |r| && r[i] == g;
    assert |WithoutDistances(r2)| == |r| && WithoutDistances(r2)[i] == WithoutDistances(r)[i];
    assert r[i].distance == distance[first] && r2[i].distance == distance[c];
  }

  const MIXED: Configs := map[
    "test" := EnvironmentConfig(Some(ConfigUpstream("", true)), Some("all")),
    "prod" := EnvironmentConfig(None, Some("all"))]

  /** Two iteration orders of one configuration that give different results. */
  lemma TwoOrders()
    ensures var es := [Environment("test", "all", 0, UPSTREAM), Environment("prod", "all", 100, PROD)];
            var distance := map["test" := 0, "prod" := 100];
            && IsIteration(MIXED, ["test", "prod"]) && IsIteration(MIXED, ["prod", "test"])
            && IsMappingOf(MIXED, ["test", "prod"], distance, [Group("all", 0, es)])
            && IsMappingOf(MIXED, ["prod", "test"], distance, [Group("all", 100, es)])
  {
    var test, prod := Environment("test", "all", 0, UPSTREAM), Environment("prod", "all", 100, PROD);
    DistEquations(MIXED, "test");
    DistEquations(MIXED, "prod");
    TwoOrdersGroup(Group("all", 0, [test, prod]));
    TwoOrdersGroup(Group("all", 100, [test, prod]));
    FirstOfHead(MIXED, "test", ["prod"]);
    FirstOfHead(MIXED, "prod", ["test"]);
    assert ["test"] + ["prod"] == ["test", "prod"] && ["prod"] + ["test"] == ["prod", "test"];
  }

  lemma TwoOrdersGroup(g: Group)
    requires g.name == "all" && g.distance in {0, 100}
    requires g.environments == [Environment("test", "all", 0, UPSTREAM), Environment("prod", "all", 100, PROD)]
    requires DistanceOk(MIXED, "test", 0) && DistanceOk(MIXED, "prod", 100)
    ensures IsMapping(MIXED, map["test" := 0, "prod" := 100], [g])
  {
    var test, prod := g.environments[0], g.environments[1];
    assert test in g.environments && prod in g.environments;
    assert GroupOk(MIXED, map["test" := 0, "prod" := 100], g);
    assert g in [g] && Holds(g, "test") && Holds(g, "prod");
    TwoOrdersMax(g, test, prod);
  }

  lemma TwoOrdersMax(g: Group, test: Environment, prod: Environment)
    requires g.environments == [test, prod] && test.distance == 0 && prod.distance == 100
    ensures MaxDistance(Flatten([g])) == 100
  {
    assert [g][..0] == [];
    assert Flatten([g]) == [test, prod];
    assert [test, prod][..1] == [test] && [test][..0] == [];
    assert MaxDistance([test]) == 0;
  }
}
