/**
 Distances of environments to the start of their upstream chain: the recursive definition, and the
 worklist loop that computes them from environments in any order, breaking cycles as it goes.
 */
module Distance {
  import opened Config
  import opened Sorting

  type Configs = map<string, EnvironmentConfig>

  const NO_UPSTREAM: nat := 100
  const UNDEFINED: nat := 666

  function UpstreamOf(envs: Configs, e: string): Option<Upstream>
    requires e in envs
  {
    TransformUpstream(envs[e].upstream)
  }

  /** The distance found by following at most `n` upstream links. */
  function DistanceWithin(envs: Configs, e: string, n: nat): Option<nat>
    decreases n
  {
    if n == 0 then None
    else if e !in envs then Some(UNDEFINED)
    else
      match UpstreamOf(envs, e)
      case None => Some(NO_UPSTREAM)
      case Some(Latest) => Some(0)
      case Some(From(u)) =>
        match DistanceWithin(envs, u, n - 1)
        case None => None
        case Some(d) => Some(d + 1)
  }

  /** The upstream chain of `e` comes to an end. */
  ghost predicate Grounded(envs: Configs, e: string) {
    exists n: nat :: DistanceWithin(envs, e, n).Some?
  }

  ghost function Dist(envs: Configs, e: string): nat
    requires Grounded(envs, e)
  {
    var n: nat :| DistanceWithin(envs, e, n).Some?;
    DistanceWithin(envs, e, n).value
  }

  lemma {:induction false} WithinMonotone(envs: Configs, e: string, n: nat, m: nat)
    requires n <= m && DistanceWithin(envs, e, n).Some?
    ensures DistanceWithin(envs, e, m) == DistanceWithin(envs, e, n)
    decreases n
  {
    if e in envs {
      match UpstreamOf(envs, e)
      case Some(From(u)) => WithinMonotone(envs, u, n - 1, m - 1);
      case _ =>
    }
  }

  lemma DistIsWithin(envs: Configs, e: string, n: nat)
    requires DistanceWithin(envs, e, n).Some?
    ensures Grounded(envs, e) && Dist(envs, e) == DistanceWithin(envs, e, n).value
  {
    var k: nat :| DistanceWithin(envs, e, k).Some? && Dist(envs, e) == DistanceWithin(envs, e, k).value;
    if k <= n { WithinMonotone(envs, e, k, n); } else { WithinMonotone(envs, e, n, k); }
  }

  /** The recursive equations of the distance: 0 for latest, 100 without upstream, 667 for a missing one. */
  lemma DistEquations(envs: Configs, e: string)
    requires e in envs
    ensures UpstreamOf(envs, e) == Some(Latest) ==> Grounded(envs, e) && Dist(envs, e) == 0
    ensures UpstreamOf(envs, e) == None ==> Grounded(envs, e) && Dist(envs, e) == 100
    ensures forall u :: UpstreamOf(envs, e) == Some(From(u)) && u !in envs ==>
                          Grounded(envs, e) && Dist(envs, e) == 667
    ensures forall u :: UpstreamOf(envs, e) == Some(From(u)) && u in envs ==>
                          && (Grounded(envs, e) <==> Grounded(envs, u))
                          && (Grounded(envs, e) ==> Dist(envs, e) == Dist(envs, u) + 1)
  {
    match UpstreamOf(envs, e)
    case None => DistIsWithin(envs, e, 1);
    case Some(Latest) => DistIsWithin(envs, e, 1);
    case Some(From(u)) =>
      assert DistanceWithin(envs, u, 1).Some? <==> u !in envs || !UpstreamOf(envs, u).Some? || UpstreamOf(envs, u).value.Latest?;
      if u !in envs {
        assert DistanceWithin(envs, e, 2) == Some(667);
        DistIsWithin(envs, e, 2);
      } else {
        GroundedStep(envs, e, u);
      }
  }

  /** The same, told from the configuration files; an upstream that is latest wins over the name of an environment. */
  lemma DistanceOfConfig(envs: Configs, e: string)
    requires e in envs
    ensures var upstream := envs[e].upstream;
            if upstream.None? || (!upstream.value.latest && upstream.value.environment == "") then Grounded(envs, e) && Dist(envs, e) == 100
            else if upstream.value.latest then Grounded(envs, e) && Dist(envs, e) == 0
            else if upstream.value.environment !in envs then Grounded(envs, e) && Dist(envs, e) == 667
            else
              && (Grounded(envs, e) <==> Grounded(envs, upstream.value.environment))
              && (Grounded(envs, e) ==> Dist(envs, e) == Dist(envs, upstream.value.environment) + 1)
  {
    DistEquations(envs, e);
  }

  lemma GroundedStep(envs: Configs, e: string, u: string)
    requires e in envs && UpstreamOf(envs, e) == Some(From(u))
    ensures Grounded(envs, e) <==> Grounded(envs, u)
    ensures Grounded(envs, e) ==> Dist(envs, e) == Dist(envs, u) + 1
  {
    if n: nat :| DistanceWithin(envs, e, n).Some? {
      assert DistanceWithin(envs, u, n - 1).Some?;
      DistIsWithin(envs, e, n);
      DistIsWithin(envs, u, n - 1);
    }
    if n: nat :| DistanceWithin(envs, u, n).Some? {
      assert DistanceWithin(envs, e, n + 1).Some?;
    }
  }

  /** The environment reached from `e` after `n` upstream links, if the chain is that long. */
  function Hop(envs: Configs, e: string, n: nat): Option<string>
    decreases n
  {
    if e !in envs then None
    else if n == 0 then Some(e)
    else
      match UpstreamOf(envs, e)
      case Some(From(u)) => Hop(envs, u, n - 1)
      case _ => None
  }

  lemma {:induction false} HopAdd(envs: Configs, e: string, i: nat, j: nat)
    requires Hop(envs, e, i).Some?
    ensures Hop(envs, e, i + j) == Hop(envs, Hop(envs, e, i).value, j)
    decreases i
  {
    if i > 0 {
      HopAdd(envs, UpstreamOf(envs, e).value.environment, i - 1, j);
    }
  }

  lemma {:induction false} UngroundedHops(envs: Configs, e: string, n: nat)
    requires !Grounded(envs, e)
    ensures Hop(envs, e, n).Some? && Hop(envs, e, n).value in envs
    decreases n
  {
    assert e !in envs ==> DistanceWithin(envs, e, 1).Some?;
    DistEquations(envs, e);
    if n > 0 {
      UngroundedHops(envs, UpstreamOf(envs, e).value.environment, n - 1);
    }
  }

  lemma {:induction false} CycleNeverEnds(envs: Configs, e: string, period: nat, n: nat)
    requires period > 0 && Hop(envs, e, period) == Some(e)
    ensures Hop(envs, e, n).Some?
    decreases n
  {
    if n < period {
      HopPrefix(envs, e, n, period);
    } else {
      CycleNeverEnds(envs, e, period, n - period);
      HopAdd(envs, e, period, n - period);
    }
  }

  lemma {:induction false} HopPrefix(envs: Configs, e: string, i: nat, j: nat)
    requires i <= j && Hop(envs, e, j).Some?
    ensures Hop(envs, e, i).Some?
    decreases i
  {
    if i > 0 {
      HopPrefix(envs, UpstreamOf(envs, e).value.environment, i - 1, j - 1);
    }
  }

  lemma {:induction false} WithinIsShort(envs: Configs, e: string, n: nat)
    requires DistanceWithin(envs, e, n).Some?
    ensures Hop(envs, e, n).None?
    decreases n
  {
    if e in envs {
      match UpstreamOf(envs, e)
      case Some(From(u)) => WithinIsShort(envs, u, n - 1);
      case _ =>
    }
  }

  /** Among the first |s|+1 values of `f` in `s`, two agree. */
  lemma {:induction false} Pigeonhole(f: nat -> string, s: set<string>, n: nat) returns (i: nat, j: nat)
    requires forall k: nat | k < n :: f(k) in s
    requires n > |s|
    ensures i < j < n && f(i) == f(j)
    decreases n
  {
    var last := f(n - 1);
    if k: nat :| k < n - 1 && f(k) == last {
      return k, n - 1;
    }
    i, j := Pigeonhole(f, s - {last}, n - 1);
  }

  /** A chain that never ends is exactly a chain that runs into a cycle. */
  lemma UngroundedIffReachesCycle(envs: Configs, e: string)
    ensures !Grounded(envs, e) <==> ReachesCycle(envs, e)
  {
    if !Grounded(envs, e) {
      forall n: nat ensures Hop(envs, e, n).Some? && Hop(envs, e, n).value in envs {
        UngroundedHops(envs, e, n);
      }
      var f := (n: nat) => match Hop(envs, e, n) case Some(x) => x case None => "";
      var i, j := Pigeonhole(f, envs.Keys, |envs.Keys| + 1);
      HopAdd(envs, e, i, j - i);
      assert OnCycle(envs, Hop(envs, e, i).value, j - i);
    }
    if ReachesCycle(envs, e) {
      var i: nat, period: nat :| Hop(envs, e, i).Some? && OnCycle(envs, Hop(envs, e, i).value, period);
      if n: nat :| DistanceWithin(envs, e, n).Some? {
        WithinMonotone(envs, e, n, n + i);
        WithinIsShort(envs, e, n + i);
        CycleNeverEnds(envs, Hop(envs, e, i).value, period, n);
        HopAdd(envs, e, i, n);
      }
    }
  }

  predicate OnCycle(envs: Configs, e: string, period: nat) {
    period > 0 && Hop(envs, e, period) == Some(e)
  }

  ghost predicate ReachesCycle(envs: Configs, e: string) {
    exists i: nat, period: nat :: Hop(envs, e, i).Some? && OnCycle(envs, Hop(envs, e, i).value, period)
  }

  /** The environments that run into a cycle. */
  ghost function Cyclic(envs: Configs): set<string> {
    set e | e in envs && !Grounded(envs, e)
  }

  /** What the loop promises: the recursive distance, or a value from 667 on for environments on the way to a cycle. */
  ghost predicate DistanceOk(envs: Configs, e: string, d: nat) {
    if Grounded(envs, e) then d == Dist(envs, e) else UNDEFINED + 1 <= d <= UNDEFINED + |Cyclic(envs)|
  }

  /** `e` can only be settled after the environment it names as its upstream. */
  predicate Waiting(envs: Configs, e: string) {
    e in envs && UpstreamOf(envs, e).Some? && UpstreamOf(envs, e).value.From?
  }

  function UpstreamName(envs: Configs, e: string): string {
    if Waiting(envs, e) then UpstreamOf(envs, e).value.environment else ""
  }

  /** What is settled is recorded, and what is not settled waits for its upstream. */
  ghost predicate Consistent(envs: Configs, tmp: map<string, nat>, distance: map<string, nat>) {
    && (forall e | e in distance :: e in envs && e in tmp && tmp[e] == distance[e])
    && (forall e | e in envs && e !in distance :: Waiting(envs, e))
  }

  /** The worklist holds exactly the environments that are not settled. */
  ghost predicate Worklist(envs: Configs, distance: map<string, nat>, rest: seq<string>) {
    && NoDuplicates(rest)
    && forall e :: e in rest <==> e in envs && e !in distance
  }

  /** Before a cycle is broken: everything known is exact, and nothing in the worklist is known. */
  ghost predicate Exact(envs: Configs, tmp: map<string, nat>, distance: map<string, nat>) {
    && (forall e | e in tmp :: Grounded(envs, e) && tmp[e] == Dist(envs, e) && (e in envs ==> e in distance))
    && (forall e {:trigger UpstreamName(envs, e)} | e in envs && e !in distance && UpstreamName(envs, e) !in envs :: UpstreamName(envs, e) in tmp)
  }

  /**
   After a cycle was broken and `i` of the cyclic environments were settled: their upstreams are all known,
   with values that grew by at most one each time.
   */
  ghost predicate Broken(envs: Configs, cyclic: set<string>, tmp: map<string, nat>, distance: map<string, nat>, i: nat) {
    && (forall e | e in envs && e !in distance :: e in cyclic)
    && (forall e {:trigger UpstreamName(envs, e)} | e in cyclic :: UpstreamName(envs, e) in tmp && UpstreamName(envs, e) in cyclic)
    && (forall e | e in cyclic && e in tmp :: UNDEFINED <= tmp[e] <= UNDEFINED + i)
    && (forall e | e in distance :: if e in cyclic then UNDEFINED + 1 <= distance[e] <= UNDEFINED + i
                                    else DistanceOk(envs, e, distance[e]))
  }

  /** Where the first sweep stands when it has seen the environments of `seen`. */
  ghost predicate Starting(envs: Configs, tmp: map<string, nat>, distance: map<string, nat>, rest: seq<string>, seen: seq<string>) {
    && NoDuplicates(rest)
    && (forall e :: e in rest <==> e in seen && e !in distance)
    && (forall e | e in distance :: e in seen && e in tmp && tmp[e] == distance[e])
    && (forall e | e in tmp :: Grounded(envs, e) && tmp[e] == Dist(envs, e) && (e in envs ==> e in distance))
    && (forall e {:trigger UpstreamName(envs, e)} {:trigger Waiting(envs, e)} | e in rest ::
          Waiting(envs, e) && (UpstreamName(envs, e) !in envs ==> UpstreamName(envs, e) in tmp))
  }

  lemma StartSettles(envs: Configs, tmp: map<string, nat>, distance: map<string, nat>, rest: seq<string>, seen: seq<string>,
                     e: string, d: nat)
    requires Starting(envs, tmp, distance, rest, seen) && e !in seen
    requires Grounded(envs, e) && d == Dist(envs, e)
    ensures Starting(envs, tmp[e := d], distance[e := d], rest, seen + [e])
  {
  }

  lemma StartWaits(envs: Configs, tmp: map<string, nat>, distance: map<string, nat>, rest: seq<string>, seen: seq<string>, e: string)
    requires Starting(envs, tmp, distance, rest, seen) && e in envs && e !in seen && Waiting(envs, e)
    ensures var u := UpstreamName(envs, e);
            Starting(envs, if u in envs then tmp else tmp[u := UNDEFINED], distance, rest + [e], seen + [e])
  {
    var u := UpstreamName(envs, e);
    if u !in envs {
      DistIsWithin(envs, u, 1);
    }
  }

  /** The first sweep: settle the ends of chains, remember everything else. */
  method FirstPass(envs: Configs, sequence: seq<string>)
    returns (tmp: map<string, nat>, distance: map<string, nat>, rest: seq<string>)
    requires NoDuplicates(sequence)
    requires forall e :: e in sequence <==> e in envs
    ensures Consistent(envs, tmp, distance)
    ensures Worklist(envs, distance, rest)
    ensures Exact(envs, tmp, distance)
  {
    tmp, distance, rest := map[], map[], [];
    for i := 0 to |sequence|
      invariant Starting(envs, tmp, distance, rest, sequence[..i])
    {
      var e := sequence[i];
      assert e in sequence && e !in sequence[..i];
      assert sequence[..i + 1] == sequence[..i] + [e];
      DistEquations(envs, e);
      match UpstreamOf(envs, e)
      case Some(Latest) =>
        StartSettles(envs, tmp, distance, rest, sequence[..i], e, 0);
        distance, tmp := distance[e := 0], tmp[e := 0];
      case None =>
        StartSettles(envs, tmp, distance, rest, sequence[..i], e, NO_UPSTREAM);
        distance, tmp := distance[e := NO_UPSTREAM], tmp[e := NO_UPSTREAM];
      case Some(From(u)) =>
        StartWaits(envs, tmp, distance, rest, sequence[..i], e);
        if u !in envs {
          tmp := tmp[u := UNDEFINED];
        }
        rest := rest + [e];
    }
    assert sequence[..|sequence|] == sequence;
    Started(envs, tmp, distance, rest, sequence);
  }

  lemma Started(envs: Configs, tmp: map<string, nat>, distance: map<string, nat>, rest: seq<string>, sequence: seq<string>)
    requires forall e :: e in sequence <==> e in envs
    requires Starting(envs, tmp, distance, rest, sequence)
    ensures Consistent(envs, tmp, distance) && Worklist(envs, distance, rest) && Exact(envs, tmp, distance)
  {
    assert forall e | e in envs && e !in distance :: e in rest;
  }

  /** A sweep that has kept every entry so far has found none of their upstreams. */
  ghost predicate Idle(envs: Configs, tmp: map<string, nat>, done: seq<string>, rest: seq<string>, i: nat) {
    |done| == i <= |rest| ==> done == rest[..i] && forall j | 0 <= j < i :: UpstreamName(envs, rest[j]) !in tmp
  }

  /** Where a sweep stands before entry `i`: `done` are the entries before it that stay in the worklist. */
  ghost predicate Sweeping(envs: Configs, cyclic: set<string>, tmp: map<string, nat>, distance: map<string, nat>,
                           done: seq<string>, rest: seq<string>, i: nat, broken: bool) {
    && i <= |rest|
    && |done| <= i
    && Consistent(envs, tmp, distance)
    && Worklist(envs, distance, done + rest[i..])
    && if broken then done == [] && Broken(envs, cyclic, tmp, distance, i) else Exact(envs, tmp, distance)
  }

  /** One sweep over the worklist; what it settles is visible to the entries after it. */
  method Pass(envs: Configs, tmp0: map<string, nat>, distance0: map<string, nat>, rest: seq<string>,
              ghost broken: bool, ghost cyclic: set<string>)
    returns (tmp: map<string, nat>, distance: map<string, nat>, nextRest: seq<string>)
    requires Sweeping(envs, cyclic, tmp0, distance0, [], rest, 0, broken)
    ensures Sweeping(envs, cyclic, tmp, distance, nextRest, rest, |rest|, broken)
    ensures Idle(envs, tmp, nextRest, rest, |rest|)
  {
    tmp, distance, nextRest := tmp0, distance0, [];
    for i := 0 to |rest|
      invariant Sweeping(envs, cyclic, tmp, distance, nextRest, rest, i, broken)
      invariant Idle(envs, tmp, nextRest, rest, i)
    {
      var e := rest[i];
      var u := UpstreamName(envs, e);
      if u in tmp {
        SweepSettles(envs, cyclic, tmp, distance, nextRest, rest, i, broken);
        var d := tmp[u] + 1;
        tmp := tmp[e := d];
        distance := distance[e := d];
      } else {
        SweepKeeps(envs, cyclic, tmp, distance, nextRest, rest, i, broken);
        nextRest := nextRest + [e];
      }
    }
  }

  lemma SweepSettles(envs: Configs, cyclic: set<string>, tmp: map<string, nat>, distance: map<string, nat>,
                     done: seq<string>, rest: seq<string>, i: nat, broken: bool)
    requires i < |rest| && Sweeping(envs, cyclic, tmp, distance, done, rest, i, broken)
    requires UpstreamName(envs, rest[i]) in tmp
    ensures var e := rest[i];
            var d := tmp[UpstreamName(envs, e)] + 1;
            Sweeping(envs, cyclic, tmp[e := d], distance[e := d], done, rest, i + 1, broken)
  {
    var e := rest[i];
    Unfinished(envs, distance, done, rest, i, tmp[UpstreamName(envs, e)] + 1);
    if broken {
      BrokenStep(envs, cyclic, tmp, distance, i, e);
    } else {
      ExactStep(envs, tmp, distance, e);
    }
  }

  lemma SweepKeeps(envs: Configs, cyclic: set<string>, tmp: map<string, nat>, distance: map<string, nat>,
                   done: seq<string>, rest: seq<string>, i: nat, broken: bool)
    requires i < |rest| && Sweeping(envs, cyclic, tmp, distance, done, rest, i, broken)
    requires UpstreamName(envs, rest[i]) !in tmp
    requires Idle(envs, tmp, done, rest, i)
    ensures !broken && Sweeping(envs, cyclic, tmp, distance, done + [rest[i]], rest, i + 1, broken)
    ensures Idle(envs, tmp, done + [rest[i]], rest, i + 1)
  {
    assert rest[..i + 1] == rest[..i] + [rest[i]];
    Unfinished(envs, distance, done, rest, i, 0);
  }

  lemma Unfinished(envs: Configs, distance: map<string, nat>, done: seq<string>, rest: seq<string>, i: nat, d: nat)
    requires i < |rest| && Worklist(envs, distance, done + rest[i..])
    ensures Waiting(envs, rest[i]) || rest[i] in envs
    ensures rest[i] in envs && rest[i] !in distance
    ensures Worklist(envs, distance[rest[i] := d], done + rest[i + 1..])
    ensures Worklist(envs, distance, done + [rest[i]] + rest[i + 1..])
  {
    var todo, k := done + rest[i..], |done|;
    assert todo[k] == rest[i] && todo[k] in todo;
    assert done + rest[i + 1..] == todo[..k] + todo[k + 1..];
    assert done + [rest[i]] + rest[i + 1..] == todo;
    Drop(todo, k);
  }

  lemma Drop<T>(s: seq<T>, k: nat)
    requires k < |s| && NoDuplicates(s)
    ensures var t := s[..k] + s[k + 1..];
            NoDuplicates(t) && forall x :: x in t <==> x in s && x != s[k]
  {
    var t := s[..k] + s[k + 1..];
    forall x | x in s && x != s[k] ensures x in t {
      var j :| 0 <= j < |s| && s[j] == x;
      if j < k { assert t[j] == x; } else { assert t[j - 1] == x; }
    }
  }

  lemma ExactStep(envs: Configs, tmp: map<string, nat>, distance: map<string, nat>, e: string)
    requires Consistent(envs, tmp, distance) && Exact(envs, tmp, distance)
    requires e in envs && e !in distance && UpstreamName(envs, e) in tmp
    ensures var d := tmp[UpstreamName(envs, e)] + 1;
            Consistent(envs, tmp[e := d], distance[e := d]) && Exact(envs, tmp[e := d], distance[e := d])
  {
    GroundedStep(envs, e, UpstreamName(envs, e));
  }

  lemma BrokenStep(envs: Configs, cyclic: set<string>, tmp: map<string, nat>, distance: map<string, nat>, i: nat, e: string)
    requires Consistent(envs, tmp, distance) && Broken(envs, cyclic, tmp, distance, i)
    requires e in envs && e !in distance
    ensures UpstreamName(envs, e) in tmp
    ensures var d := tmp[UpstreamName(envs, e)] + 1;
            Consistent(envs, tmp[e := d], distance[e := d]) && Broken(envs, cyclic, tmp[e := d], distance[e := d], i + 1)
  {
    assert e in cyclic;
  }

  /** When a sweep settles nothing, every entry waits for another one, so all of them run into a cycle. */
  lemma StuckIsCyclic(envs: Configs, tmp: map<string, nat>, distance: map<string, nat>)
    requires Consistent(envs, tmp, distance) && Exact(envs, tmp, distance)
    requires forall e {:trigger UpstreamName(envs, e)} | e in envs && e !in distance :: UpstreamName(envs, e) !in tmp
    ensures forall e | e in envs && e !in distance :: e in Cyclic(envs)
    ensures forall e {:trigger UpstreamName(envs, e)} | e in envs && e !in distance :: UpstreamName(envs, e) in envs && UpstreamName(envs, e) !in distance
    ensures forall e | e in distance :: e !in Cyclic(envs)
  {
    forall e | e in envs && e !in distance ensures e in Cyclic(envs) {
      forall n: nat ensures DistanceWithin(envs, e, n).None? {
        StuckWithin(envs, tmp, distance, e, n);
      }
    }
  }

  lemma {:induction false} StuckWithin(envs: Configs, tmp: map<string, nat>, distance: map<string, nat>, e: string, n: nat)
    requires Consistent(envs, tmp, distance) && Exact(envs, tmp, distance)
    requires forall e {:trigger UpstreamName(envs, e)} | e in envs && e !in distance :: UpstreamName(envs, e) !in tmp
    requires e in envs && e !in distance
    ensures DistanceWithin(envs, e, n).None?
    decreases n
  {
    if n > 0 {
      var u := UpstreamName(envs, e);
      assert Waiting(envs, e) && u in envs && u !in distance;
      StuckWithin(envs, tmp, distance, u, n - 1);
    }
  }

  /** To avoid an endless loop, the upstreams of everything left get an arbitrary distance. */
  method BreakCycle(envs: Configs, tmp0: map<string, nat>, rest: seq<string>) returns (tmp: map<string, nat>)
    ensures forall x | x in tmp0 && (forall j | 0 <= j < |rest| :: UpstreamName(envs, rest[j]) != x) ::
              x in tmp && tmp[x] == tmp0[x]
    ensures forall x | x in tmp :: (x in tmp0 && tmp[x] == tmp0[x]) || tmp[x] == UNDEFINED
    ensures forall j | 0 <= j < |rest| :: UpstreamName(envs, rest[j]) in tmp && tmp[UpstreamName(envs, rest[j])] == UNDEFINED
  {
    tmp := tmp0;
    for i := 0 to |rest|
      invariant forall x | x in tmp0 && (forall j | 0 <= j < i :: UpstreamName(envs, rest[j]) != x) ::
                  x in tmp && tmp[x] == tmp0[x]
      invariant forall x | x in tmp :: (x in tmp0 && tmp[x] == tmp0[x]) || tmp[x] == UNDEFINED
      invariant forall j | 0 <= j < i :: UpstreamName(envs, rest[j]) in tmp && tmp[UpstreamName(envs, rest[j])] == UNDEFINED
    {
      tmp := tmp[UpstreamName(envs, rest[i]) := UNDEFINED];
    }
  }

  lemma CycleBroken(envs: Configs, tmp0: map<string, nat>, tmp: map<string, nat>, distance: map<string, nat>, rest: seq<string>)
    requires Consistent(envs, tmp0, distance) && Worklist(envs, distance, rest) && Exact(envs, tmp0, distance)
    requires forall j | 0 <= j < |rest| :: UpstreamName(envs, rest[j]) !in tmp0
    requires forall x | x in tmp0 && (forall j | 0 <= j < |rest| :: UpstreamName(envs, rest[j]) != x) ::
               x in tmp && tmp[x] == tmp0[x]
    requires forall x | x in tmp :: (x in tmp0 && tmp[x] == tmp0[x]) || tmp[x] == UNDEFINED
    requires forall j | 0 <= j < |rest| :: UpstreamName(envs, rest[j]) in tmp
    ensures Consistent(envs, tmp, distance) && Broken(envs, Cyclic(envs), tmp, distance, 0)
  {
    var cyclic := Cyclic(envs);
    forall e | e in envs && e !in distance ensures UpstreamName(envs, e) !in tmp0 && UpstreamName(envs, e) in tmp {
      assert e in rest;
    }
    StuckIsCyclic(envs, tmp0, distance);
    assert forall x | x in tmp0 :: x in tmp && tmp[x] == tmp0[x];
    assert forall e | e in distance :: e !in cyclic && DistanceOk(envs, e, distance[e]);
    assert forall e | e in cyclic :: e !in distance && e !in tmp0;
  }

  /** Only environments that reach a cycle are left when nothing moves any more. */
  lemma StuckBound(envs: Configs, tmp: map<string, nat>, distance: map<string, nat>, rest: seq<string>)
    requires Consistent(envs, tmp, distance) && Worklist(envs, distance, rest) && Exact(envs, tmp, distance)
    requires forall j | 0 <= j < |rest| :: UpstreamName(envs, rest[j]) !in tmp
    ensures |rest| <= |Cyclic(envs)|
  {
    forall e | e in envs && e !in distance ensures UpstreamName(envs, e) !in tmp {
      assert e in rest;
    }
    StuckIsCyclic(envs, tmp, distance);
    DistinctBound(rest, Cyclic(envs));
  }

  lemma {:induction false} DistinctBound<T>(s: seq<T>, bound: set<T>)
    requires NoDuplicates(s) && forall x | x in s :: x in bound
    ensures |s| <= |bound|
  {
    if s != [] {
      assert forall x | x in s[1..] :: x in s && x != s[0];
      DistinctBound(s[1..], bound - {s[0]});
    }
  }

  /**
   The worklist loop of MapEnvironmentsToGroups. `sequence` lists every environment once, in the order of
   the buckets and of the map iteration that filled them.
   */
  method Distances(envs: Configs, sequence: seq<string>) returns (distance: map<string, nat>)
    requires NoDuplicates(sequence)
    requires forall e :: e in sequence <==> e in envs
    ensures distance.Keys == envs.Keys
    ensures forall e | e in envs :: DistanceOk(envs, e, distance[e])
  {
    var tmp: map<string, nat>, rest;
    tmp, distance, rest := FirstPass(envs, sequence);
    ghost var broken, cyclic := false, Cyclic(envs);
    ghost var size: nat := 0;
    while |rest| > 0
      invariant Consistent(envs, tmp, distance) && Worklist(envs, distance, rest)
      invariant !broken ==> Exact(envs, tmp, distance)
      invariant broken ==> size <= |cyclic| && Broken(envs, cyclic, tmp, distance, if rest == [] then size else 0)
      invariant broken && rest != [] ==> size == |rest|
      decreases |rest|, if broken then 0 else 1
    {
      assert [] + rest[0..] == rest;
      var nextRest;
      tmp, distance, nextRest := Pass(envs, tmp, distance, rest, broken, cyclic);
      assert nextRest + rest[|rest|..] == nextRest;
      if |rest| == |nextRest| {
        ghost var before := tmp;
        tmp := BreakCycle(envs, tmp, rest);
        CycleBroken(envs, before, tmp, distance, rest);
        StuckBound(envs, before, distance, rest);
        broken, size := true, |rest|;
      }
      rest := nextRest;
    }
    AllSettled(envs, tmp, distance, broken, size);
  }

  lemma AllSettled(envs: Configs, tmp: map<string, nat>, distance: map<string, nat>, broken: bool, size: nat)
    requires Consistent(envs, tmp, distance) && Worklist(envs, distance, [])
    requires if broken then size <= |Cyclic(envs)| && Broken(envs, Cyclic(envs), tmp, distance, size)
             else Exact(envs, tmp, distance)
    ensures distance.Keys == envs.Keys
    ensures forall e | e in envs :: DistanceOk(envs, e, distance[e])
  {
    var rest: seq<string> := [];
    assert forall e | e in envs && e !in distance :: e in rest;
    forall e | e in envs ensures DistanceOk(envs, e, distance[e]) {
      if !broken {
        assert e in tmp;
      }
    }
  }
}
