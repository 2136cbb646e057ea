/**
 Which releases cleanup removes and keeps: what is deployed, what is newer, and 19 older ones stay, and a second
 cleanup removes nothing.
 */
module Cleanup {
  import opened Config
  import opened Deployment
  import opened Finite
  import opened Invariants

  ghost function Above(s: set<nat>, v: nat): set<nat> {
    set u | u in s && v < u
  }

  /** The elements with fewer than `k` greater ones. */
  ghost function Top(s: set<nat>, k: nat): set<nat> {
    set v | v in s && |Above(s, v)| < k
  }

  lemma {:induction false} TopSize(s: set<nat>, k: nat)
    ensures |Top(s, k)| == if |s| < k then |s| else k
    decreases |s|
  {
    if s == {} {
      assert Top(s, k) == {};
    } else {
      var m := Least(s);
      var rest := s - {m};
      TopSize(rest, k);
      assert Above(s, m) == rest;
      forall v | v in rest ensures Above(s, v) == Above(rest, v) {}
      assert Top(s, k) == Top(rest, k) + if |rest| < k then {m} else {};
    }
  }

  lemma Subset(s: set<nat>, t: set<nat>)
    requires s <= t
    ensures |s| <= |t|
  {
    assert t == s + (t - s);
  }

  /** The releases below the oldest deployed version. */
  ghost function Below(w: World, app: string): set<nat>
    requires Releases(w, app) != map[]
  {
    set v | v in Releases(w, app) && v < OldestDeployed(w, app)
  }

  lemma OldIsBelowTop(w: World, app: string)
    requires Releases(w, app) != map[]
    ensures OldVersions(w, app) == Below(w, app) - Top(Below(w, app), 19)
  {
    forall v | v in Below(w, app) ensures Between(w, app, v) == Above(Below(w, app), v) {}
  }

  lemma OldestIsRelease(w: World, app: string)
    requires Releases(w, app) != map[] && !VersionDangles(w, app)
    ensures OldestDeployed(w, app) in Releases(w, app)
    ensures OldestDeployed(w, app) <= LastRelease(w, app)
    ensures forall e | EnvAppOf(w, e, app).version.Some? :: OldestDeployed(w, app) <= EnvAppOf(w, e, app).version.value
  {
    forall e | EnvAppOf(w, e, app).version.Some?
      ensures OldestDeployed(w, app) <= EnvAppOf(w, e, app).version.value
    {
      DeployedOf(w, e, app);
    }
  }

  ghost function Kept(w: World, app: string): set<nat> {
    Releases(CleanupOldApplicationVersions(w, app).world, app).Keys
  }

  lemma KeptAreNotOld(w: World, app: string)
    requires Decodable(w) && Releases(w, app) != map[] && !VersionDangles(w, app)
    ensures CleanupOldApplicationVersions(w, app).error.None?
    ensures Kept(w, app) == Releases(w, app).Keys - OldVersions(w, app)
  {
  }

  lemma TopIsNewest(s: set<nat>, k: nat, v: nat, t: nat)
    requires t in Top(s, k) && v in s - Top(s, k)
    ensures v < t
  {
    if v >= t {
      Subset(Above(s, v), Above(s, t));
    }
  }

  /**
   Cleanup removes nothing from the oldest deployed version on, keeps the 19 releases below it (all of them
   if there are fewer) and these are the newest, leaves at least 20 releases if it removes any, and never
   removes the newest.
   */
  lemma CleanupKeeps(w: World, app: string)
    requires Decodable(w) && Releases(w, app) != map[] && !VersionDangles(w, app)
    ensures CleanupOldApplicationVersions(w, app).error.None?
    ensures Kept(w, app) <= Releases(w, app).Keys
    ensures forall v | v in Releases(w, app) && OldestDeployed(w, app) <= v :: v in Kept(w, app)
    ensures |Below(w, app) * Kept(w, app)| == if |Below(w, app)| < 19 then |Below(w, app)| else 19
    ensures forall v, k | v in Below(w, app) - Kept(w, app) && k in Below(w, app) * Kept(w, app) :: v < k
    ensures Kept(w, app) != Releases(w, app).Keys ==> |Kept(w, app)| >= 20
    ensures LastRelease(w, app) in Kept(w, app)
  {
    var below := Below(w, app);
    KeptAreNotOld(w, app);
    OldIsBelowTop(w, app);
    OldestIsRelease(w, app);
    TopSize(below, 19);
    KeptBelow(w, app);
    forall v, k | v in below - Kept(w, app) && k in below * Kept(w, app) ensures v < k {
      TopIsNewest(below, 19, v, k);
    }
    if Kept(w, app) != Releases(w, app).Keys {
      AtLeastTwenty(w, app);
    }
  }

  lemma AtLeastTwenty(w: World, app: string)
    requires Decodable(w) && Releases(w, app) != map[] && !VersionDangles(w, app)
    requires Kept(w, app) != Releases(w, app).Keys
    ensures |Kept(w, app)| >= 20
  {
    KeptBelow(w, app);
    OldestIsRelease(w, app);
    KeptAreNotOld(w, app);
    var v :| v in OldVersions(w, app);
    OldIsBelowTop(w, app);
    TopIsFull(Below(w, app), 19, v);
    OneMore(Below(w, app) * Kept(w, app), OldestDeployed(w, app), Kept(w, app));
  }

  lemma OneMore(s: set<nat>, x: nat, t: set<nat>)
    requires s <= t && x in t && x !in s
    ensures |t| >= |s| + 1
  {
    Subset(s + {x}, t);
  }

  lemma KeptBelow(w: World, app: string)
    requires Decodable(w) && Releases(w, app) != map[] && !VersionDangles(w, app)
    ensures Below(w, app) * Kept(w, app) == Top(Below(w, app), 19)
  {
    KeptAreNotOld(w, app);
    OldIsBelowTop(w, app);
  }

  lemma TopIsFull(s: set<nat>, k: nat, v: nat)
    requires v in s && v !in Top(s, k)
    ensures |Top(s, k)| == k
  {
    TopSize(s, k);
    Subset(Above(s, v), s);
  }

  /** Cleanup changes nothing but the releases of its application, and of those it keeps the content. */
  lemma CleanupFrame(w: World, app: string)
    ensures var w' := CleanupOldApplicationVersions(w, app).world;
            && w'.envs == w.envs
            && (forall a | a != app :: Releases(w', a) == Releases(w, a))
            && (forall a :: TeamOf(w', a) == TeamOf(w, a))
            && w'.apps.Keys == w.apps.Keys
            && (forall v | v in Releases(w', app) :: v in Releases(w, app) && Releases(w', app)[v] == Releases(w, app)[v])
  {
  }

  /** What OldVersions depends on. */
  lemma OldVersionsCongruent(w: World, w': World, app: string)
    requires Releases(w', app).Keys == Releases(w, app).Keys
    requires Deployed(w', app) == Deployed(w, app)
    ensures OldVersions(w', app) == OldVersions(w, app)
    ensures LastRelease(w', app) == LastRelease(w, app)
  {
    if Releases(w, app) != map[] {
      assert Releases(w', app).Keys != {};
      forall v ensures Between(w', app, v) == Between(w, app, v) {}
    }
  }

  lemma SameDeployed(w: World, w': World, app: string)
    requires w'.envs == w.envs
    ensures Deployed(w', app) == Deployed(w, app)
  {
    assert forall e :: EnvAppOf(w', e, app) == EnvAppOf(w, e, app);
  }

  lemma GreatestOfPart(s: set<nat>, t: set<nat>)
    requires t <= s && Greatest(s) in t
    ensures Greatest(t) == Greatest(s)
  {
  }

  /** Cleanup leaves the oldest and the newest release that matter where they are. */
  lemma CleanupKeepsOldest(w: World, app: string)
    requires Decodable(w) && Releases(w, app) != map[] && !VersionDangles(w, app)
    ensures var w' := CleanupOldApplicationVersions(w, app).world;
            && Releases(w', app) != map[]
            && LastRelease(w', app) == LastRelease(w, app)
            && OldestDeployed(w', app) == OldestDeployed(w, app)
            && Below(w', app) == Top(Below(w, app), 19)
  {
    var w' := CleanupOldApplicationVersions(w, app).world;
    CleanupKeeps(w, app);
    SameDeployed(w, w', app);
    GreatestOfPart(Releases(w, app).Keys, Releases(w', app).Keys);
    KeptBelow(w, app);
  }

  lemma TopOfTop(s: set<nat>, k: nat)
    ensures Top(Top(s, k), k) == Top(s, k)
  {
    forall v | v in Top(s, k) ensures v in Top(Top(s, k), k) {
      Subset(Above(Top(s, k), v), Above(s, v));
    }
  }

  lemma CleanupKeepsTargets(w: World, app: string)
    requires !VersionDangles(w, app)
    ensures !VersionDangles(CleanupOldApplicationVersions(w, app).world, app)
  {
    var w' := CleanupOldApplicationVersions(w, app).world;
    forall e | e in w'.envs ensures !Dangles(w', app, EnvAppOf(w', e, app).version) {
      assert EnvAppOf(w', e, app) == EnvAppOf(w, e, app);
      assert !Dangles(w, app, EnvAppOf(w, e, app).version);
      if EnvAppOf(w, e, app).version.Some? {
        DeployedIsNotOld(w, e, app);
      }
    }
  }

  /** Removing what is old makes nothing else old. */
  lemma CleanupIdempotent(w: World, app: string)
    requires Decodable(w) && !VersionDangles(w, app)
    ensures var w' := CleanupOldApplicationVersions(w, app).world;
            && OldVersions(w', app) == {}
            && CleanupOldApplicationVersions(w', app) == Attempt(w', None)
  {
    var w' := CleanupOldApplicationVersions(w, app).world;
    if Releases(w, app) != map[] {
      CleanupKeepsOldest(w, app);
      OldIsBelowTop(w', app);
      TopOfTop(Below(w, app), 19);
      CleanupKeepsTargets(w, app);
    }
  }
}
