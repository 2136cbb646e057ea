/** Removing an application: when it is possible, as the overview's summary tells, and what it leaves behind. */
module Undeploying {
  import opened Deployment
  import opened Invariants

  datatype UndeploySummary = Normal | AllUndeploy | Mixed

  /** An application in an environment as the overview shows it; version 0 stands for none. */
  datatype ShownApp = ShownApp(version: nat, undeployVersion: bool)

  type ShownEnvironment = map<string, ShownApp>

  /** What counts for the summary: the application is there and something is deployed. */
  predicate Counts(env: ShownEnvironment, app: string) {
    app in env && env[app].version != 0
  }

  predicate AllShown(groups: seq<seq<ShownEnvironment>>, app: string, undeploy: bool) {
    forall i, j | 0 <= i < |groups| && 0 <= j < |groups[i]| ::
      Counts(groups[i][j], app) ==> groups[i][j][app].undeployVersion == undeploy
  }

  method DeriveUndeploySummary(app: string, groups: seq<seq<ShownEnvironment>>) returns (r: UndeploySummary)
    ensures r == AllUndeploy <==> AllShown(groups, app, true)
    ensures r == Normal <==> !AllShown(groups, app, true) && AllShown(groups, app, false)
  {
    var allNormal, allUndeploy := true, true;
    for i := 0 to |groups|
      invariant allUndeploy <==> AllShown(groups[..i], app, true)
      invariant allNormal <==> AllShown(groups[..i], app, false)
    {
      var group := groups[i];
      for j := 0 to |group|
        invariant allUndeploy <==> AllShown(groups[..i], app, true) && forall k | 0 <= k < j :: Counts(group[k], app) ==> group[k][app].undeployVersion
        invariant allNormal <==> AllShown(groups[..i], app, false) && forall k | 0 <= k < j :: Counts(group[k], app) ==> !group[k][app].undeployVersion
      {
        if app in group[j] && group[j][app].version != 0 {
          if group[j][app].undeployVersion {
            allNormal := false;
          } else {
            allUndeploy := false;
          }
        }
      }
      ShownStep(groups, i, app, true);
      ShownStep(groups, i, app, false);
    }
    assert groups[..|groups|] == groups;
    r := if allUndeploy then AllUndeploy else if allNormal then Normal else Mixed;
  }

  lemma ShownStep(groups: seq<seq<ShownEnvironment>>, i: nat, app: string, undeploy: bool)
    requires i < |groups|
    ensures AllShown(groups[..i + 1], app, undeploy) <==>
            AllShown(groups[..i], app, undeploy)
            && forall k | 0 <= k < |groups[i]| :: Counts(groups[i][k], app) ==> groups[i][k][app].undeployVersion == undeploy
  {
    assert forall k | 0 <= k < i :: groups[..i][k] == groups[k] && groups[..i + 1][k] == groups[k];
    assert groups[..i + 1][i] == groups[i];
  }

  /** The overview reads a dangling link like no link. */
  function Shown(w: World, env: string, app: string): ShownApp {
    match ReadVersion(w, env, app)
    case Ok(Some(v)) => ShownApp(v, Releases(w, app)[v].undeploy)
    case _ => ShownApp(0, false)
  }

  function ShownApps(w: World, env: string): ShownEnvironment {
    map a | a in EnvOf(w, env).apps :: Shown(w, env, a)
  }

  /** The environment is shown at some place of the overview. */
  ghost predicate Appears(w: World, groups: seq<seq<ShownEnvironment>>, e: string) {
    exists i, j :: 0 <= i < |groups| && 0 <= j < |groups[i]| && groups[i][j] == ShownApps(w, e)
  }

  /** What is shown is some environment of the repository. */
  ghost predicate ShowsSome(w: World, shown: ShownEnvironment) {
    exists e :: e in w.envs && shown == ShownApps(w, e)
  }

  /** The groups show every environment of the repository, and nothing else. */
  ghost predicate IsOverview(w: World, groups: seq<seq<ShownEnvironment>>) {
    && (forall e | e in w.envs :: Appears(w, groups, e))
    && (forall i, j | 0 <= i < |groups| && 0 <= j < |groups[i]| :: ShowsSome(w, groups[i][j]))
  }

  /** The overview does not show this link, but the removal looks at it: it dangles, or it names a release 0. */
  predicate Hidden(w: World, env: string, app: string) {
    match EnvAppOf(w, env, app).version
    case None => false
    case Some(v) => v !in Releases(w, app) || (v == 0 && !Releases(w, app)[v].undeploy)
  }

  ghost predicate NoneHidden(w: World, app: string) {
    forall e | e in w.envs :: !Hidden(w, e, app)
  }

  ghost predicate AllUndeployed(w: World, app: string) {
    forall e | e in w.envs :: UndeployedIn(w, e, app)
  }

  /** One environment: undeployed there means what the overview shows of it. */
  lemma ShownLink(w: World, e: string, app: string)
    requires e in w.envs
    ensures UndeployedIn(w, e, app) <==>
            !Hidden(w, e, app) && (Counts(ShownApps(w, e), app) ==> ShownApps(w, e)[app].undeployVersion)
  {
  }

  lemma ShownThenUndeployed(w: World, groups: seq<seq<ShownEnvironment>>, app: string)
    requires IsOverview(w, groups) && NoneHidden(w, app) && AllShown(groups, app, true)
    ensures AllUndeployed(w, app)
  {
    forall e | e in w.envs ensures UndeployedIn(w, e, app) {
      assert Appears(w, groups, e);
      var i, j :| 0 <= i < |groups| && 0 <= j < |groups[i]| && groups[i][j] == ShownApps(w, e);
      ShownLink(w, e, app);
    }
  }

  lemma UndeployedThenShown(w: World, groups: seq<seq<ShownEnvironment>>, app: string)
    requires IsOverview(w, groups) && AllUndeployed(w, app)
    ensures NoneHidden(w, app) && AllShown(groups, app, true)
  {
    forall e | e in w.envs ensures !Hidden(w, e, app) {
      ShownLink(w, e, app);
    }
    forall i, j | 0 <= i < |groups| && 0 <= j < |groups[i]|
      ensures Counts(groups[i][j], app) ==> groups[i][j][app].undeployVersion
    {
      assert ShowsSome(w, groups[i][j]);
      var e :| e in w.envs && groups[i][j] == ShownApps(w, e);
      ShownLink(w, e, app);
    }
  }

  /**
   An application can be removed exactly if its newest release is an undeploy version, the overview sums it up
   as undeployed, and the overview hides no version link of it.
   */
  lemma UndeploySucceedsIff(w: World, groups: seq<seq<ShownEnvironment>>, app: string)
    requires Decodable(w) && IsOverview(w, groups)
    ensures UndeployApplication(w, app).Ok? <==>
            && LastRelease(w, app) != 0
            && Releases(w, app)[LastRelease(w, app)].undeploy
            && AllShown(groups, app, true)
            && NoneHidden(w, app)
  {
    if AllShown(groups, app, true) && NoneHidden(w, app) {
      ShownThenUndeployed(w, groups, app);
    }
    if AllUndeployed(w, app) {
      UndeployedThenShown(w, groups, app);
    }
    assert UndeployTargets(w) == w.envs.Keys;
  }

  /** Links that lead to a release other than 0, as the invariant gives for deployed ones, are never hidden. */
  lemma LinkedIsShown(w: World, app: string)
    requires NoDangling(w) && 0 !in Releases(w, app)
    ensures NoneHidden(w, app)
  {
    forall e | e in w.envs ensures !Hidden(w, e, app) {
      assert !Dangles(w, app, EnvAppOf(w, e, app).version);
    }
  }

  /** The last condition is needed: a dangling link is not shown, but it stops the removal. */
  lemma DanglingLinkStopsUndeploy(w: World, app: string, env: string)
    requires Decodable(w) && Dangles(w, app, EnvAppOf(w, env, app).version)
    ensures UndeployApplication(w, app).Err?
    ensures Shown(w, env, app) == ShownApp(0, false)
  {
    assert env in UndeployTargets(w) && !UndeployedIn(w, env, app);
  }

  /** After the removal nothing of the application is left, and every other application is as it was. */
  lemma UndeployLeavesNothing(w: World, app: string)
    requires Decodable(w) && UndeployApplication(w, app).Ok?
    ensures var w' := UndeployApplication(w, app).value;
            && app !in w'.apps
            && (forall e :: app !in EnvOf(w', e).apps)
            && (forall a | a != app :: (a in w'.apps <==> a in w.apps) && (a in w.apps ==> w'.apps[a] == w.apps[a]))
            && (forall e, a {:trigger EnvAppOf(w', e, a)} | a != app ::
                  EnvAppOf(w', e, a) == EnvAppOf(w, e, a) && (a in EnvOf(w', e).apps <==> a in EnvOf(w, e).apps))
            && (forall e :: EnvOf(w', e).locks == EnvOf(w, e).locks && EnvOf(w', e).config == EnvOf(w, e).config)
            && w'.envs.Keys == w.envs.Keys
  {
    assert UndeployTargets(w) == w.envs.Keys;
  }

  /**
   With an undecodable configuration the checks are skipped: the removal then leaves every version link of
   the application dangling, so it is sound exactly if the configurations are readable or there is no link.
   */
  lemma UndeploySoundIff(w: World, app: string)
    requires NoDangling(w) && UndeployApplication(w, app).Ok?
    ensures NoDangling(UndeployApplication(w, app).value) <==>
            Decodable(w) || forall e :: EnvAppOf(w, e, app).version.None?
  {
    var w' := UndeployApplication(w, app).value;
    if Decodable(w) {
      UndeployIsSafe(w, app);
    } else {
      assert w'.envs == w.envs;
      forall e, a ensures EnvAppOf(w', e, a) == EnvAppOf(w, e, a) {}
      assert Releases(w', app) == map[];
      if e :| EnvAppOf(w, e, app).version.Some? {
        assert Dangles(w', app, EnvAppOf(w', e, app).version);
      } else {
        forall e, a ensures !Dangles(w', a, EnvAppOf(w', e, a).version) {
          assert !Dangles(w, a, EnvAppOf(w, e, a).version);
        }
      }
    }
  }

  /** Such a removal alone is never committed. */
  lemma UnsoundUndeployIsNotCommitted(w: World, app: string)
    requires !Decodable(w)
    ensures ApplyTransformers(w, [Undeploy(app)]).Err?
  {
    var batch := [Undeploy(app)];
    assert batch[1..] == [];
    if UndeployApplication(w, app).Ok? {
      var e :| e in w.envs && w.envs[e].config.Undecodable?;
      assert UndeployApplication(w, app).value.envs[e].config.Undecodable?;
      assert !Decodable(UndeployApplication(w, app).value);
      assert ApplyInternal(w, batch) == ApplyInternal(UndeployApplication(w, app).value, []);
    }
  }
}
