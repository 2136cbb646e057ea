/** Creating releases and cleaning them up: a release that was created stays, one that was cleaned up cannot come back. */
module Releasing {
  import opened Cleanup
  import opened Config
  import opened Deployment
  import Rbac

  lemma LastIsNotOld(w: World, app: string)
    ensures LastRelease(w, app) !in OldVersions(w, app)
  {
  }

  /** `w'` has the newest release of `w` as its newest, with the same content. */
  ghost predicate SameLast(w: World, w': World, app: string) {
    && Releases(w, app) != map[]
    && Releases(w', app) != map[]
    && LastRelease(w', app) == LastRelease(w, app)
    && Releases(w', app)[LastRelease(w, app)] == Releases(w, app)[LastRelease(w, app)]
  }

  lemma CleanupSameLast(w: World, app: string)
    requires Releases(w, app) != map[]
    ensures SameLast(w, CleanupOldApplicationVersions(w, app).world, app)
  {
    LastIsNotOld(w, app);
    var w' := CleanupOldApplicationVersions(w, app).world;
    assert LastRelease(w, app) in Releases(w', app);
    GreatestOfPart(Releases(w, app).Keys, Releases(w', app).Keys);
  }

  lemma DeploySameLast(w: World, env: string, app: string, version: nat, behavior: LockBehavior)
    requires Releases(w, app) != map[]
    ensures SameLast(w, DeployApplicationVersion(w, env, app, version, behavior).world, app)
  {
    var linked := SetEnvApp(w, env, app, EnvAppOf(w, env, app).(version := Some(version)));
    var unqueued := DeleteQueuedVersion(linked, env, app);
    assert Releases(linked, app) == Releases(w, app) && Releases(unqueued, app) == Releases(w, app);
    CleanupSameLast(linked, app);
    CleanupSameLast(unqueued, app);
    var w' := DeployApplicationVersion(w, env, app, version, behavior).world;
    if Releases(w', app) != Releases(w, app) {
      assert w' == CleanupOldApplicationVersions(linked, app).world || w' == CleanupOldApplicationVersions(unqueued, app).world;
    }
  }

  function Elements(s: seq<string>): set<string> {
    set x | x in s
  }

  lemma ElementsStep(s: seq<string>)
    requires s != []
    ensures Elements(s) == {s[0]} + Elements(s[1..])
  {
    assert s == [s[0]] + s[1..];
  }

  lemma AddManifestEffect(w: World, app: string, version: nat, env: string)
    requires version in Releases(w, app)
    ensures var w' := AddManifest(w, app, version, env);
            && w'.envs == w.envs
            && Releases(w', app).Keys == Releases(w, app).Keys
            && LastRelease(w', app) == LastRelease(w, app)
            && Releases(w', app)[version] == Release(Releases(w, app)[version].undeploy, Releases(w, app)[version].manifests + {env})
  {
  }

  /** Through all nested deployments and their cleanups, the newest release stays and gets all its manifests. */
  lemma {:induction false} WriteManifestsOfLast(w: World, configs: map<string, EnvironmentConfig>, app: string, version: nat,
                                                deploy: bool, order: seq<string>)
    requires Releases(w, app) != map[] && version == LastRelease(w, app)
    requires WriteManifests(w, configs, app, version, deploy, order).Ok?
    ensures var w' := WriteManifests(w, configs, app, version, deploy, order).value;
            var r := Releases(w, app)[version];
            && version == LastRelease(w', app)
            && version in Releases(w', app)
            && Releases(w', app)[version] == Release(r.undeploy, r.manifests + Elements(order))
    decreases |order|
  {
    if order == [] {
      assert Elements(order) == {};
      var r := Releases(w, app)[version];
      assert Release(r.undeploy, r.manifests + {}) == r;
    } else {
      var written := AddManifest(w, app, version, order[0]);
      AddManifestEffect(w, app, version, order[0]);
      ElementsStep(order);
      var next := if deploy && UpstreamIsLatest(configs, order[0])
                  then DeployApplicationVersion(written, order[0], app, version, Record).world else written;
      DeploySameLast(written, order[0], app, version, Record);
      assert WriteManifests(w, configs, app, version, deploy, order) == WriteManifests(next, configs, app, version, deploy, order[1..]);
      WriteManifestsOfLast(next, configs, app, version, deploy, order[1..]);
      var r := Releases(w, app)[version];
      assert r.manifests + Elements(order) == r.manifests + {order[0]} + Elements(order[1..]);
    }
  }

  /** Without deployments only the manifests are added. */
  lemma {:induction false} WriteManifestsOnly(w: World, configs: map<string, EnvironmentConfig>, app: string, version: nat,
                                              order: seq<string>)
    requires version in Releases(w, app)
    ensures WriteManifests(w, configs, app, version, false, order).Ok?
    ensures var w' := WriteManifests(w, configs, app, version, false, order).value;
            var r := Releases(w, app)[version];
            && w'.envs == w.envs
            && Releases(w', app).Keys == Releases(w, app).Keys
            && Releases(w', app)[version] == Release(r.undeploy, r.manifests + Elements(order))
    decreases |order|
  {
    if order == [] {
      assert Elements(order) == {};
      var r := Releases(w, app)[version];
      assert Release(r.undeploy, r.manifests + {}) == r;
    } else {
      var written := AddManifest(w, app, version, order[0]);
      AddManifestEffect(w, app, version, order[0]);
      ElementsStep(order);
      WriteManifestsOnly(written, configs, app, version, order[1..]);
      var r := Releases(w, app)[version];
      assert r.manifests + Elements(order) == r.manifests + {order[0]} + Elements(order[1..]);
    }
  }

  /**
   A successful creation adds a release that was not there, with exactly the given manifests, and this
   release is not among those the next cleanup would remove.
   */
  lemma CreatedReleaseStays(w: World, app: string, version: nat, team: string, order: seq<string>)
    requires CreateApplicationVersion(w, app, version, team, order).Ok?
    ensures CalculateVersion(w, app, version).Ok?
    ensures var w' := CreateApplicationVersion(w, app, version, team, order).value;
            var v := CalculateVersion(w, app, version).value;
            && v !in Releases(w, app)
            && (version != 0 ==> v == version)
            && (version == 0 ==> forall u | u in Releases(w, app) :: u < v)
            && v in Releases(w', app)
            && Releases(w', app)[v] == Release(false, Elements(order))
            && v !in OldVersions(w', app)
            && v in Releases(CleanupOldApplicationVersions(w', app).world, app)
  {
    var w' := CreateApplicationVersion(w, app, version, team, order).value;
    var v := CalculateVersion(w, app, version).value;
    var added := AddRelease(w, app, v, false, team);
    var configs := AllConfigs(added);
    assert Release(false, {} + Elements(order)) == Release(false, Elements(order));
    assert v in Releases(added, app);
    if IsLatest(added, app, v) {
      assert LastRelease(added, app) == v;
      WriteManifestsOfLast(added, configs, app, v, true, order);
      LastIsNotOld(w', app);
    } else {
      WriteManifestsOnly(added, configs, app, v, order);
      SameDeployed(added, w', app);
      OldVersionsCongruent(added, w', app);
    }
  }

  /** The undeploy version is one above the newest release and becomes the newest itself. */
  lemma UndeployVersionIsLast(w: World, app: string, order: seq<string>)
    requires CreateUndeployApplicationVersion(w, app, order).Ok?
    ensures var w' := CreateUndeployApplicationVersion(w, app, order).value;
            && LastRelease(w', app) == LastRelease(w, app) + 1
            && LastRelease(w', app) in Releases(w', app)
            && Releases(w', app)[LastRelease(w', app)] == Release(true, Elements(order))
  {
    var v := LastRelease(w, app) + 1;
    var added := AddRelease(w, app, v, true, "");
    assert v in Releases(added, app) && LastRelease(added, app) == v;
    WriteManifestsOfLast(added, AllConfigs(added), app, v, true, order);
    assert Release(true, {} + Elements(order)) == Release(true, Elements(order));
  }

  lemma AddedBelow(w: World, app: string, v: nat, team: string)
    requires Decodable(w) && !VersionDangles(w, app) && v in OldVersions(w, app)
    ensures var added := AddRelease(CleanupOldApplicationVersions(w, app).world, app, v, false, team);
            && LastRelease(added, app) == LastRelease(w, app)
            && OldestDeployed(added, app) == OldestDeployed(w, app)
            && Between(added, app, v) == Top(Below(w, app), 19)
  {
    var w' := CleanupOldApplicationVersions(w, app).world;
    var added := AddRelease(w', app, v, false, team);
    CleanupKeepsOldest(w, app);
    OldIsBelowTop(w, app);
    KeptAreNotOld(w, app);
    SameDeployed(w', added, app);
    assert Releases(added, app).Keys == Releases(w', app).Keys + {v};
    assert LastRelease(w', app) in Releases(added, app);
    GreatestOfPart(Releases(added, app).Keys, Releases(w', app).Keys);
    forall u | u in Top(Below(w, app), 19) ensures u in Between(added, app, v) {
      TopIsNewest(Below(w, app), 19, v, u);
      assert u in Below(w', app);
    }
    forall u | u in Between(added, app, v) ensures u in Top(Below(w, app), 19) {
      assert u in Below(w', app);
    }
  }

  /** A version that cleanup has just removed cannot be created again. */
  lemma RemovedVersionIsTooOld(w: World, app: string, v: nat, team: string, order: seq<string>)
    requires Decodable(w) && !VersionDangles(w, app)
    requires v in OldVersions(w, app) && v != 0 && Rbac.ValidApplicationName(app)
    ensures var w' := CleanupOldApplicationVersions(w, app).world;
            CreateApplicationVersion(w', app, v, team, order) == Err(ReleaseTooOld)
  {
    var w' := CleanupOldApplicationVersions(w, app).world;
    var added := AddRelease(w', app, v, false, team);
    KeptAreNotOld(w, app);
    AddedBelow(w, app, v, team);
    OldIsBelowTop(w, app);
    TopIsFull(Below(w, app), 19, v);
    CleanupKeepsTargets(w, app);
    assert !VersionDangles(added, app) by {
      forall e | e in added.envs ensures !Dangles(added, app, EnvAppOf(added, e, app).version) {
        assert EnvAppOf(added, e, app) == EnvAppOf(w', e, app);
        assert !Dangles(w', app, EnvAppOf(w', e, app).version);
      }
    }
    assert v in OldVersions(added, app);
    CleanupKeepsOldest(w, app);
    assert LastRelease(w', app) in Releases(w', app) && LastRelease(w', app) in Releases(added, app);
    assert !IsLatest(added, app, v);
  }
}
