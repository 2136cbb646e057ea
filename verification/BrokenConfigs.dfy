/**
 A configuration file that cannot be decoded: exactly which transformers and requests fail with the error that says
 so, which is the one that makes the worker fetch and apply again.
 */
module BrokenConfigs {
  import opened Config
  import opened Deployment
  import opened Finite
  import Rbac

  /** The transformer gets as far as reading the configurations, and passes their error on. */
  ghost predicate PassesOn(w: World, t: Transformer) {
    match t
    case CreateVersion(app, version, _, _) => CalculateVersion(w, app, version).Ok? && Rbac.ValidApplicationName(app)
    case CreateUndeploy(app, _) => LastRelease(w, app) != 0
    case Cleanup(_) => true
    case Deploy(env, app, version, behavior) =>
      && HasManifest(w, app, version, env)
      && (behavior == Ignore || !IsLocked(w, env, app))
      && !Dangles(w, app, EnvAppOf(w, env, app).queued)
    case _ => false
  }

  lemma DeployError(w: World, env: string, app: string, version: nat, behavior: LockBehavior)
    ensures DeployApplicationVersion(w, env, app, version, behavior).error == Some(InvalidJson) <==>
            !Decodable(w) && PassesOn(w, Deploy(env, app, version, behavior))
    ensures Decodable(w) ==> Decodable(DeployApplicationVersion(w, env, app, version, behavior).world)
  {
    if HasManifest(w, app, version, env) {
      if behavior != Ignore && IsLocked(w, env, app) {
        SetEnvAppConfigs(w, env, app, EnvAppOf(w, env, app).(queued := Some(version)));
      } else {
        var x := EnvAppOf(w, env, app).(version := Some(version));
        var linked := SetEnvApp(w, env, app, x);
        SetEnvAppFrame(w, env, app, x);
        SetEnvAppConfigs(w, env, app, x);
        SetEnvAppConfigs(linked, env, app, x.(queued := None));
        CleanupError(linked, app);
        CleanupError(DeleteQueuedVersion(linked, env, app), app);
      }
    }
  }

  lemma CleanupError(w: World, app: string)
    ensures CleanupOldApplicationVersions(w, app).error == Some(InvalidJson) <==> !Decodable(w)
    ensures Decodable(CleanupOldApplicationVersions(w, app).world) <==> Decodable(w)
  {
  }

  lemma SetEnvAppConfigs(w: World, env: string, app: string, x: EnvApp)
    ensures Decodable(SetEnvApp(w, env, app, x)) <==> Decodable(w)
  {
    var w' := SetEnvApp(w, env, app, x);
    forall e | e in w.envs ensures w'.envs[e].config == w.envs[e].config {}
    forall e | e in w'.envs && w'.envs[e].config.Undecodable? ensures e in w.envs {}
  }

  /** With readable configurations, the nested deployments never fail that way. */
  lemma {:induction false} WritesNeverInvalid(w: World, configs: map<string, EnvironmentConfig>, app: string, version: nat,
                                              deploy: bool, order: seq<string>)
    requires Decodable(w)
    ensures WriteManifests(w, configs, app, version, deploy, order) != Err(InvalidJson)
    decreases |order|
  {
    if order != [] && version in Releases(w, app) {
      var written := AddManifest(w, app, version, order[0]);
      assert Decodable(written);
      DeployError(written, order[0], app, version, Record);
      WritesNeverInvalid(written, configs, app, version, deploy, order[1..]);
      WritesNeverInvalid(DeployApplicationVersion(written, order[0], app, version, Record).world, configs, app, version, deploy, order[1..]);
    }
  }

  lemma CreateError(w: World, app: string, version: nat, team: string, order: seq<string>)
    ensures CreateApplicationVersion(w, app, version, team, order) == Err(InvalidJson) <==>
            !Decodable(w) && PassesOn(w, CreateVersion(app, version, team, order))
  {
    var v := CalculateVersion(w, app, version);
    if v.Ok? && Rbac.ValidApplicationName(app) {
      var added := AddRelease(w, app, v.value, false, team);
      assert Decodable(added) <==> Decodable(w) by {
        assert added.envs == w.envs;
      }
      if Decodable(w) {
        WritesNeverInvalid(added, AllConfigs(added), app, v.value, true, order);
        WritesNeverInvalid(added, AllConfigs(added), app, v.value, false, order);
      }
    }
  }

  lemma CreateUndeployError(w: World, app: string, order: seq<string>)
    ensures CreateUndeployApplicationVersion(w, app, order) == Err(InvalidJson) <==>
            !Decodable(w) && PassesOn(w, CreateUndeploy(app, order))
  {
    var added := AddRelease(w, app, LastRelease(w, app) + 1, true, "");
    assert Decodable(added) <==> Decodable(w) by {
      assert added.envs == w.envs;
    }
    if Decodable(w) {
      WritesNeverInvalid(added, AllConfigs(added), app, LastRelease(w, app) + 1, true, order);
    }
  }

  lemma {:induction false} LocksNeverInvalid(w: World, envs: seq<string>, lockId: string)
    ensures CreateLocks(w, envs, lockId) != Err(InvalidJson) && DeleteLocks(w, envs, lockId) != Err(InvalidJson)
    decreases |envs|
  {
    if envs != [] {
      if CreateEnvironmentLock(w, envs[0], lockId).Ok? {
        LocksNeverInvalid(CreateEnvironmentLock(w, envs[0], lockId).value, envs[1..], lockId);
      }
      if DeleteEnvironmentLock(w, envs[0], lockId).Ok? {
        LocksNeverInvalid(DeleteEnvironmentLock(w, envs[0], lockId).value, envs[1..], lockId);
      }
    }
  }

  lemma {:induction false} TrainNeverInvalid(w: World, configs: map<string, EnvironmentConfig>, team: string, envs: seq<string>)
    requires forall e | e in envs :: e in configs
    ensures TrainEnvs(w, configs, team, envs) != Err(InvalidJson)
    decreases |envs|
  {
    if envs != [] {
      assert forall e | e in envs[1..] :: e in envs;
      TrainNeverInvalid(w, configs, team, envs[1..]);
      if UsableUpstream(configs[envs[0]].upstream) {
        var upstream := configs[envs[0]].upstream.value;
        var apps := SortedNames(TrainSource(w, upstream));
        TrainAppsNeverInvalid(w, envs[0], upstream, team, apps);
        var r := TrainApps(w, envs[0], upstream, team, apps);
        if r.Ok? {
          TrainNeverInvalid(r.value, configs, team, envs[1..]);
        }
      }
    }
  }

  lemma {:induction false} TrainAppsNeverInvalid(w: World, env: string, upstream: ConfigUpstream, team: string, apps: seq<string>)
    ensures TrainApps(w, env, upstream, team, apps) != Err(InvalidJson)
    decreases |apps|
  {
    if apps != [] && TrainApp(w, env, upstream, team, apps[0]).Ok? {
      TrainAppsNeverInvalid(TrainApp(w, env, upstream, team, apps[0]).value, env, upstream, team, apps[1..]);
    }
  }

  /**
   A transformer fails with the error of a broken configuration if and only if there is one and the transformer is
   one of four that pass it on: creating a release or an undeploy version, cleanup, and a deployment that goes through.
   */
  lemma InvalidJsonIff(w: World, t: Transformer)
    ensures Transform(w, t) == Err(InvalidJson) <==> !Decodable(w) && PassesOn(w, t)
  {
    match t
    case CreateVersion(app, version, team, order) => CreateError(w, app, version, team, order);
    case CreateUndeploy(app, order) => CreateUndeployError(w, app, order);
    case Deploy(env, app, version, behavior) => DeployError(w, env, app, version, behavior);
    case LockGroup(group, lockId) =>
      if GroupMembers(w, group).Ok? { LocksNeverInvalid(w, GroupMembers(w, group).value, lockId); }
    case UnlockGroup(group, lockId) =>
      if GroupMembers(w, group).Ok? { LocksNeverInvalid(w, GroupMembers(w, group).value, lockId); }
    case Train(target, team) =>
      TrainNeverInvalid(w, AllConfigs(w), team, SortedNames(TrainTargets(AllConfigs(w), target)));
    case _ =>
  }

  /** The first transformer of a batch that fails is one that passes the error of a broken configuration on. */
  ghost predicate FailsOn(w: World, batch: seq<Transformer>, k: nat) {
    && k < |batch|
    && ApplyInternal(w, batch[..k]).Ok?
    && var before := ApplyInternal(w, batch[..k]).value; !Decodable(before) && PassesOn(before, batch[k])
  }

  lemma BatchPrefix(w: World, batch: seq<Transformer>, k: nat)
    requires 0 < k <= |batch|
    ensures ApplyInternal(w, batch[..k]).Ok? ==> Transform(w, batch[0]).Ok?
    ensures Transform(w, batch[0]).Ok? ==>
              ApplyInternal(w, batch[..k]) == ApplyInternal(Transform(w, batch[0]).value, batch[1..][..k - 1])
    ensures k < |batch| ==> batch[1..][k - 1] == batch[k]
  {
    assert batch[..k][0] == batch[0] && batch[..k][1..] == batch[1..][..k - 1];
  }

  lemma FailsOnLater(w: World, batch: seq<Transformer>, k: nat)
    requires batch != [] && k > 0
    ensures FailsOn(w, batch, k) <==> Transform(w, batch[0]).Ok? && FailsOn(Transform(w, batch[0]).value, batch[1..], k - 1)
  {
    if k < |batch| {
      BatchPrefix(w, batch, k);
    }
  }

  lemma FailsOnFirst(w: World, batch: seq<Transformer>)
    requires batch != []
    ensures FailsOn(w, batch, 0) <==> Transform(w, batch[0]) == Err(InvalidJson)
  {
    assert batch[..0] == [];
    InvalidJsonIff(w, batch[0]);
  }

  ghost predicate SomeFails(w: World, batch: seq<Transformer>) {
    exists k :: FailsOn(w, batch, k)
  }

  lemma SomeFailsStep(w: World, batch: seq<Transformer>)
    requires batch != []
    ensures SomeFails(w, batch) <==>
            || Transform(w, batch[0]) == Err(InvalidJson)
            || (Transform(w, batch[0]).Ok? && SomeFails(Transform(w, batch[0]).value, batch[1..]))
  {
    FailsOnFirst(w, batch);
    if k: nat :| FailsOn(w, batch, k) && k > 0 {
      FailsOnLater(w, batch, k);
    }
    if Transform(w, batch[0]).Ok? {
      if k: nat :| FailsOn(Transform(w, batch[0]).value, batch[1..], k) {
        FailsOnLater(w, batch, k + 1);
      }
    }
  }

  lemma {:induction false} BatchInvalidIff(w: World, batch: seq<Transformer>)
    ensures ApplyInternal(w, batch) == Err(InvalidJson) <==> SomeFails(w, batch)
    decreases |batch|
  {
    if batch != [] {
      SomeFailsStep(w, batch);
      if Transform(w, batch[0]).Ok? {
        BatchInvalidIff(Transform(w, batch[0]).value, batch[1..]);
      }
    }
  }

  /**
   A request makes the worker reset if and only if its first failing transformer passes the error on, or all of
   them succeed, leave a broken configuration, and metrics are sent.
   */
  lemma RequestInvalidIff(w: World, batch: seq<Transformer>)
    ensures ApplyTransformers(w, batch) == Err(InvalidJson) <==>
            || SomeFails(w, batch)
            || (METRICS && ApplyInternal(w, batch).Ok? && !Decodable(ApplyInternal(w, batch).value))
  {
    BatchInvalidIff(w, batch);
  }
}
