/**
 Safety of whole runs: no `version` link ever names a missing release, whatever transformers run,
 including release trains that carry on after a deployment failed half-way.
 */
module Invariants {
  import opened Config
  import opened Deployment
  import opened Finite

  /** Every `version` link names a release of its application. */
  ghost predicate NoDangling(w: World) {
    forall e, a {:trigger EnvAppOf(w, e, a)} :: !Dangles(w, a, EnvAppOf(w, e, a).version)
  }

  lemma DeployedOf(w: World, env: string, app: string)
    requires EnvAppOf(w, env, app).version.Some?
    ensures EnvAppOf(w, env, app).version.value in Deployed(w, app)
  {
    assert env in w.envs;
  }

  /** Nothing deployed is old. */
  lemma DeployedIsNotOld(w: World, env: string, app: string)
    requires EnvAppOf(w, env, app).version.Some?
    ensures EnvAppOf(w, env, app).version.value !in OldVersions(w, app)
  {
    DeployedOf(w, env, app);
  }

  lemma CleanupKeepsLinks(w: World, app: string)
    requires NoDangling(w)
    ensures NoDangling(CleanupOldApplicationVersions(w, app).world)
    ensures Decodable(w) ==> CleanupOldApplicationVersions(w, app).error.None?
    ensures CleanupOldApplicationVersions(w, app).world.envs == w.envs
  {
    var w' := CleanupOldApplicationVersions(w, app).world;
    forall e, a ensures !Dangles(w', a, EnvAppOf(w', e, a).version) {
      assert EnvAppOf(w', e, a) == EnvAppOf(w, e, a);
      if a == app && EnvAppOf(w, e, a).version.Some? {
        DeployedIsNotOld(w, e, a);
      }
    }
  }

  /** A link to a release that is there. */
  lemma LinkingKeepsLinks(w: World, env: string, app: string, version: nat)
    requires NoDangling(w) && version in Releases(w, app)
    ensures NoDangling(SetEnvApp(w, env, app, EnvAppOf(w, env, app).(version := Some(version))))
  {
    SetEnvAppFrame(w, env, app, EnvAppOf(w, env, app).(version := Some(version)));
  }

  lemma QueuingKeepsLinks(w: World, env: string, app: string, queued: Option<nat>)
    requires NoDangling(w)
    ensures NoDangling(SetEnvApp(w, env, app, EnvAppOf(w, env, app).(queued := queued)))
  {
    SetEnvAppFrame(w, env, app, EnvAppOf(w, env, app).(queued := queued));
  }

  lemma DeployKeepsLinks(w: World, env: string, app: string, version: nat, behavior: LockBehavior)
    requires NoDangling(w)
    ensures NoDangling(DeployApplicationVersion(w, env, app, version, behavior).world)
  {
    QueuingKeepsLinks(w, env, app, Some(version));
    if HasManifest(w, app, version, env) {
      LinkingKeepsLinks(w, env, app, version);
      var linked := SetEnvApp(w, env, app, EnvAppOf(w, env, app).(version := Some(version)));
      QueuingKeepsLinks(linked, env, app, None);
      CleanupKeepsLinks(linked, app);
      CleanupKeepsLinks(DeleteQueuedVersion(linked, env, app), app);
    }
  }

  /** What holds before and after every commit. */
  ghost predicate Safe(w: World) {
    NoDangling(w) && Decodable(w)
  }

  ghost predicate SafeResult(r: Result<World>) {
    r.Ok? ==> Safe(r.value)
  }

  lemma DeployIsSafe(w: World, env: string, app: string, version: nat, behavior: LockBehavior)
    requires Safe(w)
    ensures Safe(DeployApplicationVersion(w, env, app, version, behavior).world)
  {
    DeployKeepsLinks(w, env, app, version, behavior);
  }

  /** More releases, and links only where there were the same ones before. */
  lemma Preserved(w: World, w': World)
    requires Safe(w)
    requires forall a :: Releases(w, a).Keys <= Releases(w', a).Keys
    requires forall e, a {:trigger EnvAppOf(w', e, a)} ::
               EnvAppOf(w', e, a).version.Some? ==> EnvAppOf(w', e, a).version == EnvAppOf(w, e, a).version
    requires forall e | e in w'.envs :: EnvOf(w', e).config == EnvOf(w, e).config || !EnvOf(w', e).config.Undecodable?
    ensures Safe(w')
  {
    forall e, a ensures !Dangles(w', a, EnvAppOf(w', e, a).version) {
      assert !Dangles(w, a, EnvAppOf(w, e, a).version);
      assert Releases(w, a).Keys <= Releases(w', a).Keys;
    }
    forall e | e in w'.envs ensures !w'.envs[e].config.Undecodable? {
      assert EnvOf(w', e) == w'.envs[e];
    }
  }

  lemma {:induction false} WriteManifestsIsSafe(w: World, configs: map<string, EnvironmentConfig>, app: string, version: nat,
                                                deploy: bool, order: seq<string>)
    requires Safe(w)
    ensures SafeResult(WriteManifests(w, configs, app, version, deploy, order))
    decreases |order|
  {
    if order != [] && version in Releases(w, app) {
      var written := AddManifest(w, app, version, order[0]);
      Preserved(w, written);
      DeployIsSafe(written, order[0], app, version, Record);
      WriteManifestsIsSafe(written, configs, app, version, deploy, order[1..]);
      WriteManifestsIsSafe(DeployApplicationVersion(written, order[0], app, version, Record).world, configs, app, version, deploy, order[1..]);
    }
  }

  lemma AddReleaseIsSafe(w: World, app: string, version: nat, undeploy: bool, team: string)
    requires Safe(w)
    ensures Safe(AddRelease(w, app, version, undeploy, team))
  {
    Preserved(w, AddRelease(w, app, version, undeploy, team));
  }

  lemma CreateIsSafe(w: World, app: string, version: nat, team: string, order: seq<string>)
    requires Safe(w)
    ensures SafeResult(CreateApplicationVersion(w, app, version, team, order))
  {
    var v := CalculateVersion(w, app, version);
    if v.Ok? {
      AddReleaseIsSafe(w, app, v.value, false, team);
      var added := AddRelease(w, app, v.value, false, team);
      WriteManifestsIsSafe(added, AllConfigs(added), app, v.value, true, order);
      WriteManifestsIsSafe(added, AllConfigs(added), app, v.value, false, order);
    }
  }

  lemma CreateUndeployIsSafe(w: World, app: string, order: seq<string>)
    requires Safe(w)
    ensures SafeResult(CreateUndeployApplicationVersion(w, app, order))
  {
    var v := LastRelease(w, app) + 1;
    AddReleaseIsSafe(w, app, v, true, "");
    var added := AddRelease(w, app, v, true, "");
    WriteManifestsIsSafe(added, AllConfigs(added), app, v, true, order);
  }

  lemma UndeployIsSafe(w: World, app: string)
    requires Safe(w)
    ensures SafeResult(UndeployApplication(w, app))
  {
    var r := UndeployApplication(w, app);
    if r.Ok? {
      forall e, a ensures !Dangles(r.value, a, EnvAppOf(r.value, e, a).version) {
        assert !Dangles(w, a, EnvAppOf(w, e, a).version);
      }
    }
  }

  lemma {:induction false} LocksAreSafe(w: World, envs: seq<string>, lockId: string)
    requires Safe(w)
    ensures SafeResult(CreateLocks(w, envs, lockId))
    ensures SafeResult(DeleteLocks(w, envs, lockId))
    decreases |envs|
  {
    if envs != [] {
      var c := CreateEnvironmentLock(w, envs[0], lockId);
      if c.Ok? {
        Preserved(w, c.value);
        LocksAreSafe(c.value, envs[1..], lockId);
      }
      UnlockIsSafe(w, envs[0], lockId);
      var d := DeleteEnvironmentLock(w, envs[0], lockId);
      if d.Ok? {
        LocksAreSafe(d.value, envs[1..], lockId);
      }
    }
  }

  lemma UnlockIsSafe(w: World, env: string, lockId: string)
    requires Safe(w)
    ensures SafeResult(DeleteEnvironmentLock(w, env, lockId))
  {
    var r := DeleteEnvironmentLock(w, env, lockId);
    if r.Ok? {
      Preserved(w, r.value);
    }
  }

  lemma UnlockApplicationIsSafe(w: World, env: string, app: string, lockId: string)
    requires Safe(w)
    ensures SafeResult(DeleteEnvironmentApplicationLock(w, env, app, lockId))
  {
    var r := DeleteEnvironmentApplicationLock(w, env, app, lockId);
    if r.Ok? {
      Preserved(w, r.value);
    }
  }

  lemma TrainAppIsSafe(w: World, env: string, upstream: ConfigUpstream, team: string, app: string)
    requires Safe(w)
    ensures SafeResult(TrainApp(w, env, upstream, team, app))
  {
    var v := TrainVersion(w, upstream, app);
    if v.Ok? && v.value.Some? {
      DeployIsSafe(w, env, app, v.value.value, Record);
    }
  }

  lemma {:induction false} TrainAppsIsSafe(w: World, env: string, upstream: ConfigUpstream, team: string, apps: seq<string>)
    requires Safe(w)
    ensures SafeResult(TrainApps(w, env, upstream, team, apps))
    decreases |apps|
  {
    if apps != [] {
      TrainAppIsSafe(w, env, upstream, team, apps[0]);
      var r := TrainApp(w, env, upstream, team, apps[0]);
      if r.Ok? {
        TrainAppsIsSafe(r.value, env, upstream, team, apps[1..]);
      }
    }
  }

  lemma {:induction false} TrainEnvsIsSafe(w: World, configs: map<string, EnvironmentConfig>, team: string, envs: seq<string>)
    requires Safe(w)
    requires forall e | e in envs :: e in configs
    ensures SafeResult(TrainEnvs(w, configs, team, envs))
    decreases |envs|
  {
    if envs != [] {
      assert forall e | e in envs[1..] :: e in envs;
      TrainEnvsIsSafe(w, configs, team, envs[1..]);
      if UsableUpstream(configs[envs[0]].upstream) {
        var upstream := configs[envs[0]].upstream.value;
        var apps := SortedNames(TrainSource(w, upstream));
        TrainAppsIsSafe(w, envs[0], upstream, team, apps);
        var r := TrainApps(w, envs[0], upstream, team, apps);
        if r.Ok? {
          TrainEnvsIsSafe(r.value, configs, team, envs[1..]);
        }
      }
    }
  }

  lemma TrainIsSafe(w: World, target: string, team: string)
    requires Safe(w)
    ensures SafeResult(ReleaseTrain(w, target, team))
  {
    TrainEnvsIsSafe(w, AllConfigs(w), team, SortedNames(TrainTargets(AllConfigs(w), target)));
  }

  lemma GroupLocksAreSafe(w: World, group: string, lockId: string)
    requires Safe(w)
    ensures SafeResult(CreateEnvironmentGroupLock(w, group, lockId))
    ensures SafeResult(DeleteEnvironmentGroupLock(w, group, lockId))
  {
    if GroupMembers(w, group).Ok? {
      LocksAreSafe(w, GroupMembers(w, group).value, lockId);
    }
  }

  lemma QueueIsSafe(w: World, env: string, app: string, version: nat)
    requires Safe(w)
    ensures Safe(QueueApplicationVersion(w, env, app, version))
  {
    QueuingKeepsLinks(w, env, app, Some(version));
    SetEnvAppFrame(w, env, app, EnvAppOf(w, env, app).(queued := Some(version)));
  }

  lemma LockApplicationIsSafe(w: World, env: string, app: string, lockId: string)
    requires Safe(w)
    ensures SafeResult(CreateEnvironmentApplicationLock(w, env, app, lockId))
  {
    var x := EnvAppOf(w, env, app);
    SetEnvAppFrame(w, env, app, x.(locks := x.locks + {lockId}));
  }

  /** Changes inside one environment directory that leave its version links alone or remove them. */
  lemma DirectoryIsSafe(w: World, env: string, dir: EnvDir)
    requires Safe(w) && !dir.config.Undecodable?
    requires dir.apps == EnvOf(w, env).apps || exists app :: dir.apps == EnvOf(w, env).apps - {app}
    ensures Safe(w.(envs := w.envs[env := dir]))
  {
    var w' := w.(envs := w.envs[env := dir]);
    forall e, a ensures !Dangles(w', a, EnvAppOf(w', e, a).version) {
      assert !Dangles(w, a, EnvAppOf(w, e, a).version);
      assert EnvAppOf(w', e, a) == EnvAppOf(w, e, a) || EnvAppOf(w', e, a).version == None;
    }
  }

  lemma DirectoryChangesAreSafe(w: World, t: Transformer)
    requires Safe(w) && (t.DeleteEnv? || t.LockEnvironment? || t.NewEnvironment?)
    ensures SafeResult(Transform(w, t))
  {
    match t
    case DeleteEnv(env, app) =>
      if app in EnvOf(w, env).apps { DirectoryIsSafe(w, env, WithoutApp(w.envs[env], app)); }
    case LockEnvironment(env, lockId) =>
      if env in w.envs { DirectoryIsSafe(w, env, EnvOf(w, env).(locks := EnvOf(w, env).locks + {lockId})); }
    case NewEnvironment(env, config, overwrite) =>
      DirectoryIsSafe(w, env, CreateEnvironment(w, env, config, overwrite).envs[env]);
  }

  /** No transformer, successful or not half-way through a train, leaves a dangling version behind. */
  lemma TransformIsSafe(w: World, t: Transformer)
    requires Safe(w)
    ensures SafeResult(Transform(w, t))
  {
    match t
    case CreateVersion(app, version, team, order) => CreateIsSafe(w, app, version, team, order);
    case CreateUndeploy(app, order) => CreateUndeployIsSafe(w, app, order);
    case Undeploy(app) => UndeployIsSafe(w, app);
    case DeleteEnv(_, _) => DirectoryChangesAreSafe(w, t);
    case Cleanup(app) => CleanupKeepsLinks(w, app);
    case LockEnvironment(_, _) => DirectoryChangesAreSafe(w, t);
    case UnlockEnvironment(env, lockId) => UnlockIsSafe(w, env, lockId);
    case LockGroup(group, lockId) => GroupLocksAreSafe(w, group, lockId);
    case UnlockGroup(group, lockId) => GroupLocksAreSafe(w, group, lockId);
    case LockApplication(env, app, lockId) => LockApplicationIsSafe(w, env, app, lockId);
    case UnlockApplication(env, app, lockId) => UnlockApplicationIsSafe(w, env, app, lockId);
    case NewEnvironment(_, _, _) => DirectoryChangesAreSafe(w, t);
    case Queue(env, app, version) => QueueIsSafe(w, env, app, version);
    case Deploy(env, app, version, behavior) => DeployIsSafe(w, env, app, version, behavior);
    case Train(target, team) => TrainIsSafe(w, target, team);
  }

  lemma {:induction false} BatchIsSafe(w: World, batch: seq<Transformer>)
    requires Safe(w)
    ensures SafeResult(ApplyInternal(w, batch))
    decreases |batch|
  {
    if batch != [] {
      TransformIsSafe(w, batch[0]);
      if Transform(w, batch[0]).Ok? {
        BatchIsSafe(Transform(w, batch[0]).value, batch[1..]);
      }
    }
  }

  /** The committed tree after a sequence of requests; a failing request changes nothing. */
  ghost function Run(w: World, requests: seq<seq<Transformer>>): World
    decreases |requests|
  {
    if requests == [] then w
    else
      match ApplyTransformers(w, requests[0])
      case Err(_) => Run(w, requests[1..])
      case Ok(w') => Run(w', requests[1..])
  }

  /** From a sound repository, such as the empty one, no sequence of requests reaches a dangling version. */
  lemma {:induction false} RunsAreSafe(w: World, requests: seq<seq<Transformer>>)
    requires Safe(w)
    ensures Safe(Run(w, requests))
    decreases |requests|
  {
    if requests != [] {
      BatchIsSafe(w, requests[0]);
      match ApplyTransformers(w, requests[0])
      case Err(_) => RunsAreSafe(w, requests[1..]);
      case Ok(w') => RunsAreSafe(w', requests[1..]);
    }
  }

  lemma EmptyIsSafe()
    ensures Safe(World(map[], map[]))
  {
  }
}
