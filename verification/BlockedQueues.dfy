/** What blocked deployments leave in the queues: over a whole batch, the last one at each locked place. */
module BlockedQueues {
  import opened Config
  import opened Deployment
  import opened Finite
  import opened Locking

  /** A version that is to be deployed or queued at one place. */
  datatype Demand = Demand(env: string, app: string, version: nat)

  /** The version of the last demand for a place, or else `queued`. */
  function LastAt(demands: seq<Demand>, env: string, app: string, queued: Option<nat>): Option<nat> {
    if demands == [] then queued
    else
      var last := demands[|demands| - 1];
      if IsFor(last, env, app) then Some(last.version)
      else LastAt(demands[..|demands| - 1], env, app, queued)
  }

  lemma {:induction false} LastAtOfTwo(d1: seq<Demand>, d2: seq<Demand>, env: string, app: string, queued: Option<nat>)
    ensures LastAt(d1 + d2, env, app, queued) == LastAt(d2, env, app, LastAt(d1, env, app, queued))
  {
    if d2 == [] {
      assert d1 + d2 == d1;
    } else {
      var front := d2[..|d2| - 1];
      assert (d1 + d2)[..|d1 + d2| - 1] == d1 + front;
      LastAtOfTwo(d1, front, env, app, queued);
    }
  }

  predicate IsFor(d: Demand, env: string, app: string) {
    d.env == env && d.app == app
  }

  lemma {:induction false} LastDemand(demands: seq<Demand>, env: string, app: string, queued: Option<nat>, i: nat)
    requires i < |demands| && IsFor(demands[i], env, app)
    requires forall j | i < j < |demands| :: !IsFor(demands[j], env, app)
    ensures LastAt(demands, env, app, queued) == Some(demands[i].version)
  {
    if i < |demands| - 1 {
      LastDemand(demands[..|demands| - 1], env, app, queued, i);
    }
  }

  lemma {:induction false} NoDemand(demands: seq<Demand>, env: string, app: string, queued: Option<nat>)
    requires forall j | 0 <= j < |demands| :: !IsFor(demands[j], env, app)
    ensures LastAt(demands, env, app, queued) == queued
  {
    if demands != [] {
      NoDemand(demands[..|demands| - 1], env, app, queued);
    }
  }

  // ---- What each transformer demands ----

  /** A new newest release goes to the environments that take what is latest. */
  function ReleaseDemands(configs: map<string, EnvironmentConfig>, app: string, version: nat, order: seq<string>): seq<Demand>
    decreases |order|
  {
    if order == [] then []
    else
      (if UpstreamIsLatest(configs, order[0]) then [Demand(order[0], app, version)] else [])
      + ReleaseDemands(configs, app, version, order[1..])
  }

  /** An application of the right team goes to its version if that is another one and has a manifest. */
  ghost function TrainAppDemands(w: World, env: string, upstream: ConfigUpstream, team: string, app: string): seq<Demand> {
    if team != "" && TeamOf(w, app) != team then []
    else
      match TrainVersion(w, upstream, app)
      case Ok(Some(v)) =>
        if EnvAppOf(w, env, app).version != Some(v) && HasManifest(w, app, v, env) then [Demand(env, app, v)] else []
      case _ => []
  }

  ghost function TrainAppsDemands(w: World, env: string, upstream: ConfigUpstream, team: string, apps: seq<string>): seq<Demand>
    decreases |apps|
  {
    if apps == [] then []
    else
      match TrainApp(w, env, upstream, team, apps[0])
      case Err(_) => []
      case Ok(w') => TrainAppDemands(w, env, upstream, team, apps[0]) + TrainAppsDemands(w', env, upstream, team, apps[1..])
  }

  ghost function TrainDemands(w: World, configs: map<string, EnvironmentConfig>, team: string, envs: seq<string>): seq<Demand>
    requires forall e | e in envs :: e in configs
    decreases |envs|
  {
    if envs == [] then []
    else
      var env := envs[0];
      if !UsableUpstream(configs[env].upstream) then TrainDemands(w, configs, team, envs[1..])
      else
        var upstream := configs[env].upstream.value;
        var apps := SortedNames(TrainSource(w, upstream));
        if !upstream.latest && upstream.environment !in configs then []
        else if EnvOf(w, env).locks != {} then TrainDemands(w, configs, team, envs[1..])
        else
          match TrainApps(w, env, upstream, team, apps)
          case Err(_) => []
          case Ok(w') => TrainAppsDemands(w, env, upstream, team, apps) + TrainDemands(w', configs, team, envs[1..])
  }

  ghost function CreateDemands(w: World, app: string, version: nat, team: string, order: seq<string>): seq<Demand> {
    match CalculateVersion(w, app, version)
    case Err(_) => []
    case Ok(v) => if IsLatest(AddRelease(w, app, v, false, team), app, v) then ReleaseDemands(AllConfigs(w), app, v, order) else []
  }

  ghost function Demands(w: World, t: Transformer): seq<Demand> {
    match t
    case Queue(env, app, version) => [Demand(env, app, version)]
    case Deploy(env, app, version, _) => [Demand(env, app, version)]
    case CreateVersion(app, version, team, order) => CreateDemands(w, app, version, team, order)
    case CreateUndeploy(app, order) => ReleaseDemands(AllConfigs(w), app, LastRelease(w, app) + 1, order)
    case Train(target, team) => TrainDemands(w, AllConfigs(w), team, SortedNames(TrainTargets(AllConfigs(w), target)))
    case _ => []
  }

  ghost function DemandsOfBatch(w: World, batch: seq<Transformer>): seq<Demand>
    decreases |batch|
  {
    if batch == [] then []
    else
      match Transform(w, batch[0])
      case Err(_) => []
      case Ok(w') => Demands(w, batch[0]) + DemandsOfBatch(w', batch[1..])
  }

  // ---- What they leave at a locked place ----

  /** From `w` to `w'`, the place (`env`, `app`) is still locked and queues what was demanded last. */
  ghost predicate Queues(w: World, w': World, demands: seq<Demand>, env: string, app: string) {
    && IsLocked(w', env, app)
    && EnvAppOf(w', env, app).queued == LastAt(demands, env, app, EnvAppOf(w, env, app).queued)
  }

  lemma QueuesTransitive(w: World, w': World, w'': World, d1: seq<Demand>, d2: seq<Demand>, env: string, app: string)
    requires Queues(w, w', d1, env, app) && Queues(w', w'', d2, env, app)
    ensures Queues(w, w'', d1 + d2, env, app)
  {
    LastAtOfTwo(d1, d2, env, app, EnvAppOf(w, env, app).queued);
  }

  lemma StaysLocked(w: World, w': World, env: string, app: string)
    requires KeepsLocked(w, w') && IsLocked(w, env, app)
    ensures IsLocked(w', env, app)
  {
    assert EnvAppOf(w, env, app).locks <= EnvAppOf(w', env, app).locks;
    assert EnvOf(w, env).locks <= EnvOf(w', env).locks;
  }

  lemma DeployElsewhere(w: World, env: string, app: string, version: nat, behavior: LockBehavior, e: string, a: string)
    requires e != env || a != app
    ensures EnvAppOf(DeployApplicationVersion(w, env, app, version, behavior).world, e, a) == EnvAppOf(w, e, a)
  {
    var x := EnvAppOf(w, env, app);
    SetEnvAppElsewhere(w, env, app, x.(queued := Some(version)), e, a);
    var linked := SetEnvApp(w, env, app, x.(version := Some(version)));
    SetEnvAppElsewhere(w, env, app, x.(version := Some(version)), e, a);
    SetEnvAppElsewhere(linked, env, app, EnvAppOf(linked, env, app).(queued := None), e, a);
    CleanupKeepsEnvs(linked, app);
    CleanupKeepsEnvs(DeleteQueuedVersion(linked, env, app), app);
  }

  lemma SetEnvAppElsewhere(w: World, env: string, app: string, x: EnvApp, e: string, a: string)
    requires e != env || a != app
    ensures EnvAppOf(SetEnvApp(w, env, app, x), e, a) == EnvAppOf(w, e, a)
  {
  }

  lemma CleanupKeepsEnvs(w: World, app: string)
    ensures CleanupOldApplicationVersions(w, app).world.envs == w.envs
  {
  }

  lemma DeployQueues(w: World, env: string, app: string, version: nat, behavior: LockBehavior, e: string, a: string)
    requires behavior != Ignore && IsLocked(w, e, a) && HasManifest(w, app, version, env)
    requires behavior == Record || DeployApplicationVersion(w, env, app, version, behavior).error.None?
    ensures Queues(w, DeployApplicationVersion(w, env, app, version, behavior).world, [Demand(env, app, version)], e, a)
  {
    var w' := DeployApplicationVersion(w, env, app, version, behavior).world;
    DeployKeepsLocked(w, env, app, version, behavior);
    StaysLocked(w, w', e, a);
    if e == env && a == app {
      BlockedDeploy(w, env, app, version, behavior);
    } else {
      DeployElsewhere(w, env, app, version, behavior, e, a);
      assert LastAt([], e, a, EnvAppOf(w, e, a).queued) == EnvAppOf(w, e, a).queued;
    }
  }

  lemma {:induction false} WriteManifestsQueues(w: World, configs: map<string, EnvironmentConfig>, app: string, version: nat,
                                                deploy: bool, order: seq<string>, e: string, a: string)
    requires WriteManifests(w, configs, app, version, deploy, order).Ok? && IsLocked(w, e, a)
    ensures Queues(w, WriteManifests(w, configs, app, version, deploy, order).value,
                   if deploy then ReleaseDemands(configs, app, version, order) else [], e, a)
    decreases |order|
  {
    if order != [] {
      var written := AddManifest(w, app, version, order[0]);
      assert written.envs == w.envs;
      var deploys := deploy && UpstreamIsLatest(configs, order[0]);
      var next := if deploys then DeployApplicationVersion(written, order[0], app, version, Record).world else written;
      var first := if deploys then [Demand(order[0], app, version)] else [];
      if deploys {
        DeployQueues(written, order[0], app, version, Record, e, a);
      }
      WriteManifestsQueues(next, configs, app, version, deploy, order[1..], e, a);
      var rest := if deploy then ReleaseDemands(configs, app, version, order[1..]) else [];
      QueuesTransitive(w, next, WriteManifests(next, configs, app, version, deploy, order[1..]).value, first, rest, e, a);
    }
  }

  lemma TrainAppQueues(w: World, env: string, upstream: ConfigUpstream, team: string, app: string, e: string, a: string)
    requires TrainApp(w, env, upstream, team, app).Ok? && IsLocked(w, e, a)
    ensures Queues(w, TrainApp(w, env, upstream, team, app).value, TrainAppDemands(w, env, upstream, team, app), e, a)
  {
    var v := TrainVersion(w, upstream, app);
    if v.Ok? && v.value.Some? && HasManifest(w, app, v.value.value, env) {
      DeployQueues(w, env, app, v.value.value, Record, e, a);
    }
  }

  lemma {:induction false} TrainAppsQueues(w: World, env: string, upstream: ConfigUpstream, team: string, apps: seq<string>,
                                           e: string, a: string)
    requires TrainApps(w, env, upstream, team, apps).Ok? && IsLocked(w, e, a)
    ensures Queues(w, TrainApps(w, env, upstream, team, apps).value, TrainAppsDemands(w, env, upstream, team, apps), e, a)
    decreases |apps|
  {
    if apps != [] {
      var next := TrainApp(w, env, upstream, team, apps[0]).value;
      TrainAppQueues(w, env, upstream, team, apps[0], e, a);
      TrainAppsQueues(next, env, upstream, team, apps[1..], e, a);
      QueuesTransitive(w, next, TrainApps(next, env, upstream, team, apps[1..]).value,
                       TrainAppDemands(w, env, upstream, team, apps[0]),
                       TrainAppsDemands(next, env, upstream, team, apps[1..]), e, a);
    }
  }

  lemma {:induction false} TrainQueues(w: World, configs: map<string, EnvironmentConfig>, team: string, envs: seq<string>,
                                       e: string, a: string)
    requires forall x | x in envs :: x in configs
    requires TrainEnvs(w, configs, team, envs).Ok? && IsLocked(w, e, a)
    ensures Queues(w, TrainEnvs(w, configs, team, envs).value, TrainDemands(w, configs, team, envs), e, a)
    decreases |envs|
  {
    if envs != [] {
      assert forall x | x in envs[1..] :: x in envs;
      var env, rest := envs[0], envs[1..];
      if !UsableUpstream(configs[env].upstream) {
        TrainQueues(w, configs, team, rest, e, a);
      } else {
        var upstream := configs[env].upstream.value;
        if upstream.latest || upstream.environment in configs {
          if EnvOf(w, env).locks != {} {
            TrainQueues(w, configs, team, rest, e, a);
          } else {
            var apps := SortedNames(TrainSource(w, upstream));
            var next := TrainApps(w, env, upstream, team, apps).value;
            TrainAppsQueues(w, env, upstream, team, apps, e, a);
            TrainQueues(next, configs, team, rest, e, a);
            QueuesTransitive(w, next, TrainEnvs(next, configs, team, rest).value,
                             TrainAppsDemands(w, env, upstream, team, apps), TrainDemands(next, configs, team, rest), e, a);
          }
        }
      }
    }
  }

  lemma CreateQueues(w: World, app: string, version: nat, team: string, order: seq<string>, e: string, a: string)
    requires CreateApplicationVersion(w, app, version, team, order).Ok? && IsLocked(w, e, a)
    ensures Queues(w, CreateApplicationVersion(w, app, version, team, order).value,
                   CreateDemands(w, app, version, team, order), e, a)
  {
    var v := CalculateVersion(w, app, version).value;
    var added := AddRelease(w, app, v, false, team);
    assert added.envs == w.envs && AllConfigs(added) == AllConfigs(w);
    WriteManifestsQueues(added, AllConfigs(w), app, v, IsLatest(added, app, v), order, e, a);
  }

  lemma CreateUndeployQueues(w: World, app: string, order: seq<string>, e: string, a: string)
    requires CreateUndeployApplicationVersion(w, app, order).Ok? && IsLocked(w, e, a)
    ensures Queues(w, CreateUndeployApplicationVersion(w, app, order).value,
                   ReleaseDemands(AllConfigs(w), app, LastRelease(w, app) + 1, order), e, a)
  {
    var v := LastRelease(w, app) + 1;
    var added := AddRelease(w, app, v, true, "");
    assert added.envs == w.envs && AllConfigs(added) == AllConfigs(w);
    assert CreateUndeployApplicationVersion(w, app, order) == WriteManifests(added, AllConfigs(w), app, v, true, order);
    WriteManifestsQueues(added, AllConfigs(w), app, v, true, order, e, a);
  }

  lemma {:induction false} CreateLocksQueues(w: World, envs: seq<string>, lockId: string, e: string, a: string)
    requires CreateLocks(w, envs, lockId).Ok?
    ensures EnvAppOf(CreateLocks(w, envs, lockId).value, e, a) == EnvAppOf(w, e, a)
    decreases |envs|
  {
    if envs != [] {
      CreateLocksQueues(CreateEnvironmentLock(w, envs[0], lockId).value, envs[1..], lockId, e, a);
    }
  }

  lemma TransformQueues(w: World, t: Transformer, e: string, a: string)
    requires Respectful(t) && Transform(w, t).Ok? && IsLocked(w, e, a)
    ensures Queues(w, Transform(w, t).value, Demands(w, t), e, a)
  {
    TransformKeepsLocked(w, t);
    StaysLocked(w, Transform(w, t).value, e, a);
    assert LastAt([], e, a, EnvAppOf(w, e, a).queued) == EnvAppOf(w, e, a).queued;
    match t
    case CreateVersion(app, version, team, order) => CreateQueues(w, app, version, team, order, e, a);
    case CreateUndeploy(app, order) => CreateUndeployQueues(w, app, order, e, a);
    case Cleanup(app) => assert Transform(w, t).value.envs == w.envs;
    case LockEnvironment(env, lockId) =>
    case LockGroup(group, lockId) => CreateLocksQueues(w, GroupMembers(w, group).value, lockId, e, a);
    case LockApplication(env, app, lockId) =>
      var x := EnvAppOf(w, env, app);
      SetEnvAppFrame(w, env, app, x.(locks := x.locks + {lockId}));
    case NewEnvironment(env, config, overwrite) =>
    case Queue(env, app, version) => SetEnvAppFrame(w, env, app, EnvAppOf(w, env, app).(queued := Some(version)));
    case Deploy(env, app, version, behavior) => DeployQueues(w, env, app, version, behavior, e, a);
    case Train(target, team) =>
      TrainQueues(w, AllConfigs(w), team, SortedNames(TrainTargets(AllConfigs(w), target)), e, a);
  }

  /**
   After a successful batch that respects locks, the queue of each place that was locked at its start names the
   version that was last to be deployed or queued there, within new releases and trains as well; without one it
   is as before.
   */
  lemma {:induction false} BlockedVersionIsQueued(w: World, batch: seq<Transformer>, env: string, app: string)
    requires forall t | t in batch :: Respectful(t)
    requires ApplyInternal(w, batch).Ok? && IsLocked(w, env, app)
    ensures EnvAppOf(ApplyInternal(w, batch).value, env, app).queued ==
            LastAt(DemandsOfBatch(w, batch), env, app, EnvAppOf(w, env, app).queued)
    decreases |batch|
  {
    if batch != [] {
      assert batch[0] in batch && forall t | t in batch[1..] :: t in batch;
      var next := Transform(w, batch[0]).value;
      TransformQueues(w, batch[0], env, app);
      BlockedVersionIsQueued(next, batch[1..], env, app);
      LastAtOfTwo(Demands(w, batch[0]), DemandsOfBatch(next, batch[1..]), env, app, EnvAppOf(w, env, app).queued);
    }
  }
}
