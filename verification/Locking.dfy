/** Locks hold over whole batches, and what happens to deployments they block. */
module Locking {
  import C = Cleanup
  import opened Config
  import opened Deployment
  import opened Finite
  import opened Invariants

  /** No lock is taken away, and where there was one the deployed version stays. */
  ghost predicate KeepsLocked(w: World, w': World) {
    && (forall e :: EnvOf(w, e).locks <= EnvOf(w', e).locks)
    && (forall e, a {:trigger EnvAppOf(w', e, a)} :: EnvAppOf(w, e, a).locks <= EnvAppOf(w', e, a).locks)
    && (forall e, a {:trigger EnvAppOf(w', e, a)} ::
          IsLocked(w, e, a) ==> EnvAppOf(w', e, a).version == EnvAppOf(w, e, a).version)
  }

  lemma KeepsLockedTransitive(w: World, w': World, w'': World)
    requires KeepsLocked(w, w') && KeepsLocked(w', w'')
    ensures KeepsLocked(w, w'')
  {
    forall e, a ensures EnvAppOf(w, e, a).locks <= EnvAppOf(w'', e, a).locks
                && (IsLocked(w, e, a) ==> EnvAppOf(w'', e, a).version == EnvAppOf(w, e, a).version)
    {
      assert EnvAppOf(w, e, a).locks <= EnvAppOf(w', e, a).locks;
      assert EnvOf(w, e).locks <= EnvOf(w', e).locks;
    }
  }

  /** Changes to links only, at a place that is not locked, or to the queue anywhere. */
  lemma SetLinksKeepsLocked(w: World, env: string, app: string, x: EnvApp)
    requires x.locks == EnvAppOf(w, env, app).locks
    requires IsLocked(w, env, app) ==> x.version == EnvAppOf(w, env, app).version
    ensures KeepsLocked(w, SetEnvApp(w, env, app, x))
  {
    SetEnvAppFrame(w, env, app, x);
  }

  lemma SameEnvsKeepsLocked(w: World, w': World)
    requires w'.envs == w.envs
    ensures KeepsLocked(w, w')
  {
    assert forall e, a :: EnvAppOf(w', e, a) == EnvAppOf(w, e, a);
  }

  lemma DeployKeepsLocked(w: World, env: string, app: string, version: nat, behavior: LockBehavior)
    requires behavior != Ignore
    ensures KeepsLocked(w, DeployApplicationVersion(w, env, app, version, behavior).world)
  {
    var x := EnvAppOf(w, env, app);
    SameEnvsKeepsLocked(w, w);
    SetLinksKeepsLocked(w, env, app, x.(queued := Some(version)));
    if HasManifest(w, app, version, env) && !IsLocked(w, env, app) {
      var linked := SetEnvApp(w, env, app, x.(version := Some(version)));
      SetLinksKeepsLocked(w, env, app, x.(version := Some(version)));
      SetEnvAppFrame(w, env, app, x.(version := Some(version)));
      var unqueued := DeleteQueuedVersion(linked, env, app);
      SetLinksKeepsLocked(linked, env, app, EnvAppOf(linked, env, app).(queued := None));
      KeepsLockedTransitive(w, linked, unqueued);
      CleanupKeepsLocked(linked, app);
      CleanupKeepsLocked(unqueued, app);
      KeepsLockedTransitive(w, linked, CleanupOldApplicationVersions(linked, app).world);
      KeepsLockedTransitive(w, unqueued, CleanupOldApplicationVersions(unqueued, app).world);
    }
  }

  lemma CleanupKeepsLocked(w: World, app: string)
    ensures KeepsLocked(w, CleanupOldApplicationVersions(w, app).world)
  {
    SameEnvsKeepsLocked(w, CleanupOldApplicationVersions(w, app).world);
  }

  lemma {:induction false} WriteManifestsKeepsLocked(w: World, configs: map<string, EnvironmentConfig>, app: string, version: nat,
                                                     deploy: bool, order: seq<string>)
    requires WriteManifests(w, configs, app, version, deploy, order).Ok?
    ensures KeepsLocked(w, WriteManifests(w, configs, app, version, deploy, order).value)
    decreases |order|
  {
    if order == [] {
      SameEnvsKeepsLocked(w, w);
    } else {
      var written := AddManifest(w, app, version, order[0]);
      SameEnvsKeepsLocked(w, written);
      DeployKeepsLocked(written, order[0], app, version, Record);
      var next := if deploy && UpstreamIsLatest(configs, order[0])
                  then DeployApplicationVersion(written, order[0], app, version, Record).world else written;
      SameEnvsKeepsLocked(written, written);
      KeepsLockedTransitive(w, written, next);
      WriteManifestsKeepsLocked(next, configs, app, version, deploy, order[1..]);
      KeepsLockedTransitive(w, next, WriteManifests(w, configs, app, version, deploy, order).value);
    }
  }

  lemma CreateKeepsLocked(w: World, app: string, version: nat, team: string, order: seq<string>)
    requires CreateApplicationVersion(w, app, version, team, order).Ok?
    ensures KeepsLocked(w, CreateApplicationVersion(w, app, version, team, order).value)
  {
    var v := CalculateVersion(w, app, version).value;
    var added := AddRelease(w, app, v, false, team);
    SameEnvsKeepsLocked(w, added);
    var deploy := IsLatest(added, app, v);
    WriteManifestsKeepsLocked(added, AllConfigs(added), app, v, deploy, order);
    KeepsLockedTransitive(w, added, CreateApplicationVersion(w, app, version, team, order).value);
  }

  lemma CreateUndeployKeepsLocked(w: World, app: string, order: seq<string>)
    requires CreateUndeployApplicationVersion(w, app, order).Ok?
    ensures KeepsLocked(w, CreateUndeployApplicationVersion(w, app, order).value)
  {
    var v := LastRelease(w, app) + 1;
    var added := AddRelease(w, app, v, true, "");
    SameEnvsKeepsLocked(w, added);
    WriteManifestsKeepsLocked(added, AllConfigs(added), app, v, true, order);
    KeepsLockedTransitive(w, added, CreateUndeployApplicationVersion(w, app, order).value);
  }

  lemma {:induction false} CreateLocksKeepsLocked(w: World, envs: seq<string>, lockId: string)
    requires CreateLocks(w, envs, lockId).Ok?
    ensures KeepsLocked(w, CreateLocks(w, envs, lockId).value)
    decreases |envs|
  {
    if envs == [] {
      SameEnvsKeepsLocked(w, w);
    } else {
      var next := CreateEnvironmentLock(w, envs[0], lockId).value;
      CreateLocksKeepsLocked(next, envs[1..], lockId);
      KeepsLockedTransitive(w, next, CreateLocks(w, envs, lockId).value);
    }
  }

  lemma {:induction false} TrainAppsKeepsLocked(w: World, env: string, upstream: ConfigUpstream, team: string, apps: seq<string>)
    requires TrainApps(w, env, upstream, team, apps).Ok?
    ensures KeepsLocked(w, TrainApps(w, env, upstream, team, apps).value)
    decreases |apps|
  {
    SameEnvsKeepsLocked(w, w);
    if apps != [] {
      var v := TrainVersion(w, upstream, apps[0]);
      if v.Ok? && v.value.Some? {
        DeployKeepsLocked(w, env, apps[0], v.value.value, Record);
      }
      var next := TrainApp(w, env, upstream, team, apps[0]).value;
      TrainAppsKeepsLocked(next, env, upstream, team, apps[1..]);
      KeepsLockedTransitive(w, next, TrainApps(w, env, upstream, team, apps).value);
    }
  }

  lemma {:induction false} TrainEnvsKeepsLocked(w: World, configs: map<string, EnvironmentConfig>, team: string, envs: seq<string>)
    requires forall e | e in envs :: e in configs
    requires TrainEnvs(w, configs, team, envs).Ok?
    ensures KeepsLocked(w, TrainEnvs(w, configs, team, envs).value)
    decreases |envs|
  {
    SameEnvsKeepsLocked(w, w);
    if envs != [] {
      assert forall e | e in envs[1..] :: e in envs;
      var result := TrainEnvs(w, configs, team, envs);
      if TrainEnvs(w, configs, team, envs[1..]) == result {
        TrainEnvsKeepsLocked(w, configs, team, envs[1..]);
      }
      if UsableUpstream(configs[envs[0]].upstream) {
        var upstream := configs[envs[0]].upstream.value;
        var r := TrainApps(w, envs[0], upstream, team, SortedNames(TrainSource(w, upstream)));
        if r.Ok? && result == TrainEnvs(r.value, configs, team, envs[1..]) {
          TrainAppsKeepsLocked(w, envs[0], upstream, team, SortedNames(TrainSource(w, upstream)));
          TrainEnvsKeepsLocked(r.value, configs, team, envs[1..]);
          KeepsLockedTransitive(w, r.value, result.value);
        }
      }
    }
  }

  /** Transformers that respect locks: all but removing locks, removing applications, and deploying regardless. */
  predicate Respectful(t: Transformer) {
    match t
    case Deploy(_, _, _, behavior) => behavior != Ignore
    case Undeploy(_) => false
    case DeleteEnv(_, _) => false
    case UnlockEnvironment(_, _) => false
    case UnlockGroup(_, _) => false
    case UnlockApplication(_, _, _) => false
    case _ => true
  }

  lemma TransformKeepsLocked(w: World, t: Transformer)
    requires Respectful(t) && Transform(w, t).Ok?
    ensures KeepsLocked(w, Transform(w, t).value)
  {
    match t
    case CreateVersion(app, version, team, order) => CreateKeepsLocked(w, app, version, team, order);
    case CreateUndeploy(app, order) => CreateUndeployKeepsLocked(w, app, order);
    case Cleanup(app) => CleanupKeepsLocked(w, app);
    case LockEnvironment(env, lockId) =>
    case LockGroup(group, lockId) => CreateLocksKeepsLocked(w, GroupMembers(w, group).value, lockId);
    case LockApplication(env, app, lockId) =>
      var x := EnvAppOf(w, env, app);
      SetEnvAppFrame(w, env, app, x.(locks := x.locks + {lockId}));
    case NewEnvironment(env, config, overwrite) =>
    case Queue(env, app, version) => SetLinksKeepsLocked(w, env, app, EnvAppOf(w, env, app).(queued := Some(version)));
    case Deploy(env, app, version, behavior) => DeployKeepsLocked(w, env, app, version, behavior);
    case Train(target, team) => TrainEnvsKeepsLocked(w, AllConfigs(w), team, SortedNames(TrainTargets(AllConfigs(w), target)));
  }

  /** A successful batch of such transformers deploys nothing where there was a lock at its start. */
  lemma {:induction false} LocksHold(w: World, batch: seq<Transformer>)
    requires forall t | t in batch :: Respectful(t)
    requires ApplyInternal(w, batch).Ok?
    ensures KeepsLocked(w, ApplyInternal(w, batch).value)
    decreases |batch|
  {
    if batch == [] {
      SameEnvsKeepsLocked(w, w);
    } else {
      assert batch[0] in batch && forall t | t in batch[1..] :: t in batch;
      TransformKeepsLocked(w, batch[0]);
      var next := Transform(w, batch[0]).value;
      LocksHold(next, batch[1..]);
      KeepsLockedTransitive(w, next, ApplyInternal(w, batch).value);
    }
  }

  /** A deployment blocked by a lock fails, or is queued under Record: nothing else changes. */
  lemma BlockedDeploy(w: World, env: string, app: string, version: nat, behavior: LockBehavior)
    requires HasManifest(w, app, version, env) && IsLocked(w, env, app) && behavior != Ignore
    ensures var r := DeployApplicationVersion(w, env, app, version, behavior);
            && (behavior == Fail ==> r == Attempt(w, Some(Locked)))
            && (behavior == Record ==>
                  && r.error.None?
                  && r.world.apps == w.apps
                  && EnvAppOf(r.world, env, app) == EnvAppOf(w, env, app).(queued := Some(version))
                  && forall e, a | e != env || a != app :: EnvAppOf(r.world, e, a) == EnvAppOf(w, e, a))
  {
    SetEnvAppFrame(w, env, app, EnvAppOf(w, env, app).(queued := Some(version)));
  }

  /** Whether a deployment goes through, decided by what can be seen before it. */
  predicate Deployable(w: World, env: string, app: string, version: nat, behavior: LockBehavior) {
    && HasManifest(w, app, version, env)
    && (if behavior != Ignore && IsLocked(w, env, app) then behavior == Record
        else !Dangles(w, app, EnvAppOf(w, env, app).queued))
  }

  /**
   In a sound repository a deployment succeeds exactly if the release has a manifest for the environment and
   either is only to be queued, or nothing blocks it and the queue does not name a release that is gone.
   */
  lemma DeploySucceedsIff(w: World, env: string, app: string, version: nat, behavior: LockBehavior)
    requires Safe(w)
    ensures DeployApplicationVersion(w, env, app, version, behavior).error.None? <==> Deployable(w, env, app, version, behavior)
  {
    if HasManifest(w, app, version, env) {
      var x := EnvAppOf(w, env, app).(version := Some(version));
      var linked := SetEnvApp(w, env, app, x);
      SetEnvAppFrame(w, env, app, x);
      assert NoDangling(linked);
      SetEnvAppFrame(linked, env, app, x.(queued := None));
      var unqueued := DeleteQueuedVersion(linked, env, app);
      assert NoDangling(unqueued);
      CleanupKeepsLinks(linked, app);
      CleanupKeepsLinks(unqueued, app);
    }
  }

  /** The repository with the new link and an empty queue. */
  function Linked(w: World, env: string, app: string, version: nat): World {
    SetEnvApp(w, env, app, EnvApp(Some(version), None, EnvAppOf(w, env, app).locks))
  }

  lemma DeployIsLinkAndCleanup(w: World, env: string, app: string, version: nat, behavior: LockBehavior)
    requires Deployable(w, env, app, version, behavior)
    requires behavior == Ignore || !IsLocked(w, env, app)
    ensures DeployApplicationVersion(w, env, app, version, behavior) ==
            CleanupOldApplicationVersions(Linked(w, env, app, version), app)
  {
    var x := EnvAppOf(w, env, app).(version := Some(version));
    var linked := SetEnvApp(w, env, app, x);
    SetEnvAppFrame(w, env, app, x);
    var unqueued, both := DeleteQueuedVersion(linked, env, app), Linked(w, env, app, version);
    assert unqueued.envs[env].apps == both.envs[env].apps;
    assert unqueued.envs == both.envs;
    assert x.queued.None? ==> linked == Linked(w, env, app, version);
  }

  /** A deployment that is not blocked sets its link, empties the queue and touches no other link. */
  lemma DeployEffect(w: World, env: string, app: string, version: nat, behavior: LockBehavior)
    requires Safe(w) && Deployable(w, env, app, version, behavior)
    requires behavior == Ignore || !IsLocked(w, env, app)
    ensures var w' := DeployApplicationVersion(w, env, app, version, behavior).world;
            && EnvAppOf(w', env, app) == EnvApp(Some(version), None, EnvAppOf(w, env, app).locks)
            && (forall e, a | e != env || a != app :: EnvAppOf(w', e, a) == EnvAppOf(w, e, a))
            && (forall e :: EnvOf(w', e).locks == EnvOf(w, e).locks)
            && (forall a | a != app :: Releases(w', a) == Releases(w, a))
            && version in Releases(w', app)
            && OldVersions(w', app) == {}
  {
    var linked := Linked(w, env, app, version);
    SetEnvAppFrame(w, env, app, EnvApp(Some(version), None, EnvAppOf(w, env, app).locks));
    DeployIsLinkAndCleanup(w, env, app, version, behavior);
    assert NoDangling(linked);
    C.CleanupFrame(linked, app);
    C.CleanupIdempotent(linked, app);
    var w' := CleanupOldApplicationVersions(linked, app).world;
    forall e, a ensures EnvAppOf(w', e, a) == EnvAppOf(linked, e, a) {}
    forall e ensures EnvOf(w', e) == EnvOf(linked, e) {}
    DeployedIsNotOld(linked, env, app);
  }

  /** Cleanup may remove a queued release: exactly the queue links to old releases lose their target. */
  lemma QueueDanglesIff(w: World, env: string, app: string)
    requires Safe(w)
    ensures var w' := CleanupOldApplicationVersions(w, app).world;
            Dangles(w', app, EnvAppOf(w', env, app).queued) <==>
            || Dangles(w, app, EnvAppOf(w, env, app).queued)
            || (EnvAppOf(w, env, app).queued.Some? && EnvAppOf(w, env, app).queued.value in OldVersions(w, app))
  {
    var w' := CleanupOldApplicationVersions(w, app).world;
    assert EnvAppOf(w', env, app) == EnvAppOf(w, env, app);
    CleanupKeepsLinks(w, app);
  }

  /** In a sound repository an application lock can be removed exactly if the queue does not dangle. */
  lemma UnlockSucceedsIff(w: World, env: string, app: string, lockId: string)
    requires Safe(w)
    ensures DeleteEnvironmentApplicationLock(w, env, app, lockId).Ok? <==> !Dangles(w, app, EnvAppOf(w, env, app).queued)
  {
    var x := EnvAppOf(w, env, app);
    SetEnvAppFrame(w, env, app, x.(locks := x.locks - {lockId}));
  }

  /** The same for an environment lock and the queues of all its applications. */
  lemma UnlockEnvironmentSucceedsIff(w: World, env: string, lockId: string)
    requires Safe(w)
    ensures DeleteEnvironmentLock(w, env, lockId).Ok? <==>
            forall a | a in EnvOf(w, env).apps :: !Dangles(w, a, EnvAppOf(w, env, a).queued)
  {
    var unlocked := if env in w.envs then SetEnvLocks(w, env, w.envs[env].locks - {lockId}) else w;
    forall a ensures EnvAppOf(unlocked, env, a) == EnvAppOf(w, env, a) {}
    forall a ensures QueueUnreadable(unlocked, env, a) <==> Dangles(w, a, EnvAppOf(w, env, a).queued) {
      assert !Dangles(w, a, EnvAppOf(w, env, a).version);
    }
  }

  /** Releases 1 to `newest`, the newest deployed to "dev", the first one queued on "staging" behind a lock. */
  function QueuedBehindLock(newest: nat): World {
    var versions := Range(1, newest + 1);
    var releases := map v | v in versions :: Release(false, {"dev", "staging"});
    World(map["app" := AppDir("", releases)],
          map["dev" := EnvDir(Missing, {}, map["app" := EnvApp(Some(newest), None, {})]),
              "staging" := EnvDir(Missing, {}, map["app" := EnvApp(None, Some(1), {"lock"})])])
  }

  lemma FirstIsOld(newest: nat)
    requires newest >= 21
    ensures 1 in OldVersions(QueuedBehindLock(newest), "app")
  {
    var w := QueuedBehindLock(newest);
    assert newest in Releases(w, "app") && LastRelease(w, "app") == newest;
    assert forall e | e in w.envs && EnvAppOf(w, e, "app").version.Some? :: EnvAppOf(w, e, "app").version.value == newest;
    assert OldestDeployed(w, "app") == newest;
    assert Between(w, "app", 1) == Range(2, newest);
  }

  /**
   A queue link can lose its release although nothing was wrong before: after a cleanup in this sound
   repository the lock cannot be removed any more, and no version can be deployed regardless of it.
   */
  lemma CleanupMayBlockUnlocking(newest: nat)
    requires newest >= 21
    ensures var w := QueuedBehindLock(newest);
            var w' := CleanupOldApplicationVersions(w, "app").world;
            && Safe(w)
            && DeleteEnvironmentApplicationLock(w, "staging", "app", "lock").Ok?
            && Safe(w')
            && DeleteEnvironmentApplicationLock(w', "staging", "app", "lock") == Err(NotExist)
            && forall v :: DeployApplicationVersion(w', "staging", "app", v, Ignore).error.Some?
  {
    var w := QueuedBehindLock(newest);
    var w' := CleanupOldApplicationVersions(w, "app").world;
    assert 1 in Releases(w, "app") && newest in Releases(w, "app");
    assert Safe(w);
    FirstIsOld(newest);
    CleanupKeepsLinks(w, "app");
    QueueDanglesIff(w, "staging", "app");
    UnlockSucceedsIff(w, "staging", "app", "lock");
    UnlockSucceedsIff(w', "staging", "app", "lock");
    forall v ensures DeployApplicationVersion(w', "staging", "app", v, Ignore).error.Some? {
      DeploySucceedsIff(w', "staging", "app", v, Ignore);
    }
  }
}
