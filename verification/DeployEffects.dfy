/** Deploying, queueing, cleaning up, and making and removing environments: each outcome, told from the fields of the repository. */
module DeployEffects {
  import opened Cleanup
  import opened Config
  import opened Deployment
  import opened Invariants
  import opened Locking
  import opened Places

  // ---- Cleanup ----

  /** What a cleanup has taken away was older than everything deployed and than 19 releases that are left below that. */
  ghost predicate OnlyOldGone(w: World, w': World, app: string) {
    && (forall u | u in Releases(w', app) :: u in Releases(w, app) && Releases(w', app)[u] == Releases(w, app)[u])
    && (forall u | u in Releases(w, app) && u !in Releases(w', app) ::
          && Releases(w', app) != map[] && u < OldestDeployed(w', app)
          && |Below(w', app)| == 19 && forall k | k in Below(w', app) :: u < k)
    && (Releases(w', app) != map[] ==> |Below(w', app)| <= 19)
    && (forall a | a != app :: Releases(w', a) == Releases(w, a))
    && (forall a :: TeamOf(w', a) == TeamOf(w, a)) && w'.apps.Keys == w.apps.Keys
  }

  lemma CleanupLeaves(w: World, app: string)
    requires Safe(w)
    ensures var r := CleanupOldApplicationVersions(w, app);
            r.error.None? && OnlyOldGone(w, r.world, app) && r.world.envs == w.envs
  {
    var w' := CleanupOldApplicationVersions(w, app).world;
    NothingGone(w, app);
    CleanupFrame(w, app);
    if Releases(w, app) != map[] {
      CleanupKeepsOldest(w, app);
      OldIsBelowTop(w, app);
      KeptAreNotOld(w, app);
      TopSize(Below(w, app), 19);
      forall u | u in Releases(w, app) && u !in Releases(w', app)
        ensures u < OldestDeployed(w', app) && |Below(w', app)| == 19 && forall k | k in Below(w', app) :: u < k
      {
        TopIsFull(Below(w, app), 19, u);
        forall k | k in Below(w', app) ensures u < k {
          TopIsNewest(Below(w, app), 19, u, k);
        }
      }
    }
  }

  lemma NothingGone(w: World, app: string)
    requires Safe(w)
    ensures !VersionDangles(w, app) && Decodable(w)
  {
    forall e | e in w.envs ensures !Dangles(w, app, EnvAppOf(w, e, app).version) {}
  }

  /** A cleanup of a sound repository succeeds, and takes away old releases only, all but the 19 newest of them. */
  lemma CleanupEffect(w: World, app: string)
    requires Safe(w)
    ensures var r := Transform(w, Transformer.Cleanup(app));
            r.Ok? && OnlyOldGone(w, r.value, app) && r.value.envs == w.envs
  {
    CleanupLeaves(w, app);
  }

  // ---- Queue and deploy ----

  /** The queue link names the version, whatever it named before, locked or not; nothing else changes. */
  lemma QueueEffect(w: World, env: string, app: string, v: nat)
    ensures var r, x := Transform(w, Queue(env, app, v)), EnvAppOf(w, env, app);
            && r.Ok? && EnvAppOf(r.value, env, app) == EnvApp(x.version, Some(v), x.locks) && app in EnvOf(r.value, env).apps
            && SameElsewhere(w, r.value, env, app) && r.value.apps == w.apps
            && MaybeNewEnvironment(w, r.value, env)
  {
    SetEnvAppFrame(w, env, app, EnvAppOf(w, env, app).(queued := Some(v)));
  }

  /** Configurations and environment locks are as before; the environment may be a new one. */
  ghost predicate MaybeNewEnvironment(w: World, w': World, env: string) {
    && w'.envs.Keys == w.envs.Keys + {env}
    && forall e :: EnvOf(w', e).config == EnvOf(w, e).config && EnvOf(w', e).locks == EnvOf(w, e).locks
  }

  /**
   A deployment to a sound repository: without a manifest it fails; behind a lock it is queued under Record, fails
   under Fail, and goes on under Ignore; then it fails if the queue names a release that is gone, or else the place
   has the version and an empty queue, and old releases are cleaned up.
   */
  lemma DeployOutcome(w: World, env: string, app: string, v: nat, behavior: LockBehavior)
    requires Safe(w)
    ensures var r, x := Transform(w, Deploy(env, app, v, behavior)), EnvAppOf(w, env, app);
            if v !in Releases(w, app) || env !in Releases(w, app)[v].manifests then r == Err(NotExist)
            else if behavior != Ignore && AnyLock(w, env, app) then
              if behavior == Fail then r == Err(Locked)
              else
                && r.Ok? && EnvAppOf(r.value, env, app) == EnvApp(x.version, Some(v), x.locks)
                && SameElsewhere(w, r.value, env, app) && r.value.apps == w.apps && MaybeNewEnvironment(w, r.value, env)
            else if QueueGone(w, env, app) then r == Err(NotExist)
            else
              && r.Ok? && EnvAppOf(r.value, env, app) == EnvApp(Some(v), None, x.locks)
              && SameElsewhere(w, r.value, env, app) && OnlyOldGone(w, r.value, app) && MaybeNewEnvironment(w, r.value, env)
              && v in Releases(r.value, app)
  {
    var x := EnvAppOf(w, env, app);
    SetEnvAppFrame(w, env, app, x.(queued := Some(v)));
    DeploySucceedsIff(w, env, app, v, behavior);
    if v in Releases(w, app) && env in Releases(w, app)[v].manifests && (behavior == Ignore || !AnyLock(w, env, app)) {
      if QueueGone(w, env, app) {
        GoneQueueStops(w, env, app, v, behavior);
      } else {
        Deploys(w, env, app, v, behavior);
      }
    }
  }

  lemma GoneQueueStops(w: World, env: string, app: string, v: nat, behavior: LockBehavior)
    requires v in Releases(w, app) && env in Releases(w, app)[v].manifests && (behavior == Ignore || !AnyLock(w, env, app))
    requires QueueGone(w, env, app)
    ensures DeployApplicationVersion(w, env, app, v, behavior).error == Some(NotExist)
  {
    SetEnvAppFrame(w, env, app, EnvAppOf(w, env, app).(version := Some(v)));
  }

  lemma Deploys(w: World, env: string, app: string, v: nat, behavior: LockBehavior)
    requires Safe(w) && v in Releases(w, app) && env in Releases(w, app)[v].manifests
    requires (behavior == Ignore || !AnyLock(w, env, app)) && !QueueGone(w, env, app)
    ensures var r := DeployApplicationVersion(w, env, app, v, behavior);
            && r.error.None?
            && EnvAppOf(r.world, env, app) == EnvApp(Some(v), None, EnvAppOf(w, env, app).locks)
            && SameElsewhere(w, r.world, env, app) && OnlyOldGone(w, r.world, app) && MaybeNewEnvironment(w, r.world, env)
            && v in Releases(r.world, app)
  {
    var linked := Linked(w, env, app, v);
    DeployIsLinkAndCleanup(w, env, app, v, behavior);
    DeployEffect(w, env, app, v, behavior);
    CleanupFrame(linked, app);
    LinkedSame(w, CleanupOldApplicationVersions(linked, app).world, env, app, v);
    LinkedCleaned(w, env, app, v);
  }

  lemma LinkedCleaned(w: World, env: string, app: string, v: nat)
    requires Safe(w) && v in Releases(w, app)
    ensures var r := CleanupOldApplicationVersions(Linked(w, env, app, v), app);
            r.error.None? && OnlyOldGone(w, r.world, app)
  {
    var linked := Linked(w, env, app, v);
    SetEnvAppFrame(w, env, app, EnvApp(Some(v), None, EnvAppOf(w, env, app).locks));
    assert Safe(linked);
    CleanupLeaves(linked, app);
    assert forall a :: Releases(linked, a) == Releases(w, a) && TeamOf(linked, a) == TeamOf(w, a);
  }

  lemma LinkedSame(w: World, w': World, env: string, app: string, v: nat)
    requires w'.envs == Linked(w, env, app, v).envs
    ensures SameElsewhere(w, w', env, app) && MaybeNewEnvironment(w, w', env)
  {
  }

  // ---- Environments ----

  /** Removing an application from an environment needs both names; it takes this place away, and nothing else. */
  lemma DeleteEnvEffect(w: World, env: string, app: string)
    ensures var r := Transform(w, DeleteEnv(env, app));
            if env == "" || app == "" then r == Err(MissingArgument)
            else
              && r.Ok? && app !in EnvOf(r.value, env).apps && EnvAppOf(r.value, env, app) == EnvApp(None, None, {})
              && SameElsewhere(w, r.value, env, app) && SameFiles(w, r.value) && r.value.apps == w.apps
  {
  }

  /** A new environment has its configuration; one that has a configuration file keeps it unless it is overwritten. */
  lemma NewEnvironmentEffect(w: World, env: string, config: EnvironmentConfig, overwrite: bool)
    ensures var r := Transform(w, NewEnvironment(env, config, overwrite));
            && r.Ok? && env in r.value.envs && r.value.apps == w.apps
            && r.value.envs.Keys == w.envs.Keys + {env} && (forall e | e in w.envs && e != env :: r.value.envs[e] == w.envs[e])
            && r.value.envs[env].locks == EnvOf(w, env).locks && r.value.envs[env].apps == EnvOf(w, env).apps
            && r.value.envs[env].config ==
               if EnvOf(w, env).config == Missing || overwrite then Decoded(config) else EnvOf(w, env).config
  {
  }

  // ---- Requests ----

  /** A batch is its transformers one after the other, up to the first that fails. */
  lemma {:induction false} BatchInOrder(w: World, first: seq<Transformer>, second: seq<Transformer>)
    ensures ApplyInternal(w, first + second) ==
            if ApplyInternal(w, first).Ok? then ApplyInternal(ApplyInternal(w, first).value, second) else ApplyInternal(w, first)
    decreases |first|
  {
    if first == [] {
      assert first + second == second;
    } else {
      assert (first + second)[0] == first[0] && (first + second)[1..] == first[1..] + second;
      if Transform(w, first[0]).Ok? {
        BatchInOrder(Transform(w, first[0]).value, first[1..], second);
      }
    }
  }

  /** A request succeeds exactly if its batch does and leaves only configurations that can be read. */
  lemma RequestSucceedsIff(w: World, batch: seq<Transformer>)
    ensures var r, b := ApplyTransformers(w, batch), ApplyInternal(w, batch);
            && (r.Ok? <==> b.Ok? && forall e | e in b.value.envs :: !b.value.envs[e].config.Undecodable?)
            && (r.Ok? ==> r == b)
            && (b.Err? ==> r == b)
  {
  }

  lemma BatchOfOne(w: World, t: Transformer)
    ensures ApplyInternal(w, [t]) == Transform(w, t)
  {
    assert [t][1..] == [];
    if Transform(w, t).Ok? {
      assert ApplyInternal(Transform(w, t).value, []) == Ok(Transform(w, t).value);
    }
  }
}
