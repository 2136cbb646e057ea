/** Release trains to one environment: what they deliver, what they leave alone, and that a second one changes nothing. */
module Trains {
  import C = Cleanup
  import R = Releasing
  import opened Config
  import opened Deployment
  import opened Finite
  import opened Invariants
  import opened Places

  /** From `w` to `w'` nothing changed but the links of `app` in `env` and which releases of `app` there are. */
  ghost predicate OnlyAt(w: World, w': World, env: string, app: string) {
    && w'.apps.Keys == w.apps.Keys
    && w'.envs.Keys == w.envs.Keys
    && (forall a :: TeamOf(w', a) == TeamOf(w, a))
    && (forall a | a != app :: Releases(w', a) == Releases(w, a))
    && (forall v | v in Releases(w', app) :: v in Releases(w, app) && Releases(w', app)[v] == Releases(w, app)[v])
    && (forall e :: EnvOf(w', e).locks == EnvOf(w, e).locks && EnvOf(w', e).config == EnvOf(w, e).config)
    && (forall e, a {:trigger EnvAppOf(w', e, a)} :: EnvAppOf(w', e, a).locks == EnvAppOf(w, e, a).locks)
    && (forall e, a {:trigger EnvAppOf(w', e, a)} | e != env || a != app :: EnvAppOf(w', e, a) == EnvAppOf(w, e, a))
    && (forall e, a {:trigger a in EnvOf(w', e).apps} | e != env || a != app :: a in EnvOf(w', e).apps <==> a in EnvOf(w, e).apps)
  }

  lemma OnlyAtStep(w: World, w': World, w'': World, env: string, app: string)
    requires OnlyAt(w, w', env, app) && OnlyAt(w', w'', env, app)
    ensures OnlyAt(w, w'', env, app)
  {
    forall e, a
      ensures EnvAppOf(w'', e, a).locks == EnvAppOf(w, e, a).locks
      ensures e != env || a != app ==> EnvAppOf(w'', e, a) == EnvAppOf(w, e, a)
      ensures e != env || a != app ==> (a in EnvOf(w'', e).apps <==> a in EnvOf(w, e).apps)
    {
      assert EnvAppOf(w', e, a).locks == EnvAppOf(w, e, a).locks;
      assert e != env || a != app ==> (a in EnvOf(w', e).apps <==> a in EnvOf(w, e).apps);
    }
  }

  lemma LinksOnlyAt(w: World, env: string, app: string, x: EnvApp)
    requires env in w.envs && x.locks == EnvAppOf(w, env, app).locks
    ensures OnlyAt(w, SetEnvApp(w, env, app, x), env, app)
  {
  }

  lemma CleanupOnlyAt(w: World, env: string, app: string)
    ensures OnlyAt(w, CleanupOldApplicationVersions(w, app).world, env, app)
  {
    C.CleanupFrame(w, app);
  }

  lemma LinkedOnlyAt(w: World, env: string, app: string, version: nat)
    requires env in w.envs
    ensures var linked := SetEnvApp(w, env, app, EnvAppOf(w, env, app).(version := Some(version)));
            && OnlyAt(w, linked, env, app)
            && OnlyAt(w, DeleteQueuedVersion(linked, env, app), env, app)
  {
    var x := EnvAppOf(w, env, app).(version := Some(version));
    var linked := SetEnvApp(w, env, app, x);
    LinksOnlyAt(w, env, app, x);
    LinksOnlyAt(linked, env, app, x.(queued := None));
    OnlyAtStep(w, linked, DeleteQueuedVersion(linked, env, app), env, app);
  }

  lemma CleanedOnlyAt(w: World, w': World, env: string, app: string)
    requires OnlyAt(w, w', env, app)
    ensures OnlyAt(w, CleanupOldApplicationVersions(w', app).world, env, app)
  {
    CleanupOnlyAt(w', env, app);
    OnlyAtStep(w, w', CleanupOldApplicationVersions(w', app).world, env, app);
  }

  /** All that a deployment can leave behind. */
  lemma DeployOutcomes(w: World, env: string, app: string, version: nat, behavior: LockBehavior)
    ensures var linked := SetEnvApp(w, env, app, EnvAppOf(w, env, app).(version := Some(version)));
            DeployApplicationVersion(w, env, app, version, behavior).world in
              {w, QueueApplicationVersion(w, env, app, version), linked,
               CleanupOldApplicationVersions(linked, app).world,
               CleanupOldApplicationVersions(DeleteQueuedVersion(linked, env, app), app).world}
  {
  }

  lemma DeployOnlyAt(w: World, env: string, app: string, version: nat, behavior: LockBehavior)
    requires env in w.envs
    ensures OnlyAt(w, DeployApplicationVersion(w, env, app, version, behavior).world, env, app)
  {
    var x := EnvAppOf(w, env, app);
    DeployOutcomes(w, env, app, version, behavior);
    var linked := SetEnvApp(w, env, app, x.(version := Some(version)));
    var w' := DeployApplicationVersion(w, env, app, version, behavior).world;
    LinkedOnlyAt(w, env, app, version);
    if w' == w {
    } else if w' == QueueApplicationVersion(w, env, app, version) {
      LinksOnlyAt(w, env, app, x.(queued := Some(version)));
    } else if w' == CleanupOldApplicationVersions(linked, app).world {
      CleanedOnlyAt(w, linked, env, app);
    } else if w' == CleanupOldApplicationVersions(DeleteQueuedVersion(linked, env, app), app).world {
      CleanedOnlyAt(w, DeleteQueuedVersion(linked, env, app), env, app);
    }
  }

  /** What a train to `env` leaves alone: everything but links in `env` and releases that are not the newest. */
  ghost predicate TrainFrame(w: World, w': World, env: string) {
    && w'.apps.Keys == w.apps.Keys
    && w'.envs.Keys == w.envs.Keys
    && (forall a :: TeamOf(w', a) == TeamOf(w, a))
    && (forall a :: LastRelease(w', a) == LastRelease(w, a) && (Releases(w', a) == map[] <==> Releases(w, a) == map[]))
    && (forall a, v {:trigger v in Releases(w', a)} ::
          v in Releases(w', a) ==> v in Releases(w, a) && Releases(w', a)[v] == Releases(w, a)[v])
    && (forall e :: EnvOf(w', e).locks == EnvOf(w, e).locks && EnvOf(w', e).config == EnvOf(w, e).config)
    && (forall e, a {:trigger EnvAppOf(w', e, a)} :: EnvAppOf(w', e, a).locks == EnvAppOf(w, e, a).locks)
    && (forall e, a {:trigger EnvAppOf(w', e, a)} | e != env :: EnvAppOf(w', e, a) == EnvAppOf(w, e, a))
    && (forall e | e != env :: EnvOf(w', e).apps.Keys == EnvOf(w, e).apps.Keys)
  }

  lemma TrainFrameStep(w: World, w': World, w'': World, env: string)
    requires TrainFrame(w, w', env) && TrainFrame(w', w'', env)
    ensures TrainFrame(w, w'', env)
  {
    forall e, a
      ensures EnvAppOf(w'', e, a).locks == EnvAppOf(w, e, a).locks
      ensures e != env ==> EnvAppOf(w'', e, a) == EnvAppOf(w, e, a)
    {
      assert EnvAppOf(w', e, a).locks == EnvAppOf(w, e, a).locks;
    }
    forall a, v | v in Releases(w'', a) ensures v in Releases(w, a) && Releases(w'', a)[v] == Releases(w, a)[v] {
      assert v in Releases(w', a);
    }
  }

  lemma OnlyAtIsTrainFrame(w: World, w': World, env: string, app: string)
    requires OnlyAt(w, w', env, app)
    requires LastRelease(w', app) == LastRelease(w, app) && (Releases(w', app) == map[] <==> Releases(w, app) == map[])
    ensures TrainFrame(w, w', env)
  {
    forall e | e != env ensures EnvOf(w', e).apps.Keys == EnvOf(w, e).apps.Keys {
      forall a ensures a in EnvOf(w', e).apps.Keys <==> a in EnvOf(w, e).apps.Keys {}
    }
  }

  /** In a sound repository a train never fails on an application: it deploys it or leaves it alone. */
  lemma TrainAppCases(w: World, env: string, upstream: ConfigUpstream, team: string, app: string)
    requires Safe(w)
    ensures var r := TrainApp(w, env, upstream, team, app);
            || r == Ok(w)
            || exists v :: r == Ok(DeployApplicationVersion(w, env, app, v, Record).world)
  {
    assert !Dangles(w, app, EnvAppOf(w, env, app).version);
    assert !Dangles(w, app, EnvAppOf(w, upstream.environment, app).version);
    var v := TrainVersion(w, upstream, app);
    if v.value.Some? {
      DeployErrors(w, env, app, v.value.value);
    }
  }

  lemma TrainDeployEffect(w: World, env: string, app: string, version: nat)
    requires Safe(w) && env in w.envs
    ensures var w' := DeployApplicationVersion(w, env, app, version, Record).world;
            OnlyAt(w, w', env, app) && TrainFrame(w, w', env)
  {
    DeployOnlyAt(w, env, app, version, Record);
    DeployErrors(w, env, app, version);
    if Releases(w, app) != map[] {
      R.DeploySameLast(w, env, app, version, Record);
    }
    OnlyAtIsTrainFrame(w, DeployApplicationVersion(w, env, app, version, Record).world, env, app);
  }

  lemma TrainAppEffect(w: World, env: string, upstream: ConfigUpstream, team: string, app: string)
    requires Safe(w) && env in w.envs
    ensures var r := TrainApp(w, env, upstream, team, app);
            && r.Ok?
            && Safe(r.value)
            && OnlyAt(w, r.value, env, app)
            && TrainFrame(w, r.value, env)
  {
    TrainAppIsSafe(w, env, upstream, team, app);
    TrainAppCases(w, env, upstream, team, app);
    if TrainApp(w, env, upstream, team, app) == Ok(w) {
      LinksOnlyAt(w, env, app, EnvAppOf(w, env, app));
      assert OnlyAt(w, w, env, app);
      OnlyAtIsTrainFrame(w, w, env, app);
    } else {
      var v: nat :| TrainApp(w, env, upstream, team, app) == Ok(DeployApplicationVersion(w, env, app, v, Record).world);
      TrainDeployEffect(w, env, app, v);
    }
  }

  lemma DeployErrors(w: World, env: string, app: string, version: nat)
    requires Safe(w)
    ensures DeployApplicationVersion(w, env, app, version, Record).error in {None, Some(NotExist)}
    ensures Releases(w, app) == map[] ==> DeployApplicationVersion(w, env, app, version, Record).world == w
  {
    var x := EnvAppOf(w, env, app).(version := Some(version));
    var linked := SetEnvApp(w, env, app, x);
    SetEnvAppFrame(w, env, app, x);
    if HasManifest(w, app, version, env) {
      assert NoDangling(linked);
      SetEnvAppFrame(linked, env, app, x.(queued := None));
      assert NoDangling(DeleteQueuedVersion(linked, env, app));
      CleanupKeepsLinks(linked, app);
      CleanupKeepsLinks(DeleteQueuedVersion(linked, env, app), app);
    }
  }

  /** The train passes over an application whose team is another one. */
  predicate OtherTeam(w: World, team: string, app: string) {
    team != "" && TeamOf(w, app) != team
  }

  /** A train has nothing to do for this application. */
  ghost predicate Done(w: World, env: string, upstream: ConfigUpstream, team: string, app: string) {
    || OtherTeam(w, team, app)
    || TrainVersion(w, upstream, app) == Ok(None)
    || (TrainVersion(w, upstream, app).Ok? && DoneAt(w, env, app, TrainVersion(w, upstream, app).value.value))
  }

  predicate DoneAt(w: World, env: string, app: string, v: nat) {
    || EnvAppOf(w, env, app).version == Some(v)
    || !HasManifest(w, app, v, env)
    || (IsLocked(w, env, app) && EnvAppOf(w, env, app).queued == Some(v))
  }

  lemma SameLinkSameWorld(w: World, env: string, app: string)
    requires app in EnvOf(w, env).apps
    ensures SetEnvApp(w, env, app, EnvAppOf(w, env, app)) == w
  {
    var w' := SetEnvApp(w, env, app, EnvAppOf(w, env, app));
    assert w'.envs[env].apps == w.envs[env].apps;
    assert w'.envs == w.envs;
  }

  lemma DoneIsNoop(w: World, env: string, upstream: ConfigUpstream, team: string, app: string)
    requires Safe(w) && env in w.envs
    requires Done(w, env, upstream, team, app)
    ensures TrainApp(w, env, upstream, team, app) == Ok(w)
  {
    assert !Dangles(w, app, EnvAppOf(w, env, app).version);
    if EnvAppOf(w, env, app).queued.Some? {
      SameLinkSameWorld(w, env, app);
      var x := EnvAppOf(w, env, app);
      assert x.(queued := x.queued) == x;
    }
  }

  /** `w'` answers the train's questions about `app` as `w` does. */
  lemma TrainVersionKept(w: World, w': World, env: string, upstream: ConfigUpstream, app: string)
    requires Safe(w) && Safe(w') && TrainFrame(w, w', env)
    requires upstream.latest || upstream.environment != env
    ensures TrainVersion(w', upstream, app) == TrainVersion(w, upstream, app)
    ensures TrainVersion(w, upstream, app).Ok?
  {
    if !upstream.latest {
      assert EnvAppOf(w', upstream.environment, app) == EnvAppOf(w, upstream.environment, app);
      assert !Dangles(w, app, EnvAppOf(w, upstream.environment, app).version);
      assert !Dangles(w', app, EnvAppOf(w', upstream.environment, app).version);
    }
  }

  lemma DeployMakesDone(w: World, env: string, app: string, version: nat)
    requires env in w.envs
    ensures DoneAt(DeployApplicationVersion(w, env, app, version, Record).world, env, app, version)
  {
    if IsLocked(w, env, app) {
      SetEnvAppFrame(w, env, app, EnvAppOf(w, env, app).(queued := Some(version)));
    } else if HasManifest(w, app, version, env) {
      LinkedIsDone(w, env, app, version);
    }
  }

  lemma LinkedIsDone(w: World, env: string, app: string, version: nat)
    requires HasManifest(w, app, version, env) && !IsLocked(w, env, app)
    ensures EnvAppOf(DeployApplicationVersion(w, env, app, version, Record).world, env, app).version == Some(version)
  {
    var linked := SetEnvApp(w, env, app, EnvAppOf(w, env, app).(version := Some(version)));
    SetEnvAppFrame(w, env, app, EnvAppOf(w, env, app).(version := Some(version)));
    var unqueued := DeleteQueuedVersion(linked, env, app);
    SetEnvAppFrame(linked, env, app, EnvAppOf(linked, env, app).(queued := None));
    C.CleanupFrame(linked, app);
    C.CleanupFrame(unqueued, app);
    SameEnvsSameLinks(linked, CleanupOldApplicationVersions(linked, app).world, env, app);
    SameEnvsSameLinks(unqueued, CleanupOldApplicationVersions(unqueued, app).world, env, app);
  }

  lemma SameEnvsSameLinks(w: World, w': World, env: string, app: string)
    requires w'.envs == w.envs
    ensures EnvAppOf(w', env, app) == EnvAppOf(w, env, app)
  {
  }

  lemma StepMakesDone(w: World, env: string, upstream: ConfigUpstream, team: string, app: string)
    requires Safe(w) && env in w.envs
    requires upstream.latest || upstream.environment != env
    ensures TrainApp(w, env, upstream, team, app).Ok?
    ensures Done(TrainApp(w, env, upstream, team, app).value, env, upstream, team, app)
  {
    TrainAppEffect(w, env, upstream, team, app);
    var w' := TrainApp(w, env, upstream, team, app).value;
    TrainVersionKept(w, w', env, upstream, app);
    var v := TrainVersion(w, upstream, app);
    if v.value.Some? {
      DeployMakesDone(w, env, app, v.value.value);
    }
  }

  lemma DoneStays(w: World, w': World, env: string, upstream: ConfigUpstream, team: string, app: string, other: string)
    requires Safe(w) && Safe(w') && OnlyAt(w, w', env, other) && TrainFrame(w, w', env) && app != other
    requires upstream.latest || upstream.environment != env
    requires Done(w, env, upstream, team, app)
    ensures Done(w', env, upstream, team, app)
  {
    TrainVersionKept(w, w', env, upstream, app);
    assert EnvAppOf(w', env, app) == EnvAppOf(w, env, app);
  }

  /** A train over applications in any order: it succeeds, stays in its frame, and leaves nothing to do for them. */
  lemma {:induction false} TrainAppsEffect(w: World, env: string, upstream: ConfigUpstream, team: string, apps: seq<string>)
    requires Safe(w) && env in w.envs
    requires upstream.latest || upstream.environment != env
    ensures var r := TrainApps(w, env, upstream, team, apps);
            && r.Ok?
            && Safe(r.value)
            && TrainFrame(w, r.value, env)
            && (forall a | a in apps :: Done(r.value, env, upstream, team, a))
            && (forall a | Done(w, env, upstream, team, a) :: Done(r.value, env, upstream, team, a))
    decreases |apps|
  {
    if apps == [] {
      LinksOnlyAt(w, env, "", EnvAppOf(w, env, ""));
      assert TrainFrame(w, w, env);
    } else {
      TrainAppEffect(w, env, upstream, team, apps[0]);
      StepMakesDone(w, env, upstream, team, apps[0]);
      var next := TrainApp(w, env, upstream, team, apps[0]).value;
      TrainAppsEffect(next, env, upstream, team, apps[1..]);
      var last := TrainApps(next, env, upstream, team, apps[1..]).value;
      TrainFrameStep(w, next, last, env);
      forall a | Done(w, env, upstream, team, a) ensures Done(last, env, upstream, team, a) {
        if a != apps[0] {
          DoneStays(w, next, env, upstream, team, a, apps[0]);
        }
      }
      forall a | a in apps ensures Done(last, env, upstream, team, a) {
        if a != apps[0] {
          assert a in apps[1..];
        }
      }
    }
  }

  lemma {:induction false} AllDoneIsNoop(w: World, env: string, upstream: ConfigUpstream, team: string, apps: seq<string>)
    requires Safe(w) && env in w.envs
    requires forall a | a in apps :: Done(w, env, upstream, team, a)
    ensures TrainApps(w, env, upstream, team, apps) == Ok(w)
    decreases |apps|
  {
    if apps != [] {
      DoneIsNoop(w, env, upstream, team, apps[0]);
      assert forall a | a in apps[1..] :: a in apps;
      AllDoneIsNoop(w, env, upstream, team, apps[1..]);
    }
  }

  /** The target names one environment, which is not locked and has a usable upstream that exists. */
  ghost predicate SingleTarget(w: World, target: string, env: string, upstream: ConfigUpstream) {
    && (forall e :: Targeted(w, target, e) <==> e == env)
    && Follows(w, env, upstream)
    && (upstream.latest || upstream.environment in w.envs)
    && EnvOf(w, env).locks == {}
  }

  /** The environments that a train to `target` is for. */
  ghost function TargetsOf(w: World, target: string): set<string> {
    set e | e in w.envs && Targeted(w, target, e)
  }

  lemma TargetsAre(w: World, target: string)
    ensures TrainTargets(AllConfigs(w), target) == TargetsOf(w, target)
  {
    var members := set e | e in AllConfigs(w) && AllConfigs(w)[e].group == Some(target);
    forall e ensures e in members <==> InGroup(w, e, target) {}
    assert members == {} <==> forall e :: !InGroup(w, e, target);
  }

  lemma OfferedIs(w: World, upstream: ConfigUpstream, app: string, v: nat)
    requires Safe(w) && Offered(w, upstream, app, v)
    ensures app in TrainSource(w, upstream) && TrainVersion(w, upstream, app) == Ok(Some(v))
  {
    assert upstream.latest || !Dangles(w, app, EnvAppOf(w, upstream.environment, app).version);
  }

  lemma OneName(env: string)
    ensures SortedNames({env}) == [env]
  {
    assert IsSortedNames({env}, [env]);
    SortedNamesUnique({env}, [env]);
  }

  lemma SingleTrain(w: World, target: string, team: string, env: string, upstream: ConfigUpstream)
    requires Decodable(w) && SingleTarget(w, target, env, upstream)
    ensures env in w.envs
    ensures ReleaseTrain(w, target, team) == TrainApps(w, env, upstream, team, SortedNames(TrainSource(w, upstream)))
  {
    TargetsAre(w, target);
    assert Targeted(w, target, env) && TargetsOf(w, target) == {env};
    OneName(env);
    var configs := AllConfigs(w);
    var r := TrainApps(w, env, upstream, team, SortedNames(TrainSource(w, upstream)));
    assert [env][1..] == [];
    if r.Ok? {
      assert TrainEnvs(r.value, configs, team, []) == r;
    }
    assert TrainEnvs(w, configs, team, [env]) == r;
  }

  /** One target after the train over its applications. */
  lemma DeliversAt(w: World, env: string, upstream: ConfigUpstream, team: string, app: string, v: nat)
    requires Safe(w) && env in w.envs && EnvOf(w, env).locks == {} && EnvAppOf(w, env, app).locks == {}
    requires app in TrainSource(w, upstream) && !OtherTeam(w, team, app)
    requires TrainVersion(w, upstream, app) == Ok(Some(v)) && HasManifest(w, app, v, env)
    ensures var r := TrainApps(w, env, upstream, team, SortedNames(TrainSource(w, upstream)));
            r.Ok? && EnvAppOf(r.value, env, app).version == Some(v)
  {
    var apps := SortedNames(TrainSource(w, upstream));
    if upstream.latest || upstream.environment != env {
      TrainAppsEffect(w, env, upstream, team, apps);
      var w' := TrainApps(w, env, upstream, team, apps).value;
      TrainVersionKept(w, w', env, upstream, app);
      if upstream.latest {
        assert LastRelease(w', app) in Releases(w', app);
      } else {
        assert !Dangles(w', app, EnvAppOf(w', upstream.environment, app).version);
      }
      assert HasManifest(w', app, v, env);
    } else {
      SelfTrain(w, env, upstream, team, apps);
    }
  }

  /**
   A train to one unlocked environment succeeds and brings every application to its upstream's version if it
   passes the team filter, has a version upstream, a manifest for the target, and no lock there.
   */
  lemma TrainDelivers(w: World, target: string, team: string, env: string, upstream: ConfigUpstream, app: string, v: nat)
    requires Safe(w) && SingleTarget(w, target, env, upstream)
    requires Fits(w, env, upstream, team, app, v) && EnvAppOf(w, env, app).locks == {}
    ensures ReleaseTrain(w, target, team).Ok?
    ensures EnvAppOf(ReleaseTrain(w, target, team).value, env, app).version == Some(v)
  {
    OfferedIs(w, upstream, app, v);
    SingleTrain(w, target, team, env, upstream);
    DeliversAt(w, env, upstream, team, app, v);
  }

  /** An environment that is its own upstream. */
  lemma SelfTrain(w: World, env: string, upstream: ConfigUpstream, team: string, apps: seq<string>)
    requires Safe(w) && env in w.envs && !upstream.latest && upstream.environment == env
    ensures TrainApps(w, env, upstream, team, apps) == Ok(w)
  {
    forall a | a in apps ensures Done(w, env, upstream, team, a) {
      assert !Dangles(w, a, EnvAppOf(w, env, a).version);
    }
    AllDoneIsNoop(w, env, upstream, team, apps);
  }

  /** It changes no version, queue or lock of any other environment, no lock at all, and no newest release. */
  lemma TrainStaysInTarget(w: World, target: string, team: string, env: string, upstream: ConfigUpstream)
    requires Safe(w) && SingleTarget(w, target, env, upstream)
    ensures ReleaseTrain(w, target, team).Ok?
    ensures TrainFrame(w, ReleaseTrain(w, target, team).value, env)
  {
    SingleTrain(w, target, team, env, upstream);
    var apps := SortedNames(TrainSource(w, upstream));
    if upstream.latest || upstream.environment != env {
      TrainAppsEffect(w, env, upstream, team, apps);
    } else {
      SelfTrain(w, env, upstream, team, apps);
      LinksOnlyAt(w, env, "", EnvAppOf(w, env, ""));
    }
  }

  lemma SameConfigs(w: World, w': World)
    requires w'.envs.Keys == w.envs.Keys
    requires forall e :: EnvOf(w', e).config == EnvOf(w, e).config
    ensures AllConfigs(w') == AllConfigs(w)
  {
    forall e | e in w.envs ensures AllConfigs(w')[e] == AllConfigs(w)[e] {
      assert EnvOf(w', e) == w'.envs[e] && EnvOf(w, e) == w.envs[e];
    }
  }

  lemma SameTargets(w: World, w': World, target: string)
    requires w'.envs.Keys == w.envs.Keys
    requires forall e :: EnvOf(w', e).config == EnvOf(w, e).config
    ensures forall e :: Targeted(w', target, e) <==> Targeted(w, target, e)
    ensures forall e, u :: Follows(w', e, u) <==> Follows(w, e, u)
  {
    forall e | e in w.envs ensures w'.envs[e].config == w.envs[e].config {
      assert EnvOf(w', e) == w'.envs[e] && EnvOf(w, e) == w.envs[e];
    }
    assert forall e :: InGroup(w', e, target) <==> InGroup(w, e, target);
  }

  /** An immediate second train changes nothing. */
  lemma TrainIdempotent(w: World, target: string, team: string, env: string, upstream: ConfigUpstream)
    requires Safe(w) && SingleTarget(w, target, env, upstream)
    ensures ReleaseTrain(w, target, team).Ok?
    ensures ReleaseTrain(ReleaseTrain(w, target, team).value, target, team) == ReleaseTrain(w, target, team)
  {
    SingleTrain(w, target, team, env, upstream);
    var apps := SortedNames(TrainSource(w, upstream));
    if upstream.latest || upstream.environment != env {
      TrainAppsEffect(w, env, upstream, team, apps);
      var w' := ReleaseTrain(w, target, team).value;
      SameConfigs(w, w');
      assert TrainSource(w', upstream) == TrainSource(w, upstream);
      SameTargets(w, w', target);
      SingleTrain(w', target, team, env, upstream);
      AllDoneIsNoop(w', env, upstream, team, apps);
    } else {
      SelfTrain(w, env, upstream, team, apps);
    }
  }
}
