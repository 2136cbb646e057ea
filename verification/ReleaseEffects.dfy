/** What creating, deploying and queueing versions do to every place: which get the version at once, and which only queue it. */
module ReleaseEffects {
  import C = Cleanup
  import opened Config
  import opened Deployment
  import opened Locking
  import opened Places
  import R = Releasing
  import T = Trains

  // ---- New releases ----

  /** A deployment under Record, if there is no error. */
  lemma RecordEffect(w: World, env: string, app: string, v: nat)
    requires DeployApplicationVersion(w, env, app, v, Record).error.None?
    ensures var w', x := DeployApplicationVersion(w, env, app, v, Record).world, EnvAppOf(w, env, app);
            && EnvAppOf(w', env, app) == (if AnyLock(w, env, app) then EnvApp(x.version, Some(v), x.locks) else EnvApp(Some(v), None, x.locks))
            && (forall e, a {:trigger EnvAppOf(w', e, a)} | e != env || a != app :: EnvAppOf(w', e, a) == EnvAppOf(w, e, a))
            && (forall e :: EnvOf(w', e).config == EnvOf(w, e).config && EnvOf(w', e).locks == EnvOf(w, e).locks)
            && w'.envs.Keys == w.envs.Keys + {env}
  {
    var x := EnvAppOf(w, env, app);
    if AnyLock(w, env, app) {
      SetEnvAppFrame(w, env, app, x.(queued := Some(v)));
    } else {
      NotBlocked(w, env, app, v);
      DeployIsLinkAndCleanup(w, env, app, v, Record);
      SetEnvAppFrame(w, env, app, EnvApp(Some(v), None, x.locks));
      CleanupPlaces(Linked(w, env, app, v), app);
    }
  }

  lemma NotBlocked(w: World, env: string, app: string, v: nat)
    requires DeployApplicationVersion(w, env, app, v, Record).error.None? && !AnyLock(w, env, app)
    ensures Deployable(w, env, app, v, Record) && !IsLocked(w, env, app)
  {
    var x := EnvAppOf(w, env, app).(version := Some(v));
    SetEnvAppFrame(w, env, app, x);
    assert ReadQueued(SetEnvApp(w, env, app, x), env, app) == ReadQueued(w, env, app);
  }

  lemma CleanupPlaces(w: World, app: string)
    ensures var w' := CleanupOldApplicationVersions(w, app).world;
            && w'.envs == w.envs
            && (forall e :: EnvOf(w', e) == EnvOf(w, e))
            && (forall e, a {:trigger EnvAppOf(w', e, a)} :: EnvAppOf(w', e, a) == EnvAppOf(w, e, a))
  {
    C.CleanupFrame(w, app);
    var w' := CleanupOldApplicationVersions(w, app).world;
    forall e, a ensures EnvOf(w', e) == EnvOf(w, e) && EnvAppOf(w', e, a) == EnvAppOf(w, e, a) {}
  }

  /**
   What a place has after a new newest release: the version, in an environment that takes what is latest; behind a
   lock, only in its queue.
   */
  ghost predicate SettledPlace(w: World, w': World, latest: set<string>, app: string, v: nat, order: seq<string>, e: string, a: string) {
    var x, x' := EnvAppOf(w, e, a), EnvAppOf(w', e, a);
    if a != app || e !in order || e !in latest then x' == x
    else if AnyLock(w, e, a) then x' == EnvApp(x.version, Some(v), x.locks)
    else x' == EnvApp(Some(v), None, x.locks)
  }

  ghost predicate Settled(w: World, w': World, latest: set<string>, app: string, v: nat, order: seq<string>) {
    && (forall e, a {:trigger EnvAppOf(w', e, a)} :: SettledPlace(w, w', latest, app, v, order, e, a))
    && (forall e :: EnvOf(w', e).config == EnvOf(w, e).config && EnvOf(w', e).locks == EnvOf(w, e).locks)
  }

  /** One more environment before the others. */
  lemma SettledStep(w: World, next: World, last: World, latest: set<string>, app: string, v: nat, order: seq<string>)
    requires order != []
    requires Settled(w, next, latest, app, v, [order[0]]) && Settled(next, last, latest, app, v, order[1..])
    ensures Settled(w, last, latest, app, v, order)
  {
    assert order == [order[0]] + order[1..];
    forall e, a ensures SettledPlace(w, last, latest, app, v, order, e, a) {
      assert SettledPlace(w, next, latest, app, v, [order[0]], e, a);
      assert SettledPlace(next, last, latest, app, v, order[1..], e, a);
      assert AnyLock(next, e, a) <==> AnyLock(w, e, a);
    }
  }

  ghost function Latest(configs: map<string, EnvironmentConfig>): set<string> {
    set e | e in configs && UpstreamIsLatest(configs, e)
  }

  lemma DeployedSettled(w: World, configs: map<string, EnvironmentConfig>, app: string, v: nat, e: string)
    requires v in Releases(w, app) && e in Latest(configs)
    requires DeployApplicationVersion(AddManifest(w, app, v, e), e, app, v, Record).error.None?
    ensures Settled(w, DeployApplicationVersion(AddManifest(w, app, v, e), e, app, v, Record).world, Latest(configs), app, v, [e])
  {
    var written := AddManifest(w, app, v, e);
    RecordEffect(written, e, app, v);
    var next := DeployApplicationVersion(written, e, app, v, Record).world;
    forall x, a ensures SettledPlace(w, next, Latest(configs), app, v, [e], x, a) {
      assert EnvAppOf(written, x, a) == EnvAppOf(w, x, a);
    }
    forall x ensures EnvOf(next, x).config == EnvOf(w, x).config && EnvOf(next, x).locks == EnvOf(w, x).locks {
      assert EnvOf(written, x) == EnvOf(w, x);
    }
  }

  lemma WrittenSettled(w: World, configs: map<string, EnvironmentConfig>, app: string, v: nat, e: string)
    requires v in Releases(w, app) && e !in Latest(configs)
    ensures Settled(w, AddManifest(w, app, v, e), Latest(configs), app, v, [e])
  {
    var written := AddManifest(w, app, v, e);
    forall x, a ensures SettledPlace(w, written, Latest(configs), app, v, [e], x, a) {
      assert EnvAppOf(written, x, a) == EnvAppOf(w, x, a);
    }
  }

  lemma {:induction false} WriteManifestsSettles(w: World, configs: map<string, EnvironmentConfig>, app: string, v: nat, order: seq<string>)
    requires WriteManifests(w, configs, app, v, true, order).Ok?
    ensures Settled(w, WriteManifests(w, configs, app, v, true, order).value, Latest(configs), app, v, order)
    decreases |order|
  {
    if order == [] {
      forall e, a ensures SettledPlace(w, w, Latest(configs), app, v, order, e, a) {}
    } else {
      var written := AddManifest(w, app, v, order[0]);
      var next := if UpstreamIsLatest(configs, order[0])
                  then DeployApplicationVersion(written, order[0], app, v, Record).world else written;
      if UpstreamIsLatest(configs, order[0]) {
        RecordErrors(written, order[0], app, v);
        DeployedSettled(w, configs, app, v, order[0]);
      } else {
        WrittenSettled(w, configs, app, v, order[0]);
      }
      WriteManifestsSettles(next, configs, app, v, order[1..]);
      SettledStep(w, next, WriteManifests(w, configs, app, v, true, order).value, Latest(configs), app, v, order);
    }
  }

  /** Recording never reports a lock. */
  lemma RecordErrors(w: World, env: string, app: string, v: nat)
    ensures DeployApplicationVersion(w, env, app, v, Record).error != Some(Locked)
  {
  }

  /** What nested deployments leave of the releases. */
  ghost predicate OneReleaseChanges(w: World, w': World, app: string, v: nat) {
    && w'.apps.Keys == w.apps.Keys
    && (forall a :: TeamOf(w', a) == TeamOf(w, a))
    && (forall a | a != app :: Releases(w', a) == Releases(w, a))
    && (forall u | u in Releases(w', app) :: u in Releases(w, app) && (u != v ==> Releases(w', app)[u] == Releases(w, app)[u]))
  }

  lemma DeployReleases(w: World, env: string, app: string, v: nat)
    ensures var w' := DeployApplicationVersion(w, env, app, v, Record).world;
            && OneReleaseChanges(w, w', app, v)
            && (AnyLock(w, env, app) ==> w'.apps == w.apps)
  {
    var linked := SetEnvApp(w, env, app, EnvAppOf(w, env, app).(version := Some(v)));
    var unqueued := DeleteQueuedVersion(linked, env, app);
    CleanupReleases(w, linked, app, v);
    CleanupReleases(w, unqueued, app, v);
    T.DeployOutcomes(w, env, app, v, Record);
  }

  lemma CleanupReleases(w: World, linked: World, app: string, v: nat)
    requires linked.apps == w.apps
    ensures OneReleaseChanges(w, linked, app, v)
    ensures OneReleaseChanges(w, CleanupOldApplicationVersions(linked, app).world, app, v)
  {
    assert forall a :: Releases(linked, a) == Releases(w, a) && TeamOf(linked, a) == TeamOf(w, a);
    C.CleanupFrame(linked, app);
  }

  lemma OneReleaseStep(w: World, w': World, w'': World, app: string, v: nat)
    requires OneReleaseChanges(w, w', app, v) && OneReleaseChanges(w', w'', app, v)
    ensures OneReleaseChanges(w, w'', app, v)
  {
  }

  lemma WrittenRelease(w: World, app: string, v: nat, e: string)
    requires v in Releases(w, app)
    ensures OneReleaseChanges(w, AddManifest(w, app, v, e), app, v)
    ensures Releases(AddManifest(w, app, v, e), app).Keys == Releases(w, app).Keys
    ensures forall x, a :: EnvAppOf(AddManifest(w, app, v, e), x, a) == EnvAppOf(w, x, a)
  {
  }

  ghost function NextWorld(w: World, configs: map<string, EnvironmentConfig>, app: string, v: nat, e: string): World
    requires v in Releases(w, app)
  {
    var written := AddManifest(w, app, v, e);
    if UpstreamIsLatest(configs, e) then DeployApplicationVersion(written, e, app, v, Record).world else written
  }

  lemma {:induction false} WriteManifestsReleases(w: World, configs: map<string, EnvironmentConfig>, app: string, v: nat, order: seq<string>)
    requires WriteManifests(w, configs, app, v, true, order).Ok?
    ensures OneReleaseChanges(w, WriteManifests(w, configs, app, v, true, order).value, app, v)
    decreases |order|
  {
    if order != [] {
      var written, next := AddManifest(w, app, v, order[0]), NextWorld(w, configs, app, v, order[0]);
      WrittenRelease(w, app, v, order[0]);
      DeployReleases(written, order[0], app, v);
      OneReleaseStep(w, written, next, app, v);
      WriteManifestsReleases(next, configs, app, v, order[1..]);
      OneReleaseStep(w, next, WriteManifests(w, configs, app, v, true, order).value, app, v);
    }
  }

  /** In each of these environments that takes what is latest, there is a lock. */
  ghost predicate AllBlocked(w: World, latest: set<string>, app: string, order: seq<string>) {
    forall e | e in order && e in latest :: AnyLock(w, e, app)
  }

  /** Nothing is cleaned up if nothing is deployed. */
  lemma {:induction false} NothingRemoved(w: World, configs: map<string, EnvironmentConfig>, app: string, v: nat, order: seq<string>)
    requires WriteManifests(w, configs, app, v, true, order).Ok? && AllBlocked(w, Latest(configs), app, order)
    ensures Releases(WriteManifests(w, configs, app, v, true, order).value, app).Keys == Releases(w, app).Keys
    decreases |order|
  {
    if order != [] {
      var written, next := AddManifest(w, app, v, order[0]), NextWorld(w, configs, app, v, order[0]);
      WrittenRelease(w, app, v, order[0]);
      assert order[0] in order && forall e | e in order[1..] :: e in order;
      DeployReleases(written, order[0], app, v);
      if UpstreamIsLatest(configs, order[0]) {
        assert AnyLock(written, order[0], app);
        RecordErrors(written, order[0], app, v);
        RecordEffect(written, order[0], app, v);
      }
      assert forall e :: EnvOf(next, e).locks == EnvOf(w, e).locks && EnvAppOf(next, e, app).locks == EnvAppOf(w, e, app).locks;
      NothingRemoved(next, configs, app, v, order[1..]);
    }
  }

  ghost function LatestIn(w: World): set<string> {
    set e | e in w.envs && TakesLatest(w, e)
  }

  ghost predicate Newest(w: World, app: string, v: nat) {
    forall u | u in Releases(w, app) :: u < v
  }

  /**
   After a new release: only the newest one is deployed, in the given environments that take what is latest, or
   queued where there is a lock; no other link and no lock changes, and without a deployment no release goes.
   */
  ghost predicate ReleasedEverywhere(w: World, w': World, app: string, v: nat, order: seq<string>) {
    && (forall e, a {:trigger EnvAppOf(w', e, a)} ::
          SettledPlace(w, w', if Newest(w, app, v) then LatestIn(w) else {}, app, v, order, e, a))
    && (forall e :: EnvOf(w', e).config == EnvOf(w, e).config && EnvOf(w', e).locks == EnvOf(w, e).locks)
    && w'.apps.Keys == w.apps.Keys + {app}
    && (forall a | a != app :: Releases(w', a) == Releases(w, a) && TeamOf(w', a) == TeamOf(w, a))
    && (forall u | u in Releases(w', app) && u != v :: u in Releases(w, app) && Releases(w', app)[u] == Releases(w, app)[u])
    && (!Newest(w, app, v) || AllBlocked(w, LatestIn(w), app, order) ==> Releases(w', app).Keys == Releases(w, app).Keys + {v})
  }

  lemma AddedPlaces(w: World, app: string, v: nat, undeploy: bool, team: string)
    requires v !in Releases(w, app)
    ensures var added := AddRelease(w, app, v, undeploy, team);
            && added.envs == w.envs && (forall e, a :: EnvAppOf(added, e, a) == EnvAppOf(w, e, a)) && (forall e :: EnvOf(added, e) == EnvOf(w, e))
            && (IsLatest(added, app, v) <==> Newest(w, app, v))
            && Latest(AllConfigs(added)) == LatestIn(w)
            && TeamOf(added, app) == (if team != "" then team else TeamOf(w, app))
            && added.apps.Keys == w.apps.Keys + {app} && Releases(added, app).Keys == Releases(w, app).Keys + {v}
            && (forall a | a != app :: Releases(added, a) == Releases(w, a) && TeamOf(added, a) == TeamOf(w, a))
            && (forall u | u in Releases(w, app) :: Releases(added, app)[u] == Releases(w, app)[u])
  {
    var added := AddRelease(w, app, v, undeploy, team);
    assert forall u :: u in Releases(added, app) <==> u in Releases(w, app) || u == v;
    forall e ensures e in Latest(AllConfigs(added)) <==> e in LatestIn(w) {
      TakesLatestIs(w, added, e);
    }
  }

  lemma TakesLatestIs(w: World, w': World, e: string)
    requires w'.envs == w.envs
    ensures UpstreamIsLatest(AllConfigs(w'), e) <==> TakesLatest(w, e)
  {
  }

  lemma NewestEverywhere(w: World, app: string, v: nat, undeploy: bool, team: string, order: seq<string>)
    requires v !in Releases(w, app) && Newest(w, app, v)
    requires var added := AddRelease(w, app, v, undeploy, team); WriteManifests(added, AllConfigs(added), app, v, true, order).Ok?
    ensures var added := AddRelease(w, app, v, undeploy, team);
            var w' := WriteManifests(added, AllConfigs(added), app, v, true, order).value;
            ReleasedEverywhere(w, w', app, v, order) && TeamOf(w', app) == TeamOf(added, app)
  {
    var added := AddRelease(w, app, v, undeploy, team);
    var configs := AllConfigs(added);
    var w' := WriteManifests(added, configs, app, v, true, order).value;
    AddedPlaces(w, app, v, undeploy, team);
    WriteManifestsSettles(added, configs, app, v, order);
    WriteManifestsReleases(added, configs, app, v, order);
    if AllBlocked(w, LatestIn(w), app, order) {
      assert AllBlocked(added, Latest(configs), app, order);
      NothingRemoved(added, configs, app, v, order);
    }
    forall e, a ensures SettledPlace(w, w', LatestIn(w), app, v, order, e, a) {
      assert SettledPlace(added, w', LatestIn(w), app, v, order, e, a);
      assert EnvAppOf(added, e, a) == EnvAppOf(w, e, a) && EnvOf(added, e) == EnvOf(w, e);
    }
  }

  lemma {:induction false} BackfillChanges(w: World, configs: map<string, EnvironmentConfig>, app: string, v: nat, order: seq<string>)
    requires v in Releases(w, app) && WriteManifests(w, configs, app, v, false, order).Ok?
    ensures OneReleaseChanges(w, WriteManifests(w, configs, app, v, false, order).value, app, v)
    decreases |order|
  {
    if order != [] {
      var written := AddManifest(w, app, v, order[0]);
      WrittenRelease(w, app, v, order[0]);
      BackfillChanges(written, configs, app, v, order[1..]);
      OneReleaseStep(w, written, WriteManifests(w, configs, app, v, false, order).value, app, v);
    }
  }

  lemma BackfillNowhere(w: World, app: string, v: nat, team: string, order: seq<string>)
    requires v !in Releases(w, app) && !Newest(w, app, v)
    requires var added := AddRelease(w, app, v, false, team); WriteManifests(added, AllConfigs(added), app, v, false, order).Ok?
    ensures var added := AddRelease(w, app, v, false, team);
            var w' := WriteManifests(added, AllConfigs(added), app, v, false, order).value;
            ReleasedEverywhere(w, w', app, v, order) && TeamOf(w', app) == TeamOf(added, app)
  {
    var added := AddRelease(w, app, v, false, team);
    var configs := AllConfigs(added);
    var w' := WriteManifests(added, configs, app, v, false, order).value;
    AddedPlaces(w, app, v, false, team);
    R.WriteManifestsOnly(added, configs, app, v, order);
    BackfillChanges(added, configs, app, v, order);
    assert w'.envs == w.envs;
    forall e, a ensures SettledPlace(w, w', {}, app, v, order, e, a) && EnvOf(w', e) == EnvOf(w, e) {}
  }

  /** A new release in every place, in whatever number it was asked for. */
  lemma CreateVersionEffect(w: World, app: string, version: nat, team: string, order: seq<string>)
    requires Transform(w, CreateVersion(app, version, team, order)).Ok?
    ensures var w' := Transform(w, CreateVersion(app, version, team, order)).value;
            var v := if version == 0 then LastRelease(w, app) + 1 else version;
            && v !in Releases(w, app) && (version == 0 ==> Newest(w, app, v))
            && v in Releases(w', app) && Releases(w', app)[v] == Release(false, R.Elements(order))
            && ReleasedEverywhere(w, w', app, v, order)
            && TeamOf(w', app) == if team != "" then team else TeamOf(w, app)
  {
    var v := if version == 0 then LastRelease(w, app) + 1 else version;
    R.CreatedReleaseStays(w, app, version, team, order);
    AddedPlaces(w, app, v, false, team);
    if Newest(w, app, v) {
      NewestEverywhere(w, app, v, false, team, order);
    } else {
      BackfillNowhere(w, app, v, team, order);
    }
  }

  /** An undeploy version is a new newest release. */
  lemma CreateUndeployEffect(w: World, app: string, order: seq<string>)
    requires Transform(w, CreateUndeploy(app, order)).Ok?
    ensures var w' := Transform(w, CreateUndeploy(app, order)).value;
            var v := LastRelease(w, app) + 1;
            && Newest(w, app, v)
            && v in Releases(w', app) && Releases(w', app)[v] == Release(true, R.Elements(order))
            && ReleasedEverywhere(w, w', app, v, order)
            && TeamOf(w', app) == TeamOf(w, app)
  {
    var v := LastRelease(w, app) + 1;
    R.UndeployVersionIsLast(w, app, order);
    AddedPlaces(w, app, v, true, "");
    NewestEverywhere(w, app, v, true, "", order);
  }
}
