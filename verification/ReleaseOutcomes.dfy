/**
 When creating a release succeeds. The newest release is deployed on the way, each deployment cleans up, and a cleanup
 may take away the release that a queue names: whether that happens is told from the repository before the request.
 */
module ReleaseOutcomes {
  import opened Cleanup
  import opened Config
  import opened Deployment
  import opened Invariants
  import opened Locking
  import opened Places
  import Rbac
  import opened ReleaseEffects
  import R = Releasing

  // ---- Cleaning up more than once ----

  /** The versions that lie below `oldest` and have at least 19 others in between. */
  ghost function OldIn(s: set<nat>, oldest: nat): set<nat> {
    set u | u in s && u < oldest && |set x | x in s && u < x < oldest| >= 19
  }

  /** Cleaning up for one oldest version and then for a later one is cleaning up for the later one. */
  lemma OldOfRest(s: set<nat>, oldest: nat, later: nat)
    requires oldest <= later
    ensures var t := s - OldIn(s, oldest); t - OldIn(t, later) == s - OldIn(s, later)
  {
    var t := s - OldIn(s, oldest);
    forall u | u in s ensures u in t - OldIn(t, later) <==> u in s - OldIn(s, later) {
      if u in OldIn(s, oldest) {
        Subset(set x | x in s && u < x < oldest, set x | x in s && u < x < later);
      } else {
        forall x | x in s && u < x ensures x in t {
          if x in OldIn(s, oldest) {
            Subset(set y | y in s && x < y < oldest, set y | y in s && u < y < oldest);
          }
        }
        assert (set x | x in s && u < x < later) == (set x | x in t && u < x < later);
      }
    }
  }

  lemma OldVersionsAre(w: World, app: string)
    requires Releases(w, app) != map[]
    ensures OldVersions(w, app) == OldIn(Releases(w, app).Keys, OldestDeployed(w, app))
  {
    forall u: nat ensures Between(w, app, u) == (set x | x in Releases(w, app).Keys && u < x < OldestDeployed(w, app)) {}
  }

  // ---- Deployments on the way ----

  /** The new release is deployed to the environment at once. */
  predicate GetsDeployed(w: World, app: string, e: string) {
    TakesLatest(w, e) && !AnyLock(w, e, app)
  }

  /** The repository with the release deployed to some environments, and nothing cleaned up. */
  function WithLinks(w: World, app: string, v: nat, envs: set<string>): World {
    w.(envs := map e | e in w.envs ::
         if e in envs then w.envs[e].(apps := w.envs[e].apps[app := EnvApp(Some(v), None, EnvAppOf(w, e, app).locks)]) else w.envs[e])
  }

  /** What the cleanups after these deployments take away. */
  ghost function TakenAway(w: World, app: string, v: nat, envs: set<string>): set<nat> {
    if envs == {} then {} else OldVersions(WithLinks(w, app, v, envs), app)
  }

  /** Nothing is queued there, or a release that is still there after the deployments before. */
  ghost predicate QueueHolds(w: World, app: string, v: nat, envs: set<string>, e: string) {
    var queued := EnvAppOf(w, e, app).queued;
    queued.Some? ==> queued.value in Releases(w, app) && queued.value !in TakenAway(w, app, v, envs)
  }

  /** For each environment that gets the release, when its turn comes. */
  ghost predicate QueuesHold(w: World, app: string, v: nat, before: set<string>, order: seq<string>)
    decreases |order|
  {
    if order == [] then true
    else
      && (GetsDeployed(w, app, order[0]) && order[0] !in before ==> QueueHolds(w, app, v, before, order[0]))
      && QueuesHold(w, app, v, if GetsDeployed(w, app, order[0]) then before + {order[0]} else before, order[1..])
  }

  /** The actual repository `now`, which has come from `w` by deploying to `envs` with all the cleanups. */
  ghost predicate Came(w: World, now: World, app: string, v: nat, envs: set<string>) {
    && Safe(now) && now.envs.Keys == w.envs.Keys
    && (forall e :: EnvOf(now, e).locks == EnvOf(w, e).locks && EnvOf(now, e).config == EnvOf(w, e).config)
    && (forall e {:trigger EnvAppOf(now, e, app)} ::
          var x, x' := EnvAppOf(w, e, app), EnvAppOf(now, e, app);
          && x'.locks == x.locks
          && (e in envs ==> x'.version == Some(v) && x'.queued == None)
          && (e !in envs ==> x'.version == x.version)
          && (e !in envs && !AnyLock(w, e, app) ==> x'.queued == x.queued))
    && Releases(now, app).Keys == Releases(w, app).Keys - TakenAway(w, app, v, envs)
    && v in Releases(now, app)
  }

  lemma LinkedDeployed(w: World, now: World, app: string, v: nat, envs: set<string>)
    requires now.envs.Keys == w.envs.Keys && envs <= w.envs.Keys
    requires forall e :: EnvAppOf(now, e, app).version == if e in envs then Some(v) else EnvAppOf(w, e, app).version
    ensures Deployed(now, app) == Deployed(WithLinks(w, app, v, envs), app)
  {
    var linked := WithLinks(w, app, v, envs);
    forall e | e in w.envs ensures EnvAppOf(linked, e, app).version == EnvAppOf(now, e, app).version {}
  }

  /** The later oldest version. */
  lemma OldestGrows(w: World, app: string, v: nat, envs: set<string>, more: set<string>)
    requires v in Releases(w, app) && v == LastRelease(w, app) && envs <= more
    ensures OldestDeployed(WithLinks(w, app, v, envs), app) <= OldestDeployed(WithLinks(w, app, v, more), app)
  {
    var l, m := WithLinks(w, app, v, envs), WithLinks(w, app, v, more);
    forall e | e in m.envs && EnvAppOf(m, e, app).version.Some?
      ensures EnvAppOf(m, e, app).version.value == v || EnvAppOf(m, e, app).version.value in Deployed(l, app)
    {
      assert e in l.envs;
    }
    assert Releases(l, app) == Releases(w, app) && Releases(m, app) == Releases(w, app);
  }

  /** One more deployment with its cleanup. */
  lemma CleanedMore(w: World, linked: World, app: string, v: nat, envs: set<string>, more: set<string>)
    requires v in Releases(w, app) && v == LastRelease(w, app) && envs <= more <= w.envs.Keys && more != {}
    requires Safe(linked) && Releases(linked, app).Keys == Releases(w, app).Keys - TakenAway(w, app, v, envs)
    requires v in Releases(linked, app) && Deployed(linked, app) == Deployed(WithLinks(w, app, v, more), app)
    ensures Releases(CleanupOldApplicationVersions(linked, app).world, app).Keys == Releases(w, app).Keys - TakenAway(w, app, v, more)
  {
    var keys := Releases(w, app).Keys;
    var l, m := WithLinks(w, app, v, envs), WithLinks(w, app, v, more);
    assert Releases(l, app) == Releases(w, app) && Releases(m, app) == Releases(w, app);
    OldVersionsAre(m, app);
    OldVersionsAre(linked, app);
    GreatestOfPart(keys, Releases(linked, app).Keys);
    assert OldestDeployed(linked, app) == OldestDeployed(m, app);
    var t, last := keys - TakenAway(w, app, v, envs), OldestDeployed(m, app);
    assert Releases(linked, app).Keys == t;
    assert OldVersions(linked, app) == OldIn(t, last) && OldVersions(m, app) == OldIn(keys, last);
    if envs == {} {
      assert t == keys;
    } else {
      OldVersionsAre(l, app);
      OldestGrows(w, app, v, envs, more);
      assert t == keys - OldIn(keys, OldestDeployed(l, app));
      OldOfRest(keys, OldestDeployed(l, app), last);
    }
    SafeCleanup(linked, app);
  }

  lemma SafeCleanup(w: World, app: string)
    requires Safe(w) && Releases(w, app) != map[]
    ensures Releases(CleanupOldApplicationVersions(w, app).world, app).Keys == Releases(w, app).Keys - OldVersions(w, app)
  {
    forall e | e in w.envs ensures !Dangles(w, app, EnvAppOf(w, e, app).version) {}
    KeptAreNotOld(w, app);
  }

  // ---- One environment ----

  /** Writing a manifest changes no link and no release number. */
  lemma WrittenCame(w: World, now: World, app: string, v: nat, envs: set<string>, e: string)
    requires Came(w, now, app, v, envs)
    ensures var written := AddManifest(now, app, v, e);
            Came(w, written, app, v, envs) && HasManifest(written, app, v, e)
  {
    var written := AddManifest(now, app, v, e);
    Preserved(now, written);
    assert written.envs == now.envs && Releases(written, app).Keys == Releases(now, app).Keys;
    assert forall x :: EnvAppOf(written, x, app) == EnvAppOf(now, x, app) && EnvOf(written, x) == EnvOf(now, x);
  }

  /** The new link and the empty queue, before the cleanup. */
  lemma LinkedCame(w: World, now: World, app: string, v: nat, envs: set<string>, e: string)
    requires Came(w, now, app, v, envs) && envs <= w.envs.Keys && e in w.envs
    ensures var linked := Linked(now, e, app, v);
            && Safe(linked) && linked.envs.Keys == w.envs.Keys && linked.apps == now.apps
            && (forall x :: EnvOf(linked, x).locks == EnvOf(now, x).locks && EnvOf(linked, x).config == EnvOf(now, x).config)
            && EnvAppOf(linked, e, app) == EnvApp(Some(v), None, EnvAppOf(w, e, app).locks)
            && (forall x | x != e :: EnvAppOf(linked, x, app) == EnvAppOf(now, x, app))
            && Deployed(linked, app) == Deployed(WithLinks(w, app, v, envs + {e}), app)
  {
    var linked := Linked(now, e, app, v);
    SetEnvAppFrame(now, e, app, EnvApp(Some(v), None, EnvAppOf(now, e, app).locks));
    LinkedIsSafe(now, e, app, v);
    forall x ensures EnvAppOf(linked, x, app).version == if x in envs + {e} then Some(v) else EnvAppOf(w, x, app).version {
      assert EnvAppOf(now, x, app).version == if x in envs then Some(v) else EnvAppOf(w, x, app).version;
    }
    LinkedDeployed(w, linked, app, v, envs + {e});
  }

  /** A deployment whose queue can be read. */
  lemma DeployCame(w: World, now: World, app: string, v: nat, envs: set<string>, e: string)
    requires Safe(w) && v in Releases(w, app) && v == LastRelease(w, app) && envs <= w.envs.Keys && e in w.envs
    requires Came(w, now, app, v, envs) && HasManifest(now, app, v, e)
    requires !AnyLock(now, e, app) && !QueueGone(now, e, app)
    ensures var d := DeployApplicationVersion(now, e, app, v, Record);
            d.error.None? && Came(w, d.world, app, v, envs + {e})
  {
    var linked := Linked(now, e, app, v);
    DeploySucceedsIff(now, e, app, v, Record);
    DeployIsLinkAndCleanup(now, e, app, v, Record);
    LinkedCame(w, now, app, v, envs, e);
    CleanedMore(w, linked, app, v, envs, envs + {e});
    CleanupPlaces(linked, app);
    DeployIsSafe(now, e, app, v, Record);
    NewestStays(linked, app, v);
  }

  lemma LinkedIsSafe(w: World, e: string, app: string, v: nat)
    requires Safe(w) && v in Releases(w, app)
    ensures Safe(Linked(w, e, app, v))
  {
    SetEnvAppFrame(w, e, app, EnvApp(Some(v), None, EnvAppOf(w, e, app).locks));
  }

  lemma NewestStays(w: World, app: string, v: nat)
    requires v in Releases(w, app) && (exists e :: EnvAppOf(w, e, app).version == Some(v))
    ensures v in Releases(CleanupOldApplicationVersions(w, app).world, app)
  {
    var e :| EnvAppOf(w, e, app).version == Some(v);
    DeployedIsNotOld(w, e, app);
  }

  /** A deployment behind a lock. */
  lemma QueueCame(w: World, now: World, app: string, v: nat, envs: set<string>, e: string)
    requires Came(w, now, app, v, envs) && HasManifest(now, app, v, e) && e in w.envs && e !in envs && AnyLock(w, e, app)
    ensures var d := DeployApplicationVersion(now, e, app, v, Record);
            d.error.None? && Came(w, d.world, app, v, envs)
  {
    var x := EnvAppOf(now, e, app);
    SetEnvAppFrame(now, e, app, x.(queued := Some(v)));
    assert AnyLock(now, e, app);
    DeployIsSafe(now, e, app, v, Record);
  }

  // ---- All environments ----

  /** The loop succeeds exactly if the queues hold, and is stopped by one that does not. */
  lemma {:induction false} WritesSucceedIff(w: World, now: World, app: string, v: nat, envs: set<string>, order: seq<string>)
    requires Safe(w) && v in Releases(w, app) && v == LastRelease(w, app) && envs <= w.envs.Keys
    requires Came(w, now, app, v, envs) && forall e | e in envs :: GetsDeployed(w, app, e)
    ensures var r := WriteManifests(now, AllConfigs(w), app, v, true, order);
            && (r.Ok? <==> QueuesHold(w, app, v, envs, order))
            && (r.Err? ==> r.error == NotExist)
    decreases |order|
  {
    if order != [] {
      var e, rest := order[0], order[1..];
      var written := AddManifest(now, app, v, e);
      WrittenCame(w, now, app, v, envs, e);
      TakesLatestIs(w, w, e);
      assert AnyLock(written, e, app) <==> AnyLock(w, e, app);
      if !TakesLatest(w, e) {
        WritesSucceedIff(w, written, app, v, envs, rest);
      } else if AnyLock(w, e, app) {
        QueueCame(w, written, app, v, envs, e);
        WritesSucceedIff(w, DeployApplicationVersion(written, e, app, v, Record).world, app, v, envs, rest);
      } else if QueueGone(written, e, app) {
        GoneStops(written, e, app, v);
      } else {
        DeployCame(w, written, app, v, envs, e);
        WritesSucceedIff(w, DeployApplicationVersion(written, e, app, v, Record).world, app, v, envs + {e}, rest);
      }
    }
  }

  lemma GoneStops(w: World, e: string, app: string, v: nat)
    requires HasManifest(w, app, v, e) && !AnyLock(w, e, app) && QueueGone(w, e, app)
    ensures DeployApplicationVersion(w, e, app, v, Record).error == Some(NotExist)
  {
    SetEnvAppFrame(w, e, app, EnvAppOf(w, e, app).(version := Some(v)));
  }

  // ---- Requests for a release ----

  lemma NewestSucceedsIff(w: World, app: string, v: nat, undeploy: bool, team: string, order: seq<string>)
    requires Safe(w) && v !in Releases(w, app) && Newest(w, app, v)
    ensures var added := AddRelease(w, app, v, undeploy, team);
            var r := WriteManifests(added, AllConfigs(added), app, v, true, order);
            && (r.Ok? <==> QueuesHold(added, app, v, {}, order))
            && (r.Err? ==> r.error == NotExist)
  {
    var added := AddRelease(w, app, v, undeploy, team);
    AddReleaseIsSafe(w, app, v, undeploy, team);
    assert LastRelease(added, app) == v;
    assert Came(added, added, app, v, {});
    WritesSucceedIff(added, added, app, v, {}, order);
  }

  /** A release below everything deployed that has at least 19 others in between. */
  ghost predicate TooOld(w: World, app: string, v: nat)
    requires Releases(w, app) != map[]
  {
    v < OldestDeployed(w, app) && |set x | x in Releases(w, app) && v < x < OldestDeployed(w, app)| >= 19
  }

  lemma TooOldIs(w: World, app: string, v: nat, team: string)
    requires Safe(w) && v !in Releases(w, app) && !Newest(w, app, v)
    ensures Releases(w, app) != map[]
    ensures var added := AddRelease(w, app, v, false, team);
            FindOldApplicationVersions(added, app) == Ok(OldVersions(added, app)) && (v in OldVersions(added, app) <==> TooOld(w, app, v))
  {
    var added := AddRelease(w, app, v, false, team);
    AddReleaseIsSafe(w, app, v, false, team);
    var u :| u in Releases(w, app) && u > v;
    assert Releases(added, app).Keys == Releases(w, app).Keys + {v};
    GreatestOfPart(Releases(added, app).Keys, Releases(w, app).Keys);
    SameDeployed(w, added, app);
    assert OldestDeployed(added, app) == OldestDeployed(w, app);
    assert Between(added, app, v) == (set x | x in Releases(w, app) && v < x < OldestDeployed(w, app));
    forall e | e in added.envs ensures !Dangles(added, app, EnvAppOf(added, e, app).version) {}
  }

  /**
   The outcome of asking a sound repository for a release: the number must be free and the name valid; a release that
   is not the newest must not be too old; and the newest one fails exactly if, when its turn comes to be deployed
   somewhere, a release queued there is gone.
   */
  lemma CreateVersionOutcome(w: World, app: string, version: nat, team: string, order: seq<string>)
    requires Safe(w)
    ensures var r := Transform(w, CreateVersion(app, version, team, order));
            var v := if version == 0 then LastRelease(w, app) + 1 else version;
            if v in Releases(w, app) then r == Err(ReleaseAlreadyExists)
            else if !Rbac.ValidApplicationName(app) then r == Err(InvalidApplicationName)
            else if Newest(w, app, v) then
              && (r.Ok? <==> QueuesHold(AddRelease(w, app, v, false, team), app, v, {}, order))
              && (r.Err? ==> r.error == NotExist)
            else Releases(w, app) != map[] && if TooOld(w, app, v) then r == Err(ReleaseTooOld) else r.Ok?
  {
    var v := if version == 0 then LastRelease(w, app) + 1 else version;
    if v !in Releases(w, app) && Rbac.ValidApplicationName(app) {
      if Newest(w, app, v) {
        NewestCreation(w, app, version, v, team, order);
        NewestSucceedsIff(w, app, v, false, team, order);
      } else {
        BackfillOutcome(w, app, version, v, team, order);
      }
    }
  }

  lemma NewestCreation(w: World, app: string, version: nat, v: nat, team: string, order: seq<string>)
    requires Safe(w) && CalculateVersion(w, app, version) == Ok(v) && Rbac.ValidApplicationName(app)
    requires v !in Releases(w, app) && Newest(w, app, v)
    ensures var added := AddRelease(w, app, v, false, team);
            CreateApplicationVersion(w, app, version, team, order) == WriteManifests(added, AllConfigs(added), app, v, true, order)
  {
    AddReleaseIsSafe(w, app, v, false, team);
    AddedPlaces(w, app, v, false, team);
  }

  lemma BackfillOutcome(w: World, app: string, version: nat, v: nat, team: string, order: seq<string>)
    requires Safe(w) && CalculateVersion(w, app, version) == Ok(v) && Rbac.ValidApplicationName(app)
    requires v !in Releases(w, app) && !Newest(w, app, v)
    ensures Releases(w, app) != map[]
    ensures var r := CreateApplicationVersion(w, app, version, team, order);
            if TooOld(w, app, v) then r == Err(ReleaseTooOld) else r.Ok?
  {
    var added := AddRelease(w, app, v, false, team);
    AddReleaseIsSafe(w, app, v, false, team);
    AddedPlaces(w, app, v, false, team);
    TooOldIs(w, app, v, team);
    R.WriteManifestsOnly(added, AllConfigs(added), app, v, order);
  }

  /** The same for an undeploy version, which needs a release to be there, and is always the newest. */
  lemma CreateUndeployOutcome(w: World, app: string, order: seq<string>)
    requires Safe(w)
    ensures var r := Transform(w, CreateUndeploy(app, order));
            if forall u | u in Releases(w, app) :: u == 0 then r == Err(NothingToUndeploy)
            else
              var v := LastRelease(w, app) + 1;
              && (r.Ok? <==> QueuesHold(AddRelease(w, app, v, true, ""), app, v, {}, order))
              && (r.Err? ==> r.error == NotExist)
  {
    var v := LastRelease(w, app) + 1;
    AddReleaseIsSafe(w, app, v, true, "");
    AddedPlaces(w, app, v, true, "");
    NewestSucceedsIff(w, app, v, true, "", order);
  }

  /** In particular nothing stops a release where nothing is queued. */
  lemma {:induction false} NothingQueuedHolds(w: World, app: string, v: nat, before: set<string>, order: seq<string>)
    requires forall e | e in order && GetsDeployed(w, app, e) :: EnvAppOf(w, e, app).queued.None?
    ensures QueuesHold(w, app, v, before, order)
    decreases |order|
  {
    if order != [] {
      assert order[0] in order && forall e | e in order[1..] :: e in order;
      NothingQueuedHolds(w, app, v, if GetsDeployed(w, app, order[0]) then before + {order[0]} else before, order[1..]);
    }
  }

  /** One release, and an environment that takes what is latest, with a release in its queue that is not there. */
  function QueuedNowhere(): World {
    World(map["app" := AppDir("", map[1 := Release(false, {"dev"})])],
          map["dev" := EnvDir(Decoded(EnvironmentConfig(Some(ConfigUpstream("", true)), None)), {},
                              map["app" := EnvApp(None, Some(2), {})])])
  }

  /** This stops every later release, until the queue is emptied. */
  lemma QueueStopsRelease(v: nat)
    requires v > 2
    ensures Safe(QueuedNowhere())
    ensures Transform(QueuedNowhere(), CreateVersion("app", v, "", ["dev"])) == Err(NotExist)
  {
    var w := QueuedNowhere();
    assert Safe(w);
    Rbac.NamesIff("app");
    assert Newest(w, "app", v);
    var added := AddRelease(w, "app", v, false, "");
    assert EnvAppOf(added, "dev", "app").queued == Some(2) && 2 !in Releases(added, "app");
    assert GetsDeployed(added, "app", "dev") && !QueueHolds(added, "app", v, {}, "dev");
    CreateVersionOutcome(w, "app", v, "", ["dev"]);
  }
}
