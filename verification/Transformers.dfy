/**
 The transformers as the program runs them: step by step on shared state, with loops over maps in no particular
 order. Each method is proved to leave exactly what the function of the same name in Deployment.dfy says.
 */
module Transformers {
  import opened Config
  import opened Deployment
  import opened Finite
  import opened Invariants
  import opened Releasing
  import opened Sorting
  import Rbac

  /** What a transformer left behind if it succeeded, or its error; after an error the state is thrown away. */
  ghost predicate Agrees(spec: Result<World>, after: World, error: Option<Error>) {
    match error
    case None => spec == Ok(after)
    case Some(e) => spec == Err(e)
  }

  predicate Lower(a: nat, b: nat) {
    a < b
  }

  /** `sort.Strings` on the keys of a map. */
  method Names(names: set<string>) returns (r: seq<string>)
    ensures r == SortedNames(names)
  {
    var found := Listed(names);
    NameOrder(found);
    r := SortBy(found, ByName);
    SortedNamesUnique(names, r);
  }

  /** `sort.Search`: the first position whose version is not below `limit`. */
  method Search(versions: seq<nat>, limit: nat) returns (position: nat)
    requires Sorted(versions, Lower)
    ensures position <= |versions|
    ensures forall k | 0 <= k < |versions| :: k < position <==> versions[k] < limit
  {
    var lo, hi := 0, |versions|;
    while lo < hi
      invariant lo <= hi <= |versions|
      invariant forall k | 0 <= k < lo :: versions[k] < limit
      invariant forall k | hi <= k < |versions| :: versions[k] >= limit
    {
      var mid := (lo + hi) / 2;
      if versions[mid] < limit {
        assert forall k | 0 <= k < mid :: Lower(versions[k], versions[mid]);
        lo := mid + 1;
      } else {
        assert forall k | mid < k < |versions| :: Lower(versions[mid], versions[k]);
        hi := mid;
      }
    }
    position := lo;
  }

  function VersionsOf(versions: seq<nat>): set<nat> {
    set v | v in versions
  }

  /** As many elements as positions, since nothing is listed twice. */
  lemma {:induction false} CountListed(versions: seq<nat>)
    requires Sorted(versions, Lower)
    ensures |VersionsOf(versions)| == |versions|
    decreases |versions|
  {
    if versions == [] {
      assert VersionsOf(versions) == {};
    } else {
      var n := |versions| - 1;
      assert Sorted(versions[..n], Lower);
      CountListed(versions[..n]);
      assert versions == versions[..n] + [versions[n]];
      assert forall k | 0 <= k < n :: Lower(versions[k], versions[n]);
      assert VersionsOf(versions) == VersionsOf(versions[..n]) + {versions[n]};
    }
  }

  /** The versions listed between two positions are those strictly between the versions around them. */
  lemma PartIsBetween(versions: seq<nat>, k: nat, position: nat, limit: nat, u: nat)
    requires Sorted(versions, Lower) && k < position <= |versions|
    requires forall j | 0 <= j < |versions| :: j < position <==> versions[j] < limit
    ensures u in VersionsOf(versions[k + 1..position]) <==> u in VersionsOf(versions) && versions[k] < u < limit
  {
    var part := versions[k + 1..position];
    if u in part {
      var j :| 0 <= j < |part| && part[j] == u;
      assert versions[k + 1 + j] == u && Lower(versions[k], versions[k + 1 + j]);
    }
    assert forall i | 0 <= i < k :: Lower(versions[i], versions[k]);
    if u in versions && versions[k] < u < limit {
      var j :| 0 <= j < |versions| && versions[j] == u;
      assert j > k;
      assert part[j - (k + 1)] == u;
    }
  }

  /** So the releases between a listed one and the oldest deployed can be counted by positions. */
  lemma BetweenPositions(w: World, app: string, versions: seq<nat>, position: nat, k: nat)
    requires Releases(w, app) != map[] && Sorted(versions, Lower) && VersionsOf(versions) == Releases(w, app).Keys
    requires k < position <= |versions|
    requires forall j | 0 <= j < |versions| :: j < position <==> versions[j] < OldestDeployed(w, app)
    ensures |Between(w, app, versions[k])| == position - 1 - k
  {
    var part := versions[k + 1..position];
    CountListed(part);
    forall u ensures u in VersionsOf(part) <==> u in Between(w, app, versions[k]) {
      PartIsBetween(versions, k, position, OldestDeployed(w, app), u);
      assert u in VersionsOf(versions) <==> u in Releases(w, app);
    }
    assert VersionsOf(part) == Between(w, app, versions[k]);
  }

  /** Cutting off the list 19 positions below the oldest deployed version leaves exactly the old versions. */
  lemma OldPrefix(w: World, app: string, versions: seq<nat>, position: nat)
    requires Releases(w, app) != map[] && Sorted(versions, Lower) && VersionsOf(versions) == Releases(w, app).Keys
    requires position <= |versions|
    requires forall j | 0 <= j < |versions| :: j < position <==> versions[j] < OldestDeployed(w, app)
    ensures OldVersions(w, app) ==
            if position < KEPT_VERSIONS_ON_CLEANUP - 1 then {}
            else VersionsOf(versions[..position - (KEPT_VERSIONS_ON_CLEANUP - 1)])
  {
    var cut := if position < KEPT_VERSIONS_ON_CLEANUP - 1 then 0 else position - (KEPT_VERSIONS_ON_CLEANUP - 1);
    forall v ensures v in OldVersions(w, app) <==> v in VersionsOf(versions[..cut]) {
      if v in OldVersions(w, app) {
        assert v in VersionsOf(versions);
        var k :| 0 <= k < |versions| && versions[k] == v;
        BetweenPositions(w, app, versions, position, k);
        assert versions[..cut][k] == v;
      }
      if v in VersionsOf(versions[..cut]) {
        var k :| 0 <= k < cut && versions[..cut][k] == v;
        assert versions[k] == v && v in VersionsOf(versions);
        BetweenPositions(w, app, versions, position, k);
      }
    }
  }

  lemma LastListed(w: World, app: string, versions: seq<nat>)
    requires Sorted(versions, Lower) && VersionsOf(versions) == Releases(w, app).Keys && versions != []
    ensures versions[|versions| - 1] == LastRelease(w, app)
  {
    var last := versions[|versions| - 1];
    assert forall k | 0 <= k < |versions| - 1 :: Lower(versions[k], last);
    assert last in VersionsOf(versions) && LastRelease(w, app) in VersionsOf(versions);
  }

  /** The versions deployed in some of the environments. */
  ghost function DeployedIn(w: World, names: seq<string>, app: string): set<nat> {
    set e | e in names && EnvAppOf(w, e, app).version.Some? :: EnvAppOf(w, e, app).version.value
  }

  /** The oldest version deployed in some of the environments, or the newest release. */
  ghost predicate OldestAmong(w: World, names: seq<string>, app: string, oldest: nat) {
    && (forall e | e in names :: !Dangles(w, app, EnvAppOf(w, e, app).version))
    && IsLeast(DeployedIn(w, names, app) + {LastRelease(w, app)}, oldest)
  }

  lemma OldestStep(w: World, names: seq<string>, i: nat, app: string, oldest: nat)
    requires i < |names| && OldestAmong(w, names[..i], app, oldest)
    requires !Dangles(w, app, EnvAppOf(w, names[i], app).version)
    ensures var version := EnvAppOf(w, names[i], app).version;
            OldestAmong(w, names[..i + 1], app, if version.Some? && version.value < oldest then version.value else oldest)
  {
    var next := names[..i + 1];
    assert next == names[..i] + [names[i]];
    var version := EnvAppOf(w, names[i], app).version;
    var link := if version.Some? then {version.value} else {};
    assert DeployedIn(w, next, app) == DeployedIn(w, names[..i], app) + link by {
      assert names[i] in next;
      forall n | n in names[..i] ensures n in next {}
    }
  }

  lemma OldestOfAll(w: World, names: seq<string>, app: string, oldest: nat)
    requires Releases(w, app) != map[]
    requires forall e :: e in names <==> e in w.envs
    requires OldestAmong(w, names, app, oldest)
    ensures !VersionDangles(w, app) && OldestDeployed(w, app) == oldest
  {
    assert DeployedIn(w, names, app) == Deployed(w, app);
  }

  lemma OldAreReleases(w: World, app: string)
    ensures OldVersions(w, app) <= Releases(w, app).Keys
  {
  }

  lemma RemoveOneMore(w: World, app: string, versions: seq<nat>, i: nat)
    requires i < |versions| && Sorted(versions, Lower) && versions[i] in Releases(w, app)
    ensures var removed := RemoveReleases(w, app, VersionsOf(versions[..i]));
            && versions[i] in Releases(removed, app)
            && SetReleases(removed, app, Releases(removed, app) - {versions[i]}) == RemoveReleases(w, app, VersionsOf(versions[..i + 1]))
  {
    assert versions[..i + 1] == versions[..i] + [versions[i]];
    assert VersionsOf(versions[..i + 1]) == VersionsOf(versions[..i]) + {versions[i]};
    assert forall k | 0 <= k < i :: Lower(versions[k], versions[i]);
    assert versions[i] !in VersionsOf(versions[..i]);
    var rest := Releases(w, app) - VersionsOf(versions[..i]);
    assert rest - {versions[i]} == Releases(w, app) - VersionsOf(versions[..i + 1]);
    var removed := RemoveReleases(w, app, VersionsOf(versions[..i]));
    assert Releases(removed, app) == rest;
    assert removed.apps[app := AppDir(TeamOf(w, app), rest - {versions[i]})] == w.apps[app := AppDir(TeamOf(w, app), rest - {versions[i]})];
  }

  lemma SetTwice(w: World, env: string, app: string, x: EnvApp, y: EnvApp)
    ensures SetEnvApp(SetEnvApp(w, env, app, x), env, app, y) == SetEnvApp(w, env, app, y)
    ensures EnvAppOf(SetEnvApp(w, env, app, x), env, app) == x
  {
    var dir := EnvOf(w, env);
    assert dir.apps[app := x][app := y] == dir.apps[app := y];
    var first, second := dir.(apps := dir.apps[app := x]), dir.(apps := dir.apps[app := y]);
    assert w.envs[env := first][env := second] == w.envs[env := second];
  }

  /** In some of the environments, the locks of the application may be gone; nothing else changed. */
  ghost predicate OnlyLocksRemoved(w: World, w': World, names: set<string>, app: string) {
    && w'.apps == w.apps
    && w'.envs.Keys == w.envs.Keys
    && forall e | e in w.envs :: w'.envs[e] == w.envs[e] || (e in names && LocksRemoved(w.envs[e], w'.envs[e], app))
  }

  predicate LocksRemoved(dir: EnvDir, dir': EnvDir, app: string) {
    && app in dir.apps && app in dir'.apps
    && dir' == dir.(apps := dir.apps[app := dir.apps[app].(locks := {})])
  }

  lemma RemovedTrans(w: World, w1: World, env: string, app: string, names: set<string>)
    requires OnlyLocksRemoved(w, w1, names, app) && env in names
    ensures forall w2 {:trigger OnlyLocksRemoved(w1, w2, {env}, app)} ::
              OnlyLocksRemoved(w1, w2, {env}, app) ==> OnlyLocksRemoved(w, w2, names, app)
  {
    forall w2 | OnlyLocksRemoved(w1, w2, {env}, app) ensures OnlyLocksRemoved(w, w2, names, app) {
      forall e | e in w.envs && w2.envs[e] != w.envs[e] ensures e in names && LocksRemoved(w.envs[e], w2.envs[e], app) {
        assert w1.envs[e] == w.envs[e] || w2.envs[e] == w1.envs[e];
      }
    }
  }

  lemma VersionsKept(w: World, w': World, names: set<string>, env: string, app: string)
    requires OnlyLocksRemoved(w, w', names, app) && env in w.envs
    ensures UndeployedIn(w', env, app) == UndeployedIn(w, env, app)
  {
    assert w'.envs[env] == w.envs[env] || LocksRemoved(w.envs[env], w'.envs[env], app);
  }

  lemma WithoutAppSame(w: World, w': World, names: set<string>, app: string)
    requires OnlyLocksRemoved(w, w', names, app)
    ensures forall e | e in w.envs :: WithoutApp(w'.envs[e], app) == WithoutApp(w.envs[e], app)
    ensures forall e | e in w.envs && e !in names :: w'.envs[e] == w.envs[e]
  {
    forall e | e in w.envs ensures WithoutApp(w'.envs[e], app) == WithoutApp(w.envs[e], app) {
      if w'.envs[e] != w.envs[e] {
        assert LocksRemoved(w.envs[e], w'.envs[e], app);
        assert w'.envs[e].apps - {app} == w.envs[e].apps - {app};
      }
    }
  }

  lemma ElementsMore(names: seq<string>, i: nat)
    requires i < |names|
    ensures Elements(names[..i + 1]) == Elements(names[..i]) + {names[i]}
  {
    assert names[..i + 1] == names[..i] + [names[i]];
  }

  /** The environment with some of its queues processed. */
  ghost function Processed(w: World, env: string, done: set<string>): World
    requires env in w.envs
  {
    w.(envs := w.envs[env := w.envs[env].(apps :=
      map a | a in w.envs[env].apps :: if a in done then ProcessedApp(w, env, a) else w.envs[env].apps[a])])
  }

  lemma ProcessedNone(w: World, env: string)
    requires env in w.envs
    ensures Processed(w, env, {}) == w
  {
    assert Processed(w, env, {}).envs[env].apps == w.envs[env].apps;
    assert Processed(w, env, {}).envs == w.envs;
  }

  lemma ProcessedAll(w: World, env: string, done: set<string>)
    requires env in w.envs && w.envs[env].apps.Keys <= done
    requires forall a | a in EnvOf(w, env).apps :: !QueueUnreadable(w, env, a)
    ensures ProcessQueues(w, env) == Ok(Processed(w, env, done))
  {
    assert Processed(w, env, done).envs[env].apps == map a | a in w.envs[env].apps :: ProcessedApp(w, env, a);
  }

  /** The queues of an environment do not depend on each other. */
  lemma ProcessOneMore(w: World, env: string, done: set<string>, app: string)
    requires env in w.envs && app in w.envs[env].apps && app !in done
    ensures ProcessQueue(Processed(w, env, done), env, app) ==
            if QueueUnreadable(w, env, app) then Err(NotExist) else Ok(Processed(w, env, done + {app}))
  {
    var part := Processed(w, env, done);
    assert EnvAppOf(part, env, app) == EnvAppOf(w, env, app);
    if !QueueUnreadable(w, env, app) {
      if QueueOutdated(w, env, app) {
        var x := EnvAppOf(w, env, app).(queued := None);
        assert part.envs[env].apps[app := x] == Processed(w, env, done + {app}).envs[env].apps;
        assert DeleteQueuedVersion(part, env, app).envs == Processed(w, env, done + {app}).envs;
      } else {
        assert part.envs[env].apps == Processed(w, env, done + {app}).envs[env].apps;
      }
    }
  }

  method MembersOf(configs: map<string, EnvironmentConfig>, group: string) returns (members: set<string>)
    ensures members == EnvironmentsOfGroup(configs, group)
  {
    members := {};
    var names := Listed(configs.Keys);
    for i := 0 to |names|
      invariant members == set e | e in names[..i] && configs[e].group == Some(group)
    {
      assert names[..i + 1] == names[..i] + [names[i]];
      if configs[names[i]].group == Some(group) {
        members := members + {names[i]};
      }
    }
    assert names[..|names|] == names;
  }

  function WithDirectory(w: World, app: string): World {
    if app in w.apps then w else w.(apps := w.apps[app := AppDir("", map[])])
  }

  /** A release created in a directory that was just made for it. */
  lemma DirectoryUnseen(w: World, app: string, version: nat, undeploy: bool, team: string)
    ensures AddRelease(WithDirectory(w, app), app, version, undeploy, team) == AddRelease(w, app, version, undeploy, team)
  {
    assert WithDirectory(w, app).apps[app := AddRelease(w, app, version, undeploy, team).apps[app]] ==
           AddRelease(w, app, version, undeploy, team).apps;
  }

  lemma DeployKeepsApps(w: World, env: string, app: string, version: nat, behavior: LockBehavior)
    ensures DeployApplicationVersion(w, env, app, version, behavior).world.apps.Keys == w.apps.Keys
  {
    var linked := SetEnvApp(w, env, app, EnvAppOf(w, env, app).(version := Some(version)));
    CleanupKeepsApps(linked, app);
    CleanupKeepsApps(DeleteQueuedVersion(linked, env, app), app);
  }

  lemma CleanupKeepsApps(w: World, app: string)
    ensures CleanupOldApplicationVersions(w, app).world.apps.Keys == w.apps.Keys
  {
  }

  lemma TrainAppKeepsApps(w: World, env: string, upstream: ConfigUpstream, team: string, app: string)
    ensures TrainApp(w, env, upstream, team, app).Ok? ==> TrainApp(w, env, upstream, team, app).value.apps.Keys == w.apps.Keys
  {
    var v := TrainVersion(w, upstream, app);
    if v.Ok? && v.value.Some? {
      DeployKeepsApps(w, env, app, v.value.value, Record);
    }
  }

  class State {
    var apps: map<string, AppDir>
    var envs: map<string, EnvDir>

    constructor (w: World)
      ensures Current() == w
    {
      apps := w.apps;
      envs := w.envs;
    }

    /** The repository as a value. */
    function Current(): World
      reads this
    {
      World(apps, envs)
    }

    // ---- Readers ----

    method ReadEnvironmentConfigs() returns (r: Result<map<string, EnvironmentConfig>>)
      ensures r == GetEnvironmentConfigs(Current())
    {
      var names := Listed(envs.Keys);
      var configs: map<string, EnvironmentConfig> := map[];
      for i := 0 to |names|
        invariant forall k | 0 <= k < i :: !envs[names[k]].config.Undecodable?
        invariant forall e :: e in configs <==> e in names[..i]
        invariant forall e | e in configs :: configs[e] == ConfigOf(envs[e].config)
      {
        match envs[names[i]].config {
          case Undecodable =>
            return Err(InvalidJson);
          case Missing =>
            configs := configs[names[i] := EnvironmentConfig(None, None)];
          case Decoded(config) =>
            configs := configs[names[i] := config];
        }
        assert names[..i + 1] == names[..i] + [names[i]];
      }
      assert names[..|names|] == names;
      assert configs == AllConfigs(Current());
      r := Ok(configs);
    }

    /** Sorted as `sort.Slice` leaves them. */
    method GetApplicationReleases(app: string) returns (versions: seq<nat>)
      ensures Sorted(versions, Lower) && VersionsOf(versions) == Releases(Current(), app).Keys
    {
      var found := Listed(Releases(Current(), app).Keys);
      assert StrictOn(found, Lower);
      versions := SortBy(found, Lower);
    }

    /** Reading the newest release makes the directory of an unknown application. */
    method GetLastRelease(app: string) returns (last: nat)
      modifies this`apps
      ensures last == LastRelease(old(Current()), app)
      ensures Current() == WithDirectory(old(Current()), app)
    {
      if app !in apps {
        apps := apps[app := AppDir("", map[])];
      }
      var entries := Listed(apps[app].releases.Keys);
      last := 0;
      for i := 0 to |entries|
        invariant forall k | 0 <= k < i :: entries[k] <= last
        invariant last == 0 || last in entries
      {
        if entries[i] > last {
          last := entries[i];
        }
      }
      assert forall r | r in Releases(old(Current()), app) :: r in entries;
    }

    method FindOldVersions(app: string) returns (r: Result<seq<nat>>)
      ensures match r
              case Ok(versions) => Sorted(versions, Lower) && FindOldApplicationVersions(Current(), app) == Ok(VersionsOf(versions))
              case Err(e) => FindOldApplicationVersions(Current(), app) == Err(e)
    {
      var configs := ReadEnvironmentConfigs();
      if configs.Err? {
        return Err(configs.error);
      }
      var versions := GetApplicationReleases(app);
      if |versions| == 0 {
        assert VersionsOf([]) == {};
        assert Releases(Current(), app) == map[];
        return Ok([]);
      }
      assert versions[0] in VersionsOf(versions);
      var oldest := GetOldestDeployed(app, configs.value, versions);
      if oldest.Err? {
        return Err(oldest.error);
      }
      var position := Search(versions, oldest.value);
      OldPrefix(Current(), app, versions, position);
      assert VersionsOf([]) == {};
      if position < KEPT_VERSIONS_ON_CLEANUP - 1 {
        return Ok([]);
      }
      return Ok(versions[0..position - (KEPT_VERSIONS_ON_CLEANUP - 1)]);
    }

    method GetOldestDeployed(app: string, configs: map<string, EnvironmentConfig>, versions: seq<nat>) returns (r: Result<nat>)
      requires Releases(Current(), app) != map[]
      requires Sorted(versions, Lower) && VersionsOf(versions) == Releases(Current(), app).Keys && versions != []
      requires configs.Keys == envs.Keys
      ensures r == if VersionDangles(Current(), app) then Err(NotExist) else Ok(OldestDeployed(Current(), app))
    {
      ghost var w := Current();
      var oldest := versions[|versions| - 1];
      LastListed(w, app, versions);
      var names := Listed(configs.Keys);
      assert names[..0] == [];
      for i := 0 to |names|
        invariant OldestAmong(w, names[..i], app, oldest)
      {
        if !Dangles(w, app, EnvAppOf(w, names[i], app).version) {
          OldestStep(w, names, i, app, oldest);
        }
        var version := ReadVersion(Current(), names[i], app);
        match version {
          case Err(e) =>
            assert names[i] in w.envs;
            return Err(e);
          case Ok(None) =>
          case Ok(Some(v)) =>
            if v < oldest {
              oldest := v;
            }
        }
      }
      assert names[..|names|] == names;
      OldestOfAll(w, names, app, oldest);
      r := Ok(oldest);
    }

    // ---- Cleanup ----

    method RemoveRelease(app: string, version: nat)
      requires version in Releases(Current(), app)
      modifies this`apps
      ensures Current() == SetReleases(old(Current()), app, Releases(old(Current()), app) - {version})
    {
      apps := apps[app := apps[app].(releases := apps[app].releases - {version})];
    }

    method Cleanup(app: string) returns (error: Option<Error>)
      modifies this`apps
      ensures Attempt(Current(), error) == CleanupOldApplicationVersions(old(Current()), app)
    {
      ghost var w := Current();
      var found := FindOldVersions(app);
      if found.Err? {
        return Some(found.error);
      }
      var versions := found.value;
      OldAreReleases(w, app);
      for i := 0 to |versions|
        invariant Current() == RemoveReleases(w, app, VersionsOf(versions[..i]))
      {
        assert versions[i] in VersionsOf(versions);
        RemoveOneMore(w, app, versions, i);
        if versions[i] !in Releases(Current(), app) {
          return Some(NotExist);
        }
        RemoveRelease(app, versions[i]);
      }
      assert versions[..|versions|] == versions;
      error := None;
    }

    // ---- Queue and deploy ----

    /** `MkdirAll` of the directory of an application in an environment. */
    method MakeEnvApp(env: string, app: string)
      modifies this`envs
      ensures Current() == SetEnvApp(old(Current()), env, app, EnvAppOf(old(Current()), env, app))
      ensures env in envs && app in envs[env].apps
    {
      if env !in envs {
        envs := envs[env := EnvDir(Missing, {}, map[])];
      }
      if app !in envs[env].apps {
        envs := envs[env := envs[env].(apps := envs[env].apps[app := EnvApp(None, None, {})])];
      }
      ghost var dir := EnvOf(old(Current()), env);
      assert dir.apps[app := EnvAppOf(old(Current()), env, app)] == envs[env].apps;
      assert old(envs)[env := envs[env]] == envs;
    }

    method SetVersionLink(env: string, app: string, version: Option<nat>)
      requires env in envs && app in envs[env].apps
      modifies this`envs
      ensures Current() == SetEnvApp(old(Current()), env, app, EnvAppOf(old(Current()), env, app).(version := version))
      ensures env in envs && app in envs[env].apps
    {
      var x := envs[env].apps[app].(version := version);
      envs := envs[env := envs[env].(apps := envs[env].apps[app := x])];
    }

    method SetQueueLink(env: string, app: string, version: Option<nat>)
      requires env in envs && app in envs[env].apps
      modifies this`envs
      ensures Current() == SetEnvApp(old(Current()), env, app, EnvAppOf(old(Current()), env, app).(queued := version))
      ensures env in envs && app in envs[env].apps
    {
      var x := envs[env].apps[app].(queued := version);
      envs := envs[env := envs[env].(apps := envs[env].apps[app := x])];
    }

    method Queue(env: string, app: string, version: nat)
      modifies this`envs
      ensures Current() == QueueApplicationVersion(old(Current()), env, app, version)
    {
      ghost var w := Current();
      MakeEnvApp(env, app);
      SetQueueLink(env, app, None);
      SetQueueLink(env, app, Some(version));
      SetTwice(w, env, app, EnvAppOf(w, env, app), EnvAppOf(w, env, app).(queued := None));
      SetTwice(w, env, app, EnvAppOf(w, env, app).(queued := None), EnvAppOf(w, env, app).(queued := Some(version)));
    }

    method Deploy(env: string, app: string, version: nat, behavior: LockBehavior) returns (error: Option<Error>)
      modifies this
      ensures Attempt(Current(), error) == DeployApplicationVersion(old(Current()), env, app, version, behavior)
    {
      if !HasManifest(Current(), app, version, env) {
        return Some(NotExist);
      }
      if behavior != Ignore && IsLocked(Current(), env, app) {
        if behavior == Record {
          Queue(env, app, version);
          return None;
        } else {
          return Some(Locked);
        }
      }
      ghost var w := Current();
      MakeEnvApp(env, app);
      SetVersionLink(env, app, None);
      SetVersionLink(env, app, Some(version));
      SetTwice(w, env, app, EnvAppOf(w, env, app), EnvAppOf(w, env, app).(version := None));
      SetTwice(w, env, app, EnvAppOf(w, env, app).(version := None), EnvAppOf(w, env, app).(version := Some(version)));
      ghost var linked := Current();
      assert linked == SetEnvApp(w, env, app, EnvAppOf(w, env, app).(version := Some(version)));
      var queued := ReadQueued(Current(), env, app);
      if queued.Err? {
        return Some(queued.error);
      }
      if queued.value.Some? {
        SetQueueLink(env, app, None);
      }
      error := Cleanup(app);
    }

    // ---- Releases ----

    method GetVersion(app: string, version: nat) returns (r: Result<nat>)
      modifies this`apps
      ensures r == CalculateVersion(old(Current()), app, version)
      ensures Current() == old(Current()) || Current() == WithDirectory(old(Current()), app)
    {
      if version == 0 {
        var last := GetLastRelease(app);
        return Ok(last + 1);
      }
      if version in Releases(Current(), app) {
        return Err(ReleaseAlreadyExists);
      }
      return Ok(version);
    }

    method IsNewest(app: string, version: nat) returns (latest: bool)
      ensures latest == IsLatest(Current(), app, version)
    {
      var versions := GetApplicationReleases(app);
      for i := 0 to |versions|
        invariant forall k | 0 <= k < i :: versions[k] <= version
      {
        if versions[i] > version {
          assert versions[i] in VersionsOf(versions);
          return false;
        }
      }
      forall r | r in Releases(Current(), app) ensures r <= version {
        assert r in VersionsOf(versions);
      }
      latest := true;
    }

    method MakeRelease(app: string, version: nat, undeploy: bool, team: string)
      modifies this`apps
      ensures Current() == AddRelease(old(Current()), app, version, undeploy, team)
    {
      if app !in apps {
        apps := apps[app := AppDir("", map[])];
      }
      apps := apps[app := apps[app].(releases := apps[app].releases[version := Release(undeploy, {})])];
      if team != "" {
        apps := apps[app := apps[app].(team := team)];
      }
      assert apps == old(apps)[app := apps[app]];
    }

    method WriteManifest(app: string, version: nat, env: string)
      requires version in Releases(Current(), app)
      modifies this`apps
      ensures Current() == AddManifest(old(Current()), app, version, env)
    {
      var r := apps[app].releases[version];
      apps := apps[app := apps[app].(releases := apps[app].releases[version := r.(manifests := r.manifests + {env})])];
    }

    /** The loop over the manifests, in the order in which the map happens to yield them. */
    method WriteAll(configs: map<string, EnvironmentConfig>, app: string, version: nat, deploy: bool, order: seq<string>)
      returns (error: Option<Error>)
      requires version in Releases(Current(), app)
      requires deploy ==> version == LastRelease(Current(), app)
      modifies this
      ensures Agrees(WriteManifests(old(Current()), configs, app, version, deploy, order), Current(), error)
    {
      ghost var whole := WriteManifests(Current(), configs, app, version, deploy, order);
      assert order[0..] == order;
      for i := 0 to |order|
        invariant version in Releases(Current(), app)
        invariant deploy ==> version == LastRelease(Current(), app)
        invariant whole == WriteManifests(Current(), configs, app, version, deploy, order[i..])
      {
        var env := order[i];
        assert order[i..][0] == env && order[i..][1..] == order[i + 1..];
        AddManifestEffect(Current(), app, version, env);
        WriteManifest(app, version, env);
        if deploy && UpstreamIsLatest(configs, env) {
          DeploySameLast(Current(), env, app, version, Record);
          error := Deploy(env, app, version, Record);
          if error.Some? && error != Some(Locked) {
            return;
          }
        }
      }
      error := None;
    }

    method CreateVersion(app: string, version: nat, team: string, order: seq<string>) returns (error: Option<Error>)
      modifies this
      ensures Agrees(CreateApplicationVersion(old(Current()), app, version, team, order), Current(), error)
    {
      ghost var w := Current();
      var v := GetVersion(app, version);
      if v.Err? {
        return Some(v.error);
      }
      if !Rbac.ValidApplicationName(app) {
        return Some(InvalidApplicationName);
      }
      DirectoryUnseen(w, app, v.value, false, team);
      MakeRelease(app, v.value, false, team);
      var configs := ReadEnvironmentConfigs();
      if configs.Err? {
        return Some(configs.error);
      }
      var latest := IsNewest(app, v.value);
      if !latest {
        var oldVersions := FindOldVersions(app);
        if oldVersions.Err? {
          return Some(oldVersions.error);
        }
        for i := 0 to |oldVersions.value|
          invariant v.value !in oldVersions.value[..i]
        {
          if v.value == oldVersions.value[i] {
            assert v.value in VersionsOf(oldVersions.value);
            return Some(ReleaseTooOld);
          }
        }
        assert v.value !in VersionsOf(oldVersions.value);
      }
      error := WriteAll(configs.value, app, v.value, latest, order);
    }

    /** For the environments of the configurations, in whatever order their map yields them. */
    method CreateUndeploy(app: string) returns (error: Option<Error>, order: seq<string>)
      modifies this
      ensures NoDuplicates(order) && forall e :: e in order <==> e in old(envs)
      ensures Agrees(CreateUndeployApplicationVersion(old(Current()), app, order), Current(), error)
    {
      order := Listed(envs.Keys);
      error := CreateUndeployInOrder(app, order);
    }

    method CreateUndeployInOrder(app: string, order: seq<string>) returns (error: Option<Error>)
      modifies this
      ensures Agrees(CreateUndeployApplicationVersion(old(Current()), app, order), Current(), error)
    {
      ghost var w := Current();
      var last := GetLastRelease(app);
      if last == 0 {
        return Some(NothingToUndeploy);
      }
      DirectoryUnseen(w, app, last + 1, true, "");
      MakeRelease(app, last + 1, true, "");
      var configs := ReadEnvironmentConfigs();
      if configs.Err? {
        return Some(configs.error);
      }
      error := WriteAll(configs.value, app, last + 1, true, order);
    }

    // ---- Undeploy ----

    method RemoveAppLocks(env: string, app: string)
      requires env in envs && app in envs[env].apps
      modifies this`envs
      ensures OnlyLocksRemoved(old(Current()), Current(), {env}, app)
    {
      envs := envs[env := envs[env].(apps := envs[env].apps[app := envs[env].apps[app].(locks := {})])];
    }

    /** The checks, which already remove the locks of the application on their way. */
    method CheckUndeployed(names: seq<string>, app: string) returns (error: Option<Error>)
      requires forall e | e in names :: e in envs
      modifies this`envs
      ensures error == None <==> forall e | e in names :: UndeployedIn(old(Current()), e, app)
      ensures error == None || error == Some(NotUndeployed)
      ensures OnlyLocksRemoved(old(Current()), Current(), Elements(names), app)
    {
      ghost var w := Current();
      for i := 0 to |names|
        invariant OnlyLocksRemoved(w, Current(), Elements(names), app)
        invariant forall k | 0 <= k < i :: UndeployedIn(w, names[k], app)
      {
        var env := names[i];
        if app in envs[env].apps {
          RemovedTrans(w, Current(), env, app, Elements(names));
          RemoveAppLocks(env, app);
          VersionsKept(w, Current(), Elements(names), env, app);
          match envs[env].apps[app].version {
            case None =>
            case Some(v) =>
              if v !in Releases(Current(), app) || !Releases(Current(), app)[v].undeploy {
                return Some(NotUndeployed);
              }
          }
        } else {
          VersionsKept(w, Current(), Elements(names), env, app);
        }
      }
      error := None;
    }

    method Undeploy(app: string) returns (error: Option<Error>)
      modifies this
      ensures Agrees(UndeployApplication(old(Current()), app), Current(), error)
    {
      ghost var w := Current();
      var last := GetLastRelease(app);
      if last == 0 {
        return Some(NothingToUndeploy);
      }
      if !Releases(Current(), app)[last].undeploy {
        return Some(LastReleaseNotUndeploy);
      }
      var configs := ReadEnvironmentConfigs();
      var names := [];
      if configs.Ok? {
        names := Listed(configs.value.Keys);
      }
      assert forall e :: e in names <==> e in UndeployTargets(w);
      error := CheckUndeployed(names, app);
      if error.Some? {
        return;
      }
      WithoutAppSame(w, Current(), Elements(names), app);
      RemoveApplication(names, app, w);
    }

    method RemoveApplication(names: seq<string>, app: string, ghost w: World)
      requires apps == w.apps && envs.Keys == w.envs.Keys && forall e :: e in names <==> e in UndeployTargets(w)
      requires forall e | e in envs :: WithoutApp(envs[e], app) == WithoutApp(w.envs[e], app)
      requires forall e | e in envs && e !in names :: envs[e] == w.envs[e]
      requires UndeployApplication(w, app).Ok?
      modifies this
      ensures UndeployApplication(w, app) == Ok(Current())
    {
      apps := apps - {app};
      RemoveEverywhere(names, app, w.envs);
      assert envs == UndeployApplication(w, app).value.envs;
    }

    method RemoveEverywhere(names: seq<string>, app: string, ghost before: map<string, EnvDir>)
      requires envs.Keys == before.Keys && forall e | e in names :: e in envs
      requires forall e | e in envs :: WithoutApp(envs[e], app) == WithoutApp(before[e], app)
      modifies this`envs
      ensures envs.Keys == old(envs).Keys
      ensures forall e | e in envs :: envs[e] == if e in names then WithoutApp(before[e], app) else old(envs)[e]
    {
      for i := 0 to |names|
        invariant envs.Keys == old(envs).Keys
        invariant forall e | e in envs :: envs[e] == if e in names[..i] then WithoutApp(before[e], app) else old(envs)[e]
      {
        assert names[..i + 1] == names[..i] + [names[i]];
        assert WithoutApp(WithoutApp(before[names[i]], app), app) == WithoutApp(before[names[i]], app);
        envs := envs[names[i] := WithoutApp(envs[names[i]], app)];
      }
      assert names[..|names|] == names;
    }

    method DeleteEnv(env: string, app: string) returns (error: Option<Error>)
      modifies this`envs
      ensures Agrees(DeleteEnvFromApp(old(Current()), env, app), Current(), error)
    {
      if app == "" || env == "" {
        return Some(MissingArgument);
      }
      if app in EnvOf(Current(), env).apps {
        envs := envs[env := WithoutApp(envs[env], app)];
      }
      error := None;
    }

    // ---- Locks ----

    method LockEnvironment(env: string, lockId: string) returns (error: Option<Error>)
      modifies this`envs
      ensures Agrees(CreateEnvironmentLock(old(Current()), env, lockId), Current(), error)
    {
      if env !in envs {
        return Some(NotExist);
      }
      envs := envs[env := envs[env].(locks := envs[env].locks + {lockId})];
      error := None;
    }

    method LockApplication(env: string, app: string, lockId: string) returns (error: Option<Error>)
      modifies this`envs
      ensures Agrees(CreateEnvironmentApplicationLock(old(Current()), env, app, lockId), Current(), error)
    {
      if env !in envs {
        return Some(NotExist);
      }
      ghost var w := Current();
      MakeEnvApp(env, app);
      var x := envs[env].apps[app];
      envs := envs[env := envs[env].(apps := envs[env].apps[app := x.(locks := x.locks + {lockId})])];
      SetTwice(w, env, app, x, x.(locks := x.locks + {lockId}));
      error := None;
    }

    method ProcessOne(env: string, app: string) returns (error: Option<Error>)
      modifies this`envs
      ensures Agrees(ProcessQueue(old(Current()), env, app), Current(), error)
    {
      var queued := ReadQueued(Current(), env, app);
      if queued.Err? {
        return Some(queued.error);
      }
      if queued.value.None? {
        return None;
      }
      var version := ReadVersion(Current(), env, app);
      if version.Err? {
        return Some(version.error);
      }
      if version.value == queued.value {
        SetQueueLink(env, app, None);
      }
      error := None;
    }

    method UnlockEnvironment(env: string, lockId: string) returns (error: Option<Error>)
      modifies this`envs
      ensures Agrees(DeleteEnvironmentLock(old(Current()), env, lockId), Current(), error)
    {
      if env !in envs {
        return None;
      }
      envs := envs[env := envs[env].(locks := envs[env].locks - {lockId})];
      error := ProcessEach(env);
    }

    method ProcessNext(env: string, app: string, ghost w: World, ghost done: set<string>) returns (error: Option<Error>)
      requires env in w.envs && app in w.envs[env].apps && app !in done && Current() == Processed(w, env, done)
      modifies this`envs
      ensures error == if QueueUnreadable(w, env, app) then Some(NotExist) else None
      ensures error.None? ==> Current() == Processed(w, env, done + {app})
    {
      ProcessOneMore(w, env, done, app);
      error := ProcessOne(env, app);
    }

    /** The queues of all applications of the environment, in no particular order. */
    method ProcessEach(env: string) returns (error: Option<Error>)
      requires env in envs
      modifies this`envs
      ensures Agrees(ProcessQueues(old(Current()), env), Current(), error)
    {
      ghost var w := Current();
      var names := Listed(envs[env].apps.Keys);
      ProcessedNone(w, env);
      error := ProcessNames(env, names, w);
      if error.None? {
        ProcessedAll(w, env, Elements(names));
      }
    }

    method ProcessNames(env: string, names: seq<string>, ghost w: World) returns (error: Option<Error>)
      requires env in w.envs && NoDuplicates(names) && forall a | a in names :: a in w.envs[env].apps
      requires Current() == Processed(w, env, {})
      modifies this`envs
      ensures error.Some? ==> error == Some(NotExist) && exists a | a in names :: QueueUnreadable(w, env, a)
      ensures error.None? ==> Current() == Processed(w, env, Elements(names)) && forall a | a in names :: !QueueUnreadable(w, env, a)
    {
      assert Elements(names[..0]) == {};
      for i := 0 to |names|
        invariant Current() == Processed(w, env, Elements(names[..i]))
        invariant forall k | 0 <= k < i :: !QueueUnreadable(w, env, names[k])
      {
        assert names[i] in names && names[i] !in names[..i];
        error := ProcessNext(env, names[i], w, Elements(names[..i]));
        if error.Some? {
          return;
        }
        ElementsMore(names, i);
      }
      assert names[..|names|] == names;
      error := None;
    }

    method UnlockApplication(env: string, app: string, lockId: string) returns (error: Option<Error>)
      modifies this`envs
      ensures Agrees(DeleteEnvironmentApplicationLock(old(Current()), env, app, lockId), Current(), error)
    {
      if app in EnvOf(Current(), env).apps {
        var x := envs[env].apps[app];
        envs := envs[env := envs[env].(apps := envs[env].apps[app := x.(locks := x.locks - {lockId})])];
      }
      error := ProcessOne(env, app);
    }

    method ReadGroup(group: string) returns (r: Result<seq<string>>)
      ensures r == GroupMembers(Current(), group)
    {
      var configs := ReadEnvironmentConfigs();
      if configs.Err? {
        return Err(InternalError);
      }
      var members := MembersOf(configs.value, group);
      if members == {} {
        return Err(NoSuchGroup);
      }
      var names := Names(members);
      return Ok(names);
    }

    method LockGroup(group: string, lockId: string) returns (error: Option<Error>)
      modifies this`envs
      ensures Agrees(CreateEnvironmentGroupLock(old(Current()), group, lockId), Current(), error)
    {
      var members := ReadGroup(group);
      if members.Err? {
        return Some(members.error);
      }
      var names := members.value;
      ghost var whole := CreateLocks(Current(), names, lockId);
      assert names[0..] == names;
      for i := 0 to |names|
        invariant whole == CreateLocks(Current(), names[i..], lockId)
      {
        assert names[i..][0] == names[i] && names[i..][1..] == names[i + 1..];
        error := LockEnvironment(names[i], lockId);
        if error.Some? {
          return;
        }
      }
      error := None;
    }

    method UnlockGroup(group: string, lockId: string) returns (error: Option<Error>)
      modifies this`envs
      ensures Agrees(DeleteEnvironmentGroupLock(old(Current()), group, lockId), Current(), error)
    {
      var members := ReadGroup(group);
      if members.Err? {
        return Some(members.error);
      }
      var names := members.value;
      ghost var whole := DeleteLocks(Current(), names, lockId);
      assert names[0..] == names;
      for i := 0 to |names|
        invariant whole == DeleteLocks(Current(), names[i..], lockId)
      {
        assert names[i..][0] == names[i] && names[i..][1..] == names[i + 1..];
        error := UnlockEnvironment(names[i], lockId);
        if error.Some? {
          return;
        }
      }
      error := None;
    }

    method NewEnvironment(env: string, config: EnvironmentConfig, overwrite: bool)
      modifies this`envs
      ensures Current() == CreateEnvironment(old(Current()), env, config, overwrite)
    {
      if env !in envs {
        envs := envs[env := EnvDir(Missing, {}, map[])];
      }
      if envs[env].config.Missing? || overwrite {
        envs := envs[env := envs[env].(config := Decoded(config))];
      }
      assert envs == old(envs)[env := envs[env]];
    }

    // ---- Release train ----

    method ChooseVersion(upstream: ConfigUpstream, app: string) returns (r: Result<Option<nat>>)
      requires upstream.latest ==> app in apps
      modifies this`apps
      ensures Current() == old(Current()) && r == TrainVersion(Current(), upstream, app)
    {
      if upstream.latest {
        var last := GetLastRelease(app);
        return Ok(Some(last));
      }
      return ReadVersion(Current(), upstream.environment, app);
    }

    method TrainOne(env: string, upstream: ConfigUpstream, team: string, app: string) returns (error: Option<Error>)
      requires upstream.latest ==> app in apps
      modifies this
      ensures error.None? ==> apps.Keys == old(apps).Keys
      ensures Agrees(TrainApp(old(Current()), env, upstream, team, app), Current(), error)
    {
      if team != "" && TeamOf(Current(), app) != team {
        return None;
      }
      var deployed := ReadVersion(Current(), env, app);
      if deployed.Err? {
        return Some(InternalError);
      }
      var version := ChooseVersion(upstream, app);
      TrainAppKeepsApps(Current(), env, upstream, team, app);
      if version.Err? {
        return Some(InternalError);
      }
      if version.value.None? || deployed.value == version.value {
        return None;
      }
      error := Deploy(env, app, version.value.value, Record);
      if error == Some(Locked) || error == Some(NotExist) {
        return None;
      }
      if error.Some? {
        return Some(InternalError);
      }
    }

    method TrainEnvironment(env: string, upstream: ConfigUpstream, team: string) returns (error: Option<Error>)
      modifies this
      ensures Agrees(TrainApps(old(Current()), env, upstream, team, SortedNames(TrainSource(old(Current()), upstream))), Current(), error)
    {
      var names := Names(if upstream.latest then apps.Keys else EnvOf(Current(), upstream.environment).apps.Keys);
      ghost var whole := TrainApps(Current(), env, upstream, team, names);
      assert names[0..] == names;
      for i := 0 to |names|
        invariant whole == TrainApps(Current(), env, upstream, team, names[i..])
        invariant upstream.latest ==> forall a | a in names :: a in apps
      {
        assert names[i..][0] == names[i] && names[i..][1..] == names[i + 1..];
        error := TrainOne(env, upstream, team, names[i]);
        if error.Some? {
          return;
        }
      }
      error := None;
    }

    method Train(target: string, team: string) returns (error: Option<Error>)
      modifies this
      ensures Agrees(ReleaseTrain(old(Current()), target, team), Current(), error)
    {
      var read := ReadEnvironmentConfigs();
      if read.Err? {
        return Some(InternalError);
      }
      var configs := read.value;
      var targets := MembersOf(configs, target);
      if targets == {} && target in configs {
        targets := {target};
      }
      if targets == {} {
        return Some(NoSuchEnvironment);
      }
      var names := Names(targets);
      ghost var whole := TrainEnvs(Current(), configs, team, names);
      assert names[0..] == names;
      for i := 0 to |names|
        invariant forall e | e in names :: e in configs
        invariant whole == TrainEnvs(Current(), configs, team, names[i..])
      {
        assert names[i..][0] == names[i] && names[i..][1..] == names[i + 1..];
        var env := names[i];
        if !UsableUpstream(configs[env].upstream) {
          continue;
        }
        var upstream := configs[env].upstream.value;
        if !upstream.latest && upstream.environment !in configs {
          return None;
        }
        if EnvOf(Current(), env).locks != {} {
          continue;
        }
        error := TrainEnvironment(env, upstream, team);
        if error.Some? {
          return;
        }
      }
      error := None;
    }

    // ---- Batches ----

    method Perform(t: Transformer) returns (error: Option<Error>)
      modifies this
      ensures Agrees(Transform(old(Current()), t), Current(), error)
    {
      error := None;
      match t {
        case CreateVersion(app, version, team, order) => error := CreateVersion(app, version, team, order);
        case CreateUndeploy(app, order) => error := CreateUndeployInOrder(app, order);
        case Undeploy(app) => error := Undeploy(app);
        case DeleteEnv(env, app) => error := DeleteEnv(env, app);
        case Cleanup(app) => error := Cleanup(app);
        case LockEnvironment(env, lockId) => error := LockEnvironment(env, lockId);
        case UnlockEnvironment(env, lockId) => error := UnlockEnvironment(env, lockId);
        case LockGroup(group, lockId) => error := LockGroup(group, lockId);
        case UnlockGroup(group, lockId) => error := UnlockGroup(group, lockId);
        case LockApplication(env, app, lockId) => error := LockApplication(env, app, lockId);
        case UnlockApplication(env, app, lockId) => error := UnlockApplication(env, app, lockId);
        case NewEnvironment(env, config, overwrite) => NewEnvironment(env, config, overwrite);
        case Queue(env, app, version) => Queue(env, app, version);
        case Deploy(env, app, version, behavior) => error := Deploy(env, app, version, behavior);
        case Train(target, team) => error := Train(target, team);
      }
    }

    /** One request: its transformers one after the other, then the metrics and the rendering, which read every configuration. */
    method PerformAll(batch: seq<Transformer>) returns (error: Option<Error>)
      modifies this
      ensures Agrees(ApplyTransformers(old(Current()), batch), Current(), error)
      ensures Safe(old(Current())) && error.None? ==> Safe(Current())
    {
      if Safe(Current()) {
        BatchIsSafe(Current(), batch);
      }
      ghost var whole := ApplyInternal(Current(), batch);
      assert batch[0..] == batch;
      for i := 0 to |batch|
        invariant whole == ApplyInternal(Current(), batch[i..])
      {
        assert batch[i..][0] == batch[i] && batch[i..][1..] == batch[i + 1..];
        error := Perform(batch[i]);
        if error.Some? {
          return;
        }
      }
      var configs := ReadEnvironmentConfigs();
      error := if configs.Ok? then None else Some(if METRICS then InvalidJson else InternalError);
    }
  }
}
