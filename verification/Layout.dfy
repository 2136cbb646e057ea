/** How a repository lies in a tree: the paths of releases, links and locks, and when a tree shows a repository. */
module Layout {
  import opened Config
  import opened Deployment
  import opened PathNames
  import opened Trees
  import Strings

  // ---- What is at a path ----

  datatype Kind = Nothing | ADir | AFile(content: string) | ALink(target: string)

  function KindOf(t: Tree): Kind {
    match t
    case Dir(_) => ADir
    case Blob(content) => AFile(content)
    case Link(target) => ALink(target)
  }

  function Look(t: Tree, path: seq<string>): Kind {
    match At(t, path)
    case None => Nothing
    case Some(x) => KindOf(x)
  }

  /** The part of `path` below `top`, if it lies there. */
  predicate Under(top: seq<string>, path: seq<string>) {
    |top| <= |path| && path[..|top|] == top
  }

  lemma {:induction false} LookPut(t: Tree, dir: seq<string>, name: string, x: Tree, path: seq<string>)
    requires IsDir(t, dir)
    ensures Look(Put(t, dir + [name], x), path) ==
            if Under(dir + [name], path) then Look(x, path[|dir| + 1..]) else Look(t, path)
    decreases |dir|
  {
    var place := dir + [name];
    if path != [] {
      if dir == [] {
        assert place[1..] == [];
        assert Under(place, path) <==> path[0] == name;
      } else {
        assert place[0] == dir[0] && place[1..] == dir[1..] + [name];
        if path[0] == dir[0] {
          LookPut(t.entries[dir[0]], dir[1..], name, x, path[1..]);
          UnderTail(place, path);
          assert Under(place, path) ==> path[1..][|dir[1..]| + 1..] == path[|dir| + 1..];
        }
      }
    }
  }

  lemma UnderTail(top: seq<string>, path: seq<string>)
    requires top != [] && path != [] && top[0] == path[0]
    ensures Under(top, path) <==> Under(top[1..], path[1..])
  {
    if |top| <= |path| {
      assert path[..|top|] == [path[0]] + path[1..][..|top| - 1];
      assert top == [top[0]] + top[1..];
    }
  }

  lemma {:induction false} LookPutDir(t: Tree, dir: seq<string>, entries: map<string, Tree>, path: seq<string>)
    requires IsDir(t, dir)
    ensures Look(Put(t, dir, Dir(entries)), path) ==
            if Under(dir, path) then Look(Dir(entries), path[|dir|..]) else Look(t, path)
    decreases |dir|
  {
    if dir != [] && path != [] && path[0] == dir[0] {
      LookPutDir(t.entries[dir[0]], dir[1..], entries, path[1..]);
      UnderTail(dir, path);
      assert Under(dir, path) ==> path[1..][|dir[1..]|..] == path[|dir|..];
    }
  }

  lemma LookRemoved(t: Tree, dir: seq<string>, name: string, path: seq<string>)
    requires IsDir(t, dir)
    ensures Look(Removed(t, dir, name), path) == if Under(dir + [name], path) then Nothing else Look(t, path)
  {
    var entries := At(t, dir).value.entries;
    LookPutDir(t, dir, entries - {name}, path);
    LookPutDir(t, dir, entries, path);
    PutThere(t, dir, At(t, dir).value);
    if Under(dir, path) {
      var rest := path[|dir|..];
      assert path == dir + rest;
      assert Under(dir + [name], path) <==> rest != [] && rest[0] == name;
    }
    UnderShorter(dir, name, path);
  }

  lemma UnderShorter(dir: seq<string>, name: string, path: seq<string>)
    ensures Under(dir + [name], path) ==> Under(dir, path)
  {
    if Under(dir + [name], path) {
      assert path[..|dir|] == (dir + [name])[..|dir|];
    }
  }

  // ---- Walking over plain names ----


  /** Nothing but directories on the way to `path`, itself included. */
  predicate Clear(t: Tree, path: seq<string>) {
    forall k | 0 <= k <= |path| :: Look(t, path[..k]) in {Nothing, ADir}
  }

  /** The tree after the directories on the way to `dir` have been made. */
  ghost predicate MadeDirs(t: Tree, t': Tree, dir: seq<string>) {
    forall path :: Look(t', path) == if Look(t, path) == Nothing && Under(path, dir) then ADir else Look(t, path)
  }

  lemma NewDir(t: Tree, dir: seq<string>, name: string)
    requires IsDir(t, dir) && At(t, dir + [name]).None?
    ensures forall path :: Look(Put(t, dir + [name], Dir(map[])), path) == if path == dir + [name] then ADir else Look(t, path)
  {
    var place := dir + [name];
    forall path ensures Look(Put(t, place, Dir(map[])), path) == if path == place then ADir else Look(t, path) {
      LookPut(t, dir, name, Dir(map[]), path);
      if Under(place, path) {
        assert path == place + path[|place|..];
        NothingBelow(t, place, path[|place|..]);
        if path != place {
          assert path[|place|..] != [];
        }
      }
    }
  }

  lemma {:induction false} OnTheWay(t: Tree, path: seq<string>, rest: seq<string>)
    requires IsDir(t, path + rest)
    ensures IsDir(t, path)
    decreases |rest|
  {
    if rest == [] {
      assert path + rest == path;
    } else {
      assert path + rest == path + rest[..|rest| - 1] + [rest[|rest| - 1]];
      AtAppend(t, path + rest[..|rest| - 1], rest[|rest| - 1]);
      OnTheWay(t, path, rest[..|rest| - 1]);
    }
  }

  lemma {:induction false} WalkDown(t: Tree, done: seq<string>, names: seq<string>, last: string, create: bool)
    requires IsDir(t, done) && AllPlain(names) && Clear(t, done + names)
    ensures var w := Walk(t, done, names + [last], 0, create);
            if create then w.Found? && w.dir == done + names && w.last == last && MadeDirs(t, w.tree, done + names)
            else if Look(t, done + names) == ADir then w == Found(t, done + names, last)
            else w == Failed(t, true)
    decreases |names|
  {
    if names == [] {
      assert names + [last] == [last] && done + names == done;
      forall path | Under(path, done) ensures Look(t, path) == ADir {
        assert done == path + done[|path|..];
        OnTheWay(t, path, done[|path|..]);
      }
    } else {
      var name, rest := names[0], names[1..];
      assert (names + [last])[0] == name && (names + [last])[1..] == rest + [last];
      assert done + names == done + [name] + rest;
      assert (done + names)[..|done| + 1] == done + [name];
      assert Look(t, done + [name]) in {Nothing, ADir};
      if At(t, done + [name]).Some? {
        WalkDown(t, done + [name], rest, last, create);
      } else if create {
        NewDir(t, done, name);
        var u := Put(t, done + [name], Dir(map[]));
        assert Look(u, done + [name]) == ADir && Clear(u, done + [name] + rest);
        WalkDown(u, done + [name], rest, last, true);
        assert Under(done + [name], done + names);
      } else {
        NothingBelow(t, done + [name], rest);
      }
    }
  }

  lemma {:induction false} NothingBelow(t: Tree, path: seq<string>, rest: seq<string>)
    requires At(t, path).None?
    ensures At(t, path + rest).None?
    decreases |rest|
  {
    if rest == [] {
      assert path + rest == path;
    } else {
      AtAppend(t, path, rest[0]);
      NothingBelow(t, path + [rest[0]], rest[1..]);
      assert path + [rest[0]] + rest[1..] == path + rest;
    }
  }

  // ---- Where things are ----

  function AppPath(app: string): seq<string> {
    ["applications", app]
  }

  function ReleasePath(app: string, version: nat): seq<string> {
    ["applications", app, "releases", Decimal(version)]
  }

  function ManifestPath(app: string, version: nat, env: string): seq<string> {
    ["applications", app, "releases", Decimal(version), "environments", env, "manifests.yaml"]
  }

  function EnvPath(env: string): seq<string> {
    ["environments", env]
  }

  function EnvAppPath(env: string, app: string): seq<string> {
    ["environments", env, "applications", app]
  }

  function LinkPath(env: string, app: string, name: string): seq<string> {
    ["environments", env, "applications", app, name]
  }

  function EnvLocksPath(env: string): seq<string> {
    ["environments", env, "locks"]
  }

  function AppLocksPath(env: string, app: string): seq<string> {
    ["environments", env, "applications", app, "locks"]
  }

  const VERSION := "version"
  const QUEUE := "queued_version"

  predicate IsLinkName(name: string) {
    name == VERSION || name == QUEUE
  }

  function LinkOf(x: EnvApp, name: string): Option<nat> {
    if name == VERSION then x.version else x.queued
  }

  function WithLink(x: EnvApp, name: string, link: Option<nat>): EnvApp {
    if name == VERSION then x.(version := link) else x.(queued := link)
  }

  /** The text of a link: up from `environments/<env>/applications/<app>`, and down to the release. */
  function Target(app: string, version: nat): string {
    Strings.Join(UP + ReleasePath(app, version), '/')
  }

  // ---- When a tree shows a repository ----

  function Present(there: bool): Kind {
    if there then ADir else Nothing
  }

  predicate IsPlace(kind: Kind) {
    kind == Nothing || kind == ADir
  }

  ghost predicate ShowsReleases(t: Tree, w: World) {
    && IsPlace(Look(t, ["applications"]))
    && (forall app {:trigger AppPath(app)} :: Look(t, AppPath(app)) == Present(app in w.apps))
    && (forall app {:trigger AppPath(app)} :: IsPlace(Look(t, AppPath(app) + ["releases"])))
    && (forall app, v {:trigger ReleasePath(app, v)} :: Look(t, ReleasePath(app, v)) == Present(v in Releases(w, app)))
    && (forall app, v {:trigger ReleasePath(app, v)} :: IsPlace(Look(t, ReleasePath(app, v) + ["environments"])))
    && (forall app, v, env {:trigger ManifestPath(app, v, env)} :: IsPlace(Look(t, ManifestPath(app, v, env)[..6])))
    && (forall app, v, env {:trigger ManifestPath(app, v, env)} ::
          var kind := Look(t, ManifestPath(app, v, env)); if HasManifest(w, app, v, env) then kind.AFile? else kind == Nothing)
  }

  ghost predicate ShowsEnvironments(t: Tree, w: World) {
    && IsPlace(Look(t, ["environments"]))
    && (forall env {:trigger EnvPath(env)} :: Look(t, EnvPath(env)) == Present(env in w.envs))
    && (forall env {:trigger EnvPath(env)} :: IsPlace(Look(t, EnvPath(env) + ["applications"])))
    && (forall env, app {:trigger EnvAppPath(env, app)} :: Look(t, EnvAppPath(env, app)) == Present(app in EnvOf(w, env).apps))
  }

  function LinkKind(app: string, link: Option<nat>): Kind {
    match link
    case None => Nothing
    case Some(v) => ALink(Target(app, v))
  }

  ghost predicate ShowsLinks(t: Tree, w: World) {
    forall env, app, name {:trigger LinkPath(env, app, name)} | IsLinkName(name) ::
      Look(t, LinkPath(env, app, name)) == LinkKind(app, LinkOf(EnvAppOf(w, env, app), name))
  }

  /** The locks are the directories in a directory of locks. */
  ghost predicate ShowsLocks(t: Tree, w: World) {
    && (forall env {:trigger EnvLocksPath(env)} :: IsPlace(Look(t, EnvLocksPath(env))))
    && (forall env, id {:trigger EnvLocksPath(env) + [id]} ::
          Look(t, EnvLocksPath(env) + [id]) == Present(id in EnvOf(w, env).locks))
    && (forall env, app {:trigger AppLocksPath(env, app)} :: IsPlace(Look(t, AppLocksPath(env, app))))
    && (forall env, app, id {:trigger AppLocksPath(env, app) + [id]} ::
          Look(t, AppLocksPath(env, app) + [id]) == Present(id in EnvAppOf(w, env, app).locks))
  }

  ghost predicate Shows(t: Tree, w: World) {
    t.Dir? && ShowsReleases(t, w) && ShowsEnvironments(t, w) && ShowsLinks(t, w) && ShowsLocks(t, w)
  }

  lemma EmptyShows()
    ensures Shows(Dir(map[]), World(map[], map[]))
  {
    assert forall path | path != [] :: Look(Dir(map[]), path) == Nothing;
  }

  // ---- Changes in the tree are changes of the repository ----

  /** Nothing changes but what lies under `top`. */
  ghost predicate SameOutside(t: Tree, t': Tree, top: seq<string>) {
    forall path {:trigger Look(t', path)} | !Under(top, path) :: Look(t', path) == Look(t, path)
  }

  lemma Apart(top: seq<string>, path: seq<string>, i: nat)
    requires i < |top| && (i < |path| ==> path[i] != top[i])
    ensures !Under(top, path)
  {
    if |top| <= |path| {
      assert path[..|top|][i] == path[i];
    }
  }

  lemma SameReleases(t: Tree, t': Tree, w: World, w': World)
    requires ShowsReleases(t, w) && w'.apps == w.apps
    requires SameBelow(t, t', "applications")
    ensures ShowsReleases(t', w')
  {
    assert Look(t', ["applications"]) == Look(t, ["applications"]);
    forall app ensures Look(t', AppPath(app)) == Look(t, AppPath(app)) && Look(t', AppPath(app) + ["releases"]) == Look(t, AppPath(app) + ["releases"]) {}
    forall app, v ensures Look(t', ReleasePath(app, v)) == Look(t, ReleasePath(app, v))
                          && Look(t', ReleasePath(app, v) + ["environments"]) == Look(t, ReleasePath(app, v) + ["environments"]) {}
    SameManifests(t, t', w, w');
  }

  lemma SameManifests(t: Tree, t': Tree, w: World, w': World)
    requires ShowsReleases(t, w) && w'.apps == w.apps && SameBelow(t, t', "applications")
    ensures forall app, v, env {:trigger ManifestPath(app, v, env)} :: IsPlace(Look(t', ManifestPath(app, v, env)[..6]))
    ensures forall app, v, env {:trigger ManifestPath(app, v, env)} ::
              var kind := Look(t', ManifestPath(app, v, env)); if HasManifest(w', app, v, env) then kind.AFile? else kind == Nothing
  {
    forall app, v, env
      ensures IsPlace(Look(t', ManifestPath(app, v, env)[..6]))
      ensures var kind := Look(t', ManifestPath(app, v, env)); if HasManifest(w', app, v, env) then kind.AFile? else kind == Nothing
    {
      assert Look(t', ManifestPath(app, v, env)) == Look(t, ManifestPath(app, v, env));
      assert Look(t', ManifestPath(app, v, env)[..6]) == Look(t, ManifestPath(app, v, env)[..6]);
      assert HasManifest(w', app, v, env) <==> HasManifest(w, app, v, env);
    }
  }

  /** Changes below an application of an environment, other than to its locks. */
  lemma SameEnvironments(t: Tree, t': Tree, w: World, env: string, app: string, name: string, x: EnvApp)
    requires ShowsEnvironments(t, w) && app in EnvOf(w, env).apps
    requires SameOutside(t, t', LinkPath(env, app, name))
    ensures ShowsEnvironments(t', SetEnvApp(w, env, app, x))
  {
    var top, w' := LinkPath(env, app, name), SetEnvApp(w, env, app, x);
    Apart(top, ["environments"], 4);
    forall e ensures Look(t', EnvPath(e)) == Present(e in w'.envs) && IsPlace(Look(t', EnvPath(e) + ["applications"])) {
      Apart(top, EnvPath(e), 4);
      Apart(top, EnvPath(e) + ["applications"], 4);
    }
    forall e, a ensures Look(t', EnvAppPath(e, a)) == Present(a in EnvOf(w', e).apps) {
      Apart(top, EnvAppPath(e, a), 4);
    }
  }

  lemma SameLocks(t: Tree, t': Tree, w: World, env: string, app: string, name: string, x: EnvApp)
    requires ShowsLocks(t, w) && IsLinkName(name) && x.locks == EnvAppOf(w, env, app).locks
    requires SameOutside(t, t', LinkPath(env, app, name))
    ensures ShowsLocks(t', SetEnvApp(w, env, app, x))
  {
    SetEnvAppFrame(w, env, app, x);
    forall e, id ensures Look(t', EnvLocksPath(e)) == Look(t, EnvLocksPath(e))
                         && Look(t', EnvLocksPath(e) + [id]) == Look(t, EnvLocksPath(e) + [id]) {
      Apart(LinkPath(env, app, name), EnvLocksPath(e), 4);
      Apart(LinkPath(env, app, name), EnvLocksPath(e) + [id], 4);
    }
    forall e, a, id ensures Look(t', AppLocksPath(e, a)) == Look(t, AppLocksPath(e, a))
                            && Look(t', AppLocksPath(e, a) + [id]) == Look(t, AppLocksPath(e, a) + [id]) {
      Apart(LinkPath(env, app, name), AppLocksPath(e, a), 4);
      Apart(LinkPath(env, app, name), AppLocksPath(e, a) + [id], 4);
    }
  }

  lemma ChangedLink(t: Tree, t': Tree, w: World, env: string, app: string, name: string, link: Option<nat>)
    requires ShowsLinks(t, w) && IsLinkName(name)
    requires SameOutside(t, t', LinkPath(env, app, name)) && Look(t', LinkPath(env, app, name)) == LinkKind(app, link)
    ensures ShowsLinks(t', SetEnvApp(w, env, app, WithLink(EnvAppOf(w, env, app), name, link)))
  {
    var top, w' := LinkPath(env, app, name), SetEnvApp(w, env, app, WithLink(EnvAppOf(w, env, app), name, link));
    SetEnvAppFrame(w, env, app, WithLink(EnvAppOf(w, env, app), name, link));
    forall e, a, n | IsLinkName(n)
      ensures Look(t', LinkPath(e, a, n)) == LinkKind(a, LinkOf(EnvAppOf(w', e, a), n))
    {
      if e != env { Apart(top, LinkPath(e, a, n), 1); }
      else if a != app { Apart(top, LinkPath(e, a, n), 3); }
      else if n != name { Apart(top, LinkPath(e, a, n), 4); }
    }
  }

  /** A link at its path is a link of the repository. */
  lemma LinkChanged(t: Tree, t': Tree, w: World, env: string, app: string, name: string, link: Option<nat>)
    requires Shows(t, w) && app in EnvOf(w, env).apps && IsLinkName(name) && t'.Dir?
    requires SameOutside(t, t', LinkPath(env, app, name)) && Look(t', LinkPath(env, app, name)) == LinkKind(app, link)
    ensures Shows(t', SetEnvApp(w, env, app, WithLink(EnvAppOf(w, env, app), name, link)))
  {
    var x := WithLink(EnvAppOf(w, env, app), name, link);
    forall path | path != [] && path[0] == "applications" ensures Look(t', path) == Look(t, path) {
      Apart(LinkPath(env, app, name), path, 0);
    }
    SameReleases(t, t', w, SetEnvApp(w, env, app, x));
    SameEnvironments(t, t', w, env, app, name, x);
    SameLocks(t, t', w, env, app, name, x);
    ChangedLink(t, t', w, env, app, name, link);
  }

  // ---- Directories made on the way ----

  lemma MadeEnvironments(t: Tree, t': Tree, w: World, env: string, app: string)
    requires ShowsEnvironments(t, w) && MadeDirs(t, t', EnvAppPath(env, app))
    ensures ShowsEnvironments(t', SetEnvApp(w, env, app, EnvAppOf(w, env, app)))
  {
    var dir, w' := EnvAppPath(env, app), SetEnvApp(w, env, app, EnvAppOf(w, env, app));
    assert dir[..2] == EnvPath(env);
    forall e ensures Look(t', EnvPath(e)) == Present(e in w'.envs) {
      if e != env { Apart(EnvPath(e), dir, 1); }
    }
    assert forall e :: Look(t', EnvPath(e) + ["applications"]) in {Look(t, EnvPath(e) + ["applications"]), ADir};
    forall e, a ensures Look(t', EnvAppPath(e, a)) == Present(a in EnvOf(w', e).apps) {
      MadeEnvApp(t, t', w, env, app, e, a);
    }
  }

  lemma MadeEnvApp(t: Tree, t': Tree, w: World, env: string, app: string, e: string, a: string)
    requires ShowsEnvironments(t, w) && MadeDirs(t, t', EnvAppPath(env, app))
    ensures Look(t', EnvAppPath(e, a)) == Present(a in EnvOf(SetEnvApp(w, env, app, EnvAppOf(w, env, app)), e).apps)
  {
    var dir := EnvAppPath(env, app);
    if e != env { Apart(EnvAppPath(e, a), dir, 1); }
    else if a != app { Apart(EnvAppPath(e, a), dir, 3); }
    else { assert dir[..4] == EnvAppPath(e, a); }
  }

  lemma MadeLinks(t: Tree, t': Tree, w: World, env: string, app: string)
    requires ShowsLinks(t, w) && MadeDirs(t, t', EnvAppPath(env, app))
    ensures ShowsLinks(t', SetEnvApp(w, env, app, EnvAppOf(w, env, app)))
  {
    SetEnvAppFrame(w, env, app, EnvAppOf(w, env, app));
    forall e, a, name ensures Look(t', LinkPath(e, a, name)) == Look(t, LinkPath(e, a, name)) {}
  }

  lemma MadeLocks(t: Tree, t': Tree, w: World, env: string, app: string)
    requires ShowsLocks(t, w) && MadeDirs(t, t', EnvAppPath(env, app))
    ensures ShowsLocks(t', SetEnvApp(w, env, app, EnvAppOf(w, env, app)))
  {
    var dir := EnvAppPath(env, app);
    SetEnvAppFrame(w, env, app, EnvAppOf(w, env, app));
    forall e, id ensures Look(t', EnvLocksPath(e)) == Look(t, EnvLocksPath(e))
                         && Look(t', EnvLocksPath(e) + [id]) == Look(t, EnvLocksPath(e) + [id]) {
      Apart(EnvLocksPath(e), dir, 2);
      Apart(EnvLocksPath(e) + [id], dir, 2);
    }
    forall e, a, id ensures Look(t', AppLocksPath(e, a)) == Look(t, AppLocksPath(e, a))
                            && Look(t', AppLocksPath(e, a) + [id]) == Look(t, AppLocksPath(e, a) + [id]) {}
  }

  /** The directories on the way to an application of an environment are the ones the repository gets. */
  lemma DirsMade(t: Tree, t': Tree, w: World, env: string, app: string)
    requires Shows(t, w) && MadeDirs(t, t', EnvAppPath(env, app)) && t'.Dir?
    ensures Shows(t', SetEnvApp(w, env, app, EnvAppOf(w, env, app)))
  {
    forall path | path != [] && path[0] == "applications" ensures Look(t', path) == Look(t, path) {
      Apart(path, EnvAppPath(env, app), 0);
    }
    SameReleases(t, t', w, SetEnvApp(w, env, app, EnvAppOf(w, env, app)));
    MadeEnvironments(t, t', w, env, app);
    MadeLinks(t, t', w, env, app);
    MadeLocks(t, t', w, env, app);
  }

  lemma ClearEnvApp(t: Tree, w: World, env: string, app: string)
    requires Shows(t, w)
    ensures Clear(t, EnvAppPath(env, app))
  {
    var path := EnvAppPath(env, app);
    assert path[..1] == ["environments"] && path[..2] == EnvPath(env);
    assert path[..3] == EnvPath(env) + ["applications"] && path[..4] == path;
  }

  lemma ClearReleases(t: Tree, w: World, app: string)
    requires Shows(t, w)
    ensures Clear(t, AppPath(app) + ["releases"])
  {
    var path := AppPath(app) + ["releases"];
    assert path[..1] == ["applications"] && path[..2] == AppPath(app) && path[..3] == path;
  }

  lemma ClearManifest(t: Tree, w: World, app: string, version: nat, env: string)
    requires Shows(t, w)
    ensures Clear(t, ManifestPath(app, version, env)[..6])
  {
    var path := ManifestPath(app, version, env)[..6];
    ClearReleases(t, w, app);
    assert path[..0] == [] && path[..1] == ["applications"] && path[..2] == AppPath(app) && path[..3] == AppPath(app) + ["releases"];
    assert path[..4] == ReleasePath(app, version) && path[..5] == ReleasePath(app, version) + ["environments"] && path[..6] == path;
  }

  lemma ClearLocks(t: Tree, w: World, env: string, app: string)
    requires Shows(t, w)
    ensures Clear(t, EnvLocksPath(env)) && Clear(t, AppLocksPath(env, app))
  {
    var path, below := EnvLocksPath(env), AppLocksPath(env, app);
    ClearEnvApp(t, w, env, app);
    assert path[..1] == ["environments"] && path[..2] == EnvPath(env) && path[..3] == path;
    assert below[..5] == below && forall k | 0 <= k <= 4 :: below[..k] == EnvAppPath(env, app)[..k];
  }

  // ---- Releases that go ----

  lemma DecimalsDiffer(v: nat, u: nat)
    ensures Decimal(v) == Decimal(u) <==> v == u
  {
    ParseDecimal(v);
    ParseDecimal(u);
  }

  lemma ReleasePathsApart(app: string, v: nat, a: string, u: nat, rest: seq<string>)
    ensures Under(ReleasePath(app, v), ReleasePath(a, u) + rest) <==> a == app && u == v
  {
    DecimalsDiffer(v, u);
    var path := ReleasePath(a, u) + rest;
    assert path[..4] == ReleasePath(a, u);
    if a != app {
      Apart(ReleasePath(app, v), path, 1);
    } else if u != v {
      Apart(ReleasePath(app, v), path, 3);
    }
  }

  /** The paths of environments do not notice what happens to releases. */
  ghost predicate SameBelow(t: Tree, t': Tree, top: string) {
    forall path {:trigger Look(t', path)} | path != [] && path[0] == top :: Look(t', path) == Look(t, path)
  }

  lemma SameDirectories(t: Tree, t': Tree, w: World, w': World)
    requires ShowsEnvironments(t, w) && w'.envs == w.envs && SameBelow(t, t', "environments")
    ensures ShowsEnvironments(t', w')
  {
    forall env ensures Look(t', EnvPath(env)) == Look(t, EnvPath(env))
                       && Look(t', EnvPath(env) + ["applications"]) == Look(t, EnvPath(env) + ["applications"]) {}
    forall env, app ensures Look(t', EnvAppPath(env, app)) == Look(t, EnvAppPath(env, app)) {}
  }

  lemma SameLinks(t: Tree, t': Tree, w: World, w': World)
    requires ShowsLinks(t, w) && w'.envs == w.envs && SameBelow(t, t', "environments")
    ensures ShowsLinks(t', w')
  {
    forall env, app, name ensures Look(t', LinkPath(env, app, name)) == Look(t, LinkPath(env, app, name)) {}
  }

  lemma SameLockPaths(t: Tree, t': Tree, w: World, w': World)
    requires ShowsLocks(t, w) && w'.envs == w.envs && SameBelow(t, t', "environments")
    ensures ShowsLocks(t', w')
  {
    assert forall e :: EnvOf(w', e) == EnvOf(w, e);
    forall env, id ensures Look(t', EnvLocksPath(env)) == Look(t, EnvLocksPath(env))
                           && Look(t', EnvLocksPath(env) + [id]) == Look(t, EnvLocksPath(env) + [id]) {}
    forall env, app, id ensures Look(t', AppLocksPath(env, app)) == Look(t, AppLocksPath(env, app))
                                && Look(t', AppLocksPath(env, app) + [id]) == Look(t, AppLocksPath(env, app) + [id]) {}
  }

  ghost predicate NothingUnder(t: Tree, top: seq<string>) {
    forall path {:trigger Look(t, path)} | Under(top, path) :: Look(t, path) == Nothing
  }

  function WithoutRelease(w: World, app: string, v: nat): World {
    SetReleases(w, app, Releases(w, app) - {v})
  }

  lemma ManifestRemoved(t: Tree, t': Tree, w: World, app: string, v: nat, a: string, u: nat, env: string)
    requires ShowsReleases(t, w) && v in Releases(w, app)
    requires SameOutside(t, t', ReleasePath(app, v)) && NothingUnder(t', ReleasePath(app, v))
    ensures IsPlace(Look(t', ManifestPath(a, u, env)[..6]))
    ensures var kind := Look(t', ManifestPath(a, u, env));
            if HasManifest(WithoutRelease(w, app, v), a, u, env) then kind.AFile? else kind == Nothing
  {
    ReleasePathsApart(app, v, a, u, ["environments", env]);
    ReleasePathsApart(app, v, a, u, ["environments", env, "manifests.yaml"]);
    assert ReleasePath(a, u) + ["environments", env] == ManifestPath(a, u, env)[..6];
    assert ReleasePath(a, u) + ["environments", env, "manifests.yaml"] == ManifestPath(a, u, env);
    assert a != app || u != v ==> (HasManifest(WithoutRelease(w, app, v), a, u, env) <==> HasManifest(w, a, u, env));
  }

  lemma PathRemoved(t: Tree, t': Tree, w: World, app: string, v: nat, a: string, u: nat)
    requires ShowsReleases(t, w) && v in Releases(w, app)
    requires SameOutside(t, t', ReleasePath(app, v)) && NothingUnder(t', ReleasePath(app, v))
    ensures Look(t', ReleasePath(a, u)) == Present(u in Releases(WithoutRelease(w, app, v), a))
    ensures IsPlace(Look(t', ReleasePath(a, u) + ["environments"]))
  {
    ReleasePathsApart(app, v, a, u, []);
    ReleasePathsApart(app, v, a, u, ["environments"]);
    assert ReleasePath(a, u) + [] == ReleasePath(a, u);
  }

  lemma ReleaseRemoved(t: Tree, t': Tree, w: World, app: string, v: nat)
    requires ShowsReleases(t, w) && v in Releases(w, app)
    requires SameOutside(t, t', ReleasePath(app, v)) && NothingUnder(t', ReleasePath(app, v))
    ensures ShowsReleases(t', WithoutRelease(w, app, v))
  {
    var top, w' := ReleasePath(app, v), WithoutRelease(w, app, v);
    forall path | |path| <= 3 ensures Look(t', path) == Look(t, path) {
      Apart(top, path, 3);
    }
    assert Look(t', ["applications"]) == Look(t, ["applications"]);
    forall a ensures Look(t', AppPath(a)) == Present(a in w'.apps) && IsPlace(Look(t', AppPath(a) + ["releases"])) {
      assert Look(t', AppPath(a)) == Look(t, AppPath(a)) && Look(t', AppPath(a) + ["releases"]) == Look(t, AppPath(a) + ["releases"]);
    }
    forall a, u ensures Look(t', ReleasePath(a, u)) == Present(u in Releases(w', a))
                        && IsPlace(Look(t', ReleasePath(a, u) + ["environments"])) {
      PathRemoved(t, t', w, app, v, a, u);
    }
    forall a, u, env
      ensures IsPlace(Look(t', ManifestPath(a, u, env)[..6]))
      ensures var kind := Look(t', ManifestPath(a, u, env)); if HasManifest(w', a, u, env) then kind.AFile? else kind == Nothing
    {
      ManifestRemoved(t, t', w, app, v, a, u, env);
    }
  }

  /** Removing the directory of a release removes the release. */
  lemma ReleaseGone(t: Tree, w: World, app: string, v: nat)
    requires Shows(t, w) && v in Releases(w, app)
    ensures IsDir(t, AppPath(app) + ["releases"])
    ensures Shows(Removed(t, AppPath(app) + ["releases"], Decimal(v)), WithoutRelease(w, app, v))
  {
    var dir, top := AppPath(app) + ["releases"], ReleasePath(app, v);
    assert dir + [Decimal(v)] == top && Look(t, top) == ADir;
    OnTheWay(t, dir, [Decimal(v)]);
    var t' := Removed(t, dir, Decimal(v));
    forall path ensures Look(t', path) == if Under(top, path) then Nothing else Look(t, path) {
      LookRemoved(t, dir, Decimal(v), path);
    }
    assert Look(t', []) == Look(t, []);
    forall path | path != [] && path[0] == "environments" ensures Look(t', path) == Look(t, path) {
      Apart(top, path, 0);
    }
    var w' := WithoutRelease(w, app, v);
    SameDirectories(t, t', w, w');
    SameLinks(t, t', w, w');
    SameLockPaths(t, t', w, w');
    ReleaseRemoved(t, t', w, app, v);
  }

  // ---- Following a link ----

  lemma {:induction false} WalkSteps(t: Tree, done: seq<string>, names: seq<string>, rest: seq<string>, links: nat)
    requires IsDir(t, done + names) && AllPlain(names) && rest != []
    ensures Walk(t, done, names + rest, links, false) == Walk(t, done + names, rest, links, false)
    decreases |names|
  {
    if names == [] {
      assert names + rest == rest && done + names == done;
    } else {
      assert (names + rest)[0] == names[0] && (names + rest)[1..] == names[1..] + rest;
      assert done + names == done + [names[0]] + names[1..];
      OnTheWay(t, done + [names[0]], names[1..]);
      WalkSteps(t, done + [names[0]], names[1..], rest, links);
    }
  }

  lemma {:induction false} WalkUp(t: Tree, cwd: seq<string>, up: seq<string>, rest: seq<string>, links: nat)
    requires AllUp(up) && |up| == |cwd| && rest != []
    ensures Walk(t, cwd, up + rest, links, false) == Walk(t, [], rest, links, false)
    decreases |up|
  {
    if up == [] {
      assert up + rest == rest && cwd == [];
    } else {
      assert (up + rest)[0] == ".." && (up + rest)[1..] == up[1..] + rest;
      WalkUp(t, Parent(cwd), up[1..], rest, links);
    }
  }

  /** A path through a link of an application leads into the release that the link names. */
  lemma LinkLeadsToRelease(t: Tree, w: World, env: string, app: string, name: string, v: nat, last: string)
    requires Shows(t, w) && PlainName(env) && PlainName(app) && IsLinkName(name) && PlainName(last)
    requires LinkOf(EnvAppOf(w, env, app), name) == Some(v) && v in Releases(w, app)
    ensures Walk(t, [], Components(PathJoin(LinkPath(env, app, name) + [last])), 1, false) == Found(t, ReleasePath(app, v), last)
  {
    assert Look(t, EnvAppPath(env, app)) == ADir && Look(t, ReleasePath(app, v)) == ADir;
    assert Look(t, LinkPath(env, app, name)) == ALink(Target(app, v));
    WalkThroughLink(t, env, app, name, v, last);
  }

  lemma WalkThroughLink(t: Tree, env: string, app: string, name: string, v: nat, last: string)
    requires PlainName(env) && PlainName(app) && IsLinkName(name) && PlainName(last)
    requires Look(t, EnvAppPath(env, app)) == ADir && Look(t, ReleasePath(app, v)) == ADir
    requires Look(t, LinkPath(env, app, name)) == ALink(Target(app, v))
    ensures Walk(t, [], Components(PathJoin(LinkPath(env, app, name) + [last])), 1, false) == Found(t, ReleasePath(app, v), last)
  {
    var dir := EnvAppPath(env, app);
    assert dir + [name] == LinkPath(env, app, name);
    WalkToLink(t, env, app, name, last);
    LinkStep(t, dir, name, last, app, v);
    WalkToRelease(t, app, v, last);
  }

  /** The names in a link are taken from the directory it lies in. */
  lemma LinkIsRelative(t: Tree, dir: seq<string>, name: string, target: string, last: string)
    requires PlainName(name) && At(t, dir + [name]) == Some(Link(target))
    requires AllPlain(Components(target)) && IsDir(t, dir + Components(target))
    ensures Walk(t, dir, [name, last], 1, false) == Found(t, dir + Components(target), last)
  {
    assert [name, last][1..] == [last];
    WalkSteps(t, dir, Components(target), [last], 0);
  }

  /** Even if it begins with a slash: that makes an empty component, which is passed over. */
  lemma RootedLinkIsRelative(t: Tree, cwd: seq<string>, parts: seq<string>, links: nat, create: bool)
    requires parts != []
    ensures Walk(t, cwd, [""] + parts, links, create) == Walk(t, cwd, parts, links, create)
  {
    assert ([""] + parts)[1..] == parts;
  }

  lemma WalkToRelease(t: Tree, app: string, v: nat, last: string)
    requires PlainName(app) && Look(t, ReleasePath(app, v)) == ADir
    ensures Walk(t, [], ReleasePath(app, v) + [last], 0, false) == Found(t, ReleasePath(app, v), last)
  {
    DecimalPlain(v);
    WalkInto(t, ReleasePath(app, v), [last], 0);
  }

  lemma WalkToLink(t: Tree, env: string, app: string, name: string, last: string)
    requires PlainName(env) && PlainName(app) && IsLinkName(name) && PlainName(last)
    requires Look(t, EnvAppPath(env, app)) == ADir
    ensures Walk(t, [], Components(PathJoin(LinkPath(env, app, name) + [last])), 1, false) ==
            Walk(t, EnvAppPath(env, app), [name, last], 1, false)
  {
    LinkNames(env, app, name, last);
    WalkInto(t, EnvAppPath(env, app), [name, last], 1);
  }

  lemma LinkNames(env: string, app: string, name: string, last: string)
    requires PlainName(env) && PlainName(app) && IsLinkName(name) && PlainName(last)
    ensures AllPlain(EnvAppPath(env, app))
    ensures Components(PathJoin(LinkPath(env, app, name) + [last])) == EnvAppPath(env, app) + [name, last]
  {
    JoinedComponents(LinkPath(env, app, name) + [last]);
    assert LinkPath(env, app, name) + [last] == EnvAppPath(env, app) + [name, last];
  }

  lemma WalkInto(t: Tree, dir: seq<string>, rest: seq<string>, links: nat)
    requires Look(t, dir) == ADir && AllPlain(dir) && rest != []
    ensures Walk(t, [], dir + rest, links, false) == Walk(t, dir, rest, links, false)
  {
    assert [] + dir == dir;
    WalkSteps(t, [], dir, rest, links);
  }

  lemma LinkStep(t: Tree, dir: seq<string>, name: string, last: string, app: string, v: nat)
    requires |dir| == 4 && PlainName(app) && PlainName(name) && At(t, dir + [name]) == Some(Link(Target(app, v)))
    ensures Walk(t, dir, [name, last], 1, false) == Walk(t, [], ReleasePath(app, v) + [last], 0, false)
  {
    var release := ReleasePath(app, v);
    TargetComponents(app, v);
    assert [name, last][1..] == [last] && UP + release + [last] == UP + (release + [last]);
    WalkUp(t, dir, UP, release + [last], 0);
  }

  lemma TargetComponents(app: string, v: nat)
    requires PlainName(app)
    ensures Components(Target(app, v)) == UP + ReleasePath(app, v)
  {
    var names := UP + ReleasePath(app, v);
    DecimalDigits(v);
    DecimalPlain(v);
    assert Strings.Free(names, '/') by {
      forall p | p in names ensures '/' !in p {
        assert p in UP || p in ReleasePath(app, v);
      }
    }
    Strings.SplitJoin(names, '/');
    JoinEndsIn(names);
  }

  /** The text of a joined path ends as its last component does. */
  lemma {:induction false} JoinEndsIn(names: seq<string>)
    requires names != [] && names[|names| - 1] != "" && '/' !in names[|names| - 1]
    ensures var s := Strings.Join(names, '/'); s != "" && s[|s| - 1] != '/'
  {
    if |names| > 1 {
      JoinEndsIn(names[1..]);
    } else {
      assert names[0][|names[0]| - 1] in names[0];
    }
  }
}
