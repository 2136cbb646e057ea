/**
 The links and locks of the repository in the file system: reading them gives what the repository as a value says, and
 the steps that queue and deploy a version leave a tree that shows the new repository.
 */
module OnDisk {
  import opened Config
  import opened Deployment
  import opened FileSystem
  import opened Layout
  import opened Locking
  import opened PathNames
  import opened Sorting
  import opened Trees

  function ReleasesDirectoryWithVersion(app: string, version: nat): string {
    PathJoin([PathJoin(["applications", app, "releases"]), Decimal(version)])
  }

  lemma ReleaseComponents(app: string, version: nat)
    requires PlainName(app)
    ensures AllPlain(ReleasePath(app, version)) && ReleasesDirectoryWithVersion(app, version) == PathJoin(ReleasePath(app, version))
  {
    DecimalPlain(version);
    JoinBelow(["applications", app, "releases"], Decimal(version));
    assert ["applications", app, "releases"] + [Decimal(version)] == ReleasePath(app, version);
  }

  /** Where the file system ends up with a joined path of plain names. */
  lemma PlainWalk(t: Tree, dir: seq<string>, last: string, create: bool)
    requires t.Dir? && AllPlain(dir) && Clear(t, dir) && PlainName(last)
    ensures var w := Walk(t, [], Components(PathJoin(dir + [last])), 0, create);
            if create then w.Found? && w.dir == dir && w.last == last && MadeDirs(t, w.tree, dir)
            else if Look(t, dir) == ADir then w == Found(t, dir, last)
            else w == Failed(t, true) && Look(t, dir + [last]) == Nothing
  {
    JoinedComponents(dir + [last]);
    assert [] + dir == dir;
    WalkDown(t, [], dir, last, create);
    if Look(t, dir) != ADir {
      assert dir[..|dir|] == dir;
      NothingBelow(t, dir, [last]);
    }
  }

  /** And with a joined path that is to be made or listed. */
  lemma PlainDirWalk(t: Tree, dir: seq<string>, create: bool)
    requires t.Dir? && dir != [] && AllPlain(dir) && Clear(t, dir)
    ensures var w := Walk(t, [], Components(PathJoin(dir) + "/."), 0, create);
            if create then w.Found? && w.dir == dir && MadeDirs(t, w.tree, dir)
            else if Look(t, dir) == ADir then w == Found(t, dir, ".")
            else w == Failed(t, true)
  {
    JoinedComponents(dir);
    assert [] + dir == dir;
    WalkDown(t, [], dir, ".", create);
  }

  // ---- Reading ----

  /** The text of a link of an application, if it has one. */
  method ReadTarget(fs: TreeBuilderFS, env: string, app: string, name: string, ghost w: World) returns (r: Result<Option<string>>)
    requires fs.Ok() && Shows(fs.Root(), w) && PlainName(env) && PlainName(app) && IsLinkName(name)
    modifies fs`nodes
    ensures fs.Ok() && fs.Root() == old(fs.Root())
    ensures match LinkOf(EnvAppOf(w, env, app), name)
            case None => r == Ok(None)
            case Some(v) => r == Ok(Some(Target(app, v)))
  {
    ghost var t, dir := fs.Root(), EnvAppPath(env, app);
    ClearEnvApp(t, w, env, app);
    PlainWalk(t, dir, name, false);
    assert dir + [name] == LinkPath(env, app, name) == ["environments", env, "applications", app, name];
    var target, error := fs.Readlink(0, PathJoin(["environments", env, "applications", app, name]), 0);
    match error {
      case None => r := Ok(Some(target));
      case Some(DoesNotExist) => r := Ok(None);
      case Some(_) => r := Err(InternalError);
    }
  }

  /** Reading a link and looking for its release give what the repository says about the link. */
  method ReadSymlink(fs: TreeBuilderFS, env: string, app: string, name: string, ghost w: World) returns (r: Result<Option<nat>>)
    requires fs.Ok() && Shows(fs.Root(), w) && PlainName(env) && PlainName(app) && IsLinkName(name)
    modifies fs`nodes
    ensures fs.Ok() && fs.Root() == old(fs.Root())
    ensures r == ReadLink(w, app, LinkOf(EnvAppOf(w, env, app), name))
  {
    var link := ReadTarget(fs, env, app, name, w);
    if link.Err? {
      return Err(link.error);
    }
    if link.value.None? {
      return Ok(None);
    }
    ghost var v := LinkOf(EnvAppOf(w, env, app), name).value;
    TargetWalk(fs.Root(), w, env, app, v);
    var found, error := fs.Stat(0, PathJoin(["environments", env, "applications", app, link.value.value]), 0);
    if error.Some? {
      return Err(NotExist);
    }
    ParseDecimal(v);
    var version := ParseUint(found);
    r := if version.Some? then Ok(version) else Err(InternalError);
  }

  lemma TargetWalk(t: Tree, w: World, env: string, app: string, v: nat)
    requires Shows(t, w) && PlainName(env) && PlainName(app)
    ensures var target := PathJoin(["environments", env, "applications", app, Target(app, v)]);
            var dir := AppPath(app) + ["releases"];
            && dir + [Decimal(v)] == ReleasePath(app, v)
            && match Walk(t, [], Components(target), 0, false)
               case Found(_, d, last) => d == dir && last == Decimal(v)
               case Failed(_, missing) => missing && v !in Releases(w, app)
               case TooManyLinks => false
    ensures At(t, ReleasePath(app, v)).Some? <==> v in Releases(w, app)
  {
    var dir := AppPath(app) + ["releases"];
    ReleaseComponents(app, v);
    DecimalPlain(v);
    DownAgain(EnvAppPath(env, app), ReleasePath(app, v));
    assert EnvAppPath(env, app) + [Target(app, v)] == ["environments", env, "applications", app, Target(app, v)];
    ClearReleases(t, w, app);
    assert dir + [Decimal(v)] == ReleasePath(app, v);
    PlainWalk(t, dir, Decimal(v), false);
    assert Look(t, ReleasePath(app, v)) == Present(v in Releases(w, app));
  }

  /** Whether there is a lock, for the environment or the application in it. */
  method IsBlocked(fs: TreeBuilderFS, env: string, app: string, ghost w: World) returns (blocked: bool)
    requires fs.Ok() && Shows(fs.Root(), w) && PlainName(env) && PlainName(app)
    modifies fs`nodes
    ensures fs.Ok() && fs.Root() == old(fs.Root())
    ensures blocked == IsLocked(w, env, app)
  {
    ghost var t := fs.Root();
    ClearLocks(t, w, env, app);
    PlainDirWalk(t, EnvLocksPath(env), false);
    PlainDirWalk(t, AppLocksPath(env, app), false);
    LocksListed(t, w, env, app);
    var envLocks, envError := fs.ReadDir(0, PathJoin(["environments", env, "locks"]), 0);
    var appLocks, appError := fs.ReadDir(0, PathJoin(["environments", env, "applications", app, "locks"]), 0);
    blocked := envLocks != {} || appLocks != {};
  }

  function NamesIn(t: Tree, dir: seq<string>): set<string> {
    if IsDir(t, dir) then At(t, dir).value.entries.Keys else {}
  }

  lemma LocksListed(t: Tree, w: World, env: string, app: string)
    requires Shows(t, w)
    ensures NamesIn(t, EnvLocksPath(env)) == EnvOf(w, env).locks
    ensures NamesIn(t, AppLocksPath(env, app)) == EnvAppOf(w, env, app).locks
  {
    forall id ensures id in NamesIn(t, EnvLocksPath(env)) <==> id in EnvOf(w, env).locks {
      AtAppend(t, EnvLocksPath(env), id);
      assert Look(t, EnvLocksPath(env) + [id]) == Present(id in EnvOf(w, env).locks);
    }
    forall id ensures id in NamesIn(t, AppLocksPath(env, app)) <==> id in EnvAppOf(w, env, app).locks {
      AtAppend(t, AppLocksPath(env, app), id);
      assert Look(t, AppLocksPath(env, app) + [id]) == Present(id in EnvAppOf(w, env, app).locks);
    }
  }

  /** Whether the manifest of a release for an environment can be opened. */
  method FindManifest(fs: TreeBuilderFS, app: string, version: nat, env: string, ghost w: World) returns (error: Option<Error>)
    requires fs.Ok() && fs.inUse == map[] && Shows(fs.Root(), w) && PlainName(env) && PlainName(app)
    modifies fs`nodes, fs`inUse
    ensures fs.Ok() && fs.inUse == map[] && fs.Root() == old(fs.Root())
    ensures error == if HasManifest(w, app, version, env) then None else Some(NotExist)
  {
    ghost var t, path := fs.Root(), ManifestPath(app, version, env);
    ManifestComponents(app, version, env);
    ClearManifest(t, w, app, version, env);
    PlainWalk(t, path[..6], "manifests.yaml", false);
    assert path[..6] + ["manifests.yaml"] == path;
    var file, failed := fs.OpenFile(0, PathJoin([ReleasesDirectoryWithVersion(app, version), "environments", env, "manifests.yaml"]), false, 0);
    match failed {
      case None =>
        var content := fs.ReadAll(file);
        fs.Close(file);
        error := None;
      case Some(DoesNotExist) => error := Some(NotExist);
      case Some(_) => error := Some(InternalError);
    }
  }

  lemma ManifestComponents(app: string, version: nat, env: string)
    requires PlainName(app) && PlainName(env)
    ensures AllPlain(ManifestPath(app, version, env))
    ensures PathJoin([ReleasesDirectoryWithVersion(app, version), "environments", env, "manifests.yaml"]) ==
            PathJoin(ManifestPath(app, version, env))
  {
    ReleaseComponents(app, version);
    DecimalPlain(version);
    JoinAllBelow(ReleasePath(app, version), ["environments", env, "manifests.yaml"]);
    assert ReleasePath(app, version) + ["environments", env, "manifests.yaml"] == ManifestPath(app, version, env);
    assert [ReleasesDirectoryWithVersion(app, version)] + ["environments", env, "manifests.yaml"] ==
           [ReleasesDirectoryWithVersion(app, version), "environments", env, "manifests.yaml"];
  }

  // ---- Writing ----

  /** The directory of the application, the old link removed, and the new one put there. */
  method SetLink(fs: TreeBuilderFS, env: string, app: string, name: string, version: nat, ghost w: World) returns (error: Option<FsError>)
    requires fs.Ok() && Shows(fs.Root(), w) && PlainName(env) && PlainName(app) && IsLinkName(name)
    modifies fs`nodes
    ensures fs.Ok() && error.None?
    ensures Shows(fs.Root(), SetEnvApp(w, env, app, WithLink(EnvAppOf(w, env, app), name, Some(version))))
  {
    var applicationDir := PathJoin(["environments", env, "applications", app]);
    var file := PathJoin([applicationDir, name]);
    ghost var x := EnvAppOf(w, env, app);
    LinkFile(env, app, name);
    ghost var w1 := MakeEnvApp(fs, env, app, applicationDir, w);
    error := RemoveLink(fs, env, app, name, file, w1);
    ghost var w2 := SetEnvApp(w1, env, app, WithLink(x, name, None));
    error := PutLink(fs, env, app, name, file, version, w2);
    SetAgain(w, env, app, x, WithLink(x, name, None), WithLink(x, name, Some(version)));
  }

  lemma LinkFile(env: string, app: string, name: string)
    requires PlainName(env) && PlainName(app) && IsLinkName(name)
    ensures PathJoin([PathJoin(["environments", env, "applications", app]), name]) == PathJoin(LinkPath(env, app, name))
  {
    JoinBelow(EnvAppPath(env, app), name);
    assert EnvAppPath(env, app) + [name] == LinkPath(env, app, name);
  }

  method RemoveLink(fs: TreeBuilderFS, env: string, app: string, name: string, file: string, ghost w: World)
    returns (error: Option<FsError>)
    requires fs.Ok() && Shows(fs.Root(), w) && PlainName(env) && PlainName(app) && IsLinkName(name)
    requires app in EnvOf(w, env).apps && file == PathJoin(LinkPath(env, app, name))
    modifies fs`nodes
    ensures fs.Ok() && error.None?
    ensures Shows(fs.Root(), SetEnvApp(w, env, app, WithLink(EnvAppOf(w, env, app), name, None)))
  {
    ghost var t, dir := fs.Root(), EnvAppPath(env, app);
    ClearEnvApp(t, w, env, app);
    PlainWalk(t, dir, name, false);
    assert dir + [name] == LinkPath(env, app, name) && Look(t, dir) == ADir;
    error := fs.Remove(0, file, 0);
    LinkRemoved(t, w, env, app, name);
  }

  method PutLink(fs: TreeBuilderFS, env: string, app: string, name: string, file: string, version: nat, ghost w: World)
    returns (error: Option<FsError>)
    requires fs.Ok() && Shows(fs.Root(), w) && PlainName(env) && PlainName(app) && IsLinkName(name)
    requires app in EnvOf(w, env).apps && file == PathJoin(LinkPath(env, app, name))
    modifies fs`nodes
    ensures fs.Ok() && error.None?
    ensures Shows(fs.Root(), SetEnvApp(w, env, app, WithLink(EnvAppOf(w, env, app), name, Some(version))))
  {
    ghost var t, dir := fs.Root(), EnvAppPath(env, app);
    ClearEnvApp(t, w, env, app);
    PlainWalk(t, dir, name, false);
    assert dir + [name] == LinkPath(env, app, name) && Look(t, dir) == ADir;
    ReleaseTarget(app, version);
    error := fs.Symlink(0, PathJoin(UP + [ReleasesDirectoryWithVersion(app, version)]), file, 0);
    LinkPut(t, w, env, app, name, version);
  }

  method MakeEnvApp(fs: TreeBuilderFS, env: string, app: string, applicationDir: string, ghost w: World) returns (ghost w1: World)
    requires fs.Ok() && Shows(fs.Root(), w) && PlainName(env) && PlainName(app)
    requires applicationDir == PathJoin(EnvAppPath(env, app))
    modifies fs`nodes
    ensures fs.Ok() && w1 == SetEnvApp(w, env, app, EnvAppOf(w, env, app)) && Shows(fs.Root(), w1)
  {
    ghost var t := fs.Root();
    ClearEnvApp(t, w, env, app);
    PlainDirWalk(t, EnvAppPath(env, app), true);
    var error := fs.MkdirAll(0, applicationDir, 0);
    assert Look(fs.Root(), []) == Look(t, []);
    DirsMade(t, fs.Root(), w, env, app);
    w1 := SetEnvApp(w, env, app, EnvAppOf(w, env, app));
  }

  lemma ReleaseTarget(app: string, version: nat)
    requires PlainName(app)
    ensures PathJoin(UP + [ReleasesDirectoryWithVersion(app, version)]) == Target(app, version)
  {
    ReleaseComponents(app, version);
    UpAndDown(ReleasePath(app, version));
  }

  lemma SetAgain(w: World, env: string, app: string, x: EnvApp, y: EnvApp, z: EnvApp)
    ensures SetEnvApp(SetEnvApp(SetEnvApp(w, env, app, x), env, app, y), env, app, z) == SetEnvApp(w, env, app, z)
  {
    var w2 := SetEnvApp(SetEnvApp(w, env, app, x), env, app, y);
    assert SetEnvApp(w2, env, app, z).envs[env].apps == SetEnvApp(w, env, app, z).envs[env].apps;
    assert SetEnvApp(w2, env, app, z).envs == SetEnvApp(w, env, app, z).envs;
  }

  lemma LinkRemoved(t: Tree, w: World, env: string, app: string, name: string)
    requires Shows(t, w) && app in EnvOf(w, env).apps && IsLinkName(name)
    ensures Shows(Removed(t, EnvAppPath(env, app), name), SetEnvApp(w, env, app, WithLink(EnvAppOf(w, env, app), name, None)))
  {
    var dir, t' := EnvAppPath(env, app), Removed(t, EnvAppPath(env, app), name);
    assert Look(t, dir) == ADir && dir + [name] == LinkPath(env, app, name);
    forall path ensures Look(t', path) == if Under(dir + [name], path) then Nothing else Look(t, path) {
      LookRemoved(t, dir, name, path);
    }
    assert Look(t', []) == Look(t, []);
    LinkChanged(t, t', w, env, app, name, None);
  }

  lemma LinkPut(t: Tree, w: World, env: string, app: string, name: string, version: nat)
    requires Shows(t, w) && app in EnvOf(w, env).apps && IsLinkName(name)
    ensures Shows(Put(t, LinkPath(env, app, name), Link(Target(app, version))),
                  SetEnvApp(w, env, app, WithLink(EnvAppOf(w, env, app), name, Some(version))))
  {
    var dir, x := EnvAppPath(env, app), Link(Target(app, version));
    var t' := Put(t, LinkPath(env, app, name), x);
    assert Look(t, dir) == ADir && dir + [name] == LinkPath(env, app, name);
    forall path ensures Look(t', path) == if Under(dir + [name], path) then Look(x, path[5..]) else Look(t, path) {
      LookPut(t, dir, name, x, path);
    }
    assert Look(t', []) == Look(t, []);
    LinkChanged(t, t', w, env, app, name, Some(version));
  }

  // ---- The transformers ----

  method QueueVersion(fs: TreeBuilderFS, env: string, app: string, version: nat, ghost w: World) returns (error: Option<FsError>)
    requires fs.Ok() && Shows(fs.Root(), w) && PlainName(env) && PlainName(app)
    modifies fs`nodes
    ensures fs.Ok() && error.None? && Shows(fs.Root(), QueueApplicationVersion(w, env, app, version))
  {
    error := SetLink(fs, env, app, QUEUE, version, w);
  }

  /** Deletes the queue link, unless there is none; one that has lost its release is an error. */
  method DeleteQueuedVersionIfExists(fs: TreeBuilderFS, env: string, app: string, ghost w: World) returns (error: Option<Error>)
    requires fs.Ok() && Shows(fs.Root(), w) && PlainName(env) && PlainName(app)
    modifies fs`nodes
    ensures fs.Ok()
    ensures match ReadQueued(w, env, app)
            case Err(e) => error == Some(e) && Shows(fs.Root(), w)
            case Ok(None) => error.None? && Shows(fs.Root(), w)
            case Ok(Some(_)) => error.None? && Shows(fs.Root(), DeleteQueuedVersion(w, env, app))
  {
    var queued := ReadSymlink(fs, env, app, QUEUE, w);
    if queued.Err? {
      return Some(queued.error);
    }
    if queued.value.Some? {
      LinkPathJoined(env, app, QUEUE);
      var failed := RemoveLink(fs, env, app, QUEUE, PathJoin(["environments", env, "applications", app, QUEUE]), w);
    }
    error := None;
  }

  lemma LinkPathJoined(env: string, app: string, name: string)
    ensures ["environments", env, "applications", app, name] == LinkPath(env, app, name)
  {
  }

  /** Whether a deployment gets as far as cleaning up. */
  predicate GetsThrough(w: World, env: string, app: string, version: nat, behavior: LockBehavior) {
    Deployable(w, env, app, version, behavior) && (behavior == Ignore || !IsLocked(w, env, app))
  }

  /**
   The steps of a deployment in the file system, up to the cleanup. They fail as the deployment of the repository does,
   with a tree that shows what it leaves; and where they succeed, only the cleanup is left to do.
   */
  method DeployVersion(fs: TreeBuilderFS, env: string, app: string, version: nat, behavior: LockBehavior, ghost w: World)
    returns (error: Option<Error>)
    requires fs.Ok() && fs.inUse == map[] && Shows(fs.Root(), w) && PlainName(env) && PlainName(app)
    modifies fs`nodes, fs`inUse
    ensures fs.Ok() && fs.inUse == map[]
    ensures var d := DeployApplicationVersion(w, env, app, version, behavior);
            if GetsThrough(w, env, app, version, behavior)
            then
              && error.None? && Shows(fs.Root(), Linked(w, env, app, version))
              && d == CleanupOldApplicationVersions(Linked(w, env, app, version), app)
            else error == d.error && Shows(fs.Root(), d.world)
  {
    error := FindManifest(fs, app, version, env, w);
    if error.Some? {
      return;
    }
    if behavior != Ignore {
      var blocked := IsBlocked(fs, env, app, w);
      if blocked {
        if behavior == Record {
          var failed := QueueVersion(fs, env, app, version, w);
          return None;
        }
        return Some(Locked);
      }
    }
    error := LinkAndUnqueue(fs, env, app, version, w);
    if GetsThrough(w, env, app, version, behavior) {
      DeployIsLinkAndCleanup(w, env, app, version, behavior);
    }
  }

  method LinkAndUnqueue(fs: TreeBuilderFS, env: string, app: string, version: nat, ghost w: World) returns (error: Option<Error>)
    requires fs.Ok() && Shows(fs.Root(), w) && PlainName(env) && PlainName(app)
    modifies fs`nodes
    ensures fs.Ok()
    ensures var linked := SetEnvApp(w, env, app, EnvAppOf(w, env, app).(version := Some(version)));
            if Dangles(w, app, EnvAppOf(w, env, app).queued) then error == Some(NotExist) && Shows(fs.Root(), linked)
            else error.None? && Shows(fs.Root(), Linked(w, env, app, version))
  {
    ghost var x := EnvAppOf(w, env, app);
    ghost var linked := SetEnvApp(w, env, app, x.(version := Some(version)));
    SetEnvAppFrame(w, env, app, x.(version := Some(version)));
    var failed := SetLink(fs, env, app, VERSION, version, w);
    error := DeleteQueuedVersionIfExists(fs, env, app, linked);
    SetTwice(w, env, app, x.(version := Some(version)), x.(version := Some(version), queued := None));
  }

  lemma SetTwice(w: World, env: string, app: string, x: EnvApp, y: EnvApp)
    ensures SetEnvApp(SetEnvApp(w, env, app, x), env, app, y) == SetEnvApp(w, env, app, y)
  {
    assert SetEnvApp(SetEnvApp(w, env, app, x), env, app, y).envs == SetEnvApp(w, env, app, y).envs by {
      assert SetEnvApp(SetEnvApp(w, env, app, x), env, app, y).envs[env].apps == SetEnvApp(w, env, app, y).envs[env].apps;
    }
  }

  ghost function VersionSet(versions: seq<nat>): set<nat> {
    set v | v in versions
  }

  lemma RemoveOneMore(w: World, app: string, versions: set<nat>, v: nat)
    requires v in Releases(w, app) && v !in versions
    ensures var w' := RemoveReleases(w, app, versions);
            && v in Releases(w', app)
            && SetReleases(w', app, Releases(w', app) - {v}) == RemoveReleases(w, app, versions + {v})
  {
    var w' := RemoveReleases(w, app, versions);
    assert Releases(w', app) - {v} == Releases(w, app) - (versions + {v});
    assert SetReleases(w', app, Releases(w', app) - {v}).apps == RemoveReleases(w, app, versions + {v}).apps;
  }

  /** The loop of the cleanup over the versions that it has found to be old. */
  method RemoveVersions(fs: TreeBuilderFS, app: string, versions: seq<nat>, ghost w: World) returns (error: Option<FsError>)
    requires fs.Ok() && Shows(fs.Root(), w) && PlainName(app)
    requires NoDuplicates(versions) && forall i | 0 <= i < |versions| :: versions[i] in Releases(w, app)
    modifies fs`nodes
    ensures fs.Ok() && error.None? && Shows(fs.Root(), RemoveReleases(w, app, VersionSet(versions)))
  {
    error := None;
    assert VersionSet(versions[..0]) == {};
    for i := 0 to |versions|
      invariant fs.Ok() && error.None? && Shows(fs.Root(), RemoveReleases(w, app, VersionSet(versions[..i])))
    {
      assert versions[..i + 1] == versions[..i] + [versions[i]];
      assert VersionSet(versions[..i + 1]) == VersionSet(versions[..i]) + {versions[i]};
      RemoveOneMore(w, app, VersionSet(versions[..i]), versions[i]);
      error := RemoveVersion(fs, app, versions[i], RemoveReleases(w, app, VersionSet(versions[..i])));
    }
    assert versions[..|versions|] == versions;
  }

  method RemoveVersion(fs: TreeBuilderFS, app: string, version: nat, ghost w: World) returns (error: Option<FsError>)
    requires fs.Ok() && Shows(fs.Root(), w) && PlainName(app) && version in Releases(w, app)
    modifies fs`nodes
    ensures fs.Ok() && error.None? && Shows(fs.Root(), SetReleases(w, app, Releases(w, app) - {version}))
  {
    ghost var t, dir := fs.Root(), AppPath(app) + ["releases"];
    ReleaseComponents(app, version);
    DecimalPlain(version);
    ReleaseGone(t, w, app, version);
    ClearReleases(t, w, app);
    assert dir + [Decimal(version)] == ReleasePath(app, version);
    PlainWalk(t, dir, Decimal(version), false);
    assert Look(t, ReleasePath(app, version)) == ADir;
    var directory := ReleasesDirectoryWithVersion(app, version);
    var name;
    name, error := fs.Stat(0, directory, 0);
    if error.Some? {
      return;
    }
    error := fs.Remove(0, directory, 0);
  }
}
