/**
 The manifest repository and its transformers, as functions on values: what each transformer leaves behind.
 The class in Transformers.dfy performs the same steps in place and is proved against these functions.
 */
module Deployment {
  import opened Config
  import opened Finite
  import Rbac

  /** A release: its undeploy flag, and the environments it has a manifest for. */
  datatype Release = Release(undeploy: bool, manifests: set<string>)

  /** `applications/<app>`; `team` is empty when there is no team file. */
  datatype AppDir = AppDir(team: string, releases: map<nat, Release>)

  /** `environments/<env>/applications/<app>`: the two links name a release of the same application. */
  datatype EnvApp = EnvApp(version: Option<nat>, queued: Option<nat>, locks: set<string>)

  datatype ConfigFile = Missing | Undecodable | Decoded(config: EnvironmentConfig)

  /** `environments/<env>` */
  datatype EnvDir = EnvDir(config: ConfigFile, locks: set<string>, apps: map<string, EnvApp>)

  datatype World = World(apps: map<string, AppDir>, envs: map<string, EnvDir>)

  datatype Error =
    | NotExist
    | Locked
    | ReleaseAlreadyExists
    | ReleaseTooOld
    | InvalidApplicationName
    | InvalidJson
    | NothingToUndeploy
    | LastReleaseNotUndeploy
    | NotUndeployed
    | MissingArgument
    | NoSuchEnvironment
    | NoSuchGroup
    | InternalError

  datatype Result<+T> = Ok(value: T) | Err(error: Error)

  /** A transformer that may fail half-way: what it left behind, and the error if there was one. */
  datatype Attempt = Attempt(world: World, error: Option<Error>)

  datatype LockBehavior = Record | Fail | Ignore

  /** Number of old releases kept besides the deployed ones. */
  const KEPT_VERSIONS_ON_CLEANUP := 20

  // ---- Readers ----

  function Releases(w: World, app: string): map<nat, Release> {
    if app in w.apps then w.apps[app].releases else map[]
  }

  function EnvOf(w: World, env: string): EnvDir {
    if env in w.envs then w.envs[env] else EnvDir(Missing, {}, map[])
  }

  function EnvAppOf(w: World, env: string, app: string): EnvApp {
    if app in EnvOf(w, env).apps then EnvOf(w, env).apps[app] else EnvApp(None, None, {})
  }

  function TeamOf(w: World, app: string): string {
    if app in w.apps then w.apps[app].team else ""
  }

  /** A link that names no release of its application. */
  predicate Dangles(w: World, app: string, link: Option<nat>) {
    link.Some? && link.value !in Releases(w, app)
  }

  /** Following a link: it is an error if its target is missing, but not if there is no link. */
  function ReadLink(w: World, app: string, link: Option<nat>): Result<Option<nat>> {
    if Dangles(w, app, link) then Err(NotExist) else Ok(link)
  }

  function ReadVersion(w: World, env: string, app: string): Result<Option<nat>> {
    ReadLink(w, app, EnvAppOf(w, env, app).version)
  }

  function ReadQueued(w: World, env: string, app: string): Result<Option<nat>> {
    ReadLink(w, app, EnvAppOf(w, env, app).queued)
  }

  predicate IsLocked(w: World, env: string, app: string) {
    EnvOf(w, env).locks != {} || EnvAppOf(w, env, app).locks != {}
  }

  predicate HasManifest(w: World, app: string, version: nat, env: string) {
    version in Releases(w, app) && env in Releases(w, app)[version].manifests
  }

  /** No configuration file is broken. */
  ghost predicate Decodable(w: World) {
    forall e | e in w.envs :: !w.envs[e].config.Undecodable?
  }

  function ConfigOf(file: ConfigFile): EnvironmentConfig {
    match file
    case Decoded(config) => config
    case _ => EnvironmentConfig(None, None)
  }

  /** Every environment directory counts, with an empty configuration if it has none. */
  function AllConfigs(w: World): map<string, EnvironmentConfig> {
    map e | e in w.envs :: ConfigOf(w.envs[e].config)
  }

  ghost function GetEnvironmentConfigs(w: World): Result<map<string, EnvironmentConfig>> {
    if Decodable(w) then Ok(AllConfigs(w)) else Err(InvalidJson)
  }

  /** The newest release, or 0. */
  ghost function LastRelease(w: World, app: string): nat {
    Greatest(Releases(w, app).Keys)
  }

  // ---- Single changes ----

  function SetEnvApp(w: World, env: string, app: string, x: EnvApp): World {
    w.(envs := w.envs[env := EnvOf(w, env).(apps := EnvOf(w, env).apps[app := x])])
  }

  function SetReleases(w: World, app: string, releases: map<nat, Release>): World {
    w.(apps := w.apps[app := AppDir(TeamOf(w, app), releases)])
  }

  /** A change at one (environment, application) is seen there and nowhere else. */
  lemma SetEnvAppFrame(w: World, env: string, app: string, x: EnvApp)
    ensures var w' := SetEnvApp(w, env, app, x);
            && w'.apps == w.apps
            && EnvAppOf(w', env, app) == x
            && (forall e, a | e != env || a != app :: EnvAppOf(w', e, a) == EnvAppOf(w, e, a))
            && (forall e :: EnvOf(w', e).locks == EnvOf(w, e).locks && EnvOf(w', e).config == EnvOf(w, e).config)
            && w'.envs.Keys == w.envs.Keys + {env}
            && (Decodable(w) ==> Decodable(w'))
  {
  }

  // ---- Cleanup ----

  /** The versions deployed anywhere. */
  ghost function Deployed(w: World, app: string): set<nat> {
    set e | e in w.envs && EnvAppOf(w, e, app).version.Some? :: EnvAppOf(w, e, app).version.value
  }

  ghost function OldestDeployed(w: World, app: string): nat
    requires Releases(w, app) != map[]
  {
    Least(Deployed(w, app) + {LastRelease(w, app)})
  }

  /** The releases between `v` and the oldest deployed one, both excluded. */
  ghost function Between(w: World, app: string, v: nat): set<nat>
    requires Releases(w, app) != map[]
  {
    set u | u in Releases(w, app) && v < u < OldestDeployed(w, app)
  }

  /** Releases older than everything deployed, beyond the 19 newest of these. */
  ghost function OldVersions(w: World, app: string): set<nat> {
    if Releases(w, app) == map[] then {}
    else set v | v in Releases(w, app) && v < OldestDeployed(w, app) && |Between(w, app, v)| >= KEPT_VERSIONS_ON_CLEANUP - 1
  }

  /** A version link of some environment has lost its release. */
  ghost predicate VersionDangles(w: World, app: string) {
    exists e :: e in w.envs && Dangles(w, app, EnvAppOf(w, e, app).version)
  }

  ghost function FindOldApplicationVersions(w: World, app: string): Result<set<nat>> {
    if !Decodable(w) then Err(InvalidJson)
    else if Releases(w, app) == map[] then Ok({})
    else if VersionDangles(w, app) then Err(NotExist)
    else Ok(OldVersions(w, app))
  }

  ghost function RemoveReleases(w: World, app: string, versions: set<nat>): World {
    if versions == {} then w else SetReleases(w, app, Releases(w, app) - versions)
  }

  ghost function CleanupOldApplicationVersions(w: World, app: string): Attempt {
    match FindOldApplicationVersions(w, app)
    case Err(e) => Attempt(w, Some(e))
    case Ok(versions) => Attempt(RemoveReleases(w, app, versions), None)
  }

  // ---- Queue and deploy ----

  function QueueApplicationVersion(w: World, env: string, app: string, version: nat): World {
    SetEnvApp(w, env, app, EnvAppOf(w, env, app).(queued := Some(version)))
  }

  function DeleteQueuedVersion(w: World, env: string, app: string): World {
    SetEnvApp(w, env, app, EnvAppOf(w, env, app).(queued := None))
  }

  ghost function DeployApplicationVersion(w: World, env: string, app: string, version: nat, behavior: LockBehavior): Attempt {
    if !HasManifest(w, app, version, env) then Attempt(w, Some(NotExist))
    else if behavior != Ignore && IsLocked(w, env, app) then
      if behavior == Record then Attempt(QueueApplicationVersion(w, env, app, version), None)
      else Attempt(w, Some(Locked))
    else
      var linked := SetEnvApp(w, env, app, EnvAppOf(w, env, app).(version := Some(version)));
      match ReadQueued(linked, env, app)
      case Err(e) => Attempt(linked, Some(e))
      case Ok(None) => CleanupOldApplicationVersions(linked, app)
      case Ok(Some(_)) => CleanupOldApplicationVersions(DeleteQueuedVersion(linked, env, app), app)
  }

  // ---- Releases ----

  ghost function CalculateVersion(w: World, app: string, version: nat): Result<nat> {
    if version == 0 then Ok(LastRelease(w, app) + 1)
    else if version in Releases(w, app) then Err(ReleaseAlreadyExists)
    else Ok(version)
  }

  function AddRelease(w: World, app: string, version: nat, undeploy: bool, team: string): World {
    w.(apps := w.apps[app := AppDir(if team != "" then team else TeamOf(w, app),
                                    Releases(w, app)[version := Release(undeploy, {})])])
  }

  function AddManifest(w: World, app: string, version: nat, env: string): World
    requires version in Releases(w, app)
  {
    var r := Releases(w, app)[version];
    SetReleases(w, app, Releases(w, app)[version := r.(manifests := r.manifests + {env})])
  }

  predicate UpstreamIsLatest(configs: map<string, EnvironmentConfig>, env: string) {
    env in configs && configs[env].upstream.Some? && configs[env].upstream.value.latest
  }

  ghost predicate IsLatest(w: World, app: string, version: nat) {
    forall r | r in Releases(w, app) :: r <= version
  }

  /**
   Writes the manifests one environment after the other, and deploys right away where the upstream is latest.
   `order` is the order in which the map iteration yields the environments.
   */
  ghost function WriteManifests(w: World, configs: map<string, EnvironmentConfig>, app: string, version: nat,
                                deploy: bool, order: seq<string>): Result<World>
    decreases |order|
  {
    if order == [] then Ok(w)
    else if version !in Releases(w, app) then Err(InternalError)
    else
      var env := order[0];
      var written := AddManifest(w, app, version, env);
      if deploy && UpstreamIsLatest(configs, env) then
        var attempt := DeployApplicationVersion(written, env, app, version, Record);
        match attempt.error
        case Some(Locked) => WriteManifests(attempt.world, configs, app, version, deploy, order[1..])
        case Some(e) => Err(e)
        case None => WriteManifests(attempt.world, configs, app, version, deploy, order[1..])
      else WriteManifests(written, configs, app, version, deploy, order[1..])
  }

  ghost function CreateApplicationVersion(w: World, app: string, version: nat, team: string, order: seq<string>): Result<World> {
    match CalculateVersion(w, app, version)
    case Err(e) => Err(e)
    case Ok(v) =>
      if !Rbac.ValidApplicationName(app) then Err(InvalidApplicationName)
      else
        var added := AddRelease(w, app, v, false, team);
        match GetEnvironmentConfigs(added)
        case Err(e) => Err(e)
        case Ok(configs) =>
          if IsLatest(added, app, v) then WriteManifests(added, configs, app, v, true, order)
          else
            match FindOldApplicationVersions(added, app)
            case Err(e) => Err(e)
            case Ok(versions) =>
              if v in versions then Err(ReleaseTooOld)
              else WriteManifests(added, configs, app, v, false, order)
  }

  ghost function CreateUndeployApplicationVersion(w: World, app: string, order: seq<string>): Result<World> {
    var last := LastRelease(w, app);
    if last == 0 then Err(NothingToUndeploy)
    else
      var added := AddRelease(w, app, last + 1, true, "");
      match GetEnvironmentConfigs(added)
      case Err(e) => Err(e)
      case Ok(configs) => WriteManifests(added, configs, app, last + 1, true, order)
  }

  // ---- Undeploy ----

  /** What the checks of UndeployApplication look at in one environment. */
  predicate UndeployedIn(w: World, env: string, app: string) {
    match EnvAppOf(w, env, app).version
    case None => true
    case Some(v) => v in Releases(w, app) && Releases(w, app)[v].undeploy
  }

  /** The environments it goes through; an undecodable configuration makes it go through none. */
  ghost function UndeployTargets(w: World): set<string> {
    if Decodable(w) then w.envs.Keys else {}
  }

  function WithoutApp(dir: EnvDir, app: string): EnvDir {
    dir.(apps := dir.apps - {app})
  }

  ghost function UndeployApplication(w: World, app: string): Result<World> {
    var last := LastRelease(w, app);
    if last == 0 then Err(NothingToUndeploy)
    else if !Releases(w, app)[last].undeploy then Err(LastReleaseNotUndeploy)
    else if exists e :: e in UndeployTargets(w) && !UndeployedIn(w, e, app) then Err(NotUndeployed)
    else Ok(World(w.apps - {app},
                  map e | e in w.envs :: if e in UndeployTargets(w) then WithoutApp(w.envs[e], app) else w.envs[e]))
  }

  function DeleteEnvFromApp(w: World, env: string, app: string): Result<World> {
    if app == "" || env == "" then Err(MissingArgument)
    else if app in EnvOf(w, env).apps then Ok(w.(envs := w.envs[env := WithoutApp(w.envs[env], app)]))
    else Ok(w)
  }

  // ---- Locks ----

  function SetEnvLocks(w: World, env: string, locks: set<string>): World {
    w.(envs := w.envs[env := EnvOf(w, env).(locks := locks)])
  }

  function CreateEnvironmentLock(w: World, env: string, lockId: string): Result<World> {
    if env !in w.envs then Err(NotExist)
    else Ok(SetEnvLocks(w, env, EnvOf(w, env).locks + {lockId}))
  }

  function CreateEnvironmentApplicationLock(w: World, env: string, app: string, lockId: string): Result<World> {
    if env !in w.envs then Err(NotExist)
    else
      var x := EnvAppOf(w, env, app);
      Ok(SetEnvApp(w, env, app, x.(locks := x.locks + {lockId})))
  }

  /** A queue entry for the deployed version is outdated. */
  predicate QueueOutdated(w: World, env: string, app: string) {
    EnvAppOf(w, env, app).queued.Some? && EnvAppOf(w, env, app).queued == EnvAppOf(w, env, app).version
  }

  /** Reading the queue of this application fails. */
  predicate QueueUnreadable(w: World, env: string, app: string) {
    var x := EnvAppOf(w, env, app);
    Dangles(w, app, x.queued) || (x.queued.Some? && Dangles(w, app, x.version))
  }

  function ProcessQueue(w: World, env: string, app: string): Result<World> {
    if QueueUnreadable(w, env, app) then Err(NotExist)
    else if QueueOutdated(w, env, app) then Ok(DeleteQueuedVersion(w, env, app))
    else Ok(w)
  }

  function ProcessedApp(w: World, env: string, app: string): EnvApp {
    if QueueOutdated(w, env, app) then EnvAppOf(w, env, app).(queued := None) else EnvAppOf(w, env, app)
  }

  /** Processes the queues of all applications of an environment. */
  ghost function ProcessQueues(w: World, env: string): Result<World> {
    if exists a :: a in EnvOf(w, env).apps && QueueUnreadable(w, env, a) then Err(NotExist)
    else if env !in w.envs then Ok(w)
    else Ok(w.(envs := w.envs[env := w.envs[env].(apps := map a | a in w.envs[env].apps :: ProcessedApp(w, env, a))]))
  }

  ghost function DeleteEnvironmentLock(w: World, env: string, lockId: string): Result<World> {
    ProcessQueues(if env in w.envs then SetEnvLocks(w, env, w.envs[env].locks - {lockId}) else w, env)
  }

  function DeleteEnvironmentApplicationLock(w: World, env: string, app: string, lockId: string): Result<World> {
    var x := EnvAppOf(w, env, app);
    ProcessQueue(if app in EnvOf(w, env).apps then SetEnvApp(w, env, app, x.(locks := x.locks - {lockId})) else w, env, app)
  }

  ghost function EnvironmentsOfGroup(configs: map<string, EnvironmentConfig>, group: string): set<string> {
    set e | e in configs && configs[e].group == Some(group)
  }

  ghost function CreateLocks(w: World, envs: seq<string>, lockId: string): Result<World>
    decreases |envs|
  {
    if envs == [] then Ok(w)
    else
      match CreateEnvironmentLock(w, envs[0], lockId)
      case Err(e) => Err(e)
      case Ok(w') => CreateLocks(w', envs[1..], lockId)
  }

  ghost function DeleteLocks(w: World, envs: seq<string>, lockId: string): Result<World>
    decreases |envs|
  {
    if envs == [] then Ok(w)
    else
      match DeleteEnvironmentLock(w, envs[0], lockId)
      case Err(e) => Err(e)
      case Ok(w') => DeleteLocks(w', envs[1..], lockId)
  }

  /** The error for a broken configuration does not tell its cause here. */
  ghost function GroupMembers(w: World, group: string): Result<seq<string>> {
    match GetEnvironmentConfigs(w)
    case Err(_) => Err(InternalError)
    case Ok(configs) =>
      if EnvironmentsOfGroup(configs, group) == {} then Err(NoSuchGroup)
      else Ok(SortedNames(EnvironmentsOfGroup(configs, group)))
  }

  ghost function CreateEnvironmentGroupLock(w: World, group: string, lockId: string): Result<World> {
    match GroupMembers(w, group)
    case Err(e) => Err(e)
    case Ok(members) => CreateLocks(w, members, lockId)
  }

  ghost function DeleteEnvironmentGroupLock(w: World, group: string, lockId: string): Result<World> {
    match GroupMembers(w, group)
    case Err(e) => Err(e)
    case Ok(members) => DeleteLocks(w, members, lockId)
  }

  /** `overwrite` tells whether writing to a configuration file that is already there replaces its content. */
  function CreateEnvironment(w: World, env: string, config: EnvironmentConfig, overwrite: bool): World {
    var dir := EnvOf(w, env);
    w.(envs := w.envs[env := if dir.config.Missing? || overwrite then dir.(config := Decoded(config)) else dir])
  }

  // ---- Release train ----

  /** The environments of the group `target`, or else the environment `target`. */
  function TrainTargets(configs: map<string, EnvironmentConfig>, target: string): set<string> {
    var members := set e | e in configs && configs[e].group == Some(target);
    if members != {} then members else if target in configs then {target} else {}
  }

  /** The version an application is to get: the newest release, or what the upstream environment has. */
  ghost function TrainVersion(w: World, upstream: ConfigUpstream, app: string): Result<Option<nat>> {
    if upstream.latest then Ok(Some(LastRelease(w, app)))
    else ReadVersion(w, upstream.environment, app)
  }

  /** Brings one application to its version; errors about missing files are ignored, with what was done until then. */
  ghost function TrainApp(w: World, env: string, upstream: ConfigUpstream, team: string, app: string): Result<World> {
    if team != "" && TeamOf(w, app) != team then Ok(w)
    else
      match ReadVersion(w, env, app)
      case Err(_) => Err(InternalError)
      case Ok(current) =>
        match TrainVersion(w, upstream, app)
        case Err(_) => Err(InternalError)
        case Ok(None) => Ok(w)
        case Ok(Some(v)) =>
          if current == Some(v) then Ok(w)
          else
            var attempt := DeployApplicationVersion(w, env, app, v, Record);
            match attempt.error
            case None => Ok(attempt.world)
            case Some(Locked) => Ok(attempt.world)
            case Some(NotExist) => Ok(attempt.world)
            case Some(_) => Err(InternalError)
  }

  ghost function TrainApps(w: World, env: string, upstream: ConfigUpstream, team: string, apps: seq<string>): Result<World>
    decreases |apps|
  {
    if apps == [] then Ok(w)
    else
      match TrainApp(w, env, upstream, team, apps[0])
      case Err(e) => Err(e)
      case Ok(w') => TrainApps(w', env, upstream, team, apps[1..])
  }

  /** An upstream with exactly one of the two kinds configured. */
  predicate UsableUpstream(upstream: Option<ConfigUpstream>) {
    upstream.Some? && (upstream.value.latest <==> upstream.value.environment == "")
  }

  ghost function TrainSource(w: World, upstream: ConfigUpstream): set<string> {
    if upstream.latest then w.apps.Keys else EnvOf(w, upstream.environment).apps.Keys
  }

  /** The environments one after the other; a missing upstream environment ends the train without an error. */
  ghost function TrainEnvs(w: World, configs: map<string, EnvironmentConfig>, team: string, envs: seq<string>): Result<World>
    requires forall e | e in envs :: e in configs
    decreases |envs|
  {
    if envs == [] then Ok(w)
    else
      var env := envs[0];
      if !UsableUpstream(configs[env].upstream) then TrainEnvs(w, configs, team, envs[1..])
      else
        var upstream := configs[env].upstream.value;
        if !upstream.latest && upstream.environment !in configs then Ok(w)
        else if EnvOf(w, env).locks != {} then TrainEnvs(w, configs, team, envs[1..])
        else
          match TrainApps(w, env, upstream, team, SortedNames(TrainSource(w, upstream)))
          case Err(e) => Err(e)
          case Ok(w') => TrainEnvs(w', configs, team, envs[1..])
  }

  ghost function ReleaseTrain(w: World, target: string, team: string): Result<World> {
    match GetEnvironmentConfigs(w)
    case Err(_) => Err(InternalError)
    case Ok(configs) =>
      if TrainTargets(configs, target) == {} then Err(NoSuchEnvironment)
      else TrainEnvs(w, configs, team, SortedNames(TrainTargets(configs, target)))
  }

  // ---- Batches ----

  /**
   The `team` of a new release is what the team file holds after it has been written, and empty if it is not written.
   `order` is the order in which a map yields its keys.
   */
  datatype Transformer =
    | CreateVersion(app: string, version: nat, team: string, order: seq<string>)
    | CreateUndeploy(app: string, order: seq<string>)
    | Undeploy(app: string)
    | DeleteEnv(env: string, app: string)
    | Cleanup(app: string)
    | LockEnvironment(env: string, lockId: string)
    | UnlockEnvironment(env: string, lockId: string)
    | LockGroup(group: string, lockId: string)
    | UnlockGroup(group: string, lockId: string)
    | LockApplication(env: string, app: string, lockId: string)
    | UnlockApplication(env: string, app: string, lockId: string)
    | NewEnvironment(env: string, config: EnvironmentConfig, overwrite: bool)
    | Queue(env: string, app: string, version: nat)
    | Deploy(env: string, app: string, version: nat, behavior: LockBehavior)
    | Train(target: string, team: string)

  ghost function Whole(attempt: Attempt): Result<World> {
    match attempt.error
    case None => Ok(attempt.world)
    case Some(e) => Err(e)
  }

  ghost function Transform(w: World, t: Transformer): Result<World> {
    match t
    case CreateVersion(app, version, team, order) => CreateApplicationVersion(w, app, version, team, order)
    case CreateUndeploy(app, order) => CreateUndeployApplicationVersion(w, app, order)
    case Undeploy(app) => UndeployApplication(w, app)
    case DeleteEnv(env, app) => DeleteEnvFromApp(w, env, app)
    case Cleanup(app) => Whole(CleanupOldApplicationVersions(w, app))
    case LockEnvironment(env, lockId) => CreateEnvironmentLock(w, env, lockId)
    case UnlockEnvironment(env, lockId) => DeleteEnvironmentLock(w, env, lockId)
    case LockGroup(group, lockId) => CreateEnvironmentGroupLock(w, group, lockId)
    case UnlockGroup(group, lockId) => DeleteEnvironmentGroupLock(w, group, lockId)
    case LockApplication(env, app, lockId) => CreateEnvironmentApplicationLock(w, env, app, lockId)
    case UnlockApplication(env, app, lockId) => DeleteEnvironmentApplicationLock(w, env, app, lockId)
    case NewEnvironment(env, config, overwrite) => Ok(CreateEnvironment(w, env, config, overwrite))
    case Queue(env, app, version) => Ok(QueueApplicationVersion(w, env, app, version))
    case Deploy(env, app, version, behavior) => Whole(DeployApplicationVersion(w, env, app, version, behavior))
    case Train(target, team) => ReleaseTrain(w, target, team)
  }

  /** All transformers of one request, or nothing. */
  ghost function ApplyInternal(w: World, batch: seq<Transformer>): Result<World>
    decreases |batch|
  {
    if batch == [] then Ok(w)
    else
      match Transform(w, batch[0])
      case Err(e) => Err(e)
      case Ok(w') => ApplyInternal(w', batch[1..])
  }

  /** Whether the process sends metrics after each request. */
  const METRICS: bool

  /**
   The tree a commit gets: the metrics and the rendering after the transformers need every configuration to be
   readable. The error from the metrics tells its cause, the one from the rendering does not.
   */
  ghost function ApplyTransformers(w: World, batch: seq<Transformer>): Result<World> {
    match ApplyInternal(w, batch)
    case Err(e) => Err(e)
    case Ok(w') => if Decodable(w') then Ok(w') else Err(if METRICS then InvalidJson else InternalError)
  }
}
