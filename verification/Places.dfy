/** What a repository says of its environments and places, read off its fields. */
module Places {
  import opened Config
  import opened Deployment

  /** The configuration file of the environment names an upstream. */
  predicate Names(w: World, env: string, upstream: ConfigUpstream) {
    env in w.envs && w.envs[env].config.Decoded? && w.envs[env].config.config.upstream == Some(upstream)
  }

  /** A train can bring this to the environment: what is latest, or what another environment has, but not both or neither. */
  predicate Follows(w: World, env: string, upstream: ConfigUpstream) {
    Names(w, env, upstream) && if upstream.latest then upstream.environment == "" else upstream.environment != ""
  }

  /** What `target` names: the environments of this group, or else the environment itself. */
  ghost predicate Targeted(w: World, target: string, env: string) {
    InGroup(w, env, target) || ((forall e :: !InGroup(w, e, target)) && env == target && env in w.envs)
  }

  /** The version that a train has for an application: the newest release, or what the other environment has. */
  ghost predicate Offered(w: World, upstream: ConfigUpstream, app: string, v: nat) {
    if upstream.latest then app in w.apps && v == LastRelease(w, app)
    else EnvAppOf(w, upstream.environment, app).version == Some(v)
  }

  /** A train may bring the version to the environment: it is offered, of the right team, and has a manifest. */
  ghost predicate Fits(w: World, env: string, upstream: ConfigUpstream, team: string, app: string, v: nat) {
    && Offered(w, upstream, app, v) && (team == "" || TeamOf(w, app) == team)
    && v in Releases(w, app) && env in Releases(w, app)[v].manifests
  }

  /** New releases go to the environment at once. */
  predicate TakesLatest(w: World, env: string) {
    && env in w.envs && w.envs[env].config.Decoded?
    && w.envs[env].config.config.upstream.Some? && w.envs[env].config.config.upstream.value.latest
  }

  /** The configuration file of the environment puts it into the group. */
  predicate InGroup(w: World, env: string, group: string) {
    env in w.envs && w.envs[env].config.Decoded? && w.envs[env].config.config.group == Some(group)
  }

  /** There is a lock on the environment, or on the application in it. */
  predicate AnyLock(w: World, env: string, app: string) {
    EnvOf(w, env).locks != {} || EnvAppOf(w, env, app).locks != {}
  }

  /** The queue names a release that is gone. */
  predicate QueueGone(w: World, env: string, app: string) {
    var queued := EnvAppOf(w, env, app).queued;
    queued.Some? && queued.value !in Releases(w, app)
  }

  predicate VersionGone(w: World, env: string, app: string) {
    var version := EnvAppOf(w, env, app).version;
    version.Some? && version.value !in Releases(w, app)
  }

  /** Environments, configurations and environment locks are as before. */
  ghost predicate SameFiles(w: World, w': World) {
    && w'.envs.Keys == w.envs.Keys
    && forall e :: EnvOf(w', e).config == EnvOf(w, e).config && EnvOf(w', e).locks == EnvOf(w, e).locks
  }

  /** All places but one are as before. */
  ghost predicate SameElsewhere(w: World, w': World, env: string, app: string) {
    forall e, a {:trigger EnvAppOf(w', e, a)} {:trigger a in EnvOf(w', e).apps} | e != env || a != app ::
      EnvAppOf(w', e, a) == EnvAppOf(w, e, a) && (a in EnvOf(w', e).apps <==> a in EnvOf(w, e).apps)
  }

  /** All environments but some are as before, with everything in them. */
  ghost predicate SameBut(w: World, w': World, env: string) {
    w'.envs.Keys == w.envs.Keys && forall e | e in w.envs && e != env :: w'.envs[e] == w.envs[e]
  }
}
