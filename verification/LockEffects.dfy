/** Locking and unlocking an application, an environment and a group: exactly when they succeed, and what they leave. */
module LockEffects {
  import opened Config
  import opened Deployment
  import opened Finite
  import opened LockPairs
  import opened Places

  // ---- Locks ----

  /** An application can be locked in every environment: it has one more lock there, and nothing else changes. */
  lemma LockApplicationEffect(w: World, env: string, app: string, lockId: string)
    ensures var r, x := Transform(w, LockApplication(env, app, lockId)), EnvAppOf(w, env, app);
            if env !in w.envs then r == Err(NotExist)
            else
              && r.Ok? && AnyLock(r.value, env, app) && app in EnvOf(r.value, env).apps
              && EnvAppOf(r.value, env, app) == EnvApp(x.version, x.queued, x.locks + {lockId})
              && SameElsewhere(w, r.value, env, app) && SameFiles(w, r.value) && r.value.apps == w.apps
  {
    var x := EnvAppOf(w, env, app);
    SetEnvAppFrame(w, env, app, x.(locks := x.locks + {lockId}));
    assert lockId in x.locks + {lockId};
  }

  /** An environment has one more lock, which is a lock on all its applications; nothing else changes. */
  lemma LockEnvironmentEffect(w: World, env: string, lockId: string)
    ensures var r := Transform(w, LockEnvironment(env, lockId));
            if env !in w.envs then r == Err(NotExist)
            else
              && r.Ok? && (forall a :: AnyLock(r.value, env, a))
              && SameBut(w, r.value, env) && r.value.apps == w.apps
              && r.value.envs[env] == EnvDir(w.envs[env].config, w.envs[env].locks + {lockId}, w.envs[env].apps)
  {
    assert env in w.envs ==> lockId in w.envs[env].locks + {lockId};
  }

  /** With a configuration that cannot be read, no group is locked or unlocked, and the error does not tell why. */
  lemma BrokenGroups(w: World, group: string, lockId: string)
    requires exists e :: e in w.envs && w.envs[e].config.Undecodable?
    ensures Transform(w, LockGroup(group, lockId)) == Err(InternalError)
    ensures Transform(w, UnlockGroup(group, lockId)) == Err(InternalError)
  {
  }

  lemma MembersAre(w: World, group: string)
    ensures forall e :: e in EnvironmentsOfGroup(AllConfigs(w), group) <==> InGroup(w, e, group)
  {
  }

  /** A group is locked if it has an environment: these all have the lock, and nothing else changes. */
  lemma LockGroupEffect(w: World, group: string, lockId: string)
    requires Decodable(w)
    ensures var r := Transform(w, LockGroup(group, lockId));
            if forall e :: !InGroup(w, e, group) then r == Err(NoSuchGroup)
            else
              && r.Ok? && r.value.apps == w.apps && r.value.envs.Keys == w.envs.Keys
              && forall e | e in w.envs ::
                   r.value.envs[e] == if InGroup(w, e, group)
                                      then EnvDir(w.envs[e].config, w.envs[e].locks + {lockId}, w.envs[e].apps) else w.envs[e]
  {
    MembersAre(w, group);
    GroupLockEffect(w, group, lockId);
    if e :| InGroup(w, e, group) {
      assert e in EnvironmentsOfGroup(AllConfigs(w), group);
    } else {
      assert EnvironmentsOfGroup(AllConfigs(w), group) == {};
    }
  }

  // ---- Unlocking ----

  /** The queue still names its version, unless this is the deployed one; the deployed version stays. */
  predicate KeepsQueued(x: EnvApp, x': EnvApp) {
    && x'.version == x.version
    && (x.queued.None? ==> x'.queued.None?)
    && (x.queued.Some? && x.version == Some(x.queued.value) ==> x'.queued.None?)
    && (x.queued.Some? && x.version != Some(x.queued.value) ==> x'.queued == Some(x.queued.value))
  }

  /** Following the links of this place fails. */
  predicate Unreadable(w: World, env: string, app: string) {
    QueueGone(w, env, app) || (EnvAppOf(w, env, app).queued.Some? && VersionGone(w, env, app))
  }

  /**
   Unlocking an application fails exactly if its links cannot be read. It takes away this lock, and a queue entry for
   the version that is deployed; nothing else changes.
   */
  lemma UnlockApplicationEffect(w: World, env: string, app: string, lockId: string)
    ensures var r, x := Transform(w, UnlockApplication(env, app, lockId)), EnvAppOf(w, env, app);
            if Unreadable(w, env, app) then r == Err(NotExist)
            else
              && r.Ok? && KeepsQueued(x, EnvAppOf(r.value, env, app))
              && EnvAppOf(r.value, env, app).locks == x.locks - {lockId}
              && SameElsewhere(w, r.value, env, app) && SameFiles(w, r.value) && r.value.apps == w.apps
              && EnvOf(r.value, env).apps.Keys == EnvOf(w, env).apps.Keys
  {
    if app in EnvOf(w, env).apps {
      var x := EnvAppOf(w, env, app);
      var unlocked := SetEnvApp(w, env, app, x.(locks := x.locks - {lockId}));
      PlaceChanged(w, env, app, x.(locks := x.locks - {lockId}));
      ProcessedPlace(unlocked, env, app);
    }
  }

  /** A place that is there gets another content. */
  lemma PlaceChanged(w: World, env: string, app: string, x: EnvApp)
    requires app in EnvOf(w, env).apps
    ensures var w' := SetEnvApp(w, env, app, x);
            && EnvAppOf(w', env, app) == x && EnvOf(w', env).apps.Keys == EnvOf(w, env).apps.Keys
            && SameElsewhere(w, w', env, app) && SameFiles(w, w') && w'.apps == w.apps
  {
    SetEnvAppFrame(w, env, app, x);
  }

  lemma ProcessedPlace(w: World, env: string, app: string)
    requires app in EnvOf(w, env).apps
    ensures var r, x := ProcessQueue(w, env, app), EnvAppOf(w, env, app);
            if Unreadable(w, env, app) then r == Err(NotExist)
            else
              && r.Ok? && KeepsQueued(x, EnvAppOf(r.value, env, app)) && EnvAppOf(r.value, env, app).locks == x.locks
              && SameElsewhere(w, r.value, env, app) && SameFiles(w, r.value) && r.value.apps == w.apps
              && EnvOf(r.value, env).apps.Keys == EnvOf(w, env).apps.Keys
  {
    PlaceChanged(w, env, app, EnvAppOf(w, env, app).(queued := None));
  }

  /** What an environment is after it has lost a lock. */
  ghost predicate LockGone(w: World, w': World, env: string, lockId: string) {
    && EnvOf(w', env).config == EnvOf(w, env).config
    && EnvOf(w', env).locks == EnvOf(w, env).locks - {lockId}
    && EnvOf(w', env).apps.Keys == EnvOf(w, env).apps.Keys
    && forall a {:trigger EnvAppOf(w', env, a)} ::
         EnvAppOf(w', env, a).locks == EnvAppOf(w, env, a).locks && KeepsQueued(EnvAppOf(w, env, a), EnvAppOf(w', env, a))
  }

  lemma ReadableIs(w: World, env: string)
    ensures Readable(w, env) <==> forall a :: !Unreadable(w, env, a)
  {
    forall a ensures Unreadable(w, env, a) <==> a in EnvOf(w, env).apps && QueueUnreadable(w, env, a) {}
  }

  lemma UnlockedIs(w: World, w': World, env: string, lockId: string)
    requires env in w.envs && env in w'.envs && w'.envs[env] == Unlocked(w, env, lockId)
    ensures LockGone(w, w', env, lockId)
  {
    forall a ensures EnvAppOf(w', env, a) == ProcessedApp(w, env, a) {}
  }

  /** An environment is unlocked exactly if the links of all its applications can be read. */
  lemma UnlockEnvironmentEffect(w: World, env: string, lockId: string)
    ensures var r := Transform(w, UnlockEnvironment(env, lockId));
            if exists a :: Unreadable(w, env, a) then r == Err(NotExist)
            else r.Ok? && LockGone(w, r.value, env, lockId) && SameBut(w, r.value, env) && r.value.apps == w.apps
  {
    ReadableIs(w, env);
    if env in w.envs {
      UnlockEffect(w, env, lockId);
      if Readable(w, env) {
        UnlockedIs(w, DeleteEnvironmentLock(w, env, lockId).value, env, lockId);
      }
    } else {
      assert forall a :: EnvAppOf(w, env, a) == EnvApp(None, None, {});
    }
  }

  lemma {:induction false} UnlockErrors(w: World, envs: seq<string>, lockId: string)
    ensures DeleteLocks(w, envs, lockId).Err? ==> DeleteLocks(w, envs, lockId).error == NotExist
    decreases |envs|
  {
    if envs != [] && DeleteEnvironmentLock(w, envs[0], lockId).Ok? {
      UnlockErrors(DeleteEnvironmentLock(w, envs[0], lockId).value, envs[1..], lockId);
    }
  }

  /** A group is unlocked exactly if it has an environment, and in all of them the links can be read. */
  lemma UnlockGroupEffect(w: World, group: string, lockId: string)
    requires Decodable(w)
    ensures var r := Transform(w, UnlockGroup(group, lockId));
            && (r.Ok? <==> (exists e :: InGroup(w, e, group)) && forall e, a | InGroup(w, e, group) :: !Unreadable(w, e, a))
            && (r.Err? ==> r.error == if exists e :: InGroup(w, e, group) then NotExist else NoSuchGroup)
            && (r.Ok? ==>
                  && r.value.apps == w.apps && r.value.envs.Keys == w.envs.Keys
                  && forall e | e in w.envs ::
                       if InGroup(w, e, group) then LockGone(w, r.value, e, lockId) else r.value.envs[e] == w.envs[e])
  {
    var members := EnvironmentsOfGroup(AllConfigs(w), group);
    MembersAre(w, group);
    GroupUnlockEffect(w, group, lockId);
    assert members != {} <==> exists e :: InGroup(w, e, group);
    forall e ensures Readable(w, e) <==> forall a :: !Unreadable(w, e, a) {
      ReadableIs(w, e);
    }
    var r := Transform(w, UnlockGroup(group, lockId));
    if members != {} {
      UnlockErrors(w, SortedNames(members), lockId);
    }
    if r.Ok? {
      forall e | InGroup(w, e, group) ensures LockGone(w, r.value, e, lockId) {
        assert e in members;
        UnlockedIs(w, r.value, e, lockId);
      }
    }
  }
}
