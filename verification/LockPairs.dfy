/** Locking and unlocking as inverses, and locks on whole environment groups. */
module LockPairs {
  import opened Config
  import opened Deployment
  import opened Finite

  /** Taking back a new lock only processes the queues. */
  lemma LockThenUnlock(w: World, env: string, lockId: string)
    requires env in w.envs && lockId !in EnvOf(w, env).locks
    ensures CreateEnvironmentLock(w, env, lockId).Ok?
    ensures DeleteEnvironmentLock(CreateEnvironmentLock(w, env, lockId).value, env, lockId) == ProcessQueues(w, env)
  {
    var locked := CreateEnvironmentLock(w, env, lockId).value;
    var dir := w.envs[env];
    assert dir.locks + {lockId} - {lockId} == dir.locks;
    assert locked.envs[env := dir] == w.envs;
    assert SetEnvLocks(locked, env, locked.envs[env].locks - {lockId}) == w;
  }

  /** The same for one application; a directory that was made for the lock stays. */
  lemma LockThenUnlockApplication(w: World, env: string, app: string, lockId: string)
    requires env in w.envs && lockId !in EnvAppOf(w, env, app).locks
    ensures CreateEnvironmentApplicationLock(w, env, app, lockId).Ok?
    ensures DeleteEnvironmentApplicationLock(CreateEnvironmentApplicationLock(w, env, app, lockId).value, env, app, lockId) ==
            ProcessQueue(SetEnvApp(w, env, app, EnvAppOf(w, env, app)), env, app)
  {
    var locked := CreateEnvironmentApplicationLock(w, env, app, lockId).value;
    var x := EnvAppOf(w, env, app);
    var dir := w.envs[env];
    assert x.locks + {lockId} - {lockId} == x.locks;
    assert dir.apps[app := x.(locks := x.locks + {lockId})][app := x] == dir.apps[app := x];
    assert locked.envs[env := dir.(apps := dir.apps[app := x])] == w.envs[env := dir.(apps := dir.apps[app := x])];
  }

  /** Locks in the order of a list: each environment of it gets the lock, the others stay as they are. */
  lemma {:induction false} CreateLocksEffect(w: World, envs: seq<string>, lockId: string)
    requires forall e | e in envs :: e in w.envs
    ensures CreateLocks(w, envs, lockId).Ok?
    ensures var w' := CreateLocks(w, envs, lockId).value;
            && w'.apps == w.apps && w'.envs.Keys == w.envs.Keys
            && forall e | e in w.envs :: w'.envs[e] == if e in envs then w.envs[e].(locks := w.envs[e].locks + {lockId}) else w.envs[e]
    decreases |envs|
  {
    if envs != [] {
      var next := CreateEnvironmentLock(w, envs[0], lockId).value;
      assert forall e | e in envs[1..] :: e in envs;
      CreateLocksEffect(next, envs[1..], lockId);
      assert envs == [envs[0]] + envs[1..];
      assert forall locks: set<string> {:trigger locks + {lockId}} :: locks + {lockId} + {lockId} == locks + {lockId};
    }
  }

  /** A group is locked exactly if it has an environment: then these all have the lock, and nothing else changes. */
  lemma GroupLockEffect(w: World, group: string, lockId: string)
    requires Decodable(w)
    ensures CreateEnvironmentGroupLock(w, group, lockId).Ok? <==> EnvironmentsOfGroup(AllConfigs(w), group) != {}
    ensures CreateEnvironmentGroupLock(w, group, lockId).Ok? ==>
              var w' := CreateEnvironmentGroupLock(w, group, lockId).value;
              && w'.apps == w.apps && w'.envs.Keys == w.envs.Keys
              && forall e | e in w.envs ::
                   w'.envs[e] == if ConfigOf(w.envs[e].config).group == Some(group)
                                 then w.envs[e].(locks := w.envs[e].locks + {lockId}) else w.envs[e]
  {
    var members := EnvironmentsOfGroup(AllConfigs(w), group);
    if members != {} {
      var names := SortedNames(members);
      assert forall e :: e in names <==> e in members;
      CreateLocksEffect(w, names, lockId);
    }
  }

  /** What unlocking does to one environment when its queues can be read. */
  function Unlocked(w: World, env: string, lockId: string): EnvDir
    requires env in w.envs
  {
    var dir := w.envs[env];
    dir.(locks := dir.locks - {lockId}, apps := map a | a in dir.apps :: ProcessedApp(w, env, a))
  }

  ghost predicate Readable(w: World, env: string) {
    forall a | a in EnvOf(w, env).apps :: !QueueUnreadable(w, env, a)
  }

  lemma UnlockEffect(w: World, env: string, lockId: string)
    requires env in w.envs
    ensures DeleteEnvironmentLock(w, env, lockId) ==
            if Readable(w, env) then Ok(w.(envs := w.envs[env := Unlocked(w, env, lockId)])) else Err(NotExist)
  {
    var dir := w.envs[env];
    var w1 := SetEnvLocks(w, env, dir.locks - {lockId});
    forall a ensures EnvAppOf(w1, env, a) == EnvAppOf(w, env, a) {}
    forall a ensures QueueUnreadable(w1, env, a) <==> QueueUnreadable(w, env, a) {}
    if Readable(w, env) {
      assert (map a | a in w1.envs[env].apps :: ProcessedApp(w1, env, a)) == map a | a in dir.apps :: ProcessedApp(w, env, a);
      var last := w1.envs[env].(apps := map a | a in dir.apps :: ProcessedApp(w, env, a));
      assert last == Unlocked(w, env, lockId);
      assert w1.envs[env := last] == w.envs[env := last];
    }
  }

  /** Unlocking does not depend on other environments. */
  lemma UnlockedElsewhere(w: World, w': World, e: string, lockId: string)
    requires e in w.envs && e in w'.envs && w'.envs[e] == w.envs[e] && w'.apps == w.apps
    ensures Unlocked(w', e, lockId) == Unlocked(w, e, lockId)
    ensures Readable(w', e) <==> Readable(w, e)
  {
    forall a ensures ProcessedApp(w', e, a) == ProcessedApp(w, e, a) && (QueueUnreadable(w', e, a) <==> QueueUnreadable(w, e, a)) {}
  }

  /** The environments that are left are as before after the first one has lost the lock. */
  lemma UnlockFirst(w: World, env: string, lockId: string)
    requires env in w.envs && Readable(w, env)
    ensures DeleteEnvironmentLock(w, env, lockId).Ok?
    ensures var next := DeleteEnvironmentLock(w, env, lockId).value;
            && next.apps == w.apps && next.envs.Keys == w.envs.Keys && next.envs[env] == Unlocked(w, env, lockId)
            && forall e | e in w.envs && e != env ::
                 && next.envs[e] == w.envs[e]
                 && Unlocked(next, e, lockId) == Unlocked(w, e, lockId) && (Readable(next, e) <==> Readable(w, e))
  {
    UnlockEffect(w, env, lockId);
    var next := DeleteEnvironmentLock(w, env, lockId).value;
    forall e | e in w.envs && e != env
      ensures Unlocked(next, e, lockId) == Unlocked(w, e, lockId) && (Readable(next, e) <==> Readable(w, e))
    {
      UnlockedElsewhere(w, next, e, lockId);
    }
  }

  /** One environment after the other: each loses the lock, if the queues of all of them can be read. */
  lemma {:induction false} DeleteLocksEffect(w: World, envs: seq<string>, lockId: string)
    requires forall e | e in envs :: e in w.envs
    requires forall i, j | 0 <= i < j < |envs| :: envs[i] != envs[j]
    ensures DeleteLocks(w, envs, lockId).Ok? <==> forall e | e in envs :: Readable(w, e)
    ensures DeleteLocks(w, envs, lockId).Ok? ==>
              var w' := DeleteLocks(w, envs, lockId).value;
              && w'.apps == w.apps && w'.envs.Keys == w.envs.Keys
              && forall e | e in w.envs :: w'.envs[e] == if e in envs then Unlocked(w, e, lockId) else w.envs[e]
    decreases |envs|
  {
    if envs != [] {
      var env, rest := envs[0], envs[1..];
      UnlockEffect(w, env, lockId);
      assert envs == [env] + rest && env !in rest;
      if Readable(w, env) {
        UnlockFirst(w, env, lockId);
        DeleteLocksEffect(DeleteEnvironmentLock(w, env, lockId).value, rest, lockId);
      }
    }
  }

  /** A group is unlocked if it has an environment and all queues of its environments can be read; nothing else changes. */
  lemma GroupUnlockEffect(w: World, group: string, lockId: string)
    requires Decodable(w)
    ensures var members := EnvironmentsOfGroup(AllConfigs(w), group);
            var r := DeleteEnvironmentGroupLock(w, group, lockId);
            && (r.Ok? <==> members != {} && forall e | e in members :: Readable(w, e))
            && (r.Ok? ==>
                  && r.value.apps == w.apps && r.value.envs.Keys == w.envs.Keys
                  && forall e | e in w.envs :: r.value.envs[e] == if e in members then Unlocked(w, e, lockId) else w.envs[e])
  {
    var members := EnvironmentsOfGroup(AllConfigs(w), group);
    if members != {} {
      var names := SortedNames(members);
      assert forall e :: e in names <==> e in members;
      NameOrder(names);
      forall i, j | 0 <= i < j < |names| ensures names[i] != names[j] {
        assert ByName(names[i], names[j]);
      }
      DeleteLocksEffect(w, names, lockId);
    }
  }
}
