/** Release trains to whole environment groups: how far they get, and what they do on the way. */
module GroupTrains {
  import opened Config
  import opened Deployment
  import opened Finite
  import opened Invariants
  import opened Locking
  import opened Places
  import opened Trains

  type Configs = map<string, EnvironmentConfig>

  /** The environment names an upstream environment that does not exist. */
  predicate MissingUpstream(configs: Configs, env: string) {
    && env in configs && UsableUpstream(configs[env].upstream)
    && var upstream := configs[env].upstream.value; !upstream.latest && upstream.environment !in configs
  }

  /** The position of the first target with a missing upstream. */
  function Cut(configs: Configs, names: seq<string>): (k: nat)
    ensures k <= |names|
  {
    if names == [] || MissingUpstream(configs, names[0]) then 0 else 1 + Cut(configs, names[1..])
  }

  lemma {:induction false} CutIsFirst(configs: Configs, names: seq<string>)
    ensures forall i | 0 <= i < Cut(configs, names) :: !MissingUpstream(configs, names[i])
    ensures Cut(configs, names) < |names| ==> MissingUpstream(configs, names[Cut(configs, names)])
    decreases |names|
  {
    if names != [] && !MissingUpstream(configs, names[0]) {
      CutIsFirst(configs, names[1..]);
      forall i | 0 < i < Cut(configs, names) ensures !MissingUpstream(configs, names[i]) {
        assert names[i] == names[1..][i - 1];
      }
    }
  }

  /** There the train ends, whatever comes after it. */
  lemma {:induction false} StopsAtCut(w: World, configs: Configs, team: string, names: seq<string>)
    requires forall e | e in names :: e in configs
    ensures TrainEnvs(w, configs, team, names) == TrainEnvs(w, configs, team, names[..Cut(configs, names)])
    decreases |names|
  {
    if names != [] && !MissingUpstream(configs, names[0]) {
      var k := Cut(configs, names);
      assert names[0] in names && forall e | e in names[1..] :: e in names;
      assert names[..k][0] == names[0] && names[..k][1..] == names[1..][..k - 1];
      assert forall e | e in names[..k] :: e in names;
      StopsAtCut(w, configs, team, names[1..]);
      if UsableUpstream(configs[names[0]].upstream) {
        var upstream := configs[names[0]].upstream.value;
        var r := TrainApps(w, names[0], upstream, team, SortedNames(TrainSource(w, upstream)));
        if r.Ok? {
          StopsAtCut(r.value, configs, team, names[1..]);
        }
      }
    }
  }

  /** The environment takes versions from another one that does not exist. */
  predicate NoSource(w: World, env: string) {
    && env in w.envs && w.envs[env].config.Decoded? && w.envs[env].config.config.upstream.Some?
    && var upstream := w.envs[env].config.config.upstream.value;
       !upstream.latest && upstream.environment != "" && upstream.environment !in w.envs
  }

  lemma NoSourceIs(w: World, env: string)
    ensures MissingUpstream(AllConfigs(w), env) <==> NoSource(w, env)
  {
  }

  lemma FollowsIs(w: World, env: string)
    requires env in w.envs
    ensures UsableUpstream(AllConfigs(w)[env].upstream) ==> Follows(w, env, AllConfigs(w)[env].upstream.value)
    ensures forall u :: Follows(w, env, u) ==> UsableUpstream(AllConfigs(w)[env].upstream) && AllConfigs(w)[env].upstream == Some(u)
  {
  }

  /** The targets in order, up to the first one without a source. */
  ghost function Reached(w: World, target: string): seq<string> {
    UpToNoSource(w, SortedNames(TargetsOf(w, target)))
  }

  function UpToNoSource(w: World, names: seq<string>): seq<string> {
    if names == [] || NoSource(w, names[0]) then [] else [names[0]] + UpToNoSource(w, names[1..])
  }

  lemma {:induction false} UpToCut(w: World, names: seq<string>)
    ensures UpToNoSource(w, names) == names[..Cut(AllConfigs(w), names)]
    decreases |names|
  {
    if names != [] {
      NoSourceIs(w, names[0]);
      UpToCut(w, names[1..]);
      if !NoSource(w, names[0]) {
        var k := Cut(AllConfigs(w), names[1..]);
        assert names[..k + 1] == [names[0]] + names[1..][..k];
      }
    }
  }

  lemma ReachedAreTargets(w: World, target: string)
    ensures forall e | e in Reached(w, target) :: Targeted(w, target, e) && e in w.envs && !MissingUpstream(AllConfigs(w), e)
    ensures forall i, j | 0 <= i < j < |Reached(w, target)| :: Reached(w, target)[i] != Reached(w, target)[j]
  {
    var names := SortedNames(TargetsOf(w, target));
    CutIsFirst(AllConfigs(w), names);
    UpToCut(w, names);
    NameOrder(names);
    forall i, j | 0 <= i < j < |Reached(w, target)| ensures Reached(w, target)[i] != Reached(w, target)[j] {
      assert ByName(names[i], names[j]);
    }
    forall e | e in Reached(w, target) ensures Targeted(w, target, e) && e in w.envs && !MissingUpstream(AllConfigs(w), e) {
      var i :| 0 <= i < |Reached(w, target)| && Reached(w, target)[i] == e;
      assert names[i] == e && e in names;
    }
  }

  /** A train is a train to the targets it reaches. */
  lemma TrainReaches(w: World, target: string, team: string)
    requires Decodable(w) && TargetsOf(w, target) != {}
    ensures forall e | e in Reached(w, target) :: e in AllConfigs(w)
    ensures ReleaseTrain(w, target, team) == TrainEnvs(w, AllConfigs(w), team, Reached(w, target))
  {
    ReachedAreTargets(w, target);
    TargetsAre(w, target);
    UpToCut(w, SortedNames(TargetsOf(w, target)));
    StopsAtCut(w, AllConfigs(w), team, SortedNames(TargetsOf(w, target)));
  }

  /** It reaches all its targets if and only if none of them has a missing upstream. */
  lemma AllReachedIff(w: World, target: string)
    ensures (forall e | Targeted(w, target, e) :: e in Reached(w, target)) <==>
            (forall e | Targeted(w, target, e) :: !NoSource(w, e))
  {
    var names := SortedNames(TargetsOf(w, target));
    CutIsFirst(AllConfigs(w), names);
    ReachedAreTargets(w, target);
    UpToCut(w, names);
    assert forall i | 0 <= i < |names| :: names[i] in TargetsOf(w, target);
    if forall e | Targeted(w, target, e) :: !NoSource(w, e) {
      forall i | 0 <= i < |names| ensures !MissingUpstream(AllConfigs(w), names[i]) {
        NoSourceIs(w, names[i]);
      }
      assert Reached(w, target) == names;
    }
  }

  // ---- What changes ----

  function NamesOf(names: seq<string>): set<string> {
    set e | e in names
  }

  /** What a train to these environments leaves alone. */
  ghost predicate Frame(w: World, w': World, envs: set<string>) {
    && w'.apps.Keys == w.apps.Keys
    && w'.envs.Keys == w.envs.Keys
    && (forall a :: TeamOf(w', a) == TeamOf(w, a))
    && (forall a :: LastRelease(w', a) == LastRelease(w, a) && (Releases(w', a) == map[] <==> Releases(w, a) == map[]))
    && (forall a, v {:trigger v in Releases(w', a)} ::
          v in Releases(w', a) ==> v in Releases(w, a) && Releases(w', a)[v] == Releases(w, a)[v])
    && (forall e :: EnvOf(w', e).locks == EnvOf(w, e).locks && EnvOf(w', e).config == EnvOf(w, e).config)
    && (forall e, a {:trigger EnvAppOf(w', e, a)} :: EnvAppOf(w', e, a).locks == EnvAppOf(w, e, a).locks)
    && (forall e, a {:trigger EnvAppOf(w', e, a)} | e !in envs :: EnvAppOf(w', e, a) == EnvAppOf(w, e, a))
    && (forall e | e !in envs :: EnvOf(w', e).apps.Keys == EnvOf(w, e).apps.Keys)
  }

  lemma FrameRefl(w: World, envs: set<string>)
    ensures Frame(w, w, envs)
  {
  }

  lemma FrameOfOne(w: World, w': World, env: string, envs: set<string>)
    requires TrainFrame(w, w', env) && env in envs
    ensures Frame(w, w', envs)
  {
  }

  lemma FrameTrans(w: World, w': World, w'': World, envs: set<string>)
    requires Frame(w, w', envs) && Frame(w', w'', envs)
    ensures Frame(w, w'', envs)
  {
    forall e, a
      ensures EnvAppOf(w'', e, a).locks == EnvAppOf(w, e, a).locks
      ensures e !in envs ==> EnvAppOf(w'', e, a) == EnvAppOf(w, e, a)
    {
      assert EnvAppOf(w', e, a).locks == EnvAppOf(w, e, a).locks;
    }
    forall a, v | v in Releases(w'', a) ensures v in Releases(w, a) && Releases(w'', a)[v] == Releases(w, a)[v] {
      assert v in Releases(w', a);
    }
  }

  /** What a train does at one of its targets. */
  ghost function AtTarget(w: World, configs: Configs, team: string, env: string): Result<World>
    requires env in configs
  {
    if !UsableUpstream(configs[env].upstream) || EnvOf(w, env).locks != {} then Ok(w)
    else TrainApps(w, env, configs[env].upstream.value, team, SortedNames(TrainSource(w, configs[env].upstream.value)))
  }

  lemma TargetEffect(w: World, configs: Configs, team: string, env: string, envs: set<string>)
    requires Safe(w) && env in w.envs && env in configs && env in envs
    ensures AtTarget(w, configs, team, env).Ok? && Safe(AtTarget(w, configs, team, env).value)
    ensures Frame(w, AtTarget(w, configs, team, env).value, envs)
  {
    FrameRefl(w, envs);
    if UsableUpstream(configs[env].upstream) && EnvOf(w, env).locks == {} {
      var upstream := configs[env].upstream.value;
      var apps := SortedNames(TrainSource(w, upstream));
      if upstream.latest || upstream.environment != env {
        TrainAppsEffect(w, env, upstream, team, apps);
        FrameOfOne(w, AtTarget(w, configs, team, env).value, env, envs);
      } else {
        SelfTrain(w, env, upstream, team, apps);
      }
    }
  }

  ghost predicate Treatable(w: World, configs: Configs, names: seq<string>) {
    forall e | e in names :: e in configs && e in w.envs && !MissingUpstream(configs, e)
  }

  /** Targets without a missing upstream are treated one after the other; only their own links change. */
  lemma {:induction false} TargetsEffect(w: World, configs: Configs, team: string, names: seq<string>, envs: set<string>)
    requires Safe(w) && Treatable(w, configs, names) && NamesOf(names) <= envs
    ensures TrainEnvs(w, configs, team, names).Ok? && Safe(TrainEnvs(w, configs, team, names).value)
    ensures Frame(w, TrainEnvs(w, configs, team, names).value, envs)
    decreases |names|
  {
    if names == [] {
      FrameRefl(w, envs);
    } else {
      assert names[0] in names && forall e | e in names[1..] :: e in names;
      TargetEffect(w, configs, team, names[0], envs);
      var next := AtTarget(w, configs, team, names[0]).value;
      TargetsEffect(next, configs, team, names[1..], envs);
      assert TrainEnvs(w, configs, team, names) == TrainEnvs(next, configs, team, names[1..]);
      FrameTrans(w, next, TrainEnvs(next, configs, team, names[1..]).value, envs);
    }
  }

  lemma {:induction false} TargetsSplit(w: World, configs: Configs, team: string, names: seq<string>, more: seq<string>)
    requires Safe(w) && Treatable(w, configs, names) && Treatable(w, configs, more)
    ensures TrainEnvs(w, configs, team, names).Ok?
    ensures TrainEnvs(w, configs, team, names + more) == TrainEnvs(TrainEnvs(w, configs, team, names).value, configs, team, more)
    decreases |names|
  {
    if names == [] {
      assert names + more == more;
    } else {
      assert names[0] in names && forall e | e in names[1..] :: e in names;
      assert (names + more)[0] == names[0] && (names + more)[1..] == names[1..] + more;
      TargetEffect(w, configs, team, names[0], {names[0]});
      var next := AtTarget(w, configs, team, names[0]).value;
      TargetsSplit(next, configs, team, names[1..], more);
      assert TrainEnvs(w, configs, team, names) == TrainEnvs(next, configs, team, names[1..]);
      assert TrainEnvs(w, configs, team, names + more) == TrainEnvs(next, configs, team, names[1..] + more);
    }
  }

  // ---- Theorems ----

  /** A train succeeds and changes nothing but links in the targets it reaches: no lock, no newest release, and no target after the cut. */
  lemma GroupTrainStaysInTargets(w: World, target: string, team: string)
    requires Safe(w) && exists e :: Targeted(w, target, e)
    ensures ReleaseTrain(w, target, team).Ok? && Safe(ReleaseTrain(w, target, team).value)
    ensures Frame(w, ReleaseTrain(w, target, team).value, NamesOf(Reached(w, target)))
  {
    var e :| Targeted(w, target, e);
    assert e in TargetsOf(w, target);
    TrainReaches(w, target, team);
    ReachedAreTargets(w, target);
    TargetsEffect(w, AllConfigs(w), team, Reached(w, target), NamesOf(Reached(w, target)));
  }

  /** The repository when the train gets to its `i`-th target. */
  ghost function Before(w: World, target: string, team: string, i: nat): World
    requires Safe(w) && i <= |Reached(w, target)|
  {
    ReachedAreTargets(w, target);
    TargetsEffect(w, AllConfigs(w), team, Reached(w, target)[..i], NamesOf(Reached(w, target)));
    TrainEnvs(w, AllConfigs(w), team, Reached(w, target)[..i]).value
  }

  /** The targets before one are left to themselves, and the rest of the train goes on from there. */
  lemma TrainComesTo(w: World, target: string, team: string, i: nat)
    requires Safe(w) && i < |Reached(w, target)|
    ensures var configs, names, here := AllConfigs(w), Reached(w, target), Before(w, target, team, i);
            && (forall e | e in names :: e in configs) && names[i] !in names[i + 1..]
            && Safe(here) && Frame(w, here, NamesOf(names[..i]))
            && ReleaseTrain(w, target, team) == TrainEnvs(here, configs, team, names[i..])
  {
    var configs, names := AllConfigs(w), Reached(w, target);
    ReachedParts(w, target, i);
    TrainReaches(w, target, team);
    TargetsSplit(w, configs, team, names[..i], names[i..]);
    TargetsEffect(w, configs, team, names[..i], NamesOf(names[..i]));
  }

  lemma ReachedParts(w: World, target: string, i: nat)
    requires i < |Reached(w, target)|
    ensures var configs, names := AllConfigs(w), Reached(w, target);
            && names == names[..i] + names[i..] && names[i] !in names[i + 1..] && TargetsOf(w, target) != {}
            && (forall e | e in names :: e in configs)
            && Treatable(w, configs, names[..i]) && Treatable(w, configs, names[i..])
  {
    var names := Reached(w, target);
    ReachedAreTargets(w, target);
    assert names[i] in names && names[i] in TargetsOf(w, target);
    assert forall e | e in names[..i] || e in names[i..] :: e in names;
    var after := names[i + 1..];
    assert forall j | 0 <= j < |after| :: after[j] == names[i + 1 + j];
  }

  /** What a target has when the train leaves it is what it has in the end. */
  lemma TargetIsFinal(w: World, target: string, team: string, i: nat, app: string)
    requires Safe(w) && i < |Reached(w, target)|
    ensures var env := Reached(w, target)[i];
            && env in AllConfigs(w) && Safe(Before(w, target, team, i))
            && Frame(w, Before(w, target, team, i), NamesOf(Reached(w, target)[..i]))
            && AtTarget(Before(w, target, team, i), AllConfigs(w), team, env).Ok?
            && ReleaseTrain(w, target, team).Ok?
            && EnvAppOf(ReleaseTrain(w, target, team).value, env, app) ==
               EnvAppOf(AtTarget(Before(w, target, team, i), AllConfigs(w), team, env).value, env, app)
  {
    var configs, names := AllConfigs(w), Reached(w, target);
    var env, after := names[i], names[i + 1..];
    ReachedAreTargets(w, target);
    TrainComesTo(w, target, team, i);
    assert names[i..][0] == env && names[i..][1..] == after;
    assert env in names && forall e | e in names[i..] || e in after :: e in names;
    var here := Before(w, target, team, i);
    TargetEffect(here, configs, team, env, {env});
    var next := AtTarget(here, configs, team, env).value;
    assert TrainEnvs(here, configs, team, names[i..]) == TrainEnvs(next, configs, team, after);
    TargetsEffect(next, configs, team, after, NamesOf(after));
  }

  // ---- What a target gets ----

  /** A train brings this to the place, which does not have it already. */
  ghost predicate Wanted(w: World, env: string, upstream: ConfigUpstream, team: string, app: string, v: nat) {
    Fits(w, env, upstream, team, app, v) && EnvAppOf(w, env, app).version != Some(v)
  }

  /**
   What a place of an unlocked target has after the train: what was wanted, only queued behind a lock of the application,
   with the old queue entry left if that names a release that is gone; and else what it had.
   */
  ghost predicate Shipped(w: World, w': World, env: string, upstream: ConfigUpstream, team: string, app: string) {
    var x, x' := EnvAppOf(w, env, app), EnvAppOf(w', env, app);
    && (forall v | Wanted(w, env, upstream, team, app, v) ::
          x' == if x.locks != {} then EnvApp(x.version, Some(v), x.locks)
                else EnvApp(Some(v), if QueueGone(w, env, app) then x.queued else None, x.locks))
    && ((forall v :: !Wanted(w, env, upstream, team, app, v)) ==> x' == x)
  }

  lemma DeployShips(w: World, env: string, app: string, v: nat)
    requires Safe(w) && env in w.envs && EnvOf(w, env).locks == {}
    requires v in Releases(w, app) && env in Releases(w, app)[v].manifests
    ensures var x, x' := EnvAppOf(w, env, app), EnvAppOf(DeployApplicationVersion(w, env, app, v, Record).world, env, app);
            x' == if x.locks != {} then EnvApp(x.version, Some(v), x.locks)
                  else EnvApp(Some(v), if QueueGone(w, env, app) then x.queued else None, x.locks)
  {
    var x := EnvAppOf(w, env, app);
    SetEnvAppFrame(w, env, app, x.(queued := Some(v)));
    SetEnvAppFrame(w, env, app, x.(version := Some(v)));
    if x.locks == {} && !QueueGone(w, env, app) {
      DeployEffect(w, env, app, v, Record);
    }
  }

  lemma TrainAppShips(w: World, env: string, upstream: ConfigUpstream, team: string, app: string)
    requires Safe(w) && env in w.envs && EnvOf(w, env).locks == {} && app in TrainSource(w, upstream)
    ensures TrainApp(w, env, upstream, team, app).Ok?
    ensures Shipped(w, TrainApp(w, env, upstream, team, app).value, env, upstream, team, app)
  {
    TrainAppEffect(w, env, upstream, team, app);
    var t := TrainVersion(w, upstream, app);
    assert !Dangles(w, app, EnvAppOf(w, env, app).version) && !Dangles(w, app, EnvAppOf(w, upstream.environment, app).version);
    forall v: nat ensures Offered(w, upstream, app, v) <==> t == Ok(Some(v)) {}
    if t.value.Some? && HasManifest(w, app, t.value.value, env) {
      DeployShips(w, env, app, t.value.value);
    }
  }

  /** What happens to one application does not matter to another. */
  lemma WantedElsewhere(w: World, w': World, env: string, upstream: ConfigUpstream, team: string, app: string, other: string, v: nat)
    requires Safe(w) && Safe(w') && OnlyAt(w, w', env, other) && TrainFrame(w, w', env) && app != other
    requires upstream.latest || upstream.environment != env
    ensures Wanted(w', env, upstream, team, app, v) <==> Wanted(w, env, upstream, team, app, v)
    ensures QueueGone(w', env, app) <==> QueueGone(w, env, app)
    ensures EnvAppOf(w', env, app) == EnvAppOf(w, env, app)
  {
    assert EnvAppOf(w', env, app) == EnvAppOf(w, env, app) && Releases(w', app) == Releases(w, app);
    assert !upstream.latest ==> EnvAppOf(w', upstream.environment, app) == EnvAppOf(w, upstream.environment, app);
  }

  lemma ShippedElsewhere(w: World, w': World, w'': World, env: string, upstream: ConfigUpstream, team: string, app: string, other: string)
    requires Safe(w) && Safe(w') && OnlyAt(w, w', env, other) && TrainFrame(w, w', env) && app != other
    requires upstream.latest || upstream.environment != env
    requires Shipped(w', w'', env, upstream, team, app)
    ensures Shipped(w, w'', env, upstream, team, app)
  {
    forall v ensures Wanted(w', env, upstream, team, app, v) <==> Wanted(w, env, upstream, team, app, v) {
      WantedElsewhere(w, w', env, upstream, team, app, other, v);
    }
    WantedElsewhere(w, w', env, upstream, team, app, other, 0);
  }

  ghost predicate Different(apps: seq<string>) {
    forall i, j | 0 <= i < j < |apps| :: apps[i] != apps[j]
  }

  /** The train over different applications: each gets what was wanted at the start, and no other place changes. */
  lemma {:induction false} TrainAppsShip(w: World, env: string, upstream: ConfigUpstream, team: string, apps: seq<string>, app: string)
    requires Safe(w) && env in w.envs && EnvOf(w, env).locks == {} && (upstream.latest || upstream.environment != env)
    requires Different(apps) && forall a | a in apps :: a in TrainSource(w, upstream)
    ensures TrainApps(w, env, upstream, team, apps).Ok?
    ensures var w' := TrainApps(w, env, upstream, team, apps).value;
            if app in apps then Shipped(w, w', env, upstream, team, app) else EnvAppOf(w', env, app) == EnvAppOf(w, env, app)
    decreases |apps|
  {
    if apps != [] {
      var first, rest := apps[0], apps[1..];
      assert apps == [first] + rest && first !in rest && forall a | a in rest :: a in apps;
      TrainAppEffect(w, env, upstream, team, first);
      TrainAppShips(w, env, upstream, team, first);
      var next := TrainApp(w, env, upstream, team, first).value;
      SourceKept(w, next, env, upstream);
      assert EnvOf(next, env).locks == EnvOf(w, env).locks;
      TrainAppsShip(next, env, upstream, team, rest, app);
      if app in rest {
        ShippedElsewhere(w, next, TrainApps(next, env, upstream, team, rest).value, env, upstream, team, app, first);
      }
    }
  }

  lemma SourceKept(w: World, w': World, env: string, upstream: ConfigUpstream)
    requires TrainFrame(w, w', env) && (upstream.latest || upstream.environment != env)
    ensures TrainSource(w', upstream) == TrainSource(w, upstream)
  {
  }

  /** What a train does at one unlocked target with something to follow. */
  lemma TargetShips(w: World, env: string, upstream: ConfigUpstream, team: string, app: string)
    requires Safe(w) && env in w.envs && EnvOf(w, env).locks == {}
    ensures var r := TrainApps(w, env, upstream, team, SortedNames(TrainSource(w, upstream)));
            r.Ok? && Shipped(w, r.value, env, upstream, team, app)
  {
    var apps := SortedNames(TrainSource(w, upstream));
    if upstream.latest || upstream.environment != env {
      NameOrder(apps);
      forall i, j | 0 <= i < j < |apps| ensures apps[i] != apps[j] {
        assert ByName(apps[i], apps[j]);
      }
      TrainAppsShip(w, env, upstream, team, apps, app);
      if app !in apps {
        forall v ensures !Wanted(w, env, upstream, team, app, v) {}
      }
    } else {
      SelfTrain(w, env, upstream, team, apps);
    }
  }

  /**
   What each place of a reached target has after the train. Where the target is locked or follows nothing, it has what
   it had; otherwise what was wanted there when the train came by.
   */
  lemma GroupTrainEffect(w: World, target: string, team: string, i: nat, app: string)
    requires Safe(w) && i < |Reached(w, target)|
    ensures var r, env, here := Transform(w, Train(target, team)), Reached(w, target)[i], Before(w, target, team, i);
            && r.Ok? && EnvAppOf(here, env, app) == EnvAppOf(w, env, app) && EnvOf(here, env).locks == EnvOf(w, env).locks
            && (EnvOf(w, env).locks != {} || (forall u :: !Follows(w, env, u)) ==> EnvAppOf(r.value, env, app) == EnvAppOf(w, env, app))
            && (EnvOf(w, env).locks == {} ==> forall u | Follows(w, env, u) :: Shipped(here, r.value, env, u, team, app))
  {
    var env, here := Reached(w, target)[i], Before(w, target, team, i);
    TargetIsFinal(w, target, team, i, app);
    FollowsIs(w, env);
    NotBefore(w, target, i);
    assert EnvAppOf(here, env, app) == EnvAppOf(w, env, app);
    assert EnvOf(here, env).locks == EnvOf(w, env).locks && EnvOf(here, env).config == EnvOf(w, env).config;
    if EnvOf(w, env).locks == {} && UsableUpstream(AllConfigs(w)[env].upstream) {
      TargetShips(here, env, AllConfigs(w)[env].upstream.value, team, app);
    }
  }

  lemma NotBefore(w: World, target: string, i: nat)
    requires i < |Reached(w, target)|
    ensures Reached(w, target)[i] !in NamesOf(Reached(w, target)[..i])
  {
    ReachedAreTargets(w, target);
  }

  /** In particular, a version that fits and meets no lock is deployed. */
  lemma GroupTrainDelivers(w: World, target: string, team: string, i: nat, upstream: ConfigUpstream, app: string, v: nat)
    requires Safe(w) && i < |Reached(w, target)|
    requires Follows(w, Reached(w, target)[i], upstream) && !AnyLock(w, Reached(w, target)[i], app)
    requires Fits(Before(w, target, team, i), Reached(w, target)[i], upstream, team, app, v)
    ensures Transform(w, Train(target, team)).Ok?
    ensures EnvAppOf(Transform(w, Train(target, team)).value, Reached(w, target)[i], app).version == Some(v)
  {
    var env, here := Reached(w, target)[i], Before(w, target, team, i);
    GroupTrainEffect(w, target, team, i, app);
    assert Shipped(here, Transform(w, Train(target, team)).value, env, upstream, team, app);
    if EnvAppOf(here, env, app).version == Some(v) {
      forall u ensures !Wanted(here, env, upstream, team, app, u) {}
    } else {
      assert Wanted(here, env, upstream, team, app, v);
    }
  }

  /** For an upstream the train has not treated before, that is what it has at the start. */
  lemma UntouchedUpstream(w: World, target: string, team: string, i: nat, upstream: ConfigUpstream, app: string, v: nat)
    requires Safe(w) && i < |Reached(w, target)| && Follows(w, Reached(w, target)[i], upstream)
    requires upstream.latest || upstream.environment !in Reached(w, target)[..i]
    ensures Fits(Before(w, target, team, i), Reached(w, target)[i], upstream, team, app, v) <==>
            Fits(w, Reached(w, target)[i], upstream, team, app, v)
  {
    var env, here := Reached(w, target)[i], Before(w, target, team, i);
    TargetIsFinal(w, target, team, i, app);
    if upstream.latest {
      assert LastRelease(here, app) == LastRelease(w, app);
      if Releases(w, app) != map[] {
        assert LastRelease(here, app) in Releases(here, app);
      }
    } else {
      assert EnvAppOf(here, upstream.environment, app) == EnvAppOf(w, upstream.environment, app);
      assert !Dangles(w, app, EnvAppOf(w, upstream.environment, app).version);
      assert !Dangles(here, app, EnvAppOf(here, upstream.environment, app).version);
    }
  }

  /** A train finds no environment exactly if there is neither a group nor an environment of this name; else it succeeds. */
  lemma TrainFinds(w: World, target: string, team: string)
    requires NoDangling(w)
    ensures var r := Transform(w, Train(target, team));
            if exists e :: e in w.envs && w.envs[e].config.Undecodable? then r == Err(InternalError)
            else if (forall e :: !InGroup(w, e, target)) && target !in w.envs then r == Err(NoSuchEnvironment) else r.Ok?
  {
    TargetsAre(w, target);
    if !Decodable(w) {
      return;
    }
    if (forall e :: !InGroup(w, e, target)) && target !in w.envs {
      assert TargetsOf(w, target) == {};
    } else {
      if target in w.envs && forall e :: !InGroup(w, e, target) {
        assert Targeted(w, target, target);
      } else {
        var e :| InGroup(w, e, target);
        assert Targeted(w, target, e);
      }
      GroupTrainStaysInTargets(w, target, team);
    }
  }

  /** The targets in order, up to the first without a source: of the group if there is one, or else the environment alone. */
  lemma ReachedInOrder(w: World, target: string)
    ensures var names := Reached(w, target);
            && (forall i, j | 0 <= i < j < |names| :: ByName(names[i], names[j]))
            && (forall e :: e in names <==> Targeted(w, target, e) && forall x | Targeted(w, target, x) && (x == e || ByName(x, e)) :: !NoSource(w, x))
  {
    var names := SortedNames(TargetsOf(w, target));
    var k := Cut(AllConfigs(w), names);
    UpToCut(w, names);
    CutIsFirst(AllConfigs(w), names);
    NameOrder(names);
    forall e ensures e in Reached(w, target) <==>
                     Targeted(w, target, e) && forall x | Targeted(w, target, x) && (x == e || ByName(x, e)) :: !NoSource(w, x)
    {
      ReachedIff(w, target, e);
    }
  }

  lemma ReachedIff(w: World, target: string, e: string)
    ensures e in Reached(w, target) <==>
            Targeted(w, target, e) && forall x | Targeted(w, target, x) && (x == e || ByName(x, e)) :: !NoSource(w, x)
  {
    var names := SortedNames(TargetsOf(w, target));
    var k := Cut(AllConfigs(w), names);
    UpToCut(w, names);
    CutIsFirst(AllConfigs(w), names);
    NameOrder(names);
    assert forall x :: Targeted(w, target, x) <==> x in TargetsOf(w, target);
    if Targeted(w, target, e) {
      assert e in names;
      var i :| 0 <= i < |names| && names[i] == e;
      if i < k {
        assert names[..k][i] == e;
        forall x | Targeted(w, target, x) && (x == e || ByName(x, e)) ensures !NoSource(w, x) {
          assert x in names;
          var j :| 0 <= j < |names| && names[j] == x;
          assert j > i ==> ByName(e, x);
          NoSourceIs(w, x);
        }
      } else {
        var x := names[k];
        NoSourceIs(w, x);
        assert x in names && Targeted(w, target, x) && (x == e || ByName(x, e));
        forall j | 0 <= j < k ensures names[j] != e {
          assert ByName(names[j], names[i]);
        }
      }
    } else {
      assert e !in names;
    }
  }
}
