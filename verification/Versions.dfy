/** The rollout service's reading of the overviews: it turns each into events about what differs from the one before. */
module Versions {
  import opened Broadcast
  import opened Config
  import opened Sorting

  datatype App = App(name: string, version: nat, deployedAt: int)

  /** The applications in the order in which the map happens to yield them. */
  datatype Environment = Environment(name: string, apps: seq<App>)

  datatype Group = Group(name: string, environments: seq<Environment>)

  type Overview = seq<Group>

  datatype Entry = Entry(key: Key, group: string, version: VersionInfo)

  function EntryOf(group: string, env: string, app: App): Entry {
    Entry(Key(app.name, env), group, VersionInfo(app.version, app.deployedAt))
  }

  function AppEntries(group: string, env: string, apps: seq<App>): seq<Entry> {
    seq(|apps|, i requires 0 <= i < |apps| => EntryOf(group, env, apps[i]))
  }

  function EnvironmentEntries(group: string, envs: seq<Environment>): seq<Entry> {
    if envs == [] then []
    else EnvironmentEntries(group, envs[..|envs| - 1]) + AppEntries(group, envs[|envs| - 1].name, envs[|envs| - 1].apps)
  }

  function Entries(overview: Overview): seq<Entry> {
    if overview == [] then []
    else Entries(overview[..|overview| - 1]) + EnvironmentEntries(overview[|overview| - 1].name, overview[|overview| - 1].environments)
  }

  /** No application occurs twice in an environment. */
  predicate UniqueKeys(entries: seq<Entry>) {
    forall i, j | 0 <= i < j < |entries| :: entries[i].key != entries[j].key
  }

  /** A missing key reads as version 0. */
  function VersionAt(versions: map<Key, nat>, k: Key): nat {
    if k in versions then versions[k] else 0
  }

  function SeenIn(entries: seq<Entry>): map<Key, nat> {
    if entries == [] then map[]
    else SeenIn(entries[..|entries| - 1])[entries[|entries| - 1].key := entries[|entries| - 1].version.version]
  }

  /** The version the rollout service holds, with absent counted as 0. */
  function Held(state: map<Key, AppState>, k: Key): nat {
    if StateOf(state, k).kuberpult.Some? then StateOf(state, k).kuberpult.value.version else 0
  }

  lemma SeenMore(entries: seq<Entry>, e: Entry)
    ensures SeenIn(entries + [e]) == SeenIn(entries)[e.key := e.version.version]
  {
    assert (entries + [e])[..|entries + [e]| - 1] == entries;
  }

  predicate Mentions(entries: seq<Entry>, k: Key) {
    exists i | 0 <= i < |entries| :: entries[i].key == k
  }

  lemma {:induction false} SeenKeys(entries: seq<Entry>, k: Key)
    ensures k in SeenIn(entries) <==> Mentions(entries, k)
    decreases |entries|
  {
    if entries != [] {
      var n := |entries| - 1;
      SeenKeys(entries[..n], k);
      assert forall i | 0 <= i < n :: entries[..n][i] == entries[i];
    }
  }

  lemma {:induction false} SeenVersion(entries: seq<Entry>, i: nat)
    requires UniqueKeys(entries) && i < |entries|
    ensures VersionAt(SeenIn(entries), entries[i].key) == entries[i].version.version
    decreases |entries|
  {
    var n := |entries| - 1;
    if i < n {
      SeenVersion(entries[..n], i);
      assert entries[..n][i] == entries[i] && entries[n].key != entries[i].key;
    }
  }

  /** The entry of an application in the overview, read off its fields. */
  lemma EntryIsThere(overview: Overview, i: nat, j: nat, k: nat)
    requires i < |overview| && j < |overview[i].environments| && k < |overview[i].environments[j].apps|
    ensures var g, env := overview[i], overview[i].environments[j];
            Entry(Key(env.apps[k].name, env.name), g.name, VersionInfo(env.apps[k].version, env.apps[k].deployedAt)) in Entries(overview)
  {
    BeforeNext(overview, i, j, k);
    var before := Before(overview, i, j, k);
    var e := EntryOf(overview[i].name, overview[i].environments[j].name, overview[i].environments[j].apps[k]);
    assert (before + [e])[|before|] == e && Entries(overview)[|before|] == e;
  }

  // ---- Prefixes of an overview ----

  lemma {:induction false} EntriesPrefix(overview: Overview, i: nat)
    requires i < |overview|
    ensures Entries(overview[..i]) + EnvironmentEntries(overview[i].name, overview[i].environments) <= Entries(overview)
    decreases |overview|
  {
    var n := |overview| - 1;
    if i < n {
      EntriesPrefix(overview[..n], i);
      assert overview[..n][..i] == overview[..i] && overview[..n][i] == overview[i];
    }
  }

  lemma {:induction false} EnvironmentPrefix(group: string, envs: seq<Environment>, j: nat)
    requires j < |envs|
    ensures EnvironmentEntries(group, envs[..j]) + AppEntries(group, envs[j].name, envs[j].apps) <= EnvironmentEntries(group, envs)
    decreases |envs|
  {
    var n := |envs| - 1;
    if j < n {
      EnvironmentPrefix(group, envs[..n], j);
      assert envs[..n][..j] == envs[..j] && envs[..n][j] == envs[j];
    }
  }

  /** What comes before an application in the overview. */
  function Before(overview: Overview, i: nat, j: nat, k: nat): seq<Entry>
    requires i < |overview| && j < |overview[i].environments| && k <= |overview[i].environments[j].apps|
  {
    var g := overview[i];
    var env := g.environments[j];
    Entries(overview[..i]) + EnvironmentEntries(g.name, g.environments[..j]) + AppEntries(g.name, env.name, env.apps[..k])
  }

  lemma PrefixExtends<X>(a: seq<X>, b: seq<X>, c: seq<X>, d: seq<X>)
    requires a + b <= d && c <= b
    ensures a + c <= d
  {
  }

  lemma BeforeNext(overview: Overview, i: nat, j: nat, k: nat)
    requires i < |overview| && j < |overview[i].environments| && k < |overview[i].environments[j].apps|
    ensures var e := EntryOf(overview[i].name, overview[i].environments[j].name, overview[i].environments[j].apps[k]);
            && Before(overview, i, j, k + 1) == Before(overview, i, j, k) + [e]
            && Before(overview, i, j, k) + [e] <= Entries(overview)
  {
    var g := overview[i];
    var env := g.environments[j];
    var e := EntryOf(g.name, env.name, env.apps[k]);
    var apps := AppEntries(g.name, env.name, env.apps);
    assert AppEntries(g.name, env.name, env.apps[..k + 1]) == AppEntries(g.name, env.name, env.apps[..k]) + [e];
    EntriesPrefix(overview, i);
    EnvironmentPrefix(g.name, g.environments, j);
    var envs := EnvironmentEntries(g.name, g.environments[..j]);
    assert AppEntries(g.name, env.name, env.apps[..k + 1]) <= apps;
    PrefixExtends(envs, apps, AppEntries(g.name, env.name, env.apps[..k + 1]), EnvironmentEntries(g.name, g.environments));
    PrefixExtends(Entries(overview[..i]), EnvironmentEntries(g.name, g.environments),
                  envs + AppEntries(g.name, env.name, env.apps[..k + 1]), Entries(overview));
  }

  /** What shows the entries of an overview shows each of its applications. */
  lemma AllShown(state: map<Key, AppState>, overview: Overview)
    requires Shows(state, Entries(overview))
    ensures forall i, j, k | 0 <= i < |overview| && 0 <= j < |overview[i].environments| && 0 <= k < |overview[i].environments[j].apps| ::
              var env := overview[i].environments[j];
              Held(state, Key(env.apps[k].name, env.name)) == env.apps[k].version
  {
    forall i, j, k | 0 <= i < |overview| && 0 <= j < |overview[i].environments| && 0 <= k < |overview[i].environments[j].apps|
      ensures var env := overview[i].environments[j];
              Held(state, Key(env.apps[k].name, env.name)) == env.apps[k].version
    {
      EntryIsThere(overview, i, j, k);
    }
  }

  /** With unique keys, nothing before an entry has its key. */
  lemma NewKey(entries: seq<Entry>, before: seq<Entry>, e: Entry)
    requires UniqueKeys(entries) && before + [e] <= entries
    ensures e.key !in SeenIn(before)
  {
    SeenKeys(before, e.key);
    var n := |before|;
    assert (before + [e])[n] == e && entries[n] == e;
    assert forall i | 0 <= i < n :: entries[i] == (before + [e])[i] == before[i];
  }

  // ---- What is held ----

  lemma KuberpultEventHeld(state: map<Key, AppState>, ev: KuberpultEvent, k: Key)
    ensures var state' := state[ev.key := ApplyKuberpultEvent(StateOf(state, ev.key), ev)];
            Held(state', k) == if k == ev.key then ev.version.version else Held(state, k)
  {
  }

  lemma ArgoEventHeld(state: map<Key, AppState>, ev: ArgoEvent, k: Key)
    ensures var state' := state[ev.key := ApplyArgoEvent(StateOf(state, ev.key), ev)];
            Held(state', k) == Held(state, k)
  {
  }

  function KeySet(keys: seq<Key>): set<Key> {
    set k | k in keys
  }

  // ---- Argo events in between ----

  datatype Action = Argo(argo: ArgoEvent) | Kuberpult(kuberpult: KuberpultEvent)

  function Handle(state: map<Key, AppState>, a: Action): map<Key, AppState> {
    match a
    case Argo(ev) => state[ev.key := ApplyArgoEvent(StateOf(state, ev.key), ev)]
    case Kuberpult(ev) => state[ev.key := ApplyKuberpultEvent(StateOf(state, ev.key), ev)]
  }

  function HandleAll(state: map<Key, AppState>, actions: seq<Action>): map<Key, AppState>
    decreases |actions|
  {
    if actions == [] then state else HandleAll(Handle(state, actions[0]), actions[1..])
  }

  /** The last event of either kind for an application. */
  function LastArgo(actions: seq<Action>, k: Key): Option<ArgoEvent> {
    if actions == [] then None
    else
      var last := actions[|actions| - 1];
      if last.Argo? && last.argo.key == k then Some(last.argo) else LastArgo(actions[..|actions| - 1], k)
  }

  function LastKuberpult(actions: seq<Action>, k: Key): Option<KuberpultEvent> {
    if actions == [] then None
    else
      var last := actions[|actions| - 1];
      if last.Kuberpult? && last.kuberpult.key == k then Some(last.kuberpult) else LastKuberpult(actions[..|actions| - 1], k)
  }

  lemma {:induction false} HandleLast(state: map<Key, AppState>, actions: seq<Action>)
    requires actions != []
    ensures HandleAll(state, actions) == Handle(HandleAll(state, actions[..|actions| - 1]), actions[|actions| - 1])
    decreases |actions|
  {
    if |actions| > 1 {
      HandleLast(Handle(state, actions[0]), actions[1..]);
      assert actions[1..][..|actions[1..]| - 1] == actions[..|actions| - 1][1..];
    } else {
      assert actions[1..] == [] && actions[..0] == [];
    }
  }

  /** From an empty state, what is known of an application is what the last event of each kind has said. */
  lemma {:induction false} LastEventsCount(actions: seq<Action>, k: Key)
    ensures var a, argo, kuberpult := StateOf(HandleAll(map[], actions), k), LastArgo(actions, k), LastKuberpult(actions, k);
            && (argo.None? ==> a.argo.None? && a.status == Unknown)
            && (argo.Some? ==> a.argo.Some? && a.argo.value.version == argo.value.version.version && a.status == StatusOf(argo.value))
            && (kuberpult.None? ==> a.kuberpult.None? && a.group == "")
            && (kuberpult.Some? ==> a.kuberpult.Some? && a.kuberpult.value.version == kuberpult.value.version.version)
            && (k in HandleAll(map[], actions) <==> argo.Some? || kuberpult.Some?)
    decreases |actions|
  {
    if actions != [] {
      HandleLast(map[], actions);
      LastEventsCount(actions[..|actions| - 1], k);
    }
  }

  function WithoutArgo(actions: seq<Action>): seq<Action> {
    if actions == [] then [] else (if actions[0].Argo? then [] else [actions[0]]) + WithoutArgo(actions[1..])
  }

  /** Two states that agree on the versions held agree on them after the same overview events, whatever Argo sends in between. */
  lemma {:induction false} ArgoDoesNotMatter(state: map<Key, AppState>, other: map<Key, AppState>, actions: seq<Action>, k: Key)
    requires forall x :: Held(state, x) == Held(other, x)
    ensures Held(HandleAll(state, actions), k) == Held(HandleAll(other, WithoutArgo(actions)), k)
    decreases |actions|
  {
    if actions != [] {
      var next := Handle(state, actions[0]);
      var kept := WithoutArgo(actions[1..]);
      match actions[0] {
        case Argo(ev) =>
          forall x ensures Held(next, x) == Held(other, x) {
            ArgoEventHeld(state, ev, x);
          }
          ArgoDoesNotMatter(next, other, actions[1..], k);
          assert [] + kept == kept;
        case Kuberpult(ev) =>
          var next' := Handle(other, actions[0]);
          forall x ensures Held(next, x) == Held(next', x) {
            KuberpultEventHeld(state, ev, x);
            KuberpultEventHeld(other, ev, x);
          }
          ArgoDoesNotMatter(next, next', actions[1..], k);
          assert ([actions[0]] + kept)[1..] == kept;
      }
    }
  }

  /** Half-way through an overview: what is seen has its new version, what is gone has none, the rest has its old one. */
  ghost predicate Tracks(state: map<Key, AppState>, seen: map<Key, nat>, gone: set<Key>, versions: map<Key, nat>) {
    forall k {:trigger Held(state, k)} ::
      Held(state, k) == if k in seen then seen[k] else if k in gone then 0 else VersionAt(versions, k)
  }

  /** The reader's versions are those the rollout service holds. */
  ghost predicate InSync(state: map<Key, AppState>, versions: map<Key, nat>) {
    forall k {:trigger Held(state, k)} :: Held(state, k) == VersionAt(versions, k)
  }

  /** The versions held are those of the entries, and 0 for everything else. */
  ghost predicate Shows(state: map<Key, AppState>, entries: seq<Entry>) {
    && (forall i | 0 <= i < |entries| :: Held(state, entries[i].key) == entries[i].version.version)
    && (forall k {:trigger Held(state, k)} | !Mentions(entries, k) :: Held(state, k) == 0)
  }

  lemma SyncShows(state: map<Key, AppState>, entries: seq<Entry>)
    requires UniqueKeys(entries) && InSync(state, SeenIn(entries))
    ensures Shows(state, entries)
  {
    forall i | 0 <= i < |entries| ensures Held(state, entries[i].key) == entries[i].version.version {
      SeenVersion(entries, i);
    }
    forall k | !Mentions(entries, k) ensures Held(state, k) == 0 {
      SeenKeys(entries, k);
    }
  }

  lemma WholeEnvironment(overview: Overview, i: nat, j: nat)
    requires i < |overview| && j < |overview[i].environments|
    ensures var g := overview[i];
            var env := g.environments[j];
            && Before(overview, i, j, 0) == Entries(overview[..i]) + EnvironmentEntries(g.name, g.environments[..j])
            && Before(overview, i, j, |env.apps|) == Entries(overview[..i]) + EnvironmentEntries(g.name, g.environments[..j + 1])
  {
    var g := overview[i];
    var env := g.environments[j];
    assert env.apps[..|env.apps|] == env.apps;
    assert g.environments[..j + 1][..j] == g.environments[..j];
  }

  class Reader {
    var versions: map<Key, nat>
    var environmentGroups: map<Key, string>

    constructor ()
      ensures versions == map[] && environmentGroups == map[]
    {
      versions, environmentGroups := map[], map[];
    }

    method ProcessApp(e: Entry, seen: map<Key, nat>, b: Broadcast) returns (seen': map<Key, nat>)
      requires b.Valid() && e.key !in seen && Tracks(b.state, seen, {}, versions)
      modifies this`environmentGroups, b, b.listeners
      ensures b.Valid() && b.listeners <= old(b.listeners)
      ensures seen' == seen[e.key := e.version.version] && Tracks(b.state, seen', {}, versions)
      ensures environmentGroups == old(environmentGroups)[e.key := e.group]
    {
      seen' := seen[e.key := e.version.version];
      environmentGroups := environmentGroups[e.key := e.group];
      ghost var before := b.state;
      assert Held(before, e.key) == VersionAt(versions, e.key);
      if VersionAt(versions, e.key) != e.version.version {
        var ev := KuberpultEvent(e.key, e.group, e.version);
        b.ProcessKuberpultEvent(ev);
        forall k ensures Held(b.state, k) == if k == e.key then e.version.version else Held(before, k) {
          KuberpultEventHeld(before, ev, k);
        }
      }
    }

    /** Events of version 0 for everything that had a version and has none now. */
    method ProcessDeleted(seen: map<Key, nat>, b: Broadcast)
      requires b.Valid() && Tracks(b.state, seen, {}, versions)
      modifies b, b.listeners
      ensures b.Valid() && b.listeners <= old(b.listeners) && InSync(b.state, seen)
    {
      var keys := Listed(versions.Keys);
      for i := 0 to |keys|
        invariant b.Valid() && b.listeners <= old(b.listeners)
        invariant Tracks(b.state, seen, KeySet(keys[..i]), versions)
      {
        var k := keys[i];
        assert keys[..i + 1] == keys[..i] + [k];
        if VersionAt(seen, k) == 0 {
          var ev := KuberpultEvent(k, if k in environmentGroups then environmentGroups[k] else "", VersionInfo(0, 0));
          ghost var before := b.state;
          b.ProcessKuberpultEvent(ev);
          forall x ensures Held(b.state, x) == if x == k then 0 else Held(before, x) {
            KuberpultEventHeld(before, ev, x);
          }
        }
      }
      assert keys[..|keys|] == keys;
    }

    method ReadEnvironment(overview: Overview, i: nat, j: nat, seen0: map<Key, nat>, b: Broadcast) returns (seen: map<Key, nat>)
      requires i < |overview| && j < |overview[i].environments| && UniqueKeys(Entries(overview))
      requires b.Valid() && seen0 == SeenIn(Before(overview, i, j, 0)) && Tracks(b.state, seen0, {}, versions)
      modifies this`environmentGroups, b, b.listeners
      ensures b.Valid() && b.listeners <= old(b.listeners)
      ensures seen == SeenIn(Before(overview, i, j, |overview[i].environments[j].apps|)) && Tracks(b.state, seen, {}, versions)
    {
      var env := overview[i].environments[j];
      seen := seen0;
      for k := 0 to |env.apps|
        invariant b.Valid() && b.listeners <= old(b.listeners)
        invariant seen == SeenIn(Before(overview, i, j, k)) && Tracks(b.state, seen, {}, versions)
      {
        var e := EntryOf(overview[i].name, env.name, env.apps[k]);
        BeforeNext(overview, i, j, k);
        NewKey(Entries(overview), Before(overview, i, j, k), e);
        SeenMore(Before(overview, i, j, k), e);
        seen := ProcessApp(e, seen, b);
      }
    }

    method ReadGroup(overview: Overview, i: nat, seen0: map<Key, nat>, b: Broadcast) returns (seen: map<Key, nat>)
      requires i < |overview| && UniqueKeys(Entries(overview))
      requires b.Valid() && seen0 == SeenIn(Entries(overview[..i])) && Tracks(b.state, seen0, {}, versions)
      modifies this`environmentGroups, b, b.listeners
      ensures b.Valid() && b.listeners <= old(b.listeners)
      ensures seen == SeenIn(Entries(overview[..i + 1])) && Tracks(b.state, seen, {}, versions)
    {
      var group := overview[i];
      seen := seen0;
      assert Entries(overview[..i]) + EnvironmentEntries(group.name, group.environments[..0]) == Entries(overview[..i]);
      for j := 0 to |group.environments|
        invariant b.Valid() && b.listeners <= old(b.listeners)
        invariant seen == SeenIn(Entries(overview[..i]) + EnvironmentEntries(group.name, group.environments[..j]))
        invariant Tracks(b.state, seen, {}, versions)
      {
        WholeEnvironment(overview, i, j);
        seen := ReadEnvironment(overview, i, j, seen, b);
      }
      assert group.environments[..|group.environments|] == group.environments;
      assert overview[..i + 1][..i] == overview[..i];
    }

    /** One overview of the stream. */
    method Consume(overview: Overview, b: Broadcast)
      requires b.Valid() && InSync(b.state, versions) && UniqueKeys(Entries(overview))
      modifies this, b, b.listeners
      ensures b.Valid() && InSync(b.state, versions) && versions == SeenIn(Entries(overview))
      ensures Shows(b.state, Entries(overview))
      ensures forall i, j, k | 0 <= i < |overview| && 0 <= j < |overview[i].environments| && 0 <= k < |overview[i].environments[j].apps| ::
                var env := overview[i].environments[j];
                Held(b.state, Key(env.apps[k].name, env.name)) == env.apps[k].version
    {
      var seen: map<Key, nat> := map[];
      for i := 0 to |overview|
        invariant b.Valid() && b.listeners <= old(b.listeners) && versions == old(versions)
        invariant seen == SeenIn(Entries(overview[..i])) && Tracks(b.state, seen, {}, versions)
      {
        seen := ReadGroup(overview, i, seen, b);
      }
      assert overview[..|overview|] == overview;
      ProcessDeleted(seen, b);
      versions := seen;
      SyncShows(b.state, Entries(overview));
      AllShown(b.state, overview);
    }
  }
}
