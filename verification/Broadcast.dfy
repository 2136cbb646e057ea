/** The rollout service's view of every application, and the streams of changes to it that it hands out. */
module Broadcast {
  import opened Config
  import opened Sorting

  datatype Key = Key(application: string, environment: string)

  datatype VersionInfo = VersionInfo(version: nat, deployedAt: int)

  datatype RolloutStatus = Unknown | Successful | Progressing | RolloutError

  datatype Health = Healthy | Degraded | Absent | HealthProgressing | Suspended | OtherHealth

  datatype Phase = Failing | OtherPhase

  datatype ArgoEvent = ArgoEvent(key: Key, version: VersionInfo, health: Health, operation: Option<Phase>, outOfSync: bool)

  datatype KuberpultEvent = KuberpultEvent(key: Key, group: string, version: VersionInfo)

  datatype AppState = AppState(argo: Option<VersionInfo>, kuberpult: Option<VersionInfo>, status: RolloutStatus, group: string)

  datatype Event = Event(key: Key, group: string, argo: Option<VersionInfo>, kuberpult: Option<VersionInfo>, status: RolloutStatus)

  const CHANNEL_SIZE := 100

  /** Success needs a healthy application that is in sync and whose last operation did not fail. */
  function StatusOf(ev: ArgoEvent): (r: RolloutStatus)
    ensures r == Successful <==> ev.health == Healthy && ev.operation != Some(Failing) && !ev.outOfSync
    ensures r == RolloutError <==> ev.health in {Degraded, Absent} || (ev.health == Healthy && ev.operation == Some(Failing))
    ensures r == Unknown <==> ev.health == OtherHealth
  {
    match ev.health
    case Degraded => RolloutError
    case Absent => RolloutError
    case HealthProgressing => Progressing
    case Suspended => Progressing
    case Healthy =>
      if ev.operation == Some(Failing) then RolloutError
      else if ev.outOfSync then Progressing
      else Successful
    case OtherHealth => Unknown
  }

  function StateOf(state: map<Key, AppState>, k: Key): AppState {
    if k in state then state[k] else AppState(None, None, Unknown, "")
  }

  /** Both versions are known, and they are not the same. */
  predicate Differ(a: AppState) {
    a.argo.Some? && a.kuberpult.Some? && a.argo.value.version != a.kuberpult.value.version
  }

  /** The event tells what is known of the application; while the versions differ, that it is in progress. */
  predicate Tells(e: Event, k: Key, a: AppState) {
    && e.key == k && e.group == a.group && e.argo == a.argo && e.kuberpult == a.kuberpult
    && (Differ(a) ==> e.status == Progressing)
    && (!Differ(a) ==> e.status == a.status)
  }

  /** What a reader is told; never success while the versions differ. */
  function GetEvent(k: Key, a: AppState): (e: Event)
    ensures e.status == Successful && e.argo.Some? && e.kuberpult.Some? ==> e.argo.value.version == e.kuberpult.value.version
    ensures Tells(e, k, a)
  {
    var status := if a.kuberpult.Some? && a.argo.Some? && a.kuberpult.value.version != a.argo.value.version
                  then Progressing else a.status;
    Event(k, a.group, a.argo, a.kuberpult, status)
  }

  /** Argo reports something new: another version, or another status. */
  predicate NewFromArgo(a: AppState, ev: ArgoEvent) {
    a.argo.None? || a.argo.value.version != ev.version.version || a.status != StatusOf(ev)
  }

  predicate NewFromKuberpult(a: AppState, ev: KuberpultEvent) {
    a.kuberpult.None? || a.kuberpult.value.version != ev.version.version
  }

  /** What an Argo event leaves of the application: the reported version and status, and what Kuberpult said. */
  predicate AfterArgo(a: AppState, ev: ArgoEvent, b: AppState) {
    && b.argo.Some? && b.argo.value.version == ev.version.version && b.status == StatusOf(ev)
    && b.kuberpult == a.kuberpult && b.group == a.group
    && b.argo == if NewFromArgo(a, ev) then Some(ev.version) else a.argo
  }

  /** What a Kuberpult event leaves: the version, its group if that version is new, and what Argo said. */
  predicate AfterKuberpult(a: AppState, ev: KuberpultEvent, b: AppState) {
    && b.kuberpult.Some? && b.kuberpult.value.version == ev.version.version
    && b.argo == a.argo && b.status == a.status
    && b.kuberpult == (if NewFromKuberpult(a, ev) then Some(ev.version) else a.kuberpult)
    && b.group == if NewFromKuberpult(a, ev) then ev.group else a.group
  }

  function ApplyArgoEvent(a: AppState, ev: ArgoEvent): (b: AppState)
    ensures AfterArgo(a, ev, b) && (b != a <==> NewFromArgo(a, ev))
  {
    if a.status != StatusOf(ev) || a.argo.None? || a.argo.value.version != ev.version.version
    then a.(status := StatusOf(ev), argo := Some(ev.version))
    else a
  }

  function ApplyKuberpultEvent(a: AppState, ev: KuberpultEvent): (b: AppState)
    ensures AfterKuberpult(a, ev, b) && (b != a <==> NewFromKuberpult(a, ev))
  {
    if a.kuberpult.None? || a.kuberpult.value.version != ev.version.version
    then a.(kuberpult := Some(ev.version), group := ev.group)
    else a
  }

  /** What a reader of the whole state would see. */
  function View(state: map<Key, AppState>): map<Key, Event> {
    map k | k in state :: GetEvent(k, state[k])
  }

  lemma ViewSet(state: map<Key, AppState>, k: Key, b: AppState)
    ensures View(state[k := b]) == View(state)[k := GetEvent(k, b)]
  {
  }

  /** The part of it for some of the keys. */
  function ViewOf(state: map<Key, AppState>, keys: seq<Key>): map<Key, Event>
    requires forall j | 0 <= j < |keys| :: keys[j] in state
  {
    map k | k in keys :: GetEvent(k, state[k])
  }

  lemma ViewMore(state: map<Key, AppState>, keys: seq<Key>, i: nat)
    requires i < |keys| && forall j | 0 <= j <= i :: keys[j] in state
    ensures ViewOf(state, keys[..i + 1]) == ViewOf(state, keys[..i])[keys[i] := GetEvent(keys[i], state[keys[i]])]
  {
    assert keys[..i + 1] == keys[..i] + [keys[i]];
  }

  /** The last event of each key. */
  function Rebuild(events: seq<Event>): map<Key, Event> {
    if events == [] then map[]
    else Rebuild(events[..|events| - 1])[events[|events| - 1].key := events[|events| - 1]]
  }

  lemma RebuildMore(events: seq<Event>, e: Event)
    ensures Rebuild(events + [e]) == Rebuild(events)[e.key := e]
  {
    assert (events + [e])[..|events + [e]| - 1] == events;
  }

  /** `e` is the last event of its key. */
  ghost predicate LastOf(events: seq<Event>, k: Key, e: Event) {
    exists i | 0 <= i < |events| :: events[i] == e && e.key == k && forall j | i < j < |events| :: events[j].key != k
  }

  lemma LastOfMore(events: seq<Event>, k: Key, e: Event, next: Event)
    requires LastOf(events, k, e) && next.key != k
    ensures LastOf(events + [next], k, e)
  {
    var i :| 0 <= i < |events| && events[i] == e && e.key == k && forall j | i < j < |events| :: events[j].key != k;
    assert (events + [next])[i] == e;
  }

  /** Rebuilding gives the last event of each key, and no other key. */
  lemma {:induction false} RebuildIsLast(events: seq<Event>, k: Key)
    ensures if k in Rebuild(events) then LastOf(events, k, Rebuild(events)[k]) else forall i | 0 <= i < |events| :: events[i].key != k
    decreases |events|
  {
    if events != [] {
      var n := |events| - 1;
      RebuildIsLast(events[..n], k);
      assert events == events[..n] + [events[n]];
      if events[n].key == k {
        assert LastOf(events, k, events[n]);
      } else if k in Rebuild(events) {
        LastOfMore(events[..n], k, Rebuild(events)[k], events[n]);
      } else {
        assert forall i | 0 <= i < n :: events[i] == events[..n][i];
      }
    }
  }

  /** A reader with this snapshot was sent a prefix of the history from `n` on, which as a whole leads to the view. */
  ghost predicate Told(sent: seq<Event>, snapshot: seq<Event>, history: seq<Event>, n: nat, view: map<Key, Event>) {
    n <= |history| && sent <= history[n..] && Rebuild(snapshot + history[n..]) == view
  }

  lemma ToldMore(sent: seq<Event>, snapshot: seq<Event>, history: seq<Event>, n: nat, view: map<Key, Event>, e: Event)
    requires Told(sent, snapshot, history, n, view)
    ensures Told(sent, snapshot, history + [e], n, view[e.key := e])
    ensures sent == history[n..] ==> Told(sent + [e], snapshot, history + [e], n, view[e.key := e]) && sent + [e] == (history + [e])[n..]
  {
    assert (history + [e])[n..] == history[n..] + [e];
    assert snapshot + (history[n..] + [e]) == (snapshot + history[n..]) + [e];
    RebuildMore(snapshot + history[n..], e);
  }

  class Channel {
    var buffer: seq<Event>
    var received: seq<Event>
    var closed: bool

    constructor ()
      ensures buffer == [] && received == [] && !closed
    {
      buffer, received, closed := [], [], false;
    }

    /** Everything that was ever put in. */
    function Sent(): seq<Event>
      reads this
    {
      received + buffer
    }

    /** Sending to a closed channel would panic. */
    method TrySend(e: Event) returns (ok: bool)
      requires !closed
      modifies this
      ensures ok == (|old(buffer)| < CHANNEL_SIZE)
      ensures Sent() == if ok then old(Sent()) + [e] else old(Sent())
      ensures received == old(received) && !closed
    {
      ok := |buffer| < CHANNEL_SIZE;
      if ok {
        buffer := buffer + [e];
      }
      assert Sent() == if ok then old(Sent()) + [e] else old(Sent());
    }

    /** Closing a closed channel would panic. */
    method Close()
      requires !closed
      modifies this`closed
      ensures closed
    {
      closed := true;
    }

    /** The reader takes the next event, or learns that there will be none. */
    method Receive() returns (e: Option<Event>)
      requires buffer != [] || closed
      modifies this`buffer, this`received
      ensures Sent() == old(Sent())
      ensures e == if old(buffer) == [] then None else Some(old(buffer)[0])
      ensures received == if old(buffer) == [] then old(received) else old(received) + [old(buffer)[0]]
    {
      if buffer == [] {
        return None;
      }
      e := Some(buffer[0]);
      received, buffer := received + [buffer[0]], buffer[1..];
    }
  }

  class Broadcast {
    var state: map<Key, AppState>
    var listeners: set<Channel>
    /** All channels ever handed out, with the snapshot that went with them and the place in the history. */
    ghost var started: set<Channel>
    ghost var snapshots: map<Channel, seq<Event>>
    ghost var since: map<Channel, nat>
    ghost var history: seq<Event>

    /** Every channel's part of the history leads from its snapshot to this view; the listeners got all of it. */
    ghost predicate Consistent(view: map<Key, Event>)
      reads this, started
    {
      && listeners <= started
      && (forall l | l in started :: l in snapshots && l in since && Told(l.Sent(), snapshots[l], history, since[l], view))
      && (forall l | l in listeners :: !l.closed && l.Sent() == history[since[l]..])
    }

    /** A live listener has been sent the whole history since it started; a dropped one a prefix of it. */
    ghost predicate Valid()
      reads this, started
    {
      Consistent(View(state))
    }

    constructor ()
      ensures Valid() && state == map[] && started == {}
    {
      state, listeners := map[], {};
      started, snapshots, since, history := {}, map[], map[], [];
    }

    method Snapshot() returns (snapshot: seq<Event>)
      ensures Rebuild(snapshot) == View(state)
    {
      var keys := Listed(state.Keys);
      snapshot := [];
      for i := 0 to |keys|
        invariant forall j | 0 <= j < i :: keys[j] in state
        invariant Rebuild(snapshot) == ViewOf(state, keys[..i])
      {
        assert keys[i] in keys;
        RebuildMore(snapshot, GetEvent(keys[i], state[keys[i]]));
        ViewMore(state, keys, i);
        snapshot := snapshot + [GetEvent(keys[i], state[keys[i]])];
      }
      assert keys[..|keys|] == keys;
    }

    method Start() returns (snapshot: seq<Event>, ch: Channel)
      requires Valid()
      modifies this`listeners, this`started, this`snapshots, this`since
      ensures Valid() && fresh(ch) && listeners == old(listeners) + {ch} && started == old(started) + {ch}
      ensures Rebuild(snapshot) == View(state) && snapshots == old(snapshots)[ch := snapshot]
    {
      snapshot := Snapshot();
      ch := new Channel();
      listeners := listeners + {ch};
      started := started + {ch};
      snapshots, since := snapshots[ch := snapshot], since[ch := |history|];
      assert history[|history|..] == [] && snapshot + [] == snapshot;
    }

    method Unsubscribe(ch: Channel)
      requires Valid()
      modifies this`listeners
      ensures Valid() && listeners == old(listeners) - {ch}
    {
      listeners := listeners - {ch};
    }

    /** Tries to send to every listener; closes those with a full buffer. */
    method SendAll(e: Event) returns (dropped: set<Channel>)
      requires forall l | l in listeners :: !l.closed
      modifies listeners
      ensures listeners == old(listeners) && dropped <= listeners
      ensures forall l | l in listeners - dropped :: !l.closed && l.Sent() == old(l.Sent()) + [e]
      ensures forall l | l in dropped :: l.closed && l.Sent() == old(l.Sent()) && |l.buffer| >= CHANNEL_SIZE
    {
      var todo := listeners;
      dropped := {};
      while todo != {}
        invariant listeners == old(listeners) && todo <= listeners && dropped <= listeners - todo
        invariant forall l | l in todo :: unchanged(l)
        invariant forall l | l in listeners - todo - dropped :: !l.closed && l.Sent() == old(l.Sent()) + [e]
        invariant forall l | l in dropped :: l.closed && l.Sent() == old(l.Sent()) && |l.buffer| >= CHANNEL_SIZE
        decreases todo
      {
        var l :| l in todo;
        todo := todo - {l};
        var ok := l.TrySend(e);
        if !ok {
          l.Close();
          dropped := dropped + {l};
        }
      }
    }

    /** Hands an event to every listener; those with a full buffer are closed and dropped. */
    method Publish(e: Event, ghost before: map<Key, Event>)
      requires Consistent(before)
      modifies this`listeners, this`history, listeners
      ensures Consistent(before[e.key := e]) && listeners <= old(listeners) && history == old(history) + [e]
      ensures forall l | l in old(listeners) - listeners :: l.closed && |l.buffer| >= CHANNEL_SIZE && l.Sent() == old(l.Sent())
      ensures forall l | l in listeners :: l.Sent() == old(l.Sent()) + [e]
    {
      var dropped := SendAll(e);
      ghost var past := history;
      listeners := listeners - dropped;
      history := history + [e];
      forall l | l in started
        ensures Told(l.Sent(), snapshots[l], history, since[l], before[e.key := e])
        ensures l in listeners ==> l.Sent() == history[since[l]..]
      {
        ToldMore(old(l.Sent()), snapshots[l], past, since[l], before, e);
      }
    }

    /** Stores what is known of an application, and publishes it if it is new. */
    method Update(k: Key, b: AppState)
      requires Valid() && (k in state || b != StateOf(state, k))
      modifies this`state, this`listeners, this`history, listeners
      ensures Valid() && listeners <= old(listeners) && state == old(state)[k := b]
      ensures if b != StateOf(old(state), k)
              then exists e :: Tells(e, k, b) && history == old(history) + [e] && forall l | l in listeners :: l.Sent() == old(l.Sent()) + [e]
              else history == old(history) && listeners == old(listeners) && forall l | l in listeners :: unchanged(l)
      ensures forall l | l in old(listeners) - listeners :: l.closed && |l.buffer| >= CHANNEL_SIZE && l.Sent() == old(l.Sent())
    {
      var a := StateOf(state, k);
      ghost var before := View(state);
      ViewSet(state, k, b);
      if b == a {
        assert state[k := b] == state;
        return;
      }
      state := state[k := b];
      Publish(GetEvent(k, b), before);
      assert Tells(GetEvent(k, b), k, b);
    }

    method ProcessArgoEvent(ev: ArgoEvent)
      requires Valid()
      modifies this`state, this`listeners, this`history, listeners
      ensures Valid() && listeners <= old(listeners)
      ensures state == old(state)[ev.key := ApplyArgoEvent(StateOf(old(state), ev.key), ev)]
      ensures state.Keys == old(state).Keys + {ev.key} && forall k | k in old(state) && k != ev.key :: state[k] == old(state)[k]
      ensures AfterArgo(StateOf(old(state), ev.key), ev, state[ev.key])
      ensures if NewFromArgo(StateOf(old(state), ev.key), ev)
              then exists e :: Tells(e, ev.key, state[ev.key]) && history == old(history) + [e] && forall l | l in listeners :: l.Sent() == old(l.Sent()) + [e]
              else history == old(history) && listeners == old(listeners) && forall l | l in listeners :: unchanged(l)
      ensures forall l | l in old(listeners) - listeners :: l.closed && |l.buffer| >= CHANNEL_SIZE && l.Sent() == old(l.Sent())
    {
      Update(ev.key, ApplyArgoEvent(StateOf(state, ev.key), ev));
    }

    method ProcessKuberpultEvent(ev: KuberpultEvent)
      requires Valid()
      modifies this`state, this`listeners, this`history, listeners
      ensures Valid() && listeners <= old(listeners)
      ensures state == old(state)[ev.key := ApplyKuberpultEvent(StateOf(old(state), ev.key), ev)]
      ensures state.Keys == old(state).Keys + {ev.key} && forall k | k in old(state) && k != ev.key :: state[k] == old(state)[k]
      ensures AfterKuberpult(StateOf(old(state), ev.key), ev, state[ev.key])
      ensures if NewFromKuberpult(StateOf(old(state), ev.key), ev)
              then exists e :: Tells(e, ev.key, state[ev.key]) && history == old(history) + [e] && forall l | l in listeners :: l.Sent() == old(l.Sent()) + [e]
              else history == old(history) && listeners == old(listeners) && forall l | l in listeners :: unchanged(l)
      ensures forall l | l in old(listeners) - listeners :: l.closed && |l.buffer| >= CHANNEL_SIZE && l.Sent() == old(l.Sent())
    {
      Update(ev.key, ApplyKuberpultEvent(StateOf(state, ev.key), ev));
    }

    method CloseAll()
      requires forall l | l in listeners :: !l.closed
      modifies listeners
      ensures listeners == old(listeners)
      ensures forall l | l in listeners :: l.closed && l.Sent() == old(l.Sent())
    {
      var todo := listeners;
      while todo != {}
        invariant listeners == old(listeners) && todo <= listeners
        invariant forall l | l in todo :: unchanged(l)
        invariant forall l | l in listeners - todo :: l.closed && l.Sent() == old(l.Sent())
        decreases todo
      {
        var l :| l in todo;
        todo := todo - {l};
        l.Close();
      }
    }

    method DisconnectAll()
      requires Valid()
      modifies this`listeners, listeners
      ensures Valid() && listeners == {} && forall l | l in old(listeners) :: l.closed
    {
      CloseAll();
      assert forall l | l in started :: l.Sent() == old(l.Sent());
      listeners := {};
    }

    /**
     What a live listener was given at the start and has received or still finds in its channel tells it
     everything: the last event of each key is what the state says of it, and there are no other keys.
     */
    lemma LiveListenerKnowsAll(l: Channel, k: Key)
      requires Valid() && l in listeners
      ensures var seen := snapshots[l] + l.Sent();
              if k in state then LastOf(seen, k, GetEvent(k, state[k])) else forall i | 0 <= i < |seen| :: seen[i].key != k
    {
      RebuildIsLast(snapshots[l] + l.Sent(), k);
    }
  }
}
