/**
 How changes reach the overview streams: one-slot channels that merge notifications, an updater that stores the
 overview of the newest repository state, and streams that send what is stored, all of them running concurrently.
 */
module Overviews {
  import opened Config
  import opened Finite

  /** A channel with one slot. */
  class Slot {
    var full: bool

    constructor ()
      ensures full
    {
      full := true;
    }
  }

  class Notify {
    var listeners: set<Slot>

    constructor ()
      ensures listeners == {}
    {
      listeners := {};
    }

    /** A new channel already holds a notification. */
    method Subscribe() returns (ch: Slot)
      modifies this
      ensures fresh(ch) && ch.full && listeners == old(listeners) + {ch}
    {
      ch := new Slot();
      listeners := listeners + {ch};
    }

    method Unsubscribe(ch: Slot)
      modifies this
      ensures listeners == old(listeners) - {ch}
    {
      listeners := listeners - {ch};
    }

    /** Every listener has a notification afterwards; one that was still there is not doubled. */
    method NotifyAll()
      modifies listeners
      ensures listeners == old(listeners) && forall ch | ch in listeners :: ch.full
    {
      var todo := listeners;
      while todo != {}
        invariant listeners == old(listeners) && todo <= listeners
        invariant forall ch | ch in listeners - todo :: ch.full
        decreases todo
      {
        var ch :| ch in todo;
        todo := todo - {ch};
        ch.full := true;
      }
    }
  }

  // ---- The protocol ----

  /** The updater takes a notification, loads the repository, stores the overview, and tells one stream after the other. */
  datatype Updater = Waiting | Woken | Updating(version: nat) | Telling(todo: set<nat>)

  datatype Phase = Idle | Taken | Loaded(version: nat)

  datatype Stream = Stream(open: bool, token: bool, phase: Phase, sent: Option<nat>)

  /** `head` counts the states of the repository; `notified` is the one at the last notification by the worker. */
  datatype Server = Server(head: nat, notified: nat, pending: bool, updater: Updater, response: Option<nat>, streams: seq<Stream>)

  datatype Step =
    | Commit
    | NotifyWorker
    | Subscribe
    | Close(i: nat)
    | Wake
    | Load
    | Store
    | Tell(i: nat)
    | TellDone
    | Take(i: nat)
    | Look(i: nat)
    | Send(i: nat)

  predicate OpenIn(s: Server, i: nat, phase: Phase) {
    i < |s.streams| && s.streams[i].open && s.streams[i].phase == phase
  }

  /** A step that can be taken; subscribing waits for the first overview, and for the lock while streams are told. */
  predicate Enabled(s: Server, step: Step) {
    match step
    case Commit => true
    case NotifyWorker => true
    case Subscribe => s.response.Some? && !s.updater.Telling?
    case Close(i) => i < |s.streams|
    case Wake => s.pending && s.updater == Waiting
    case Load => s.updater == Woken
    case Store => s.updater.Updating?
    case Tell(i) => s.updater.Telling? && i in s.updater.todo && i < |s.streams|
    case TellDone => s.updater == Telling({})
    case Take(i) => OpenIn(s, i, Idle) && s.streams[i].token
    case Look(i) => OpenIn(s, i, Taken) && s.response.Some?
    case Send(i) => i < |s.streams| && s.streams[i].open && s.streams[i].phase.Loaded?
  }

  function Indices(s: Server): set<nat> {
    Range(0, |s.streams|)
  }

  function WithStream(s: Server, i: nat, x: Stream): Server
    requires i < |s.streams|
  {
    s.(streams := s.streams[i := x])
  }

  function Next(s: Server, step: Step): Server
    requires Enabled(s, step)
  {
    match step
    case Commit => s.(head := s.head + 1)
    case NotifyWorker => s.(pending := true, notified := s.head)
    case Subscribe => s.(streams := s.streams + [Stream(true, true, Idle, None)])
    case Close(i) => WithStream(s, i, s.streams[i].(open := false))
    case Wake => s.(pending := false, updater := Woken)
    case Load => s.(updater := Updating(s.head))
    case Store => s.(response := Some(s.updater.version), updater := Telling(Indices(s)))
    case Tell(i) => WithStream(s, i, s.streams[i].(token := true)).(updater := Telling(s.updater.todo - {i}))
    case TellDone => s.(updater := Waiting)
    case Take(i) => WithStream(s, i, s.streams[i].(token := false, phase := Taken))
    case Look(i) => WithStream(s, i, s.streams[i].(phase := Loaded(s.response.value)))
    case Send(i) => WithStream(s, i, s.streams[i].(phase := Idle, sent := Some(s.streams[i].phase.version)))
  }

  /** When the first stream subscribes, the updater's channel is full and there is no overview yet. */
  function Start(head: nat): Server {
    Server(head, head, true, Waiting, None, [])
  }

  // ---- Invariant ----

  /** What the stream has sent, or is about to send. */
  function Seen(x: Stream): Option<nat> {
    if x.phase.Loaded? then Some(x.phase.version) else x.sent
  }

  predicate Behind(seen: Option<nat>, response: Option<nat>) {
    response.Some? && (seen.None? || seen.value < response.value)
  }

  predicate ToBeTold(s: Server, i: nat) {
    s.updater.Telling? && i in s.updater.todo
  }

  /** A stream that is behind has a token, is about to load, or is still to be told. */
  predicate StreamOk(s: Server, i: nat)
    requires i < |s.streams|
  {
    var x := s.streams[i];
    && (x.open && Behind(Seen(x), s.response) ==> x.token || x.phase == Taken || ToBeTold(s, i))
    && (x.sent.Some? ==> s.response.Some? && x.sent.value <= s.response.value)
    && (x.phase.Loaded? ==> s.response.Some? && x.phase.version <= s.response.value)
  }

  /** The last notification of the worker has not been lost on its way to the stored overview. */
  predicate UpdaterOk(s: Server) {
    && s.notified <= s.head
    && (s.response.Some? ==> s.response.value <= s.head)
    && (s.updater.Updating? ==> s.updater.version <= s.head && (s.response.Some? ==> s.response.value <= s.updater.version))
    && (|| s.pending
        || s.updater == Woken
        || (s.updater.Updating? && s.updater.version >= s.notified)
        || (s.response.Some? && s.response.value >= s.notified))
    && (s.updater.Telling? ==> forall i | i in s.updater.todo :: i < |s.streams|)
    && (s.response.None? ==> s.streams == [])
  }

  ghost predicate Inv(s: Server) {
    UpdaterOk(s) && forall i | 0 <= i < |s.streams| :: StreamOk(s, i)
  }

  lemma StepKeepsUpdater(s: Server, step: Step)
    requires UpdaterOk(s) && Enabled(s, step)
    ensures UpdaterOk(Next(s, step))
  {
  }

  lemma StepKeepsStream(s: Server, step: Step, i: nat)
    requires UpdaterOk(s) && Enabled(s, step) && i < |Next(s, step).streams|
    requires i < |s.streams| ==> StreamOk(s, i)
    ensures StreamOk(Next(s, step), i)
  {
  }

  lemma StepKeepsInv(s: Server, step: Step)
    requires Inv(s) && Enabled(s, step)
    ensures Inv(Next(s, step))
  {
    StepKeepsUpdater(s, step);
    var s' := Next(s, step);
    forall i | 0 <= i < |s'.streams| ensures StreamOk(s', i) {
      StepKeepsStream(s, step, i);
    }
  }

  /** A run: each step can be taken where it is taken. */
  ghost predicate Possible(s: Server, steps: seq<Step>)
    decreases |steps|
  {
    steps == [] || (Enabled(s, steps[0]) && Possible(Next(s, steps[0]), steps[1..]))
  }

  ghost function Run(s: Server, steps: seq<Step>): Server
    requires Possible(s, steps)
    decreases |steps|
  {
    if steps == [] then s else Run(Next(s, steps[0]), steps[1..])
  }

  lemma {:induction false} RunKeepsInv(s: Server, steps: seq<Step>)
    requires Inv(s) && Possible(s, steps)
    ensures Inv(Run(s, steps))
    decreases |steps|
  {
    if steps != [] {
      StepKeepsInv(s, steps[0]);
      RunKeepsInv(Next(s, steps[0]), steps[1..]);
    }
  }

  // ---- Quiescence ----

  /** Steps of the updater and of the streams. */
  predicate Internal(step: Step) {
    !step.Commit? && !step.NotifyWorker? && !step.Subscribe? && !step.Close?
  }

  ghost predicate Quiescent(s: Server) {
    forall step | Internal(step) :: !Enabled(s, step)
  }

  /**
   In every interleaving: when nothing is left to do, every open stream has sent the stored overview, and that one
   is at least as new as the repository at the worker's last notification.
   */
  lemma QuiescentStreamsAreUpToDate(head: nat, steps: seq<Step>, i: nat)
    requires Possible(Start(head), steps)
    requires var s := Run(Start(head), steps); Quiescent(s) && i < |s.streams| && s.streams[i].open
    ensures var s := Run(Start(head), steps);
            && s.streams[i].sent == s.response && s.response.Some?
            && s.notified <= s.response.value <= s.head
  {
    RunKeepsInv(Start(head), steps);
    var s := Run(Start(head), steps);
    assert StreamOk(s, i);
    assert !Enabled(s, Wake) && !Enabled(s, Load) && !Enabled(s, Store) && !Enabled(s, TellDone);
    assert !Enabled(s, Take(i)) && !Enabled(s, Look(i)) && !Enabled(s, Send(i));
    if s.updater.Telling? && s.updater.todo != {} {
      var j :| j in s.updater.todo;
      assert Enabled(s, Tell(j));
      assert false;
    }
  }

  // ---- Progress ----

  function StreamWork(x: Stream): nat {
    (if x.token then 3 else 0) + match x.phase { case Idle => 0 case Taken => 2 case Loaded(_) => 1 }
  }

  function StreamsWork(streams: seq<Stream>): nat {
    if streams == [] then 0 else StreamsWork(streams[..|streams| - 1]) + StreamWork(streams[|streams| - 1])
  }

  function UpdaterWork(updater: Updater, n: nat): nat {
    match updater
    case Waiting => 0
    case Telling(todo) => 1 + 4 * |todo|
    case Updating(_) => 4 * n + 2
    case Woken => 4 * n + 3
  }

  /** How many internal steps can follow at most. */
  function Work(s: Server): nat {
    (if s.pending then 4 * |s.streams| + 4 else 0) + UpdaterWork(s.updater, |s.streams|) + StreamsWork(s.streams)
  }

  lemma {:induction false} WorkUpdate(streams: seq<Stream>, i: nat, x: Stream)
    requires i < |streams|
    ensures StreamsWork(streams[i := x]) == StreamsWork(streams) - StreamWork(streams[i]) + StreamWork(x)
    decreases |streams|
  {
    var n := |streams| - 1;
    if i < n {
      WorkUpdate(streams[..n], i, x);
      assert streams[i := x][..n] == streams[..n][i := x];
    } else {
      assert streams[i := x][..n] == streams[..n];
    }
  }

  lemma StreamStepWorks(s: Server, i: nat, x: Stream)
    requires i < |s.streams| && StreamWork(x) < StreamWork(s.streams[i])
    ensures Work(WithStream(s, i, x)) < Work(s)
  {
    WorkUpdate(s.streams, i, x);
  }

  lemma TellWorks(s: Server, i: nat)
    requires s.updater.Telling? && i in s.updater.todo && i < |s.streams|
    ensures Work(Next(s, Tell(i))) < Work(s)
  {
    WorkUpdate(s.streams, i, s.streams[i].(token := true));
    assert s.updater.todo == (s.updater.todo - {i}) + {i};
  }

  lemma InternalStepWorks(s: Server, step: Step)
    requires Internal(step) && Enabled(s, step)
    ensures Work(Next(s, step)) < Work(s)
  {
    match step
    case Tell(i) => TellWorks(s, i);
    case Take(i) => StreamStepWorks(s, i, s.streams[i].(token := false, phase := Taken));
    case Look(i) => StreamStepWorks(s, i, s.streams[i].(phase := Loaded(s.response.value)));
    case Send(i) => StreamStepWorks(s, i, s.streams[i].(phase := Idle, sent := Some(s.streams[i].phase.version)));
    case _ =>
  }

  /** Without further commits, notifications or subscribers, any schedule comes to rest after boundedly many steps. */
  lemma {:induction false} ComesToRest(s: Server, steps: seq<Step>)
    requires Possible(s, steps) && forall i | 0 <= i < |steps| :: Internal(steps[i])
    ensures |steps| <= Work(s)
    decreases |steps|
  {
    if steps != [] {
      InternalStepWorks(s, steps[0]);
      assert forall i | 0 <= i < |steps[1..]| :: steps[1..][i] == steps[i + 1];
      ComesToRest(Next(s, steps[0]), steps[1..]);
    }
  }
}
