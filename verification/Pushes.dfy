/** What becomes of a push, attempt by attempt, and which answer a turn gives for it. */
module Pushes {
  import opened Delivery
  import opened Worker

  /** The event at the `n`-th attempt; after the end of the script the network is gone. */
  function EventAt(script: seq<Event>, n: nat): Event {
    if n < |script| then script[n] else Event([], Lost(true))
  }

  /** The remote branch when the `n`-th attempt is made: others have pushed before each attempt. */
  function RemoteAt(remote: History, script: seq<Event>, n: nat): History
    decreases n
  {
    (if n == 0 then remote else RemoteAt(remote, script, n - 1)) + ByOthers(EventAt(script, n).others)
  }

  /** The attempt fails in a way that lets the push be tried again. */
  predicate TryAgain(e: Event) {
    e.outcome in {Lost(false), TimesOut(false)}
  }

  /** All attempts before the `n`-th one fail so, and this one does not, or is the last one. */
  predicate LastAttempt(script: seq<Event>, n: nat, last: nat) {
    n <= last && (forall i | 0 <= i < n :: TryAgain(EventAt(script, i))) && (n == last || !TryAgain(EventAt(script, n)))
  }

  /** What an attempt comes to. */
  function ResultOf(outcome: Outcome, remote: History, head: History): PushResult {
    match outcome
    case Lost(_) => PushLost
    case TimesOut(_) => PushTimedOut
    case _ => if !(remote <= head) then Diverged else if outcome == Refuses then PushRefused else Pushed
  }

  function Rest(script: seq<Event>, n: nat): seq<Event> {
    if n < |script| then script[n..] else []
  }

  lemma {:induction false} RemoteAfterOne(remote: History, script: seq<Event>, n: nat)
    requires script != []
    ensures RemoteAt(remote + ByOthers(script[0].others), script[1..], n) == RemoteAt(remote, script, n + 1)
    ensures EventAt(script[1..], n) == EventAt(script, n + 1)
    decreases n
  {
    if n > 0 {
      RemoteAfterOne(remote, script, n - 1);
    } else {
      assert RemoteAt(remote, script, 0) == remote + ByOthers(script[0].others);
    }
  }

  /** The last attempt alone decides a push. */
  lemma {:induction false} PushDecided(r: Repo, n: nat, retries: nat)
    requires LastAttempt(r.script, n, retries)
    ensures var p := PushRetrying(r, retries);
            && p.result == ResultOf(EventAt(r.script, n).outcome, RemoteAt(r.remote, r.script, n), r.head)
            && p.repo == Repo(r.head, if p.result == Pushed then r.head else RemoteAt(r.remote, r.script, n), Rest(r.script, n + 1))
    decreases retries
  {
    if n == 0 {
      FirstDecides(r, retries);
    } else {
      FirstIsLost(r, retries);
      LaterAttempts(r, n, retries);
      PushDecided(Advanced(r), n - 1, retries - 1);
    }
  }

  /** After a lost attempt, the others are still to come. */
  lemma LaterAttempts(r: Repo, n: nat, retries: nat)
    requires n > 0 && r.script != [] && LastAttempt(r.script, n, retries)
    ensures var next := Advanced(r);
            && LastAttempt(next.script, n - 1, retries - 1)
            && EventAt(next.script, n - 1) == EventAt(r.script, n)
            && RemoteAt(next.remote, next.script, n - 1) == RemoteAt(r.remote, r.script, n)
            && Rest(next.script, n) == Rest(r.script, n + 1)
  {
    var next := Advanced(r);
    EventsAfterOne(r.script);
    RemoteAfterOne(r.remote, r.script, n - 1);
  }

  lemma EventsAfterOne(script: seq<Event>)
    requires script != []
    ensures forall i: nat {:trigger EventAt(script[1..], i)} :: EventAt(script[1..], i) == EventAt(script, i + 1)
  {
  }

  lemma FirstDecides(r: Repo, retries: nat)
    requires retries == 0 || !TryAgain(EventAt(r.script, 0))
    ensures var p := PushRetrying(r, retries);
            && p.result == ResultOf(EventAt(r.script, 0).outcome, RemoteAt(r.remote, r.script, 0), r.head)
            && p.repo == Repo(r.head, if p.result == Pushed then r.head else RemoteAt(r.remote, r.script, 0), Rest(r.script, 1))
  {
    assert Next(r) == EventAt(r.script, 0) && RemoteAt(r.remote, r.script, 0) == r.remote + ByOthers(Next(r).others);
    assert Advanced(r).script == Rest(r.script, 1);
    assert PushRetrying(r, retries) == PushOnce(r);
  }

  lemma FirstIsLost(r: Repo, retries: nat)
    requires retries > 0 && TryAgain(EventAt(r.script, 0))
    ensures r.script != [] && PushRetrying(r, retries) == PushRetrying(Advanced(r), retries - 1)
  {
    assert Next(r) == EventAt(r.script, 0) && PushOnce(r).repo == Advanced(r);
  }

  lemma {:induction false} SomeAttemptIsLast(script: seq<Event>, last: nat) returns (n: nat)
    ensures LastAttempt(script, n, last)
    decreases last
  {
    if last == 0 {
      n := 0;
    } else {
      n := SomeAttemptIsLast(script, last - 1);
      if TryAgain(EventAt(script, n)) && n == last - 1 {
        n := last;
      }
    }
  }

  /**
   A push is accepted if and only if one of its first seven attempts works while the remote branch is a part of the
   local one, and all attempts before that were lost or timed out without using up the time.
   */
  lemma PushedIff(r: Repo)
    ensures PushRetrying(r, MAX_RETRIES).result == Pushed <==>
            exists n | 0 <= n < 7 ::
              && (forall i | 0 <= i < n :: TryAgain(EventAt(r.script, i)))
              && EventAt(r.script, n).outcome in {Works, ResetLate} && RemoteAt(r.remote, r.script, n) <= r.head
  {
    var n := SomeAttemptIsLast(r.script, 6);
    PushDecided(r, n, MAX_RETRIES);
    if m: nat :| m < 7 && (forall i | 0 <= i < m :: TryAgain(EventAt(r.script, i)))
                 && EventAt(r.script, m).outcome in {Works, ResetLate} && RemoteAt(r.remote, r.script, m) <= r.head {
      OneLastAttempt(r.script, n, m, 6);
    }
  }

  lemma OneLastAttempt(script: seq<Event>, n: nat, m: nat, last: nat)
    requires LastAttempt(script, n, last) && LastAttempt(script, m, last)
    ensures n == m
  {
  }

  /** In particular, up to six lost attempts do no harm. */
  lemma LostPushIsTriedAgain(r: Repo, n: nat)
    requires n <= 6 && n < |r.script| && r.script[n].outcome == Works && RemoteAt(r.remote, r.script, n) <= r.head
    requires forall i | 0 <= i < n :: TryAgain(r.script[i])
    ensures PushRetrying(r, MAX_RETRIES) == Push(Repo(r.head, r.head, r.script[n + 1..]), Pushed)
  {
    assert forall i | 0 <= i < n :: EventAt(r.script, i) == r.script[i];
    PushDecided(r, n, MAX_RETRIES);
  }

  /** And a seventh one ends it. */
  lemma SevenLostAttempts(r: Repo)
    requires forall i | 0 <= i < 7 :: TryAgain(EventAt(r.script, i))
    ensures PushRetrying(r, MAX_RETRIES).result == if EventAt(r.script, 6).outcome.Lost? then PushLost else PushTimedOut
  {
    PushDecided(r, 6, MAX_RETRIES);
  }

  // ---- Answers ----

  /** What is answered for a first push that did not diverge. */
  function AnswerTo(result: PushResult): Answer
    requires result != Diverged
  {
    match result
    case Pushed => Nil
    case PushRefused => Protected
    case PushTimedOut => Canceled
    case PushLost => NotPushed
  }

  /**
   A turn that meets no broken configuration answers what is left by the last attempt of its push: nothing is pushed
   if nothing is left, and a diverged push is the only one that is followed by another.
   */
  lemma TurnAnswer(r: Repo, es: seq<Element>, replies: seq<Reply>, n: nat)
    requires BeforeBroken(r.head, es) == |es|
    requires LastAttempt(r.script, n, 6)
    requires ResultOf(EventAt(r.script, n).outcome, RemoteAt(r.remote, r.script, n), Fold(r.head, es).head) != Diverged
    ensures var f, p, remote := Fold(r.head, es), Process(r, es, replies), RemoteAt(r.remote, r.script, n);
            var result := ResultOf(EventAt(r.script, n).outcome, remote, f.head);
            && p.left == f.left
            && (f.left == [] ==> p.final == Nil && p.repo == r.(head := f.head))
            && (f.left != [] ==>
                  && p.final == AnswerTo(result)
                  && p.repo == Repo(f.head, if result == Pushed then f.head else remote, Rest(r.script, n + 1)))
  {
    ApplyFolds(r, [], es, replies, true);
    assert [] + Fold(r.head, es).left == Fold(r.head, es).left;
    PushDecided(r.(head := Fold(r.head, es).head), n, MAX_RETRIES);
  }

  // ---- The queue ----

  /** Taking everything from the queue keeps exactly what is not canceled, and tells the others that they are. */
  lemma {:induction false} DrainedAre(queue: seq<Element>)
    ensures forall e :: e in Live(queue) <==> e in queue && !e.canceled
    ensures forall p :: p in CanceledReplies(queue) <==> p.answer == Canceled && exists e | e in queue :: e.canceled && e.id == p.to
    decreases |queue|
  {
    if queue != [] {
      DrainedAre(queue[1..]);
      assert queue == [queue[0]] + queue[1..];
    }
  }
}
