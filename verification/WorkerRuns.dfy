/** Whole runs of the worker: what holds after any number of turns, with other writers in between. */
module WorkerRuns {
  import opened Config
  import opened Delivery
  import opened Deployment
  import opened Invariants
  import opened Worker

  /** The repositories, all replies so far, and whether the worker is stuck in a send. */
  datatype Ledger = Ledger(repo: Repo, replies: seq<Reply>, hung: bool)

  /** A turn begins with one request and finds others in the queue. */
  datatype Turn = Turn(first: Element, queue: seq<Element>)

  /** What a turn goes on with when its first request is not canceled. */
  ghost function Work(l: Ledger, t: Turn): Processed {
    Process(l.repo, [t.first] + Live(t.queue), CanceledReplies(t.queue))
  }

  /** What a turn sends: to a canceled first request its error, and then the error that nothing has overwritten. */
  ghost function Sends(l: Ledger, t: Turn): seq<Reply> {
    if t.first.canceled then [Reply(t.first.id, Canceled), Reply(t.first.id, Panicked)] else Work(l, t).replies
  }

  /** The sends of a turn into the channels of its requests. */
  ghost function Sent(l: Ledger, t: Turn): Delivered {
    Deliver(NewSlots([t.first] + t.queue), Sends(l, t))
  }

  /** A send that blocks holds the worker for ever. */
  ghost function Step(l: Ledger, t: Turn): Ledger {
    if l.hung then l
    else
      var d := Sent(l, t);
      Ledger(if t.first.canceled || d.blocked then l.repo else Work(l, t).repo, l.replies + d.sent, d.blocked)
  }

  ghost function Run(l: Ledger, turns: seq<Turn>): Ledger
    decreases |turns|
  {
    if turns == [] then l else Run(Step(l, turns[0]), turns[1..])
  }

  /** The requests of a turn are different ones: each has its own channel. */
  predicate Distinct(es: seq<Element>) {
    forall i, j | 0 <= i < j < |es| :: es[i].id != es[j].id
  }

  predicate DistinctTurn(t: Turn) {
    Distinct([t.first] + t.queue)
  }

  // ---- Sends ----

  /** The first request is canceled, and its caller has left on that: there is no one to make room for a second reply. */
  predicate Hangs(t: Turn) {
    t.first.canceled && !t.first.present
  }

  lemma {:induction false} NewSlotsAreEmpty(es: seq<Element>, id: nat)
    ensures !SlotAt(NewSlots(es), id).full
    decreases |es|
  {
    if es != [] {
      NewSlotsAreEmpty(es[1..], id);
    }
  }

  /** One reply to each of some empty channels: nothing blocks. */
  lemma {:induction false} DeliverOnce(slots: map<nat, Slot>, replies: seq<Reply>)
    requires forall id :: multiset(Recipients(replies))[id] <= 1
    requires forall id {:trigger SlotAt(slots, id)} | id in Recipients(replies) :: !SlotAt(slots, id).full
    ensures !Deliver(slots, replies).blocked && Deliver(slots, replies).sent == replies
    decreases |replies|
  {
    if replies != [] {
      var to, rest := replies[0].to, replies[1..];
      assert replies == [replies[0]] + rest;
      RecipientsOfTwo([replies[0]], rest);
      assert Recipients([replies[0]]) == [to];
      assert to in Recipients(replies);
      var slot := Send(SlotAt(slots, to)).value;
      forall id ensures multiset(Recipients(rest))[id] <= 1 {
        assert multiset(Recipients(replies))[id] <= 1;
      }
      forall id | id in Recipients(rest) ensures !SlotAt(slots[to := slot], id).full {
        assert id in multiset(Recipients(rest)) && multiset(Recipients(replies))[to] <= 1;
        assert id in Recipients(replies) && id != to && !SlotAt(slots, id).full;
      }
      DeliverOnce(slots[to := slot], rest);
    }
  }

  lemma {:induction false} DistinctIds(es: seq<Element>, id: nat)
    requires Distinct(es)
    ensures multiset(Ids(es))[id] <= 1
    decreases |es|
  {
    if es != [] {
      var rest := es[1..];
      assert es == [es[0]] + rest;
      IdsOfTwo([es[0]], rest);
      assert Distinct(rest) by {
        assert forall i, j | 0 <= i < j < |rest| :: rest[i] == es[i + 1] && rest[j] == es[j + 1];
      }
      DistinctIds(rest, id);
      assert forall i | 0 <= i < |rest| :: Ids(rest)[i] == es[i + 1].id != es[0].id;
      assert Ids([es[0]]) == [es[0].id];
    }
  }

  lemma TurnAnswers(l: Ledger, t: Turn)
    requires !t.first.canceled
    ensures multiset(Recipients(Sends(l, t))) == multiset(Ids([t.first] + t.queue))
  {
    AnsweredOnce(l.repo, [t.first] + Live(t.queue), CanceledReplies(t.queue));
    DrainAccounts(t.queue);
    IdsOfTwo([t.first], Live(t.queue));
    IdsOfTwo([t.first], t.queue);
  }

  /**
   A send of a turn blocks if and only if the first request is canceled and its caller has left. Otherwise all are
   sent; if it blocks, only the first one is.
   */
  lemma TurnBlocksIff(l: Ledger, t: Turn)
    requires DistinctTurn(t)
    ensures Sent(l, t).blocked <==> Hangs(t)
    ensures Sent(l, t).sent == if Hangs(t) then [Reply(t.first.id, Canceled)] else Sends(l, t)
  {
    var slots := NewSlots([t.first] + t.queue);
    if t.first.canceled {
      CanceledSends(slots, t.first);
    } else {
      TurnAnswers(l, t);
      forall id ensures multiset(Recipients(Sends(l, t)))[id] <= 1 {
        DistinctIds([t.first] + t.queue, id);
      }
      forall id | id in Recipients(Sends(l, t)) ensures !SlotAt(slots, id).full {
        NewSlotsAreEmpty([t.first] + t.queue, id);
      }
      DeliverOnce(slots, Sends(l, t));
    }
  }

  /** Two replies to one channel: the second needs a reader. */
  lemma CanceledSends(slots: map<nat, Slot>, e: Element)
    requires SlotAt(slots, e.id) == Slot(false, e.present)
    ensures var two := [Reply(e.id, Canceled), Reply(e.id, Panicked)];
            var d := Deliver(slots, two);
            d.blocked == !e.present && d.sent == if e.present then two else [Reply(e.id, Canceled)]
  {
    var two := [Reply(e.id, Canceled), Reply(e.id, Panicked)];
    var slots1 := slots[e.id := Slot(true, e.present)];
    assert two[1..] == [Reply(e.id, Panicked)] && two[1..][1..] == [];
    if e.present {
      var slots2 := slots1[e.id := Slot(true, false)];
      assert Deliver(slots2, []) == Delivered(slots2, [], false);
      assert Deliver(slots1, two[1..]) == Delivered(slots2, two[1..], false);
    } else {
      assert Deliver(slots1, two[1..]) == Delivered(slots1, [], true);
    }
  }

  /** A turn of different requests, with what was replied before. */
  lemma StepResult(repo: Repo, replies: seq<Reply>, t: Turn)
    requires DistinctTurn(t)
    ensures var p := Process(repo, [t.first] + Live(t.queue), replies + CanceledReplies(t.queue));
            Step(Ledger(repo, replies, false), t) ==
            if Hangs(t) then Ledger(repo, replies + [Reply(t.first.id, Canceled)], true)
            else if t.first.canceled then Ledger(repo, replies + [Reply(t.first.id, Canceled), Reply(t.first.id, Panicked)], false)
            else Ledger(p.repo, p.replies, false)
  {
    TurnBlocksIff(Ledger(repo, replies, false), t);
    ProcessPrefix(repo, [t.first] + Live(t.queue), replies, CanceledReplies(t.queue));
  }

  // ---- Replies ----

  /** Who is to get a reply in a turn; a canceled first request gets two. */
  function Served(t: Turn): seq<nat> {
    if t.first.canceled then [t.first.id, t.first.id] else Ids([t.first] + t.queue)
  }

  function ServedIn(turns: seq<Turn>): seq<nat> {
    if turns == [] then [] else Served(turns[0]) + ServedIn(turns[1..])
  }

  ghost predicate AllServed(l: Ledger, turns: seq<Turn>) {
    multiset(Recipients(Run(l, turns).replies)) == multiset(Recipients(l.replies)) + multiset(ServedIn(turns))
  }

  predicate NeverHangs(turns: seq<Turn>) {
    forall t | t in turns :: !Hangs(t)
  }

  lemma StepAnswers(l: Ledger, t: Turn)
    requires !l.hung && DistinctTurn(t) && !Hangs(t)
    ensures !Step(l, t).hung
    ensures multiset(Recipients(Step(l, t).replies)) == multiset(Recipients(l.replies)) + multiset(Served(t))
  {
    TurnBlocksIff(l, t);
    RecipientsOfTwo(l.replies, Sends(l, t));
    if t.first.canceled {
      assert Recipients(Sends(l, t)) == Served(t);
    } else {
      TurnAnswers(l, t);
    }
  }

  /** Over any run in which no turn hangs, every request gets exactly one reply, except for those canceled before their turn: they get two. */
  lemma {:induction false} RunAnswers(l: Ledger, turns: seq<Turn>)
    requires !l.hung && NeverHangs(turns) && forall t | t in turns :: DistinctTurn(t)
    ensures !Run(l, turns).hung && AllServed(l, turns)
    decreases |turns|
  {
    if turns != [] {
      assert turns[0] in turns && forall t | t in turns[1..] :: t in turns;
      StepAnswers(l, turns[0]);
      RunAnswers(Step(l, turns[0]), turns[1..]);
    }
  }

  lemma {:induction false} HungForEver(l: Ledger, turns: seq<Turn>)
    requires l.hung
    ensures Run(l, turns) == l
    decreases |turns|
  {
    if turns != [] {
      HungForEver(l, turns[1..]);
    }
  }

  /** The first turn that hangs is the last one: its first request gets one reply, and nobody after that gets any. */
  lemma {:induction false} RunHangs(l: Ledger, turns: seq<Turn>, k: nat)
    requires !l.hung && k < |turns| && Hangs(turns[k]) && NeverHangs(turns[..k])
    requires forall t | t in turns :: DistinctTurn(t)
    ensures var before := Run(l, turns[..k]);
            Run(l, turns) == Ledger(before.repo, before.replies + [Reply(turns[k].first.id, Canceled)], true)
    decreases k
  {
    assert turns[0] in turns && forall t | t in turns[1..] :: t in turns;
    TurnBlocksIff(l, turns[0]);
    if k == 0 {
      HungForEver(Step(l, turns[0]), turns[1..]);
    } else {
      assert turns[..k][0] == turns[0] && turns[..k][1..] == turns[1..][..k - 1];
      assert turns[0] in turns[..k];
      assert forall t | t in turns[1..][..k - 1] :: t in turns[..k];
      StepAnswers(l, turns[0]);
      RunHangs(Step(l, turns[0]), turns[1..], k - 1);
    }
  }

  lemma {:induction false} FirstHang(turns: seq<Turn>) returns (k: nat)
    requires !NeverHangs(turns)
    ensures k < |turns| && Hangs(turns[k]) && NeverHangs(turns[..k])
    decreases |turns|
  {
    if Hangs(turns[0]) {
      k := 0;
    } else {
      assert turns == [turns[0]] + turns[1..];
      var i := FirstHang(turns[1..]);
      k := i + 1;
      assert turns[..k] == [turns[0]] + turns[1..][..i];
    }
  }

  lemma {:induction false} ServedSize(turns: seq<Turn>, k: nat)
    requires k < |turns|
    ensures |ServedIn(turns)| >= |ServedIn(turns[..k])| + |Served(turns[k])|
    decreases k
  {
    if k == 0 {
      assert turns[..0] == [];
    } else {
      assert turns[..k][0] == turns[0] && turns[..k][1..] == turns[1..][..k - 1];
      ServedSize(turns[1..], k - 1);
    }
  }

  /** Everybody gets the replies that are due if and only if no turn hangs, and the worker goes on if and only if none does. */
  lemma AllServedIff(l: Ledger, turns: seq<Turn>)
    requires !l.hung && forall t | t in turns :: DistinctTurn(t)
    ensures AllServed(l, turns) <==> NeverHangs(turns)
    ensures Run(l, turns).hung <==> !NeverHangs(turns)
  {
    if NeverHangs(turns) {
      RunAnswers(l, turns);
    } else {
      var k := FirstHang(turns);
      RunHangs(l, turns, k);
      assert forall t | t in turns[..k] :: t in turns;
      RunAnswers(l, turns[..k]);
      ServedSize(turns, k);
      var before := Run(l, turns[..k]);
      assert |multiset(Recipients(before.replies))| == |l.replies| + |ServedIn(turns[..k])|;
      assert |multiset(Recipients(Run(l, turns).replies))| == |before.replies| + 1;
      assert |multiset(Recipients(l.replies)) + multiset(ServedIn(turns))| == |l.replies| + |ServedIn(turns)|;
    }
  }

  /** The hanging input: a caller that leaves on its canceled request stops the worker for everybody after it. */
  lemma CanceledCallerStopsWorker(l: Ledger, e: Element, queue: seq<Element>, later: seq<Turn>)
    requires !l.hung && e.canceled && !e.present && Distinct([e] + queue)
    ensures Run(l, [Turn(e, queue)] + later) == Ledger(l.repo, l.replies + [Reply(e.id, Canceled)], true)
  {
    var turns := [Turn(e, queue)] + later;
    assert turns[1..] == later;
    TurnBlocksIff(l, Turn(e, queue));
    HungForEver(Step(l, Turn(e, queue)), later);
  }

  // ---- Commits ----

  function Most(r: Repo, id: nat): nat {
    if Count(r.head, id) > Count(r.remote, id) then Count(r.head, id) else Count(r.remote, id)
  }

  function Times(es: seq<Element>, id: nat): nat {
    multiset(Ids(es))[id]
  }

  lemma PrefixTimes(es: seq<Element>, n: nat, id: nat)
    requires n <= |es|
    ensures Times(es[..n], id) <= Times(es, id)
  {
    assert es == es[..n] + es[n..];
    IdsOfTwo(es[..n], es[n..]);
  }

  lemma CarriedPart(h: History, base: History, reset: History, es: seq<Element>, id: nat)
    requires CarriesPart(h, base, reset, es)
    ensures Count(h, id) <= (if Count(base, id) > Count(reset, id) then Count(base, id) else Count(reset, id)) + Times(es, id)
  {
    var n :| 0 <= n <= |es| && (Carries(h, base, es[..n]) || Carries(h, reset, es[..n]));
    PrefixTimes(es, n, id);
    if Carries(h, base, es[..n]) {
      CountCarried(h, base, es[..n], id);
    } else {
      CountCarried(h, reset, es[..n], id);
    }
  }

  lemma ApplyCounts(r: Repo, es: seq<Element>, replies: seq<Reply>, allowReset: bool, id: nat)
    ensures var a := Apply(r, [], es, replies, allowReset);
            && r.remote <= a.repo.remote
            && Most(a.repo, id) <= Most(r, id) + Times(a.left, id)
            && Count(a.repo.remote, id) == Count(r.remote, id)
  {
    var a := Apply(r, [], es, replies, allowReset);
    ApplyBuilds(r, [], es, replies, allowReset, r.head);
    CountGrown(r.remote, a.repo.remote, id);
    CarriedPart(a.repo.head, r.head, a.repo.remote, a.left, id);
  }

  lemma PushCounts(r: Repo, id: nat)
    ensures var p := PushRetrying(r, MAX_RETRIES);
            && r.remote <= p.repo.remote
            && Most(p.repo, id) <= Most(r, id)
            && (p.result != Pushed ==> Count(p.repo.remote, id) == Count(r.remote, id))
  {
    PushEffect(r, MAX_RETRIES);
    var p := PushRetrying(r, MAX_RETRIES);
    if p.result != Pushed {
      CountGrown(r.remote, p.repo.remote, id);
    }
  }

  lemma FetchCounts(r: Repo, id: nat)
    ensures var f := FetchAndReset(r);
            && r.remote <= f.repo.remote
            && Count(f.repo.remote, id) == Count(r.remote, id)
            && Most(f.repo, id) <= Most(r, id)
            && (f.ok ==> f.repo.head == f.repo.remote)
  {
    assert Grows(r.remote, FetchAndReset(r).repo.remote);
    CountGrown(r.remote, FetchAndReset(r).repo.remote, id);
  }

  lemma AppliedAgainCounts(r: Repo, left: seq<Element>, replies: seq<Reply>, id: nat)
    requires r.head == r.remote
    ensures var again := Apply(r, [], left, replies, false);
            var push := PushRetrying(again.repo, MAX_RETRIES);
            && r.remote <= again.repo.remote <= push.repo.remote
            && Most(again.repo, id) <= Count(r.remote, id) + Times(again.left, id)
            && Most(push.repo, id) <= Count(r.remote, id) + Times(again.left, id)
  {
    ApplyCounts(r, left, replies, false, id);
    PushCounts(Apply(r, [], left, replies, false).repo, id);
  }

  lemma PushAgainCounts(r: Repo, left: seq<Element>, replies: seq<Reply>, before: nat, id: nat)
    requires Count(r.remote, id) <= before && Most(r, id) <= before + Times(left, id)
    ensures var p := PushAgain(r, left, replies);
            r.remote <= p.repo.remote && Most(p.repo, id) <= before + Times(p.left, id)
  {
    FetchCounts(r, id);
    PushAgainShape(r, left, replies);
    var fetched := FetchAndReset(r);
    if fetched.ok {
      AppliedAgainCounts(fetched.repo, left, replies, id);
    }
  }

  lemma PushAgainShape(r: Repo, left: seq<Element>, replies: seq<Reply>)
    ensures var p := PushAgain(r, left, replies);
            var fetched := FetchAndReset(r);
            var again := Apply(fetched.repo, [], left, replies, false);
            if fetched.ok then p.left == again.left && p.repo in {again.repo, PushRetrying(again.repo, MAX_RETRIES).repo}
            else p.left == left && p.repo == fetched.repo
  {
  }

  /** A turn forgets nothing on the remote, and commits nothing that it answered with a rejection. */
  lemma ProcessCounts(r: Repo, es: seq<Element>, replies: seq<Reply>, id: nat)
    ensures var p := Process(r, es, replies);
            r.remote <= p.repo.remote && Most(p.repo, id) <= Most(r, id) + Times(p.left, id)
  {
    ApplyCounts(r, es, replies, true, id);
    var a := Apply(r, [], es, replies, true);
    if a.error.None? && a.left != [] {
      PushCounts(a.repo, id);
      var push := PushRetrying(a.repo, MAX_RETRIES);
      if push.result == Diverged {
        PushAgainCounts(push.repo, a.left, a.replies, Most(r, id), id);
      }
    }
  }

  function WorkedOn(t: Turn): seq<Element> {
    if t.first.canceled then [] else [t.first] + Live(t.queue)
  }

  function WorkedOnIn(turns: seq<Turn>): seq<Element> {
    if turns == [] then [] else WorkedOn(turns[0]) + WorkedOnIn(turns[1..])
  }

  lemma StepCounts(l: Ledger, t: Turn, id: nat)
    ensures l.repo.remote <= Step(l, t).repo.remote
    ensures Most(Step(l, t).repo, id) <= Most(l.repo, id) + Times(WorkedOn(t), id)
  {
    if !t.first.canceled {
      var es, replies := [t.first] + Live(t.queue), CanceledReplies(t.queue);
      ProcessCounts(l.repo, es, replies, id);
      LeftInOrder(l.repo, es, replies);
      SubsequenceIds(Process(l.repo, es, replies).left, es);
    }
  }

  /** No request is ever committed more often than it was worked on, locally or remotely, and the remote only grows. */
  lemma {:induction false} RunCounts(l: Ledger, turns: seq<Turn>, id: nat)
    ensures l.repo.remote <= Run(l, turns).repo.remote
    ensures Most(Run(l, turns).repo, id) <= Most(l.repo, id) + Times(WorkedOnIn(turns), id)
    decreases |turns|
  {
    if turns != [] {
      StepCounts(l, turns[0], id);
      RunCounts(Step(l, turns[0]), turns[1..], id);
      IdsOfTwo(WorkedOn(turns[0]), WorkedOnIn(turns[1..]));
    }
  }

  // ---- No error means it is there ----

  /** Whoever got a reply without an error has a commit on the remote. */
  ghost predicate Kept(l: Ledger) {
    forall id {:trigger Count(l.repo.remote, id)} :: Reply(id, Nil) in l.replies ==> Count(l.repo.remote, id) >= 1
  }

  lemma {:induction false} ApplyNeverNil(r: Repo, done: seq<Element>, rest: seq<Element>, replies: seq<Reply>, allowReset: bool, id: nat)
    ensures Reply(id, Nil) in Apply(r, done, rest, replies, allowReset).replies <==> Reply(id, Nil) in replies
    decreases allowReset, |rest|
  {
    if rest != [] {
      match ApplyTransformers(Tree(r.head), rest[0].transformers)
      case Ok(tree) =>
        ApplyNeverNil(r.(head := r.head + [CommitOf(rest[0], tree)]), done + [rest[0]], rest[1..], replies, allowReset, id);
      case Err(error) =>
        if error == InvalidJson && allowReset {
          ApplyNeverNil(FetchAndReset(r).repo, [], done + rest, replies, false, id);
        } else {
          ApplyNeverNil(r, done, rest[1..], replies + [Reply(rest[0].id, Rejected(error))], allowReset, id);
        }
    }
  }

  lemma FinishNil(repo: Repo, replies: seq<Reply>, left: seq<Element>, final: Answer, id: nat)
    ensures Reply(id, Nil) in Finish(repo, replies, left, final).replies <==>
            Reply(id, Nil) in replies || (final == Nil && id in Ids(left))
  {
    var news := ReplyAll(left, final);
    if final == Nil && id in Ids(left) {
      var i :| 0 <= i < |left| && left[i].id == id;
      assert news[i] == Reply(id, Nil);
    }
    if Reply(id, Nil) in news {
      var i :| 0 <= i < |news| && news[i] == Reply(id, Nil);
      assert Ids(left)[i] == id;
    }
  }

  lemma PushAgainNil(r: Repo, left: seq<Element>, replies: seq<Reply>, id: nat)
    ensures var p := PushAgain(r, left, replies);
            Reply(id, Nil) in p.replies <==> Reply(id, Nil) in replies || (p.final == Nil && id in Ids(p.left))
  {
    var p := PushAgain(r, left, replies);
    var fetched := FetchAndReset(r);
    if fetched.ok {
      ApplyNeverNil(fetched.repo, [], left, replies, false, id);
      var again := Apply(fetched.repo, [], left, replies, false);
      assert p == Finish(p.repo, again.replies, again.left, p.final);
      FinishNil(p.repo, again.replies, again.left, p.final, id);
    } else {
      FinishNil(fetched.repo, replies, left, NotFetched, id);
    }
  }

  /** Replies without an error go exactly to what is left at the end, if that is the final answer. */
  lemma ProcessNil(r: Repo, es: seq<Element>, replies: seq<Reply>, id: nat)
    ensures var p := Process(r, es, replies);
            Reply(id, Nil) in p.replies <==> Reply(id, Nil) in replies || (p.final == Nil && id in Ids(p.left))
  {
    var p := Process(r, es, replies);
    var a := Apply(r, [], es, replies, true);
    ApplyNeverNil(r, [], es, replies, true, id);
    var push := PushRetrying(a.repo, MAX_RETRIES);
    if a.error.None? && a.left != [] && push.result == Diverged {
      PushAgainNil(push.repo, a.left, a.replies, id);
    } else {
      assert p == Finish(p.repo, a.replies, a.left, p.final);
      FinishNil(p.repo, a.replies, a.left, p.final, id);
    }
  }

  lemma {:induction false} NotCanceledIsNil(queue: seq<Element>, id: nat)
    ensures Reply(id, Nil) !in CanceledReplies(queue)
    decreases |queue|
  {
    if queue != [] {
      NotCanceledIsNil(queue[1..], id);
    }
  }

  lemma AcceptedCount(h: History, start: Repo, left: seq<Element>, id: nat)
    requires Accepted(h, start, left) && id in Ids(left)
    ensures Count(h, id) >= 1
  {
    if Carries(h, start.head, left) {
      CountCarried(h, start.head, left, id);
    } else {
      var base :| Grows(start.remote, base) && Carries(h, base, left);
      CountCarried(h, base, left, id);
    }
  }

  ghost predicate SecondRefused(l: Ledger, t: Turn) {
    !l.hung && !t.first.canceled && SecondPushRefused(l.repo, [t.first] + Live(t.queue))
  }

  lemma NilSent(l: Ledger, t: Turn, id: nat)
    requires !l.hung && !t.first.canceled && DistinctTurn(t)
    ensures Step(l, t) == Ledger(Work(l, t).repo, l.replies + Work(l, t).replies, false)
    ensures Reply(id, Nil) in Step(l, t).replies <==>
            Reply(id, Nil) in l.replies || (Work(l, t).final == Nil && id in Ids(Work(l, t).left))
  {
    TurnBlocksIff(l, t);
    ProcessNil(l.repo, [t.first] + Live(t.queue), CanceledReplies(t.queue), id);
    NotCanceledIsNil(t.queue, id);
  }

  lemma {:induction false} OnlySent(slots: map<nat, Slot>, replies: seq<Reply>)
    ensures Deliver(slots, replies).sent <= replies
    decreases |replies|
  {
    if replies != [] && Send(SlotAt(slots, replies[0].to)).Some? {
      OnlySent(slots[replies[0].to := Send(SlotAt(slots, replies[0].to)).value], replies[1..]);
      assert replies == [replies[0]] + replies[1..];
    }
  }

  lemma StepKeeps(l: Ledger, t: Turn)
    requires Kept(l) && !SecondRefused(l, t) && DistinctTurn(t)
    ensures Kept(Step(l, t))
  {
    forall id | Reply(id, Nil) in Step(l, t).replies ensures Count(Step(l, t).repo.remote, id) >= 1 {
      if !l.hung && !t.first.canceled {
        NilSent(l, t, id);
        var p := Work(l, t);
        var es, replies := [t.first] + Live(t.queue), CanceledReplies(t.queue);
        if Reply(id, Nil) in l.replies {
          assert Count(l.repo.remote, id) >= 1;
          ProcessCounts(l.repo, es, replies, id);
          CountPrefix(l.repo.remote, p.repo.remote, id);
        } else {
          NilIsAccepted(l.repo, es, replies);
          AcceptedCount(p.repo.remote, l.repo, p.left, id);
        }
      } else {
        OnlySent(NewSlots([t.first] + t.queue), Sends(l, t));
        assert Count(l.repo.remote, id) >= 1;
      }
    }
  }

  /** No second push of the run is refused, and the requests of each turn are different ones. */
  ghost predicate Unrefused(l: Ledger, turns: seq<Turn>)
    decreases |turns|
  {
    turns == [] || (DistinctTurn(turns[0]) && !SecondRefused(l, turns[0]) && Unrefused(Step(l, turns[0]), turns[1..]))
  }

  /**
   After any run in which no second push was refused, everybody who got a reply without an error has a commit on
   the remote; with RunCounts, exactly one, if the request was new and came once.
   */
  lemma {:induction false} RunKeeps(l: Ledger, turns: seq<Turn>)
    requires Kept(l) && Unrefused(l, turns)
    ensures Kept(Run(l, turns))
    decreases |turns|
  {
    if turns != [] {
      StepKeeps(l, turns[0]);
      RunKeeps(Step(l, turns[0]), turns[1..]);
    }
  }

  lemma ExactlyOneCommit(l: Ledger, turns: seq<Turn>, id: nat)
    requires Count(l.repo.head, id) == 0 && Count(l.repo.remote, id) == 0 && Times(WorkedOnIn(turns), id) == 1
    ensures Kept(l) && Unrefused(l, turns) && Reply(id, Nil) in Run(l, turns).replies ==> Count(Run(l, turns).repo.remote, id) == 1
  {
    RunCounts(l, turns, id);
    if Kept(l) && Unrefused(l, turns) && Reply(id, Nil) in Run(l, turns).replies {
      RunKeeps(l, turns);
      assert Count(Run(l, turns).repo.remote, id) >= 1;
    }
  }

  // ---- Safety ----

  ghost predicate SafeHistory(h: History) {
    forall i | 0 <= i < |h| :: Safe(h[i].tree)
  }

  /** Other writers keep to the rules, too. */
  ghost predicate SafeScript(script: seq<Event>) {
    forall i, j | 0 <= i < |script| && 0 <= j < |script[i].others| :: Safe(script[i].others[j])
  }

  ghost predicate SafeRepo(r: Repo) {
    SafeHistory(r.head) && SafeHistory(r.remote) && SafeScript(r.script)
  }

  lemma AdvancedIsSafe(r: Repo)
    requires SafeRepo(r)
    ensures SafeRepo(Advanced(r))
  {
    if r.script != [] {
      assert forall j | 0 <= j < |r.script[0].others| :: Safe(r.script[0].others[j]);
      assert forall i, j | 0 <= i < |r.script[1..]| && 0 <= j < |r.script[1..][i].others| ::
          r.script[1..][i].others[j] == r.script[i + 1].others[j];
    }
  }

  lemma {:induction false} PushIsSafe(r: Repo, retries: nat)
    requires SafeRepo(r)
    ensures SafeRepo(PushRetrying(r, retries).repo)
    decreases retries
  {
    AdvancedIsSafe(r);
    if retries > 0 && !GivesUp(Next(r).outcome) {
      PushIsSafe(PushOnce(r).repo, retries - 1);
    }
  }

  lemma {:induction false} ApplyIsSafe(r: Repo, done: seq<Element>, rest: seq<Element>, replies: seq<Reply>, allowReset: bool)
    requires SafeRepo(r)
    ensures SafeRepo(Apply(r, done, rest, replies, allowReset).repo)
    decreases allowReset, |rest|
  {
    if rest != [] {
      EmptyIsSafe();
      BatchIsSafe(Tree(r.head), rest[0].transformers);
      match ApplyTransformers(Tree(r.head), rest[0].transformers)
      case Ok(tree) =>
        ApplyIsSafe(r.(head := r.head + [CommitOf(rest[0], tree)]), done + [rest[0]], rest[1..], replies, allowReset);
      case Err(error) =>
        if error == InvalidJson && allowReset {
          AdvancedIsSafe(r);
          ApplyIsSafe(FetchAndReset(r).repo, [], done + rest, replies, false);
        } else {
          ApplyIsSafe(r, done, rest[1..], replies + [Reply(rest[0].id, Rejected(error))], allowReset);
        }
    }
  }

  lemma PushAgainIsSafe(r: Repo, left: seq<Element>, replies: seq<Reply>)
    requires SafeRepo(r)
    ensures SafeRepo(PushAgain(r, left, replies).repo)
  {
    AdvancedIsSafe(r);
    var fetched := FetchAndReset(r);
    assert SafeRepo(fetched.repo);
    if fetched.ok {
      ApplyIsSafe(fetched.repo, [], left, replies, false);
      var again := Apply(fetched.repo, [], left, replies, false);
      PushIsSafe(again.repo, MAX_RETRIES);
    }
  }

  lemma PushAppliedShape(a: Applied)
    ensures var push := PushRetrying(a.repo, MAX_RETRIES);
            PushApplied(a).repo in {a.repo, push.repo, PushAgain(push.repo, a.left, a.replies).repo}
  {
  }

  lemma PushAppliedIsSafe(a: Applied)
    requires SafeRepo(a.repo)
    ensures SafeRepo(PushApplied(a).repo)
  {
    PushAppliedShape(a);
    PushIsSafe(a.repo, MAX_RETRIES);
    PushAgainIsSafe(PushRetrying(a.repo, MAX_RETRIES).repo, a.left, a.replies);
  }

  lemma ProcessIsSafe(r: Repo, es: seq<Element>, replies: seq<Reply>)
    requires SafeRepo(r)
    ensures SafeRepo(Process(r, es, replies).repo)
  {
    ApplyIsSafe(r, [], es, replies, true);
    PushAppliedIsSafe(Apply(r, [], es, replies, true));
  }

  /** End to end: if the other writers push sound trees, no commit on either branch ever has a dangling version. */
  lemma {:induction false} RunIsSafe(l: Ledger, turns: seq<Turn>)
    requires SafeRepo(l.repo)
    ensures SafeRepo(Run(l, turns).repo)
    decreases |turns|
  {
    if turns != [] {
      var t := turns[0];
      ProcessIsSafe(l.repo, [t.first] + Live(t.queue), CanceledReplies(t.queue));
      RunIsSafe(Step(l, t), turns[1..]);
    }
  }

  // ---- What does not hold ----

  lemma ApplySingle(r: Repo, e: Element, tree: World, replies: seq<Reply>, allowReset: bool)
    requires ApplyTransformers(Tree(r.head), e.transformers) == Ok(tree)
    ensures Apply(r, [], [e], replies, allowReset) == Applied(r.(head := r.head + [CommitOf(e, tree)]), [e], replies, None)
  {
    var next := r.(head := r.head + [CommitOf(e, tree)]);
    assert [e][1..] == [] && [] + [e] == [e];
    assert Apply(next, [e], [], replies, allowReset) == Applied(next, [e], replies, None);
  }

  lemma PushFirst(r: Repo)
    requires GivesUp(Next(r).outcome)
    ensures PushRetrying(r, MAX_RETRIES) == PushOnce(r)
  {
  }

  lemma ReplyOne(e: Element, answer: Answer)
    ensures [] + ReplyAll([e], answer) == [Reply(e.id, answer)]
  {
  }

  /** A second push that is refused: an answer without an error, but no commit on the remote. */
  lemma RefusedAnswersNil(h: History, e: Element, other: World)
    requires ApplyTransformers(Tree(h), e.transformers).Ok? && ApplyTransformers(other, e.transformers).Ok?
    ensures var r := Repo(h, h, [Event([other], Works), Event([], Works), Event([], Refuses)]);
            var p := Process(r, [e], []);
            p.replies == [Reply(e.id, Nil)] && p.repo.remote == h + [Commit(None, other)]
  {
    var script := [Event([other], Works), Event([], Works), Event([], Refuses)];
    var r := Repo(h, h, script);
    var tree := ApplyTransformers(Tree(h), e.transformers).value;
    var h1, h2 := h + [CommitOf(e, tree)], h + [Commit(None, other)];
    ApplySingle(r, e, tree, [], true);
    var applied := Repo(h1, h, script);
    PushFirst(applied);
    assert h + ByOthers([other]) == h2 && h2[|h|] != h1[|h|];
    var diverged := Repo(h1, h2, script[1..]);
    assert PushOnce(applied) == Push(diverged, Diverged);
    assert h2 + ByOthers([]) == h2;
    var reset := Repo(h2, h2, script[1..][1..]);
    assert FetchAndReset(diverged) == Fetched(reset, true);
    var tree2 := ApplyTransformers(other, e.transformers).value;
    ApplySingle(reset, e, tree2, [], false);
    var again := reset.(head := h2 + [CommitOf(e, tree2)]);
    PushFirst(again);
    assert PushOnce(again) == Push(again.(script := script[1..][1..][1..]), PushRefused);
    ReplyOne(e, Nil);
  }

  /** A push that is refused leaves the commits on the local branch: answered with an error, they arrive with the next one. */
  lemma ErrorMayArrive(h: History, e: Element, next: Element)
    requires var t := ApplyTransformers(Tree(h), e.transformers); t.Ok? && ApplyTransformers(t.value, next.transformers).Ok?
    ensures var r := Repo(h, h, [Event([], Refuses), Event([], Works)]);
            var p := Process(r, [e], []);
            var q := Process(p.repo, [next], []);
            && p.replies == [Reply(e.id, Protected)] && q.replies == [Reply(next.id, Nil)]
            && Count(q.repo.remote, e.id) >= 1
  {
    var script := [Event([], Refuses), Event([], Works)];
    var r := Repo(h, h, script);
    var tree := ApplyTransformers(Tree(h), e.transformers).value;
    var h1 := h + [CommitOf(e, tree)];
    ApplySingle(r, e, tree, [], true);
    var applied := Repo(h1, h, script);
    PushFirst(applied);
    assert h + ByOthers([]) == h;
    var refused := Repo(h1, h, script[1..]);
    assert PushOnce(applied) == Push(refused, PushRefused);
    ReplyOne(e, Protected);
    var tree2 := ApplyTransformers(tree, next.transformers).value;
    var h2 := h1 + [CommitOf(next, tree2)];
    ApplySingle(refused, next, tree2, [], true);
    var applied2 := refused.(head := h2);
    PushFirst(applied2);
    assert h <= h1 <= h2;
    assert PushOnce(applied2) == Push(Repo(h2, h2, script[1..][1..]), Pushed);
    ReplyOne(next, Nil);
    assert h2[..|h2| - 1] == h1 && Count(h1, e.id) >= 1;
  }
}
