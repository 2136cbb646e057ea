/** The worker as the program runs it, on a local and a remote branch, a queue and the result channels of the requests. */
module Repository {
  import opened Config
  import opened Deployment
  import opened Worker
  import opened WorkerRuns
  import T = Transformers

  lemma KeepOne(r: Repo, es: seq<Element>, i: nat, replies: seq<Reply>, allowReset: bool)
    requires i < |es| && ApplyTransformers(Tree(r.head), es[i].transformers).Ok?
    ensures var tree := ApplyTransformers(Tree(r.head), es[i].transformers).value;
            Apply(r, es[..i], es[i..], replies, allowReset) ==
            Apply(r.(head := r.head + [CommitOf(es[i], tree)]), es[..i + 1], es[i + 1..], replies, allowReset)
  {
    assert es[i..][0] == es[i] && es[i..][1..] == es[i + 1..] && es[..i + 1] == es[..i] + [es[i]];
  }

  lemma DropOne(r: Repo, es: seq<Element>, i: nat, replies: seq<Reply>, allowReset: bool, error: Error)
    requires i < |es| && ApplyTransformers(Tree(r.head), es[i].transformers) == Err(error)
    requires error != InvalidJson || !allowReset
    ensures var others := es[..i] + es[i + 1..];
            Apply(r, es[..i], es[i..], replies, allowReset) ==
            Apply(r, others[..i], others[i..], replies + [Reply(es[i].id, Rejected(error))], allowReset)
  {
    var others := es[..i] + es[i + 1..];
    assert others[..i] == es[..i] && others[i..] == es[i + 1..];
    assert es[i..][0] == es[i] && es[i..][1..] == es[i + 1..];
  }

  lemma Redo(r: Repo, es: seq<Element>, i: nat, replies: seq<Reply>)
    requires i < |es| && ApplyTransformers(Tree(r.head), es[i].transformers) == Err(InvalidJson)
    ensures var fetched := FetchAndReset(r);
            Apply(r, es[..i], es[i..], replies, true) ==
            if fetched.ok then Apply(fetched.repo, [], es, replies, false) else Applied(fetched.repo, es, replies, Some(NotFetched))
  {
    assert es[i..][0] == es[i] && es[..i] + es[i..] == es;
  }

  /** Capacity of the channel of requests. */
  const QUEUE_SIZE := 5

  /** Nothing has been sent to the channel of the request yet. */
  predicate Waits(slots: map<nat, Slot>, e: Element) {
    e.id in slots && slots[e.id] == Slot(false, e.present)
  }

  /** These requests have different channels, and all of them wait. */
  predicate Unanswered(slots: map<nat, Slot>, es: seq<Element>) {
    Distinct(es) && forall i | 0 <= i < |es| :: Waits(slots, es[i])
  }

  function IdSet(es: seq<Element>): set<nat> {
    set i | 0 <= i < |es| :: es[i].id
  }

  /** Only these channels have changed. */
  predicate OnlyAnswers(slots: map<nat, Slot>, slots': map<nat, Slot>, ids: set<nat>) {
    slots'.Keys == slots.Keys && forall id | id in slots && id !in ids :: slots'[id] == slots[id]
  }

  /** With one request answered, the others are as before. */
  lemma OthersUnanswered(slots: map<nat, Slot>, es: seq<Element>, i: nat, slot: Slot, others: seq<Element>)
    requires Unanswered(slots, es) && i < |es| && others == es[..i] + es[i + 1..]
    ensures Unanswered(slots[es[i].id := slot], others)
  {
    forall j | 0 <= j < |others| ensures others[j] == es[if j < i then j else j + 1] {}
  }

  lemma AnswersTrans(slots: map<nat, Slot>, slots1: map<nat, Slot>, slots2: map<nat, Slot>, ids: set<nat>, part: set<nat>)
    requires OnlyAnswers(slots, slots1, ids) && OnlyAnswers(slots1, slots2, part) && part <= ids
    ensures OnlyAnswers(slots, slots2, ids)
  {
  }

  /** Answers to some requests leave others unanswered. */
  lemma StillUnanswered(slots: map<nat, Slot>, slots': map<nat, Slot>, ids: set<nat>, others: seq<Element>)
    requires OnlyAnswers(slots, slots', ids) && Unanswered(slots, others) && IdSet(others) !! ids
    ensures Unanswered(slots', others)
  {
    forall i | 0 <= i < |others| ensures Waits(slots', others[i]) {
      assert Waits(slots, others[i]) && others[i].id in IdSet(others);
    }
  }

  lemma DistinctParts(slots: map<nat, Slot>, a: seq<Element>, b: seq<Element>)
    requires Unanswered(slots, a + b)
    ensures Unanswered(slots, a) && Unanswered(slots, b)
    ensures IdSet(a) !! IdSet(b) && IdSet(a + b) == IdSet(a) + IdSet(b)
  {
    forall i | 0 <= i < |a| ensures Waits(slots, a[i]) && (a + b)[i] == a[i] && a[i].id in IdSet(a + b) {
      assert Waits(slots, (a + b)[i]);
    }
    forall i | 0 <= i < |b| ensures Waits(slots, b[i]) && (a + b)[|a| + i] == b[i] && b[i].id in IdSet(a + b) {
      assert Waits(slots, (a + b)[|a| + i]);
    }
  }

  lemma TakeFirst(elements: seq<Element>, queue: seq<Element>)
    requires queue != []
    ensures var all, n := elements + queue, |elements|;
            && all[n] == queue[0]
            && all[..n] + all[n + 1..] == elements + queue[1..]
            && elements + [queue[0]] + queue[1..] == all
  {
  }

  lemma Regroup<X>(a: seq<X>, b: seq<X>, c: seq<X>, whole: seq<X>)
    requires whole == b + c
    ensures a + whole == (a + b) + c
  {
  }

  lemma TakeStep(elements: seq<Element>, replies: seq<Reply>, queue: seq<Element>)
    requires queue != []
    ensures var f := queue[0];
            && elements + Live(queue) == (if f.canceled then elements else elements + [f]) + Live(queue[1..])
            && replies + CanceledReplies(queue) ==
               replies + (if f.canceled then [Reply(f.id, Canceled)] else []) + CanceledReplies(queue[1..])
  {
    var f := queue[0];
    var live, canceled := if f.canceled then [] else [f], if f.canceled then [Reply(f.id, Canceled)] else [];
    Regroup(elements, live, Live(queue[1..]), Live(queue));
    Regroup(replies, canceled, CanceledReplies(queue[1..]), CanceledReplies(queue));
    assert elements + [] == elements;
  }

  lemma {:induction false} LiveIds(queue: seq<Element>)
    ensures IdSet(Live(queue)) <= IdSet(queue)
    decreases |queue|
  {
    if queue != [] {
      var rest := queue[1..];
      LiveIds(rest);
      var first := if queue[0].canceled then [] else [queue[0]];
      forall id | id in IdSet(Live(queue)) ensures id in IdSet(queue) {
        var i :| 0 <= i < |Live(queue)| && Live(queue)[i].id == id;
        if i < |first| {
          assert queue[0].id == id;
        } else {
          assert Live(rest)[i - |first|].id == id && id in IdSet(rest);
          var j :| 0 <= j < |rest| && rest[j].id == id;
          assert queue[j + 1].id == id;
        }
      }
    }
  }

  /** Draining the queue leaves the first request and what was drained unanswered. */
  lemma StartUnanswered(slots: map<nat, Slot>, slots': map<nat, Slot>, e: Element, queue: seq<Element>)
    requires Unanswered(slots, [e] + queue) && OnlyAnswers(slots, slots', IdSet(queue)) && Unanswered(slots', Live(queue))
    ensures Unanswered(slots', [e] + Live(queue))
    ensures OnlyAnswers(slots, slots', IdSet([e] + queue))
    ensures IdSet([e] + Live(queue)) <= IdSet([e] + queue)
  {
    DistinctParts(slots, [e], queue);
    StillUnanswered(slots, slots', IdSet(queue), [e]);
    LiveIds(queue);
    var all := [e] + Live(queue);
    forall i | 0 <= i < |all| ensures Waits(slots', all[i]) && all[i].id in IdSet([e] + queue) && (i > 0 ==> all[i].id != e.id) {
      if i == 0 {
        assert Waits(slots', [e][0]) && e.id == ([e] + queue)[0].id;
      } else {
        assert all[i] == Live(queue)[i - 1] && all[i].id in IdSet(Live(queue)) && [e][0].id in IdSet([e]);
      }
    }
    forall i, j | 0 <= i < j < |all| ensures all[i].id != all[j].id {
      if i > 0 {
        assert all[i] == Live(queue)[i - 1] && all[j] == Live(queue)[j - 1];
      }
    }
  }

  class Repository {
    var head: History
    var remote: History
    var script: seq<Event>
    var queue: seq<Element>
    /** The result channels, everything ever sent to them, and whether the worker is stuck in a send. */
    var slots: map<nat, Slot>
    var replies: seq<Reply>
    var hung: bool

    constructor (r: Repo)
      ensures Current() == r && queue == [] && slots == map[] && replies == [] && !hung
    {
      head, remote, script := r.head, r.remote, r.script;
      queue, slots, replies, hung := [], map[], [], false;
    }

    function Current(): Repo
      reads this
    {
      Repo(head, remote, script)
    }

    /** Sends to an empty channel, which never blocks. */
    method Answer(to: nat, answer: Answer)
      requires to in slots && !slots[to].full
      modifies this`replies, this`slots
      ensures replies == old(replies) + [Reply(to, answer)]
      ensures slots == old(slots)[to := old(slots)[to].(full := true)]
    {
      replies := replies + [Reply(to, answer)];
      slots := slots[to := slots[to].(full := true)];
    }

    /** Sends to any channel; if it is full and nobody is there to read, this is the end. */
    method AnswerOrHang(to: nat, answer: Answer)
      requires to in slots && !hung
      modifies this`replies, this`slots, this`hung
      ensures match Send(old(slots)[to])
              case Some(slot) => !hung && replies == old(replies) + [Reply(to, answer)] && slots == old(slots)[to := slot]
              case None => hung && replies == old(replies) && slots == old(slots)
    {
      if !slots[to].full {
        Answer(to, answer);
      } else if slots[to].reader {
        replies := replies + [Reply(to, answer)];
        slots := slots[to := slots[to].(reader := false)];
      } else {
        hung := true;
      }
    }

    /** Other writers get ahead of the next network operation. */
    method Await() returns (outcome: Outcome)
      modifies this`remote, this`script
      ensures Current() == Advanced(old(Current())) && outcome == Next(old(Current())).outcome
    {
      if script == [] {
        return Lost(true);
      }
      outcome := script[0].outcome;
      remote := remote + ByOthers(script[0].others);
      script := script[1..];
    }

    method Reset() returns (ok: bool)
      modifies this`head, this`remote, this`script
      ensures Fetched(Current(), ok) == FetchAndReset(old(Current()))
    {
      var outcome := Await();
      ok := false;
      if (outcome == Works || outcome == ResetLate) && remote != [] {
        head := remote;
        ok := outcome == Works;
      }
    }

    method TryPush() returns (result: PushResult)
      modifies this`remote, this`script
      ensures Push(Current(), result) == PushOnce(old(Current()))
    {
      var outcome := Await();
      if outcome.Lost? {
        return PushLost;
      }
      if outcome.TimesOut? {
        return PushTimedOut;
      }
      if !(remote <= head) {
        return Diverged;
      }
      if outcome == Refuses {
        return PushRefused;
      }
      remote := head;
      result := Pushed;
    }

    method PushWithRetries() returns (result: PushResult)
      modifies this`remote, this`script
      ensures Push(Current(), result) == PushRetrying(old(Current()), MAX_RETRIES)
    {
      var retries: nat := MAX_RETRIES;
      ghost var start := Current();
      while retries > 0 && !GivesUp(Next(Current()).outcome)
        invariant PushRetrying(start, MAX_RETRIES) == PushRetrying(Current(), retries)
        decreases retries
      {
        result := TryPush();
        retries := retries - 1;
      }
      result := TryPush();
    }

    method ApplyOne(e: Element) returns (error: Option<Error>)
      modifies this`head
      ensures match error
              case None => ApplyTransformers(Tree(old(head)), e.transformers).Ok?
                           && head == old(head) + [CommitOf(e, ApplyTransformers(Tree(old(head)), e.transformers).value)]
              case Some(x) => ApplyTransformers(Tree(old(head)), e.transformers) == Err(x) && head == old(head)
    {
      var state := new T.State(Tree(head));
      error := state.PerformAll(e.transformers);
      if error.None? {
        head := head + [CommitOf(e, state.Current())];
      }
    }

    /** Answers one of several requests; the others still wait. */
    method AnswerOneOf(es: seq<Element>, i: nat, answer: Answer, ghost others: seq<Element>)
      requires Unanswered(slots, es) && i < |es| && others == es[..i] + es[i + 1..]
      modifies this`replies, this`slots
      ensures replies == old(replies) + [Reply(es[i].id, answer)]
      ensures Unanswered(slots, others) && OnlyAnswers(old(slots), slots, {es[i].id})
    {
      assert Waits(slots, es[i]);
      OthersUnanswered(slots, es, i, slots[es[i].id].(full := true), others);
      Answer(es[i].id, answer);
    }

    /** Goes through the elements by index and drops the failing ones from the list in place. */
    method ApplyElements(es: seq<Element>, allowReset: bool) returns (elements: seq<Element>, error: Option<Answer>)
      requires Unanswered(slots, es)
      modifies this`head, this`remote, this`script, this`replies, this`slots
      ensures var a := Apply(old(Current()), [], es, old(replies), allowReset);
              Applied(Current(), elements, replies, error) == a
      ensures Unanswered(slots, elements) && OnlyAnswers(old(slots), slots, IdSet(es)) && IdSet(elements) <= IdSet(es)
      decreases allowReset
    {
      ghost var whole := Apply(Current(), [], es, replies, allowReset);
      elements := es;
      var i := 0;
      while i < |elements|
        invariant i <= |elements|
        invariant whole == Apply(Current(), elements[..i], elements[i..], replies, allowReset)
        invariant remote == old(remote) && script == old(script)
        invariant Unanswered(slots, elements) && OnlyAnswers(old(slots), slots, IdSet(es)) && IdSet(elements) <= IdSet(es)
        decreases |elements| - i
      {
        var e := elements[i];
        ghost var r, before := Current(), slots;
        var failed := ApplyOne(e);
        match failed {
          case None =>
            KeepOne(r, elements, i, replies, allowReset);
            i := i + 1;
          case Some(x) =>
            if x == InvalidJson && allowReset {
              Redo(r, elements, i, replies);
              var ok := Reset();
              if !ok {
                return elements, Some(NotFetched);
              }
              ghost var part := IdSet(elements);
              elements, error := ApplyElements(elements, false);
              AnswersTrans(old(slots), before, slots, IdSet(es), part);
              return;
            }
            DropOne(r, elements, i, replies, allowReset, x);
            elements := DropFailed(elements, i, x, old(slots), IdSet(es));
        }
      }
      assert elements[..i] == elements && elements[i..] == [];
      error := None;
    }

    /** Answers a failing element and takes it out of the list. */
    method DropFailed(elements: seq<Element>, i: nat, error: Error, ghost start: map<nat, Slot>, ghost ids: set<nat>)
      returns (others: seq<Element>)
      requires Unanswered(slots, elements) && i < |elements|
      requires OnlyAnswers(start, slots, ids) && IdSet(elements) <= ids
      modifies this`replies, this`slots
      ensures others == elements[..i] + elements[i + 1..] && replies == old(replies) + [Reply(elements[i].id, Rejected(error))]
      ensures Unanswered(slots, others) && OnlyAnswers(start, slots, ids) && IdSet(others) <= ids
    {
      others := elements[..i] + elements[i + 1..];
      assert elements[i].id in IdSet(elements);
      forall id | id in IdSet(others) ensures id in IdSet(elements) {
        var j :| 0 <= j < |others| && others[j].id == id;
        assert elements[if j < i then j else j + 1].id == id;
      }
      AnswerOneOf(elements, i, Rejected(error), others);
      AnswersTrans(start, old(slots), slots, ids, {elements[i].id});
    }

    method TakeOne(elements: seq<Element>) returns (next: seq<Element>)
      requires queue != [] && Unanswered(slots, elements + queue)
      modifies this`queue, this`replies, this`slots
      ensures queue == old(queue)[1..] && Unanswered(slots, next + queue) && OnlyAnswers(old(slots), slots, {old(queue)[0].id})
      ensures var f := old(queue)[0];
              && next == (if f.canceled then elements else elements + [f])
              && replies == old(replies) + (if f.canceled then [Reply(f.id, Canceled)] else [])
    {
      TakeFirst(elements, queue);
      var f := queue[0];
      if f.canceled {
        AnswerOneOf(elements + queue, |elements|, Canceled, elements + queue[1..]);
        next := elements;
      } else {
        next := elements + [f];
      }
      queue := queue[1..];
    }

    /** Takes everything from the queue; what is already canceled is answered at once. */
    method DrainQueue() returns (elements: seq<Element>)
      requires Unanswered(slots, queue)
      modifies this`queue, this`replies, this`slots
      ensures queue == [] && elements == Live(old(queue)) && replies == old(replies) + CanceledReplies(old(queue))
      ensures Unanswered(slots, elements) && OnlyAnswers(old(slots), slots, IdSet(old(queue)))
    {
      elements := [];
      ghost var start, k := queue, 0;
      assert elements + queue == queue;
      while queue != []
        invariant k <= |start| && queue == start[k..]
        invariant elements + Live(queue) == Live(start)
        invariant replies + CanceledReplies(queue) == old(replies) + CanceledReplies(start)
        invariant Unanswered(slots, elements + queue) && OnlyAnswers(old(slots), slots, IdSet(start))
        decreases |queue|
      {
        assert start[k] == queue[0] && start[k].id in IdSet(start);
        ghost var before, id := slots, queue[0].id;
        TakeStep(elements, replies, queue);
        elements := TakeOne(elements);
        AnswersTrans(old(slots), before, slots, IdSet(start), {id});
        k := k + 1;
      }
      assert elements + queue == elements;
    }

    method AnswerAll(es: seq<Element>, answer: Answer)
      requires Unanswered(slots, es)
      modifies this`replies, this`slots
      ensures replies == old(replies) + ReplyAll(es, answer)
      ensures OnlyAnswers(old(slots), slots, IdSet(es))
    {
      for i := 0 to |es|
        invariant replies == old(replies) + ReplyAll(es[..i], answer)
        invariant Unanswered(slots, es[i..]) && OnlyAnswers(old(slots), slots, IdSet(es))
      {
        ghost var before := slots;
        assert es[i].id in IdSet(es);
        assert ReplyAll(es[..i + 1], answer) == ReplyAll(es[..i], answer) + [Reply(es[i].id, answer)];
        AnswerOneOf(es[i..], 0, answer, es[i + 1..]);
        AnswersTrans(old(slots), before, slots, IdSet(es), {es[i].id});
      }
      assert es[..|es|] == es;
    }

    /** `queue.add`: the element gets a channel, and goes into the queue when there is room, or its context ends first. */
    method Add(e: Element, sent: bool)
      requires if sent then |queue| < QUEUE_SIZE else e.canceled
      requires e.id !in slots && Unanswered(slots, queue)
      modifies this`queue, this`replies, this`slots
      ensures queue == if sent then old(queue) + [e] else old(queue)
      ensures replies == if sent then old(replies) else old(replies) + [Reply(e.id, Canceled)]
      ensures slots == old(slots)[e.id := Slot(!sent, e.present)] && Unanswered(slots, queue)
    {
      assert forall i | 0 <= i < |queue| :: Waits(slots, queue[i]) && queue[i].id != e.id;
      slots := slots[e.id := Slot(false, e.present)];
      if sent {
        queue := queue + [e];
      } else {
        Answer(e.id, Canceled);
      }
      assert forall i | 0 <= i < |old(queue)| :: Waits(slots, old(queue)[i]);
    }

    /**
     One turn of the worker with `e` taken from the queue. It blocks if and only if `e` is canceled and its caller has
     left; every other send goes to an empty channel.
     */
    method ProcessQueueOnce(e: Element)
      requires !hung && Unanswered(slots, [e] + queue)
      modifies this
      ensures Ledger(Current(), replies, hung) == Step(Ledger(old(Current()), old(replies), false), Turn(e, old(queue)))
      ensures hung <==> Hangs(Turn(e, old(queue)))
      ensures queue == (if e.canceled then old(queue) else []) && Unanswered(slots, queue)
      ensures OnlyAnswers(old(slots), slots, IdSet([e] + old(queue)))
      ensures SafeRepo(old(Current())) ==> SafeRepo(Current())
    {
      StepResult(Current(), replies, Turn(e, queue));
      if e.canceled {
        RefuseCanceled(e);
      } else {
        if SafeRepo(Current()) {
          ProcessIsSafe(Current(), [e] + Live(queue), replies + CanceledReplies(queue));
        }
        ProcessWithQueue(e);
      }
    }

    method ProcessWithQueue(e: Element)
      requires Unanswered(slots, [e] + queue)
      modifies this`queue, this`head, this`remote, this`script, this`replies, this`slots
      ensures var p := Process(old(Current()), [e] + Live(old(queue)), old(replies) + CanceledReplies(old(queue)));
              Current() == p.repo && replies == p.replies
      ensures queue == [] && OnlyAnswers(old(slots), slots, IdSet([e] + old(queue)))
    {
      ghost var start := queue;
      DistinctParts(slots, [e], queue);
      var elements := [e];
      var drained := DrainQueue();
      elements := elements + drained;
      StartUnanswered(old(slots), slots, e, start);
      ghost var middle := slots;
      ProcessElements(elements);
      AnswersTrans(old(slots), middle, slots, IdSet([e] + start), IdSet(elements));
    }

    /** What the endless loop does each time: the oldest request of the queue begins a turn. */
    method Serve()
      requires !hung && queue != [] && Unanswered(slots, queue)
      modifies this
      ensures Ledger(Current(), replies, hung) ==
              Step(Ledger(old(Current()), old(replies), false), Turn(old(queue)[0], old(queue)[1..]))
      ensures Unanswered(slots, queue) && |queue| < |old(queue)|
    {
      var e := queue[0];
      assert [e] + queue[1..] == queue;
      queue := queue[1..];
      ProcessQueueOnce(e);
    }

    /** The error of the context, and then the one that stands for a panic, since nothing has replaced it. */
    method RefuseCanceled(e: Element)
      requires !hung && Unanswered(slots, [e] + queue)
      modifies this`replies, this`slots, this`hung
      ensures hung == !e.present
      ensures replies == old(replies) + if e.present then [Reply(e.id, Canceled), Reply(e.id, Panicked)] else [Reply(e.id, Canceled)]
      ensures Unanswered(slots, queue) && OnlyAnswers(old(slots), slots, IdSet([e] + queue))
    {
      DistinctParts(slots, [e], queue);
      assert Waits(slots, [e][0]) && [e][0].id in IdSet([e]);
      Answer(e.id, Canceled);
      AnswerOrHang(e.id, Panicked);
      StillUnanswered(old(slots), slots, IdSet([e]), queue);
    }

    method ProcessElements(es: seq<Element>)
      requires Unanswered(slots, es)
      modifies this`head, this`remote, this`script, this`replies, this`slots
      ensures var p := Process(old(Current()), es, old(replies));
              Current() == p.repo && replies == p.replies
      ensures OnlyAnswers(old(slots), slots, IdSet(es))
    {
      var elements, error := ApplyElements(es, true);
      ghost var applied := slots;
      if error.Some? {
        AnswerAll(elements, error.value);
      } else if elements != [] {
        PushElements(elements);
      }
      AnswersTrans(old(slots), applied, slots, IdSet(es), IdSet(elements));
    }

    method PushElements(es: seq<Element>)
      requires es != [] && Unanswered(slots, es)
      modifies this`head, this`remote, this`script, this`replies, this`slots
      ensures var p := PushApplied(Applied(old(Current()), es, old(replies), None));
              Current() == p.repo && replies == p.replies
      ensures OnlyAnswers(old(slots), slots, IdSet(es))
    {
      var elements := es;
      var result := PushWithRetries();
      match result {
        case Pushed => AnswerAll(elements, Nil);
        case PushRefused => AnswerAll(elements, Protected);
        case PushTimedOut => AnswerAll(elements, Canceled);
        case PushLost => AnswerAll(elements, NotPushed);
        case Diverged => ResetAndPush(elements);
      }
    }

    method ResetAndPush(es: seq<Element>)
      requires es != [] && Unanswered(slots, es)
      modifies this`head, this`remote, this`script, this`replies, this`slots
      ensures var p := PushAgain(old(Current()), es, old(replies));
              Current() == p.repo && replies == p.replies
      ensures OnlyAnswers(old(slots), slots, IdSet(es))
    {
      var ok := Reset();
      if !ok {
        AnswerAll(es, NotFetched);
        return;
      }
      var elements, _ := ApplyElements(es, false);
      if elements == [] {
        return;
      }
      ghost var applied := slots;
      var result := PushWithRetries();
      AnswerAll(elements, if result == Pushed || result == PushRefused then Nil else NotPushed);
      AnswersTrans(old(slots), applied, slots, IdSet(es), IdSet(elements));
    }
  }
}
