/**
 The worker that turns queued requests into commits and pushes them to a branch that other writers push to as well.
 `Repo` is the local and the remote branch with what the network will do; the functions on it are what the methods
 of the class in Repository.dfy compute in place.
 */
module Worker {
  import opened Config
  import opened Deployment
  
  /** A commit, by the request with this number or by another writer. */
  datatype Commit = Commit(author: Option<nat>, tree: World)

  type History = seq<Commit>

  /**
   A request: its transformers, whether its context was already canceled when it was looked at, and whether its
   caller is still there to take a reply or has left because of its context.
   */
  datatype Element = Element(id: nat, transformers: seq<Transformer>, canceled: bool, present: bool)

  datatype Answer = Nil | Canceled | Panicked | Rejected(error: Error) | NotFetched | NotPushed | Protected

  /** A message on the result channel of a request. */
  datatype Reply = Reply(to: nat, answer: Answer)

  /** What happens to a fetch or a push attempt; `ResetLate` is a failure after the local branch was moved. */
  datatype Outcome = Works | ResetLate | Refuses | Lost(giveUp: bool) | TimesOut(giveUp: bool)

  /** Before a network operation, other writers may have pushed. */
  datatype Event = Event(others: seq<World>, outcome: Outcome)

  datatype Repo = Repo(head: History, remote: History, script: seq<Event>)

  /** Retries of a push besides the first attempt. */
  const MAX_RETRIES := 6

  function Tree(h: History): World {
    if h == [] then World(map[], map[]) else h[|h| - 1].tree
  }

  function ByOthers(trees: seq<World>): History {
    seq(|trees|, i requires 0 <= i < |trees| => Commit(None, trees[i]))
  }

  function Next(r: Repo): Event {
    if r.script == [] then Event([], Lost(true)) else r.script[0]
  }

  /** The branch after the next event's other writers. */
  function Advanced(r: Repo): Repo {
    Repo(r.head, r.remote + ByOthers(Next(r).others), if r.script == [] then [] else r.script[1..])
  }

  datatype Fetched = Fetched(repo: Repo, ok: bool)

  /** A fetch fails if there is no remote branch yet. */
  function FetchAndReset(r: Repo): Fetched {
    var r' := Advanced(r);
    match Next(r).outcome
    case Works => if r'.remote == [] then Fetched(r', false) else Fetched(r'.(head := r'.remote), true)
    case ResetLate => if r'.remote == [] then Fetched(r', false) else Fetched(r'.(head := r'.remote), false)
    case _ => Fetched(r', false)
  }

  datatype PushResult = Pushed | PushRefused | Diverged | PushLost | PushTimedOut

  datatype Push = Push(repo: Repo, result: PushResult)

  function PushOnce(r: Repo): Push {
    var r' := Advanced(r);
    match Next(r).outcome
    case Lost(_) => Push(r', PushLost)
    case TimesOut(_) => Push(r', PushTimedOut)
    case _ =>
      if !(r'.remote <= r'.head) then Push(r', Diverged)
      else if Next(r).outcome == Refuses then Push(r', PushRefused)
      else Push(r'.(remote := r'.head), Pushed)
  }

  predicate GivesUp(outcome: Outcome) {
    match outcome
    case Lost(giveUp) => giveUp
    case TimesOut(giveUp) => giveUp
    case _ => true
  }

  /** Attempts until one succeeds, diverges, or the time is up. */
  function PushRetrying(r: Repo, retries: nat): Push
    decreases retries
  {
    if retries == 0 || GivesUp(Next(r).outcome) then PushOnce(r)
    else PushRetrying(PushOnce(r).repo, retries - 1)
  }

  // ---- Applying elements ----

  /** What applying leaves: the elements not yet answered, the replies so far, and why it stopped early, if it did. */
  datatype Applied = Applied(repo: Repo, left: seq<Element>, replies: seq<Reply>, error: Option<Answer>)

  function CommitOf(e: Element, tree: World): Commit {
    Commit(Some(e.id), tree)
  }

  /** The loop of applyElements, with `done` applied and `rest` still to go. */
  ghost function Apply(r: Repo, done: seq<Element>, rest: seq<Element>, replies: seq<Reply>, allowReset: bool): Applied
    decreases allowReset, |rest|
  {
    if rest == [] then Applied(r, done, replies, None)
    else
      match ApplyTransformers(Tree(r.head), rest[0].transformers)
      case Ok(tree) =>
        Apply(r.(head := r.head + [CommitOf(rest[0], tree)]), done + [rest[0]], rest[1..], replies, allowReset)
      case Err(error) =>
        if error == InvalidJson && allowReset then
          var fetched := FetchAndReset(r);
          if fetched.ok then Apply(fetched.repo, [], done + rest, replies, false)
          else Applied(fetched.repo, done + rest, replies, Some(NotFetched))
        else Apply(r, done, rest[1..], replies + [Reply(rest[0].id, Rejected(error))], allowReset)
  }

  function ReplyAll(es: seq<Element>, answer: Answer): seq<Reply> {
    seq(|es|, i requires 0 <= i < |es| => Reply(es[i].id, answer))
  }

  /** A batch after its run; `left` are the elements answered together at the end, `final` is that answer. */
  datatype Processed = Processed(repo: Repo, replies: seq<Reply>, left: seq<Element>, final: Answer)

  function Finish(repo: Repo, replies: seq<Reply>, left: seq<Element>, final: Answer): Processed {
    Processed(repo, replies + ReplyAll(left, final), left, final)
  }

  /** After the push diverged: reset, apply what is left again, push again; whether that is refused is not looked at. */
  ghost function PushAgain(r: Repo, left: seq<Element>, replies: seq<Reply>): Processed {
    var fetched := FetchAndReset(r);
    if !fetched.ok then Finish(fetched.repo, replies, left, NotFetched)
    else
      var applied := Apply(fetched.repo, [], left, replies, false);
      if applied.left == [] then Finish(applied.repo, applied.replies, [], Nil)
      else
        var push := PushRetrying(applied.repo, MAX_RETRIES);
        Finish(push.repo, applied.replies, applied.left, if push.result in {Pushed, PushRefused} then Nil else NotPushed)
  }

  ghost function PushApplied(applied: Applied): Processed {
    if applied.error.Some? then Finish(applied.repo, applied.replies, applied.left, applied.error.value)
    else if applied.left == [] then Finish(applied.repo, applied.replies, [], Nil)
    else
      var push := PushRetrying(applied.repo, MAX_RETRIES);
      match push.result
      case Pushed => Finish(push.repo, applied.replies, applied.left, Nil)
      case PushRefused => Finish(push.repo, applied.replies, applied.left, Protected)
      case Diverged => PushAgain(push.repo, applied.left, applied.replies)
      case PushTimedOut => Finish(push.repo, applied.replies, applied.left, Canceled)
      case PushLost => Finish(push.repo, applied.replies, applied.left, NotPushed)
  }

  /** One run of the worker over the elements it took from the queue, after some replies. */
  ghost function Process(r: Repo, es: seq<Element>, replies: seq<Reply>): Processed {
    PushApplied(Apply(r, [], es, replies, true))
  }

  function Live(queue: seq<Element>): seq<Element> {
    if queue == [] then [] else (if queue[0].canceled then [] else [queue[0]]) + Live(queue[1..])
  }

  function CanceledReplies(queue: seq<Element>): seq<Reply> {
    if queue == [] then [] else (if queue[0].canceled then [Reply(queue[0].id, Canceled)] else []) + CanceledReplies(queue[1..])
  }

  // ---- Result channels ----

  /** The channel of a request has room for one reply; `reader` tells whether its caller is going to take one. */
  datatype Slot = Slot(full: bool, reader: bool)

  /** After a send; None if it blocks for good. A caller takes one reply and is gone. */
  function Send(slot: Slot): Option<Slot> {
    if !slot.full then Some(slot.(full := true))
    else if slot.reader then Some(slot.(reader := false))
    else None
  }

  /** What some sends one after the other have got through, and whether the last of them blocks. */
  datatype Delivered = Delivered(slots: map<nat, Slot>, sent: seq<Reply>, blocked: bool)

  function SlotAt(slots: map<nat, Slot>, id: nat): Slot {
    if id in slots then slots[id] else Slot(false, false)
  }

  function Deliver(slots: map<nat, Slot>, replies: seq<Reply>): Delivered
    decreases |replies|
  {
    if replies == [] then Delivered(slots, [], false)
    else
      match Send(SlotAt(slots, replies[0].to))
      case None => Delivered(slots, [], true)
      case Some(slot) =>
        var rest := Deliver(slots[replies[0].to := slot], replies[1..]);
        rest.(sent := [replies[0]] + rest.sent)
  }

  /** The channels as `queue.add` makes them. */
  function NewSlots(es: seq<Element>): map<nat, Slot> {
    if es == [] then map[] else NewSlots(es[1..])[es[0].id := Slot(false, es[0].present)]
  }
}
