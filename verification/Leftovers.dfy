/**
 Commits of requests that were answered with an error: when they stay on the local branch, and when a later turn
 takes them to the remote.
 */
module Leftovers {
  import opened Config
  import opened Delivery
  import opened Deployment
  import opened Worker
  import opened WorkerRuns

  /** A fetch puts the local branch on the remote one, whether it then fails or not. */
  predicate MovesHead(r: Repo) {
    Advanced(r).remote != [] && Next(r).outcome in {Works, ResetLate}
  }

  /** Applying meets a broken configuration and cannot fetch another one. */
  ghost predicate StopsEarly(r: Repo, es: seq<Element>) {
    BeforeBroken(r.head, es) < |es| && !FetchAndReset(r).ok
  }

  /** The survivors before the first broken configuration. */
  ghost function BeforeStop(r: Repo, es: seq<Element>): seq<Element> {
    Fold(r.head, es[..BeforeBroken(r.head, es)]).left
  }

  /** The first push of a turn, and what came before it. */
  ghost function FirstPush(r: Repo, es: seq<Element>): Push {
    PushRetrying(Apply(r, [], es, [], true).repo, MAX_RETRIES)
  }

  /**
   Of what is answered at the end of a turn, a commit is on the local branch unless a failing fetch has moved the
   branch away; if applying stopped at a broken configuration, only what came before that has one.
   */
  ghost predicate StaysLocal(r: Repo, es: seq<Element>, id: nat) {
    if StopsEarly(r, es) then !MovesHead(r) && id in Ids(BeforeStop(r, es))
    else
      var push := FirstPush(r, es);
      push.result == Diverged && !FetchAndReset(push.repo).ok ==> !MovesHead(push.repo)
  }

  // ---- Counting through a turn ----

  lemma {:induction false} FoldCount(head: History, es: seq<Element>, id: nat)
    ensures Count(Fold(head, es).head, id) == Count(head, id) + Times(Fold(head, es).left, id)
    ensures Times(Fold(head, es).left, id) <= Times(es, id)
    decreases |es|
  {
    if es != [] {
      assert es == [es[0]] + es[1..];
      IdsOfTwo([es[0]], es[1..]);
      match ApplyTransformers(Tree(head), es[0].transformers)
      case Ok(tree) =>
        FoldCount(head + [CommitOf(es[0], tree)], es[1..], id);
        OneMore(head, es[0], tree, Fold(head + [CommitOf(es[0], tree)], es[1..]).left, id);
      case Err(_) => FoldCount(head, es[1..], id);
    }
  }

  lemma OneMore(head: History, e: Element, tree: World, left: seq<Element>, id: nat)
    ensures Count(head + [CommitOf(e, tree)], id) == Count(head, id) + (if e.id == id then 1 else 0)
    ensures Times([e] + left, id) == (if e.id == id then 1 else 0) + Times(left, id)
  {
    var next := head + [CommitOf(e, tree)];
    assert next[..|next| - 1] == head;
    IdsOfTwo([e], left);
  }

  /** What applying does when it meets a broken configuration. */
  ghost predicate ResetShape(r: Repo, es: seq<Element>, a: Applied) {
    var k := BeforeBroken(r.head, es);
    var fetched := FetchAndReset(r.(head := Fold(r.head, es[..k]).head));
    var left := BeforeStop(r, es) + es[k..];
    if fetched.ok then
      var g := Fold(fetched.repo.head, left);
      a.error.None? && a.left == g.left && a.repo == fetched.repo.(head := g.head)
    else a.error == Some(NotFetched) && a.left == left && a.repo == fetched.repo
  }

  lemma ApplyWithReset(r: Repo, es: seq<Element>)
    requires BeforeBroken(r.head, es) < |es|
    ensures ResetShape(r, es, Apply(r, [], es, [], true))
  {
    ApplyResets(r, [], es, []);
    assert [] + BeforeStop(r, es) == BeforeStop(r, es);
  }

  /** Applying is a fold on the head, or, after a reset, on the fetched history. */
  lemma ApplyShape(r: Repo, es: seq<Element>)
    ensures var a := Apply(r, [], es, [], true);
            if BeforeBroken(r.head, es) == |es|
            then a.error.None? && a.left == Fold(r.head, es).left && a.repo == r.(head := Fold(r.head, es).head)
            else ResetShape(r, es, a)
    ensures Apply(r, [], es, [], true).error.Some? <==> StopsEarly(r, es)
  {
    if BeforeBroken(r.head, es) == |es| {
      ApplyFolds(r, [], es, [], true);
      assert [] + Fold(r.head, es).left == Fold(r.head, es).left;
    } else {
      ApplyWithReset(r, es);
      HeadsDoNotMatter(r, Fold(r.head, es[..BeforeBroken(r.head, es)]).head);
    }
  }

  lemma FetchedHead(r: Repo, id: nat)
    ensures FetchAndReset(r).repo.head == if MovesHead(r) then Advanced(r).remote else r.head
    ensures FetchAndReset(r).repo.remote == Advanced(r).remote
    ensures FetchAndReset(r).ok ==> MovesHead(r)
    ensures Count(Advanced(r).remote, id) == Count(r.remote, id)
  {
    assert Grows(r.remote, Advanced(r).remote);
    CountGrown(r.remote, Advanced(r).remote, id);
  }

  lemma HeadsDoNotMatter(r: Repo, head: History)
    ensures FetchAndReset(r.(head := head)).ok == FetchAndReset(r).ok
    ensures MovesHead(r.(head := head)) == MovesHead(r)
    ensures Advanced(r.(head := head)).remote == Advanced(r).remote
  {
  }

  ghost predicate ResetCounts(r: Repo, es: seq<Element>, a: Applied, id: nat) {
    && Count(a.repo.remote, id) == Count(r.remote, id)
    && (a.error.None? ==> MovesHead(r) && Count(a.repo.head, id) == Count(r.remote, id) + Times(a.left, id))
    && (a.error.Some? ==>
          Count(a.repo.head, id) == (if MovesHead(r) then Count(r.remote, id) else Count(r.head, id) + Times(BeforeStop(r, es), id)))
    && Times(a.left, id) <= Times(es, id)
    && Times(BeforeStop(r, es), id) <= Times(es, id)
  }

  /** The survivors before the first broken configuration, with everything from it on. */
  lemma TimesBeforeStop(r: Repo, es: seq<Element>, id: nat)
    requires BeforeBroken(r.head, es) < |es|
    ensures var k := BeforeBroken(r.head, es);
            && Times(BeforeStop(r, es), id) <= Times(es, id)
            && Times(BeforeStop(r, es) + es[k..], id) <= Times(es, id)
            && Count(Fold(r.head, es[..k]).head, id) == Count(r.head, id) + Times(BeforeStop(r, es), id)
  {
    var k := BeforeBroken(r.head, es);
    FoldCount(r.head, es[..k], id);
    assert es == es[..k] + es[k..];
    IdsOfTwo(es[..k], es[k..]);
    IdsOfTwo(BeforeStop(r, es), es[k..]);
  }

  lemma ResetShapeCount(r: Repo, es: seq<Element>, a: Applied, id: nat)
    requires BeforeBroken(r.head, es) < |es| && ResetShape(r, es, a)
    ensures ResetCounts(r, es, a, id)
  {
    var k := BeforeBroken(r.head, es);
    var head := Fold(r.head, es[..k]).head;
    var left := BeforeStop(r, es) + es[k..];
    TimesBeforeStop(r, es, id);
    HeadsDoNotMatter(r, head);
    FetchedHead(r.(head := head), id);
    FoldCount(FetchAndReset(r.(head := head)).repo.head, left, id);
  }

  lemma ResetCount(r: Repo, es: seq<Element>, id: nat)
    requires BeforeBroken(r.head, es) < |es|
    ensures ResetCounts(r, es, Apply(r, [], es, [], true), id)
  {
    ApplyWithReset(r, es);
    ResetShapeCount(r, es, Apply(r, [], es, [], true), id);
  }

  lemma FoldedCount(r: Repo, es: seq<Element>, id: nat)
    requires BeforeBroken(r.head, es) == |es|
    ensures var a := Apply(r, [], es, [], true);
            && a.repo.remote == r.remote && a.error.None?
            && Count(a.repo.head, id) == Count(r.head, id) + Times(a.left, id)
            && Times(a.left, id) <= Times(es, id)
  {
    ApplyFolds(r, [], es, [], true);
    assert [] + Fold(r.head, es).left == Fold(r.head, es).left;
    FoldCount(r.head, es, id);
  }

  /** The commits of a request on the local branch after applying. */
  lemma AppliedCount(r: Repo, es: seq<Element>, id: nat)
    ensures var a := Apply(r, [], es, [], true);
            var k := BeforeBroken(r.head, es);
            && Count(a.repo.remote, id) == Count(r.remote, id)
            && (k == |es| ==> a.error.None? && Count(a.repo.head, id) == Count(r.head, id) + Times(a.left, id))
            && (k < |es| && a.error.None? ==> MovesHead(r) && Count(a.repo.head, id) == Count(r.remote, id) + Times(a.left, id))
            && (a.error.Some? ==>
                  Count(a.repo.head, id) == (if MovesHead(r) then Count(r.remote, id) else Count(r.head, id) + Times(BeforeStop(r, es), id)))
            && Times(a.left, id) <= Times(es, id)
            && (k < |es| ==> Times(BeforeStop(r, es), id) <= Times(es, id))
  {
    if BeforeBroken(r.head, es) == |es| {
      FoldedCount(r, es, id);
    } else {
      ResetCount(r, es, id);
    }
  }

  lemma AgainCount(r: Repo, left: seq<Element>, id: nat)
    ensures var again := Apply(r, [], left, [], false);
            && Count(again.repo.head, id) == Count(r.head, id) + Times(again.left, id)
            && again.repo.remote == r.remote && again.error.None? && Times(again.left, id) <= Times(left, id)
  {
    ApplyFolds(r, [], left, [], false);
    assert [] + Fold(r.head, left).left == Fold(r.head, left).left;
    FoldCount(r.head, left, id);
  }

  lemma PushCount(r: Repo, id: nat)
    ensures var p := PushRetrying(r, MAX_RETRIES);
            p.repo.head == r.head && Count(p.repo.remote, id) == if p.result == Pushed then Count(r.head, id) else Count(r.remote, id)
  {
    PushEffect(r, MAX_RETRIES);
    var p := PushRetrying(r, MAX_RETRIES);
    if p.result != Pushed {
      CountGrown(r.remote, p.repo.remote, id);
    }
  }

  /** The second half of a turn, after the first push has diverged. */
  lemma AgainCounts(r: Repo, left: seq<Element>, replies: seq<Reply>, id: nat)
    ensures var p := PushAgain(r, left, replies);
            && Times(p.left, id) <= Times(left, id)
            && Count(p.repo.head, id) ==
               (if FetchAndReset(r).ok then Count(r.remote, id) + Times(p.left, id)
                else if MovesHead(r) then Count(r.remote, id) else Count(r.head, id))
            && (Count(r.remote, id) <= Count(p.repo.remote, id) <= Count(r.remote, id) + Times(p.left, id))
            && (p.final != Nil ==> Count(p.repo.remote, id) == Count(r.remote, id))
            && (!FetchAndReset(r).ok ==> p.left == left)
  {
    FetchedHead(r, id);
    var fetched := FetchAndReset(r);
    if fetched.ok {
      AgainCount(fetched.repo, left, id);
      PushCount(Apply(fetched.repo, [], left, [], false).repo, id);
      SecondHalf(r, left, replies);
    } else {
      assert PushAgain(r, left, replies).repo == fetched.repo && PushAgain(r, left, replies).left == left;
    }
  }

  lemma SecondHalf(r: Repo, left: seq<Element>, replies: seq<Reply>)
    requires FetchAndReset(r).ok
    ensures var p := PushAgain(r, left, replies);
            var again := Apply(FetchAndReset(r).repo, [], left, [], false);
            var push := PushRetrying(again.repo, MAX_RETRIES);
            && p.left == again.left
            && p.repo == (if again.left == [] then again.repo else push.repo)
            && (again.left != [] && p.final != Nil ==> push.result != Pushed)
  {
    ApplyAnew(FetchAndReset(r).repo, left, replies, false);
  }

  // ---- After the turn of the request ----

  lemma TurnLeft(r: Repo, es: seq<Element>, replies: seq<Reply>)
    ensures var a := Apply(r, [], es, [], true);
            var push := FirstPush(r, es);
            var p := Process(r, es, replies);
            if a.error.Some? || a.left == [] then p.left == a.left && p.repo == a.repo && (a.error.Some? ==> p.final == a.error.value)
            else if push.result == Diverged then p == PushAgain(push.repo, a.left, replies + a.replies)
            else p.left == a.left && p.repo == push.repo && (p.final == Nil <==> push.result == Pushed)
  {
    ApplyAnew(r, es, replies, true);
  }

  /**
   After the turn of a new request that is answered at its end, with an error or without, its commit is on the
   local branch if and only if it stays there; after a rejection it is not.
   */
  lemma LocalAfterTurn(r: Repo, es: seq<Element>, replies: seq<Reply>, id: nat)
    requires Times(es, id) == 1 && Count(r.head, id) == 0 && Count(r.remote, id) == 0
    ensures var p := Process(r, es, replies);
            Count(p.repo.head, id) == if id in Ids(p.left) && StaysLocal(r, es, id) then 1 else 0
  {
    var a := Apply(r, [], es, [], true);
    var push := FirstPush(r, es);
    AppliedCount(r, es, id);
    ApplyShape(r, es);
    TurnLeft(r, es, replies);
    PushCount(a.repo, id);
    if a.error.Some? {
      StoppedLeft(r, es, id);
    } else if a.left != [] && push.result == Diverged {
      AgainCounts(push.repo, a.left, replies + a.replies, id);
    }
  }

  /** What came before the broken configuration is part of what is left. */
  lemma StoppedLeft(r: Repo, es: seq<Element>, id: nat)
    requires StopsEarly(r, es)
    ensures id in Ids(BeforeStop(r, es)) ==> id in Ids(Apply(r, [], es, [], true).left)
  {
    ApplyShape(r, es);
    HeadsDoNotMatter(r, Fold(r.head, es[..BeforeBroken(r.head, es)]).head);
    IdsOfTwo(BeforeStop(r, es), es[BeforeBroken(r.head, es)..]);
  }

  /** A request that is not answered without an error is not on the remote after its turn. */
  lemma ErrorIsNotRemote(r: Repo, es: seq<Element>, replies: seq<Reply>, id: nat)
    requires Count(r.head, id) == 0 && Count(r.remote, id) == 0
    ensures var p := Process(r, es, replies);
            p.final != Nil || id !in Ids(p.left) ==> Count(p.repo.remote, id) == 0
  {
    var p := Process(r, es, replies);
    var a := Apply(r, [], es, [], true);
    var push := FirstPush(r, es);
    AppliedCount(r, es, id);
    ProcessCounts(r, es, replies, id);
    TurnLeft(r, es, replies);
    PushCount(a.repo, id);
    if a.error.None? && a.left != [] && push.result == Diverged {
      AgainCounts(push.repo, a.left, replies + a.replies, id);
    }
  }

  // ---- In a later turn ----

  /** A turn pushes what it finds on the local branch: nothing is fetched before its first push, which succeeds. */
  ghost predicate PushedAsIs(r: Repo, es: seq<Element>) {
    BeforeBroken(r.head, es) == |es| && Fold(r.head, es).left != [] && FirstPush(r, es).result == Pushed
  }

  /** A turn gives up what it finds on the local branch: some fetch moves the branch. */
  ghost predicate DropsHead(r: Repo, es: seq<Element>) {
    if BeforeBroken(r.head, es) < |es| then MovesHead(r)
    else
      var push := FirstPush(r, es);
      Fold(r.head, es).left != [] && push.result == Diverged && MovesHead(push.repo)
  }

  /** For a request that is not part of the turn: it gets to the remote exactly as it was, or not at all. */
  lemma LaterTurn(r: Repo, es: seq<Element>, replies: seq<Reply>, id: nat)
    requires Count(r.remote, id) == 0 && Times(es, id) == 0
    ensures var p := Process(r, es, replies);
            && Count(p.repo.remote, id) == (if PushedAsIs(r, es) then Count(r.head, id) else 0)
            && Count(p.repo.head, id) == (if DropsHead(r, es) then 0 else Count(r.head, id))
  {
    ApplyShape(r, es);
    if BeforeBroken(r.head, es) < |es| {
      LaterReset(r, es, replies, id);
    } else {
      LaterFold(r, es, replies, id);
    }
  }

  lemma LaterReset(r: Repo, es: seq<Element>, replies: seq<Reply>, id: nat)
    requires Count(r.remote, id) == 0 && Times(es, id) == 0 && BeforeBroken(r.head, es) < |es|
    ensures var p := Process(r, es, replies);
            && Count(p.repo.remote, id) == 0
            && Count(p.repo.head, id) == (if MovesHead(r) then 0 else Count(r.head, id))
  {
    var a := Apply(r, [], es, [], true);
    var push := FirstPush(r, es);
    AppliedCount(r, es, id);
    TurnLeft(r, es, replies);
    PushCount(a.repo, id);
    if a.error.None? && a.left != [] && push.result == Diverged {
      AgainCounts(push.repo, a.left, replies + a.replies, id);
      FetchedHead(push.repo, id);
    }
  }

  lemma LaterFold(r: Repo, es: seq<Element>, replies: seq<Reply>, id: nat)
    requires Count(r.remote, id) == 0 && Times(es, id) == 0 && BeforeBroken(r.head, es) == |es|
    ensures var p := Process(r, es, replies);
            && Count(p.repo.remote, id) == (if PushedAsIs(r, es) then Count(r.head, id) else 0)
            && Count(p.repo.head, id) == (if DropsHead(r, es) then 0 else Count(r.head, id))
  {
    var a := Apply(r, [], es, [], true);
    var push := FirstPush(r, es);
    AppliedCount(r, es, id);
    ApplyShape(r, es);
    TurnLeft(r, es, replies);
    PushCount(a.repo, id);
    if a.left != [] && push.result == Diverged {
      AgainCounts(push.repo, a.left, replies + a.replies, id);
      FetchedHead(push.repo, id);
    }
  }

  ghost predicate Pushes(l: Ledger, t: Turn) {
    !l.hung && !t.first.canceled && PushedAsIs(l.repo, [t.first] + Live(t.queue))
  }

  ghost predicate Drops(l: Ledger, t: Turn) {
    !l.hung && !t.first.canceled && DropsHead(l.repo, [t.first] + Live(t.queue))
  }

  /** Some turn pushes the local branch as it is, before any turn has moved it away. */
  ghost predicate Arrives(l: Ledger, turns: seq<Turn>)
    decreases |turns|
  {
    turns != [] && (Pushes(l, turns[0]) || (!Drops(l, turns[0]) && Arrives(Step(l, turns[0]), turns[1..])))
  }

  lemma StepLater(l: Ledger, t: Turn, id: nat)
    requires DistinctTurn(t) && Count(l.repo.remote, id) == 0 && Times(WorkedOn(t), id) == 0
    ensures Count(Step(l, t).repo.remote, id) == if Pushes(l, t) then Count(l.repo.head, id) else 0
    ensures Count(Step(l, t).repo.head, id) == if Drops(l, t) then 0 else Count(l.repo.head, id)
  {
    if !l.hung && !t.first.canceled {
      TurnBlocksIff(l, t);
      LaterTurn(l.repo, [t.first] + Live(t.queue), CanceledReplies(t.queue), id);
    }
  }

  /** A commit that is only on the local branch reaches the remote in a later run if and only if it arrives. */
  lemma {:induction false} ArrivesIff(l: Ledger, turns: seq<Turn>, id: nat)
    requires forall t | t in turns :: DistinctTurn(t)
    requires Count(l.repo.remote, id) == 0 && Times(WorkedOnIn(turns), id) == 0
    ensures Count(Run(l, turns).repo.remote, id) == if Arrives(l, turns) then Count(l.repo.head, id) else 0
    decreases |turns|
  {
    if turns != [] {
      var t, next := turns[0], Step(l, turns[0]);
      assert t in turns && forall u | u in turns[1..] :: u in turns;
      IdsOfTwo(WorkedOn(t), WorkedOnIn(turns[1..]));
      StepLater(l, t, id);
      if Pushes(l, t) || Drops(l, t) {
        RunCounts(next, turns[1..], id);
        CountPrefix(next.repo.remote, Run(next, turns[1..]).repo.remote, id);
        PushedBoth(l, t, id);
      } else {
        ArrivesIff(next, turns[1..], id);
      }
    }
  }

  /** What is pushed is on both branches; what is dropped is on none. */
  lemma PushedBoth(l: Ledger, t: Turn, id: nat)
    requires DistinctTurn(t) && Count(l.repo.remote, id) == 0 && Times(WorkedOn(t), id) == 0
    requires Pushes(l, t) || Drops(l, t)
    ensures Most(Step(l, t).repo, id) == Count(Step(l, t).repo.remote, id)
    ensures Pushes(l, t) ==> !Drops(l, t)
  {
    StepLater(l, t, id);
  }

  /**
   A new request that was answered with an error at the end of its turn is on the remote after a later run if and
   only if its commit has stayed on the local branch and arrives.
   */
  lemma ErrorArrivesIff(l: Ledger, t: Turn, turns: seq<Turn>, id: nat)
    requires !l.hung && !t.first.canceled && DistinctTurn(t) && forall u | u in turns :: DistinctTurn(u)
    requires Times(WorkedOn(t), id) == 1 && Times(WorkedOnIn(turns), id) == 0
    requires Count(l.repo.head, id) == 0 && Count(l.repo.remote, id) == 0
    ensures var p := Work(l, t);
            p.final != Nil && id in Ids(p.left) ==>
              (Count(Run(Step(l, t), turns).repo.remote, id) == 1 <==> StaysLocal(l.repo, WorkedOn(t), id) && Arrives(Step(l, t), turns))
  {
    var es, replies := [t.first] + Live(t.queue), CanceledReplies(t.queue);
    var p := Work(l, t);
    if p.final != Nil && id in Ids(p.left) {
      TurnBlocksIff(l, t);
      LocalAfterTurn(l.repo, es, replies, id);
      ErrorIsNotRemote(l.repo, es, replies, id);
      ArrivesIff(Step(l, t), turns, id);
    }
  }

  lemma NoFetchFinal(r: Repo, left: seq<Element>, replies: seq<Reply>)
    requires !FetchAndReset(r).ok
    ensures PushAgain(r, left, replies).final == NotFetched
  {
  }

  /** After a push that was refused, lost or timed out the commits are still there. */
  lemma FailedPushStays(r: Repo, es: seq<Element>, replies: seq<Reply>, id: nat)
    requires Process(r, es, replies).final in {Protected, Canceled, NotPushed}
    ensures StaysLocal(r, es, id)
  {
    var a := Apply(r, [], es, [], true);
    ApplyShape(r, es);
    TurnLeft(r, es, replies);
    var push := FirstPush(r, es);
    if !FetchAndReset(push.repo).ok {
      NoFetchFinal(push.repo, a.left, replies + a.replies);
    }
    if StopsEarly(r, es) {
      ApplyWithReset(r, es);
    } else if a.left == [] {
      NothingLeft(r, es, replies);
    }
  }

  lemma NothingLeft(r: Repo, es: seq<Element>, replies: seq<Reply>)
    requires var a := Apply(r, [], es, [], true); a.error.None? && a.left == []
    ensures Process(r, es, replies).final == Nil
  {
    ApplyAnew(r, es, replies, true);
  }
}
