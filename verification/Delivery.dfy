/**
 What the worker promises: every request is answered once, and what is answered without an error is in the history
 of the remote branch, once and in order of arrival.
 */
module Delivery {
  import opened Config
  import opened Deployment
  import opened Worker

  function Ids(es: seq<Element>): seq<nat> {
    seq(|es|, i requires 0 <= i < |es| => es[i].id)
  }

  function Recipients(replies: seq<Reply>): seq<nat> {
    seq(|replies|, i requires 0 <= i < |replies| => replies[i].to)
  }

  lemma IdsOfTwo(a: seq<Element>, b: seq<Element>)
    ensures Ids(a + b) == Ids(a) + Ids(b)
  {
  }

  lemma RecipientsOfTwo(a: seq<Reply>, b: seq<Reply>)
    ensures Recipients(a + b) == Recipients(a) + Recipients(b)
  {
  }

  /** Earlier replies do not matter; they stay in front. */
  lemma {:induction false} ApplyPrefix(r: Repo, done: seq<Element>, rest: seq<Element>, before: seq<Reply>, replies: seq<Reply>,
                                       allowReset: bool)
    ensures var a := Apply(r, done, rest, replies, allowReset);
            Apply(r, done, rest, before + replies, allowReset) == a.(replies := before + a.replies)
    decreases allowReset, |rest|
  {
    if rest != [] {
      match ApplyTransformers(Tree(r.head), rest[0].transformers)
      case Ok(tree) =>
        ApplyPrefix(r.(head := r.head + [CommitOf(rest[0], tree)]), done + [rest[0]], rest[1..], before, replies, allowReset);
      case Err(error) =>
        if error == InvalidJson && allowReset {
          ApplyPrefix(FetchAndReset(r).repo, [], done + rest, before, replies, false);
        } else {
          var reply := Reply(rest[0].id, Rejected(error));
          assert before + (replies + [reply]) == (before + replies) + [reply];
          ApplyPrefix(r, done, rest[1..], before, replies + [reply], allowReset);
        }
    }
  }

  /** What is applied and left does not depend on the replies so far. */
  lemma ApplyAnew(r: Repo, es: seq<Element>, replies: seq<Reply>, allowReset: bool)
    ensures var a := Apply(r, [], es, [], allowReset);
            Apply(r, [], es, replies, allowReset) == a.(replies := replies + a.replies)
  {
    ApplyPrefix(r, [], es, replies, [], allowReset);
    assert replies + [] == replies;
  }

  lemma FinishPrefix(repo: Repo, before: seq<Reply>, replies: seq<Reply>, left: seq<Element>, final: Answer)
    ensures var p := Finish(repo, replies, left, final);
            Finish(repo, before + replies, left, final) == p.(replies := before + p.replies)
  {
    assert before + (replies + ReplyAll(left, final)) == (before + replies) + ReplyAll(left, final);
  }

  lemma PushAgainPrefix(r: Repo, left: seq<Element>, before: seq<Reply>, replies: seq<Reply>)
    ensures var p := PushAgain(r, left, replies);
            PushAgain(r, left, before + replies) == p.(replies := before + p.replies)
  {
    var p, q := PushAgain(r, left, replies), PushAgain(r, left, before + replies);
    var fetched := FetchAndReset(r);
    if fetched.ok {
      ApplyPrefix(fetched.repo, [], left, before, replies, false);
      var again := Apply(fetched.repo, [], left, replies, false);
      assert p == Finish(p.repo, again.replies, again.left, p.final);
      assert q == Finish(p.repo, before + again.replies, again.left, p.final);
      FinishPrefix(p.repo, before, again.replies, again.left, p.final);
    } else {
      FinishPrefix(fetched.repo, before, replies, left, NotFetched);
    }
  }

  lemma PushPrefix(a: Applied, before: seq<Reply>)
    ensures var p := PushApplied(a);
            PushApplied(a.(replies := before + a.replies)) == p.(replies := before + p.replies)
  {
    var p, q := PushApplied(a), PushApplied(a.(replies := before + a.replies));
    var push := PushRetrying(a.repo, MAX_RETRIES);
    if a.error.None? && a.left != [] && push.result == Diverged {
      PushAgainPrefix(push.repo, a.left, before, a.replies);
    } else {
      assert p == Finish(p.repo, a.replies, a.left, p.final);
      assert q == Finish(p.repo, before + a.replies, a.left, p.final);
      FinishPrefix(p.repo, before, a.replies, a.left, p.final);
    }
  }

  /** A turn does the same whatever has been replied before. */
  lemma ProcessPrefix(r: Repo, es: seq<Element>, before: seq<Reply>, replies: seq<Reply>)
    ensures var p := Process(r, es, replies);
            Process(r, es, before + replies) == p.(replies := before + p.replies)
  {
    ApplyPrefix(r, [], es, before, replies, true);
    PushPrefix(Apply(r, [], es, replies, true), before);
  }

  // ---- Answers ----

  lemma {:induction false} ApplyAccounts(r: Repo, done: seq<Element>, rest: seq<Element>, replies: seq<Reply>, allowReset: bool)
    ensures var a := Apply(r, done, rest, replies, allowReset);
            multiset(Recipients(a.replies)) + multiset(Ids(a.left)) == multiset(Recipients(replies)) + multiset(Ids(done + rest))
    decreases allowReset, |rest|
  {
    if rest == [] {
      assert done + rest == done;
    } else {
      match ApplyTransformers(Tree(r.head), rest[0].transformers)
      case Ok(tree) =>
        assert done + rest == (done + [rest[0]]) + rest[1..];
        ApplyAccounts(r.(head := r.head + [CommitOf(rest[0], tree)]), done + [rest[0]], rest[1..], replies, allowReset);
      case Err(error) =>
        if error == InvalidJson && allowReset {
          assert [] + (done + rest) == done + rest;
          ApplyAccounts(FetchAndReset(r).repo, [], done + rest, replies, false);
        } else {
          ApplyAccounts(r, done, rest[1..], replies + [Reply(rest[0].id, Rejected(error))], allowReset);
          RejectionAccounts(done, rest, replies, error);
        }
    }
  }

  lemma RejectionAccounts(done: seq<Element>, rest: seq<Element>, replies: seq<Reply>, error: Error)
    requires rest != []
    ensures var answered := replies + [Reply(rest[0].id, Rejected(error))];
            multiset(Recipients(answered)) + multiset(Ids(done + rest[1..])) == multiset(Recipients(replies)) + multiset(Ids(done + rest))
  {
    var reply := Reply(rest[0].id, Rejected(error));
    RecipientsOfTwo(replies, [reply]);
    assert Recipients([reply]) == Ids([rest[0]]);
    assert rest == [rest[0]] + rest[1..];
    IdsOfTwo([rest[0]], rest[1..]);
    IdsOfTwo(done, rest);
    IdsOfTwo(done, rest[1..]);
  }

  lemma FinishAccounts(replies: seq<Reply>, left: seq<Element>, final: Answer)
    ensures multiset(Recipients(replies + ReplyAll(left, final))) == multiset(Recipients(replies)) + multiset(Ids(left))
  {
    RecipientsOfTwo(replies, ReplyAll(left, final));
    assert Recipients(ReplyAll(left, final)) == Ids(left);
  }

  /** Whatever the network does, each element of a batch gets exactly one reply, and nobody else gets any. */
  lemma AnsweredOnce(r: Repo, es: seq<Element>, replies: seq<Reply>)
    ensures multiset(Recipients(Process(r, es, replies).replies)) == multiset(Recipients(replies)) + multiset(Ids(es))
  {
    var a := Apply(r, [], es, replies, true);
    ApplyAccounts(r, [], es, replies, true);
    assert [] + es == es;
    PushAccounts(a);
  }

  lemma PushAgainAccounts(r: Repo, left: seq<Element>, replies: seq<Reply>)
    ensures multiset(Recipients(PushAgain(r, left, replies).replies)) == multiset(Recipients(replies)) + multiset(Ids(left))
  {
    var p := PushAgain(r, left, replies);
    var fetched := FetchAndReset(r);
    if fetched.ok {
      ApplyAccounts(fetched.repo, [], left, replies, false);
      assert [] + left == left;
      var again := Apply(fetched.repo, [], left, replies, false);
      assert p.replies == again.replies + ReplyAll(again.left, p.final);
      FinishAccounts(again.replies, again.left, p.final);
    } else {
      FinishAccounts(replies, left, NotFetched);
    }
  }

  lemma PushAccounts(a: Applied)
    ensures multiset(Recipients(PushApplied(a).replies)) == multiset(Recipients(a.replies)) + multiset(Ids(a.left))
  {
    var p := PushApplied(a);
    var push := PushRetrying(a.repo, MAX_RETRIES);
    if a.error.None? && a.left != [] && push.result == Diverged {
      PushAgainAccounts(push.repo, a.left, a.replies);
    } else {
      assert p.replies == a.replies + ReplyAll(a.left, p.final);
      FinishAccounts(a.replies, a.left, p.final);
    }
  }

  /** What was canceled in the queue has its reply, too. */
  lemma {:induction false} DrainAccounts(queue: seq<Element>)
    ensures multiset(Recipients(CanceledReplies(queue))) + multiset(Ids(Live(queue))) == multiset(Ids(queue))
    decreases |queue|
  {
    if queue != [] {
      DrainAccounts(queue[1..]);
      assert queue == [queue[0]] + queue[1..];
      IdsOfTwo([queue[0]], queue[1..]);
      IdsOfTwo([queue[0]], Live(queue[1..]));
      RecipientsOfTwo([Reply(queue[0].id, Canceled)], CanceledReplies(queue[1..]));
      assert Recipients([Reply(queue[0].id, Canceled)]) == Ids([queue[0]]);
      assert [] + Live(queue[1..]) == Live(queue[1..]);
      assert [] + CanceledReplies(queue[1..]) == CanceledReplies(queue[1..]);
    }
  }

  // ---- Applying is a filter ----

  datatype Folded = Folded(head: History, left: seq<Element>, replies: seq<Reply>)

  /** Each element on top of the survivors before it: it gets a commit, or it leaves no trace but its reply. */
  ghost function Fold(head: History, es: seq<Element>): Folded
    decreases |es|
  {
    if es == [] then Folded(head, [], [])
    else
      match ApplyTransformers(Tree(head), es[0].transformers)
      case Ok(tree) =>
        var rest := Fold(head + [CommitOf(es[0], tree)], es[1..]);
        Folded(rest.head, [es[0]] + rest.left, rest.replies)
      case Err(error) =>
        var rest := Fold(head, es[1..]);
        Folded(rest.head, rest.left, [Reply(es[0].id, Rejected(error))] + rest.replies)
  }

  /** How many elements are gone through before one meets a broken configuration. */
  ghost function BeforeBroken(head: History, es: seq<Element>): (k: nat)
    ensures k <= |es|
    decreases |es|
  {
    if es == [] then 0
    else
      match ApplyTransformers(Tree(head), es[0].transformers)
      case Ok(tree) => 1 + BeforeBroken(head + [CommitOf(es[0], tree)], es[1..])
      case Err(error) => if error == InvalidJson then 0 else 1 + BeforeBroken(head, es[1..])
  }

  lemma {:induction false} ApplyFolds(r: Repo, done: seq<Element>, rest: seq<Element>, replies: seq<Reply>, allowReset: bool)
    requires !allowReset || BeforeBroken(r.head, rest) == |rest|
    ensures var f := Fold(r.head, rest);
            Apply(r, done, rest, replies, allowReset) == Applied(r.(head := f.head), done + f.left, replies + f.replies, None)
    decreases |rest|
  {
    if rest == [] {
      assert done + [] == done && replies + [] == replies;
    } else {
      match ApplyTransformers(Tree(r.head), rest[0].transformers)
      case Ok(tree) =>
        var next := r.(head := r.head + [CommitOf(rest[0], tree)]);
        ApplyFolds(next, done + [rest[0]], rest[1..], replies, allowReset);
        var f := Fold(next.head, rest[1..]);
        assert (done + [rest[0]]) + f.left == done + ([rest[0]] + f.left);
      case Err(error) =>
        var reply := Reply(rest[0].id, Rejected(error));
        ApplyFolds(r, done, rest[1..], replies + [reply], allowReset);
        var f := Fold(r.head, rest[1..]);
        assert (replies + [reply]) + f.replies == replies + ([reply] + f.replies);
    }
  }

  /** The survivors before the broken configuration, then everything left applied to what was fetched, once. */
  ghost function ResetAndRedo(r: Repo, survivors: Folded, left: seq<Element>, replies: seq<Reply>): Applied {
    var fetched := FetchAndReset(r.(head := survivors.head));
    var g := Fold(fetched.repo.head, left);
    if fetched.ok then Applied(fetched.repo.(head := g.head), g.left, replies + survivors.replies + g.replies, None)
    else Applied(fetched.repo, left, replies + survivors.replies, Some(NotFetched))
  }

  lemma RedoFolds(r: Repo, done: seq<Element>, rest: seq<Element>, replies: seq<Reply>)
    requires rest != [] && ApplyTransformers(Tree(r.head), rest[0].transformers) == Err(InvalidJson)
    ensures Apply(r, done, rest, replies, true) == ResetAndRedo(r, Folded(r.head, [], []), done + rest, replies)
  {
    assert r.(head := r.head) == r && replies + [] == replies;
    var fetched := FetchAndReset(r);
    if fetched.ok {
      ApplyFolds(fetched.repo, [], done + rest, replies, false);
      assert [] + Fold(fetched.repo.head, done + rest).left == Fold(fetched.repo.head, done + rest).left;
    }
  }

  lemma PrefixStep<X>(s: seq<X>, k: nat)
    requires 0 < k <= |s|
    ensures s[..k] != [] && s[..k][0] == s[0] && s[..k][1..] == s[1..][..k - 1] && s[k..] == s[1..][k - 1..]
  {
  }

  /** Up to the broken configuration, and what comes after it. */
  ghost predicate Resets(r: Repo, done: seq<Element>, rest: seq<Element>, replies: seq<Reply>) {
    var k := BeforeBroken(r.head, rest);
    var f := Fold(r.head, rest[..k]);
    Apply(r, done, rest, replies, true) == ResetAndRedo(r, f, done + f.left + rest[k..], replies)
  }

  lemma ResetsAfterSurvivor(r: Repo, done: seq<Element>, rest: seq<Element>, replies: seq<Reply>, tree: World)
    requires rest != [] && ApplyTransformers(Tree(r.head), rest[0].transformers) == Ok(tree)
    requires Resets(r.(head := r.head + [CommitOf(rest[0], tree)]), done + [rest[0]], rest[1..], replies)
    ensures Resets(r, done, rest, replies)
  {
    var k := BeforeBroken(r.head, rest);
    var next := r.(head := r.head + [CommitOf(rest[0], tree)]);
    PrefixStep(rest, k);
    SurvivorFirst(r, next, Fold(next.head, rest[1..][..k - 1]), done, rest[0], rest[k..], replies);
  }

  lemma ResetsAfterRejected(r: Repo, done: seq<Element>, rest: seq<Element>, replies: seq<Reply>, error: Error)
    requires rest != [] && ApplyTransformers(Tree(r.head), rest[0].transformers) == Err(error) && error != InvalidJson
    requires Resets(r, done, rest[1..], replies + [Reply(rest[0].id, Rejected(error))])
    ensures Resets(r, done, rest, replies)
  {
    var k := BeforeBroken(r.head, rest);
    PrefixStep(rest, k);
    var f := Fold(r.head, rest[1..][..k - 1]);
    RejectedFirst(r, f, done + f.left + rest[k..], replies, Reply(rest[0].id, Rejected(error)));
  }

  /** With a broken configuration ahead, the elements before it are a fold, and everything left is done again after a reset. */
  lemma {:induction false} ApplyResets(r: Repo, done: seq<Element>, rest: seq<Element>, replies: seq<Reply>)
    requires BeforeBroken(r.head, rest) < |rest|
    ensures Resets(r, done, rest, replies)
    decreases |rest|
  {
    match ApplyTransformers(Tree(r.head), rest[0].transformers)
    case Ok(tree) =>
      ApplyResets(r.(head := r.head + [CommitOf(rest[0], tree)]), done + [rest[0]], rest[1..], replies);
      ResetsAfterSurvivor(r, done, rest, replies, tree);
    case Err(error) =>
      if error == InvalidJson {
        RedoFolds(r, done, rest, replies);
        assert rest[..0] == [] && rest[0..] == rest && done + [] + rest == done + rest;
      } else {
        ApplyResets(r, done, rest[1..], replies + [Reply(rest[0].id, Rejected(error))]);
        ResetsAfterRejected(r, done, rest, replies, error);
      }
  }

  lemma SurvivorFirst(r: Repo, next: Repo, f: Folded, done: seq<Element>, e: Element, rest: seq<Element>, replies: seq<Reply>)
    requires next.(head := r.head) == r
    ensures ResetAndRedo(next, f, done + [e] + f.left + rest, replies) ==
            ResetAndRedo(r, f.(left := [e] + f.left), done + ([e] + f.left) + rest, replies)
  {
    assert done + [e] + f.left + rest == done + ([e] + f.left) + rest;
    assert next.(head := f.head) == r.(head := f.head);
  }

  lemma RejectedFirst(r: Repo, f: Folded, left: seq<Element>, replies: seq<Reply>, reply: Reply)
    ensures ResetAndRedo(r, f, left, replies + [reply]) ==
            ResetAndRedo(r, f.(replies := [reply] + f.replies), left, replies)
  {
    assert (replies + [reply]) + f.replies == replies + ([reply] + f.replies);
  }

  /** Failing elements leave no trace: without them, the others give the same history. */
  lemma {:induction false} SurvivorsReplay(head: History, es: seq<Element>)
    ensures Fold(head, Fold(head, es).left) == Folded(Fold(head, es).head, Fold(head, es).left, [])
    decreases |es|
  {
    if es != [] {
      match ApplyTransformers(Tree(head), es[0].transformers)
      case Ok(tree) =>
        SurvivorsReplay(head + [CommitOf(es[0], tree)], es[1..]);
        var rest := Fold(head + [CommitOf(es[0], tree)], es[1..]);
        assert ([es[0]] + rest.left)[1..] == rest.left;
      case Err(error) =>
        SurvivorsReplay(head, es[1..]);
    }
  }

  // ---- Commits ----

  /** The commits of these elements, each the result of its transformers on the tree before it. */
  ghost predicate Built(base: History, commits: History, es: seq<Element>) {
    && |commits| == |es|
    && forall i | 0 <= i < |es| ::
         && commits[i].author == Some(es[i].id)
         && ApplyTransformers(Tree(base + commits[..i]), es[i].transformers) == Ok(commits[i].tree)
  }

  /** `h` is `base` and then one commit for each of the elements in order. */
  ghost predicate Carries(h: History, base: History, es: seq<Element>) {
    base <= h && Built(base, h[|base|..], es)
  }

  lemma CarriesMore(h: History, base: History, es: seq<Element>, e: Element, tree: World)
    requires Carries(h, base, es) && ApplyTransformers(Tree(h), e.transformers) == Ok(tree)
    ensures Carries(h + [CommitOf(e, tree)], base, es + [e])
  {
    var h' := h + [CommitOf(e, tree)];
    var commits, commits' := h[|base|..], h'[|base|..];
    assert commits' == commits + [CommitOf(e, tree)];
    forall i | 0 <= i < |es + [e]|
      ensures commits'[i].author == Some((es + [e])[i].id)
      ensures ApplyTransformers(Tree(base + commits'[..i]), (es + [e])[i].transformers) == Ok(commits'[i].tree)
    {
      if i < |es| {
        assert commits'[..i] == commits[..i];
      } else {
        assert commits'[..i] == commits && base + commits == h;
      }
    }
  }

  /** Only other writers committed in between. */
  ghost predicate Grows(h: History, h': History) {
    h <= h' && forall i | |h| <= i < |h'| :: h'[i].author == None
  }

  /** The history has been made from one of the two bases by commits for a prefix of the elements. */
  ghost predicate CarriesPart(h: History, base: History, reset: History, es: seq<Element>) {
    exists n | 0 <= n <= |es| :: Carries(h, base, es[..n]) || Carries(h, reset, es[..n])
  }

  /** What a run of applyElements that starts from `base` and `remote` has made. */
  ghost predicate BuiltOn(a: Applied, base: History, remote: History, allowReset: bool) {
    && Grows(remote, a.repo.remote)
    && (!allowReset ==> a.repo.remote == remote)
    && a.error in {None, Some(NotFetched)}
    && (a.error.None? ==> Carries(a.repo.head, base, a.left) || Carries(a.repo.head, a.repo.remote, a.left))
    && CarriesPart(a.repo.head, base, a.repo.remote, a.left)
  }

  /** Built on what was fetched, it is built on any base. */
  lemma BuiltOnFetched(a: Applied, remote: History, fetched: History, base: History)
    requires Grows(remote, fetched) && BuiltOn(a, fetched, fetched, false)
    ensures BuiltOn(a, base, remote, true)
  {
    var n :| 0 <= n <= |a.left| && Carries(a.repo.head, fetched, a.left[..n]);
  }

  /** After a run of applyElements, the survivors' commits lie on the head it started from or on the fetched one. */
  lemma {:induction false} ApplyBuilds(r: Repo, done: seq<Element>, rest: seq<Element>, replies: seq<Reply>, allowReset: bool,
                                       base: History)
    requires Carries(r.head, base, done)
    ensures BuiltOn(Apply(r, done, rest, replies, allowReset), base, r.remote, allowReset)
    decreases allowReset, |rest|
  {
    if rest == [] {
      assert done[..|done|] == done;
    } else {
      match ApplyTransformers(Tree(r.head), rest[0].transformers)
      case Ok(tree) =>
        CarriesMore(r.head, base, done, rest[0], tree);
        ApplyBuilds(r.(head := r.head + [CommitOf(rest[0], tree)]), done + [rest[0]], rest[1..], replies, allowReset, base);
      case Err(error) =>
        if error == InvalidJson && allowReset {
          var fetched := FetchAndReset(r);
          if fetched.ok {
            var again := fetched.repo;
            assert again.head == again.remote;
            ApplyBuilds(again, [], done + rest, replies, false, again.head);
            BuiltOnFetched(Apply(again, [], done + rest, replies, false), r.remote, again.remote, base);
          } else {
            StoppedCarries(r, done, rest, base);
          }
        } else {
          ApplyBuilds(r, done, rest[1..], replies + [Reply(rest[0].id, Rejected(error))], allowReset, base);
        }
    }
  }

  lemma StoppedCarries(r: Repo, done: seq<Element>, rest: seq<Element>, base: History)
    requires Carries(r.head, base, done)
    ensures CarriesPart(FetchAndReset(r).repo.head, base, FetchAndReset(r).repo.remote, done + rest)
  {
    var h := FetchAndReset(r).repo.head;
    if h == r.head {
      assert (done + rest)[..|done|] == done;
    } else {
      assert Carries(h, FetchAndReset(r).repo.remote, (done + rest)[..0]);
    }
  }

  lemma {:induction false} PushEffect(r: Repo, retries: nat)
    ensures var p := PushRetrying(r, retries);
            && p.repo.head == r.head
            && (if p.result == Pushed then r.remote <= p.repo.remote == r.head else Grows(r.remote, p.repo.remote))
    decreases retries
  {
    if retries > 0 && !GivesUp(Next(r).outcome) {
      PushEffect(PushOnce(r).repo, retries - 1);
    }
  }

  lemma GrowsTrans(a: History, b: History, c: History)
    requires Grows(a, b) && Grows(b, c)
    ensures Grows(a, c)
  {
  }

  /** On the way to the last push, the head is the start or a fetched history, and the survivors' commits. */
  ghost predicate Accepted(h: History, start: Repo, left: seq<Element>) {
    Carries(h, start.head, left) || exists base :: Grows(start.remote, base) && Carries(h, base, left)
  }

  /** Without a reset, applying goes through to the end and does not touch the remote branch. */
  lemma {:induction false} NeverStops(r: Repo, done: seq<Element>, rest: seq<Element>, replies: seq<Reply>)
    ensures Apply(r, done, rest, replies, false).error.None?
    ensures Apply(r, done, rest, replies, false).repo.remote == r.remote
    decreases |rest|
  {
    if rest != [] {
      match ApplyTransformers(Tree(r.head), rest[0].transformers)
      case Ok(tree) => NeverStops(r.(head := r.head + [CommitOf(rest[0], tree)]), done + [rest[0]], rest[1..], replies);
      case Err(error) => NeverStops(r, done, rest[1..], replies + [Reply(rest[0].id, Rejected(error))]);
    }
  }

  /** A push after a diverged one has something to push, and the remote refuses it. */
  ghost predicate RefusedAgain(r: Repo, left: seq<Element>) {
    var fetched := FetchAndReset(r);
    var again := Apply(fetched.repo, [], left, [], false);
    fetched.ok && again.left != [] && PushRetrying(again.repo, MAX_RETRIES).result == PushRefused
  }

  /**
   The second push of a turn is refused: the elements are applied without stopping, something is left, the first
   push diverges, the fetch works, something is left again, and the remote refuses it.
   */
  ghost predicate SecondPushRefused(r: Repo, es: seq<Element>) {
    var a := Apply(r, [], es, [], true);
    var push := PushRetrying(a.repo, MAX_RETRIES);
    a.error.None? && a.left != [] && push.result == Diverged && RefusedAgain(push.repo, a.left)
  }

  lemma PushAgainAccepts(r: Repo, left: seq<Element>, replies: seq<Reply>)
    requires var p := PushAgain(r, left, replies); p.final == Nil && p.left != []
    requires !RefusedAgain(r, left)
    ensures var p := PushAgain(r, left, replies);
            && p.repo.remote == p.repo.head && r.remote <= p.repo.remote
            && exists base :: Grows(r.remote, base) && Carries(p.repo.remote, base, p.left)
  {
    var fetched := FetchAndReset(r);
    assert Grows(r.remote, fetched.repo.remote);
    ApplyBuilds(fetched.repo, [], left, replies, false, fetched.repo.head);
    ApplyAnew(fetched.repo, left, replies, false);
    var again := Apply(fetched.repo, [], left, replies, false);
    NeverStops(fetched.repo, [], left, replies);
    PushEffect(again.repo, MAX_RETRIES);
    var p := PushAgain(r, left, replies);
    assert p.repo.remote == again.repo.head;
    assert Carries(p.repo.remote, fetched.repo.remote, p.left);
  }

  /**
   Answered without an error means accepted, unless the second push is refused: the remote history ends with one
   commit for each of these elements, in order, each made by its transformers on the tree before it.
   */
  lemma NilIsAccepted(r: Repo, es: seq<Element>, replies: seq<Reply>)
    requires !SecondPushRefused(r, es)
    requires var p := Process(r, es, replies); p.final == Nil && p.left != []
    ensures var p := Process(r, es, replies);
            p.repo.remote == p.repo.head && r.remote <= p.repo.remote && Accepted(p.repo.remote, r, p.left)
  {
    ApplyAnew(r, es, replies, true);
    var a := Apply(r, [], es, replies, true);
    ApplyBuilds(r, [], es, replies, true, r.head);
    var push := PushRetrying(a.repo, MAX_RETRIES);
    PushEffect(a.repo, MAX_RETRIES);
    if push.result == Diverged {
      GrowsTrans(r.remote, a.repo.remote, push.repo.remote);
      PushAgainAccepts(push.repo, a.left, a.replies);
      var p := Process(r, es, replies);
      var base :| Grows(push.repo.remote, base) && Carries(p.repo.remote, base, p.left);
      GrowsTrans(r.remote, push.repo.remote, base);
    }
  }

  lemma PushAgainRefused(r: Repo, left: seq<Element>, replies: seq<Reply>)
    requires RefusedAgain(r, left)
    ensures PushAgain(r, left, replies).final == Nil && PushAgain(r, left, replies).left != []
    ensures Grows(r.remote, PushAgain(r, left, replies).repo.remote)
  {
    var fetched := FetchAndReset(r);
    assert Grows(r.remote, fetched.repo.remote);
    ApplyAnew(fetched.repo, left, replies, false);
    NeverStops(fetched.repo, [], left, replies);
    var again := Apply(fetched.repo, [], left, replies, false);
    PushEffect(again.repo, MAX_RETRIES);
    GrowsTrans(r.remote, fetched.repo.remote, PushRetrying(again.repo, MAX_RETRIES).repo.remote);
  }

  /** If it is refused, the remote history has nothing of the batch, although something is answered without an error. */
  lemma RefusedIsNotAccepted(r: Repo, es: seq<Element>, replies: seq<Reply>)
    requires SecondPushRefused(r, es)
    ensures Process(r, es, replies).final == Nil && Process(r, es, replies).left != []
    ensures Grows(r.remote, Process(r, es, replies).repo.remote)
  {
    ApplyAnew(r, es, replies, true);
    var a := Apply(r, [], es, replies, true);
    ApplyBuilds(r, [], es, replies, true, r.head);
    var push := PushRetrying(a.repo, MAX_RETRIES);
    PushEffect(a.repo, MAX_RETRIES);
    GrowsTrans(r.remote, a.repo.remote, push.repo.remote);
    PushAgainRefused(push.repo, a.left, a.replies);
    GrowsTrans(r.remote, push.repo.remote, PushAgain(push.repo, a.left, a.replies).repo.remote);
  }

  // ---- Order ----

  predicate Subsequence<X(==)>(s: seq<X>, t: seq<X>)
    decreases |t|
  {
    s == [] || (t != [] && ((s[0] == t[0] && Subsequence(s[1..], t[1..])) || Subsequence(s, t[1..])))
  }

  lemma {:induction false} SubsequenceRefl<X>(s: seq<X>)
    ensures Subsequence(s, s)
  {
    if s != [] {
      SubsequenceRefl(s[1..]);
    }
  }

  lemma {:induction false} SubsequenceTrans<X>(s: seq<X>, t: seq<X>, u: seq<X>)
    requires Subsequence(s, t) && Subsequence(t, u)
    ensures Subsequence(s, u)
    decreases |u|
  {
    if s != [] && t != [] {
      if t[0] == u[0] && Subsequence(t[1..], u[1..]) {
        if s[0] == t[0] && Subsequence(s[1..], t[1..]) {
          SubsequenceTrans(s[1..], t[1..], u[1..]);
        } else {
          SubsequenceTrans(s, t[1..], u[1..]);
        }
      } else {
        SubsequenceTrans(s, t, u[1..]);
      }
    }
  }

  lemma {:induction false} SubsequenceDrop<X>(front: seq<X>, x: X, back: seq<X>)
    ensures Subsequence(front + back, front + [x] + back)
    decreases |front|
  {
    var t := front + [x] + back;
    if front == [] {
      assert t[1..] == back && front + back == back;
      SubsequenceRefl(back);
      assert back != [] ==> Subsequence(back, t[1..]);
    } else {
      SubsequenceDrop(front[1..], x, back);
      assert (front + back)[1..] == front[1..] + back;
      assert t[1..] == front[1..] + [x] + back;
    }
  }

  lemma {:induction false} SubsequenceIds(s: seq<Element>, t: seq<Element>)
    requires Subsequence(s, t)
    ensures multiset(Ids(s)) <= multiset(Ids(t))
    decreases |t|
  {
    if s != [] {
      assert t == [t[0]] + t[1..];
      IdsOfTwo([t[0]], t[1..]);
      if s[0] == t[0] && Subsequence(s[1..], t[1..]) {
        SubsequenceIds(s[1..], t[1..]);
        assert s == [s[0]] + s[1..];
        IdsOfTwo([s[0]], s[1..]);
      } else {
        SubsequenceIds(s, t[1..]);
      }
    }
  }

  lemma {:induction false} ApplyKeepsOrder(r: Repo, done: seq<Element>, rest: seq<Element>, replies: seq<Reply>, allowReset: bool)
    ensures Subsequence(Apply(r, done, rest, replies, allowReset).left, done + rest)
    decreases allowReset, |rest|
  {
    if rest == [] {
      assert done + rest == done;
      SubsequenceRefl(done);
    } else {
      assert done + rest == done + [rest[0]] + rest[1..];
      match ApplyTransformers(Tree(r.head), rest[0].transformers)
      case Ok(tree) =>
        ApplyKeepsOrder(r.(head := r.head + [CommitOf(rest[0], tree)]), done + [rest[0]], rest[1..], replies, allowReset);
      case Err(error) =>
        if error == InvalidJson && allowReset {
          assert [] + (done + rest) == done + rest;
          ApplyKeepsOrder(FetchAndReset(r).repo, [], done + rest, replies, false);
          SubsequenceRefl(done + rest);
        } else {
          ApplyKeepsOrder(r, done, rest[1..], replies + [Reply(rest[0].id, Rejected(error))], allowReset);
          SubsequenceDrop(done, rest[0], rest[1..]);
          SubsequenceTrans(Apply(r, done, rest, replies, allowReset).left, done + rest[1..], done + rest);
        }
    }
  }

  lemma PushLeaves(applied: Applied)
    ensures var p := PushApplied(applied);
            var fetched := FetchAndReset(PushRetrying(applied.repo, MAX_RETRIES).repo);
            p.left in {applied.left, Apply(fetched.repo, [], applied.left, applied.replies, false).left}
  {
  }

  /** What is answered together at the end is a part of the batch, in order of arrival. */
  lemma LeftInOrder(r: Repo, es: seq<Element>, replies: seq<Reply>)
    ensures Subsequence(Process(r, es, replies).left, es)
  {
    var a := Apply(r, [], es, replies, true);
    ApplyKeepsOrder(r, [], es, replies, true);
    assert [] + es == es && [] + a.left == a.left;
    PushLeaves(a);
    var fetched := FetchAndReset(PushRetrying(a.repo, MAX_RETRIES).repo);
    ApplyKeepsOrder(fetched.repo, [], a.left, a.replies, false);
    SubsequenceTrans(Apply(fetched.repo, [], a.left, a.replies, false).left, a.left, es);
  }

  // ---- Counting commits ----

  /** How often a request has been committed. */
  function Count(h: History, id: nat): nat {
    if h == [] then 0 else Count(h[..|h| - 1], id) + if h[|h| - 1].author == Some(id) then 1 else 0
  }

  lemma {:induction false} CountOfTwo(a: History, b: History, id: nat)
    ensures Count(a + b, id) == Count(a, id) + Count(b, id)
    decreases |b|
  {
    if b == [] {
      assert a + b == a;
    } else {
      assert (a + b)[..|a + b| - 1] == a + b[..|b| - 1];
      CountOfTwo(a, b[..|b| - 1], id);
    }
  }

  lemma {:induction false} CountByOthers(h: History, id: nat)
    requires forall i | 0 <= i < |h| :: h[i].author == None
    ensures Count(h, id) == 0
    decreases |h|
  {
    if h != [] {
      CountByOthers(h[..|h| - 1], id);
    }
  }

  lemma CountGrown(h: History, h': History, id: nat)
    requires Grows(h, h')
    ensures Count(h', id) == Count(h, id)
  {
    assert h' == h + h'[|h|..];
    CountOfTwo(h, h'[|h|..], id);
    CountByOthers(h'[|h|..], id);
  }

  lemma CountPrefix(h: History, h': History, id: nat)
    requires h <= h'
    ensures Count(h, id) <= Count(h', id)
  {
    assert h' == h + h'[|h|..];
    CountOfTwo(h, h'[|h|..], id);
  }

  lemma {:induction false} CountAuthors(commits: History, es: seq<Element>, id: nat)
    requires |commits| == |es| && forall i | 0 <= i < |es| :: commits[i].author == Some(es[i].id)
    ensures Count(commits, id) == multiset(Ids(es))[id]
    decreases |es|
  {
    if es != [] {
      var n := |es| - 1;
      CountAuthors(commits[..n], es[..n], id);
      assert es == es[..n] + [es[n]];
      IdsOfTwo(es[..n], [es[n]]);
    }
  }

  lemma CountCarried(h: History, base: History, es: seq<Element>, id: nat)
    requires Carries(h, base, es)
    ensures Count(h, id) == Count(base, id) + multiset(Ids(es))[id]
  {
    assert h == base + h[|base|..];
    CountOfTwo(base, h[|base|..], id);
    CountAuthors(h[|base|..], es, id);
  }

  lemma CountAccepted(h: History, start: Repo, left: seq<Element>, id: nat)
    requires Accepted(h, start, left)
    requires Count(start.head, id) == 0 && Count(start.remote, id) == 0
    ensures Count(h, id) == multiset(Ids(left))[id]
  {
    if Carries(h, start.head, left) {
      CountCarried(h, start.head, left, id);
    } else {
      var base :| Grows(start.remote, base) && Carries(h, base, left);
      CountCarried(h, base, left, id);
      CountGrown(start.remote, base, id);
    }
  }

  /**
   A new request that is answered without an error lies in the history of the remote exactly once; only if the
   second push is refused, it is not there at all.
   */
  lemma NilIsCommittedOnce(r: Repo, es: seq<Element>, replies: seq<Reply>, id: nat)
    requires multiset(Ids(es))[id] == 1 && Count(r.head, id) == 0 && Count(r.remote, id) == 0
    ensures var p := Process(r, es, replies);
            p.final == Nil && id in Ids(p.left) ==> Count(p.repo.remote, id) == if SecondPushRefused(r, es) then 0 else 1
  {
    var p := Process(r, es, replies);
    LeftInOrder(r, es, replies);
    SubsequenceIds(p.left, es);
    if SecondPushRefused(r, es) {
      RefusedIsNotAccepted(r, es, replies);
      CountGrown(r.remote, p.repo.remote, id);
    } else if p.final == Nil && id in Ids(p.left) {
      assert p.left != [];
      NilIsAccepted(r, es, replies);
      CountAccepted(p.repo.remote, r, p.left, id);
    }
  }
}
