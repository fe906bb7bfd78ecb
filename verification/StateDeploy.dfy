/** A whole deploy: the plan, its steps, the rounds of post actions, and the state that is saved. */
module StateDeploy {
  import opened Common
  import opened Layers
  import opened StatePlan
  import opened StateApply
  import opened PostActions
  import opened SavedEntries

  function Opening(p: Progress): Books {
    Books(p.succeeded, p.failed)
  }

  /**
   * A run of a plan: the outcome of the steps, and then every post action a step left attempted, each as the books
   * stood when it started, and no other attempts but of actions those left in turn.
   */
  ghost predicate IsRun(job: Job, posts: Posts, p: Progress, log: seq<Attempt>) {
    && IsOutcome(job, p)
    && IsLog(Opening(p), log)
    && (forall a :: IsRegistered(job, p, a) && a.callback in posts(a.id) ==> IsAttempted(log, a))
    && AllRegistered(job, p, log)
    && (forall i :: 0 <= i < |log| ==> IsFrom(log[i].action.callback, posts(log[i].action.id)))
  }

  /** The callback is one of the others or left by one, directly or not. */
  ghost predicate IsFrom(c: Callback, callbacks: seq<Callback>) {
    exists i :: 0 <= i < |callbacks| && Descends(c, callbacks[i])
  }

  ghost function SavedBy(p: Progress, log: seq<Attempt>): States {
    Kept(Replay(Opening(p), log))
  }

  /** A run of the plan saves `saved`, each entry as its handler left it or as it was. */
  ghost predicate Saves(job: Job, posts: Posts, p: Progress, log: seq<Attempt>, saved: States) {
    IsRun(job, posts, p, log) && saved == SavedBy(p, log) && AreSaved(job, p, log, saved)
  }

  /** What applying a plan saves. */
  ghost predicate IsApplied(job: Job, posts: Posts, saved: States) {
    exists p, log :: Saves(job, posts, p, log, saved)
  }

  /** Every handler and every callback ends well. */
  ghost predicate AllEndWell(n: States, o: States, outcome: Id -> Outcome, posts: Posts) {
    forall x :: x in n.Keys + o.Keys ==>
      outcome(x).Done? && forall i :: 0 <= i < |posts(x)| ==> EndsWell(posts(x)[i])
  }

  lemma SucceededGoBack(job: Job, p: Progress)
    requires IsOutcome(job, p)
    ensures GoesBack(p.succeeded, job.plan) && p.succeeded.Keys <= job.plan.Keys
    ensures forall x :: x in p.succeeded ==> AllIn(p.succeeded[x].dependencies, p.succeeded)
  {
    assert p.succeeded.Keys <= job.n.Keys <= job.plan.Keys && p.failed.Keys <= job.plan.Keys;
    hide IsOutcome;
    forall x | x in p.succeeded
      ensures x in job.n && p.succeeded[x].dependencies == job.n[x].dependencies
      ensures AllIn(job.n[x].dependencies, p.succeeded)
      ensures forall d :: d in job.n[x].dependencies ==> d in job.n && IsBefore(job.plan, d, x)
    {
      OutcomeAt(job, p, x);
      NewSucceeds(job, p, x);
      NewOrOld(job, p, x);
    }
  }

  lemma {:induction false} OrdersAreBounded(plan: map<Id, Step>) returns (bound: nat)
    ensures forall x :: x in plan ==> plan[x].order < bound
    decreases |plan|
  {
    bound := 0;
    if plan != map[] {
      var x :| x in plan;
      bound := OrdersAreBounded(plan - {x});
      if plan[x].order >= bound {
        bound := plan[x].order + 1;
      }
      assert forall y :: y in plan ==> y == x || y in plan - {x};
    }
  }

  /** When everything ends well, nothing failed and every post action can only go well. */
  lemma GoodPosts(job: Job, posts: Posts, p: Progress, queue: seq<seq<PostAction>>)
    requires IsOutcome(job, p) && AllEndWell(job.n, job.o, job.outcome, posts)
    requires forall a :: IsQueued(queue, a) ==> IsRegistered(job, p, a) && a.callback in posts(a.id)
    ensures AllQueuedGoWell(queue, Opening(p)) && IsNewState(job, Saved(p)) && p.failed == map[]
  {
    hide IsOutcome, GoesWell, AllEndWell, IsNewState, IsRegistered;
    GoodOutcome(job, posts, p);
    SucceededGoBack(job, p);
    DeletesAre(job, p);
    forall i, a | 0 <= i < |queue| && a in queue[i]
      ensures GoesWell(Opening(p), a)
    {
      assert IsQueued(queue, a);
      GoodPost(job, posts, p, a);
    }
  }

  lemma GoodOutcome(job: Job, posts: Posts, p: Progress)
    requires IsOutcome(job, p) && AllEndWell(job.n, job.o, job.outcome, posts)
    ensures p.failed == map[] && p.succeeded.Keys == job.n.Keys && IsNewState(job, Saved(p))
  {
    hide IsOutcome;
    DeletesAre(job, p);
    assert forall x :: x in job.plan ==> job.outcome(x).Done?;
    hide AllEndWell, IsNewState, Saved;
    GoodRunLeavesNewState(job, p);
    GoodRunSaves(job, p);
    NoneFailed(p);
  }

  lemma NoneFailed(p: Progress)
    requires p.failed == map[]
    ensures Saved(p).Keys == p.succeeded.Keys
  {
  }

  lemma DeletesAre(job: Job, p: Progress)
    requires IsOutcome(job, p)
    ensures job.plan.Keys == job.n.Keys + job.o.Keys
    ensures forall x :: x in job.plan ==> (job.plan[x].action == Delete <==> x !in job.n)
  {
  }

  lemma GoodPost(job: Job, posts: Posts, p: Progress, a: PostAction)
    requires AllEndWell(job.n, job.o, job.outcome, posts) && p.failed == map[]
    requires forall x :: x in p.succeeded ==> AllIn(p.succeeded[x].dependencies, p.succeeded)
    requires forall x :: x in job.n ==> x in p.succeeded
    requires IsRegistered(job, p, a) && a.callback in posts(a.id)
    requires forall x :: x in job.plan ==> (job.plan[x].action == Delete <==> x !in job.n)
    requires p.succeeded.Keys <= job.n.Keys
    ensures GoesWell(Opening(p), a)
  {
    ChainsStayInClosed(a.entry.dependencies, p.succeeded);
    hide ChainsStay, Blocks;
  }

  lemma QueueIsRun(job: Job, posts: Posts, p: Progress, queue: seq<seq<PostAction>>, log: seq<Attempt>)
    requires IsOutcome(job, p) && IsLog(Opening(p), log)
    requires forall a :: IsQueued(queue, a) <==> IsRegistered(job, p, a) && a.callback in posts(a.id)
    requires forall a :: IsQueued(queue, a) ==> IsAttempted(log, a)
    requires forall a :: IsAttempted(log, a) ==> IsLeftBy(Roots(queue), a)
    ensures IsRun(job, posts, p, log)
  {
    hide IsOutcome, IsLog;
    forall i | 0 <= i < |log|
      ensures IsRegistered(job, p, log[i].action) && IsFrom(log[i].action.callback, posts(log[i].action.id))
    {
      var a := log[i].action;
      assert IsAttempted(log, a);
      assert IsLeftBy(Roots(queue), a);
      var r :| r in Roots(queue) && IsLeftByOne(r, a);
      assert IsQueued(queue, r);
      var k :| 0 <= k < |posts(a.id)| && posts(a.id)[k] == r.callback;
    }
  }

  /**
   * Applies a plan: its steps order by order, and then the post actions in rounds. What it saves is what the runs of
   * the plan save; when everything ends well, that is the new state.
   */
  method ApplySteps(
    steps: seq<Step>, newEntries: Option<States>, oldEntries: Option<States>,
    kinds: set<string>, outcome: Id -> Outcome, posts: Posts, force: bool, concurrency: nat, ghost plan: map<Id, Step>
  ) returns (r: Result<States, ApplyError>)
    requires ListsSteps(steps, plan) && IsOrdered(plan, Given(newEntries), Given(oldEntries))
    ensures r.Ok? <==>
      (newEntries.Some? || oldEntries.Some?) && KindsKnown(Given(newEntries), Given(oldEntries), kinds)
    ensures r.Ok? ==> IsApplied(Job(Given(newEntries), Given(oldEntries), plan, outcome, force), posts, r.value)
    ensures r.Ok? && AllEndWell(Given(newEntries), Given(oldEntries), outcome, posts) ==>
      IsNewState(Job(Given(newEntries), Given(oldEntries), plan, outcome, force), r.value)
  {
    if newEntries.None? && oldEntries.None? {
      return Err(NoEntries);
    }
    var job := Job(Given(newEntries), Given(oldEntries), plan, outcome, force);
    assert IsJob(job);
    hide IsOrdered, IsJob, ListsSteps, IsOutcome, KindsKnown, IsRun, IsLog, IsQueued, AllEndWell, IsNewState, Replay,
         GoesBack, AllQueuedGoWell, IsAttempted, IsLeftBy, Roots, IsRegistered;
    var done, queue := RunSteps(steps, job, posts, kinds);
    if done.Err? {
      return Err(done.error);
    }
    var p := done.value;
    SucceededGoBack(job, p);
    ghost var bound := OrdersAreBounded(plan);
    var b;
    ghost var log;
    b, log := RunRounds(queue, Opening(p), concurrency, plan, bound);
    RoundsApply(job, posts, p, queue, b, log);
    return Ok(Kept(b));
  }

  /** For every run: what it saves. */
  lemma RunsAreSaved(job: Job, posts: Posts, p: Progress, log: seq<Attempt>)
    requires IsRun(job, posts, p, log)
    ensures Saves(job, posts, p, log, SavedBy(p, log))
  {
    hide IsOutcome, AllRegistered, IsLog, AreSaved;
    RunsSave(job, p, log);
  }

  /** When there is nothing to do for any entry of a state, a run over it calls no handler and saves the same state. */
  lemma IdleRunSavesSame(job: Job, posts: Posts, saved: States)
    requires IsApplied(job, posts, saved) && job.n == job.o
    requires forall x :: x in job.plan ==> HasNothingToDo(job.plan, job.force, x)
    ensures saved == job.o
  {
    var p, log :| Saves(job, posts, p, log, saved);
    IdleRunKeepsState(job, p, log);
  }

  lemma RoundsApply(job: Job, posts: Posts, p: Progress, queue: seq<seq<PostAction>>, b: Books, log: seq<Attempt>)
    requires IsOutcome(job, p) && IsLog(Opening(p), log) && b == Replay(Opening(p), log)
    requires forall a :: IsQueued(queue, a) <==> IsRegistered(job, p, a) && a.callback in posts(a.id)
    requires forall a :: IsQueued(queue, a) ==> IsAttempted(log, a)
    requires forall a :: IsAttempted(log, a) ==> IsLeftBy(Roots(queue), a)
    requires AllQueuedGoWell(queue, Opening(p)) ==> b == Opening(p)
    ensures IsApplied(job, posts, Kept(b))
    ensures AllEndWell(job.n, job.o, job.outcome, posts) ==> IsNewState(job, Kept(b))
  {
    hide IsOutcome, IsLog, IsRun, IsQueued, IsAttempted, IsLeftBy, Roots, Replay, AllQueuedGoWell, AllEndWell,
         IsNewState, IsRegistered;
    QueueIsRun(job, posts, p, queue, log);
    RunsAreSaved(job, posts, p, log);
    if AllEndWell(job.n, job.o, job.outcome, posts) {
      GoodPosts(job, posts, p, queue);
      assert Kept(Opening(p)) == Saved(p);
    }
  }

  /** The run of a deploy loads again just when its failed deletions keep their dependencies. */
  lemma RunIsLoadable(job: Job, posts: Posts, p: Progress, log: seq<Attempt>)
    requires IsRun(job, posts, p, log) && Loadable(job.n) && Loadable(job.o)
    ensures Loadable(SavedBy(p, log)) <==> DeletionsKeepDependencies(log, SavedBy(p, log))
    ensures DeletionsStandAlone(job.n, job.o, Leaving(job.n, job.o, posts)) ==> Loadable(SavedBy(p, log))
  {
    RoundsAreLoadable(job, p, log);
    hide IsOutcome, IsLog, Loadable, DeletionsKeepDependencies;
    if DeletionsStandAlone(job.n, job.o, Leaving(job.n, job.o, posts)) {
      StandAloneKeep(job, posts, p, log);
    }
  }

  // ---------------------------------------------------------------------------------
  // When every run can be loaded, told before it

  /** The entries whose handlers leave post actions, if they are called. */
  ghost function Leaving(n: States, o: States, posts: Posts): set<Id> {
    set x | x in n.Keys + o.Keys && posts(x) != []
  }

  /** No entry to delete that leaves post actions depends on another one to delete. */
  ghost predicate DeletionsStandAlone(n: States, o: States, leaving: set<Id>) {
    forall x :: x in leaving && x in o && x !in n ==> AllIn(o[x].dependencies, n)
  }

  /** The steps delete the entry. */
  ghost predicate IsDeleted(job: Job, p: Progress, x: Id) {
    x in job.o && x !in job.n && !Blocks(p.failed, x) && job.outcome(x).Done?
  }

  /** No entry deleted that leaves post actions depended on another one deleted. */
  ghost predicate DeletedStandAlone(job: Job, p: Progress, leaving: set<Id>) {
    forall x, d :: x in leaving && IsDeleted(job, p, x) && d in job.o[x].dependencies ==> !IsDeleted(job, p, d)
  }

  /** An entry of the old state alone is saved unless it is deleted and no post action of it failed. */
  lemma DeletedIsSaved(job: Job, posts: Posts, p: Progress, log: seq<Attempt>, x: Id)
    requires IsRun(job, posts, p, log) && x in job.o
    ensures x in SavedBy(p, log) <==> !IsDeleted(job, p, x) || HasFailed(log, x)
  {
    hide IsOutcome, IsLog, AllRegistered, Blocks, Replay, HasFailed, IsRegistered;
    assert Kept(Opening(p)) == Saved(p);
    NothingIsLost(job, p, x);
    KeptAfterRounds(job, p, Opening(p), log, x);
  }

  lemma StandAloneKeep(job: Job, posts: Posts, p: Progress, log: seq<Attempt>)
    requires IsRun(job, posts, p, log) && Loadable(job.n) && Loadable(job.o)
    requires
      || DeletionsStandAlone(job.n, job.o, Leaving(job.n, job.o, posts))
      || DeletedStandAlone(job, p, Leaving(job.n, job.o, posts))
    ensures DeletionsKeepDependencies(log, SavedBy(p, log))
  {
    assert Complete(Graph(job.o));
    hide IsLog, Replay, Loadable, Complete;
    forall i, d |
      0 <= i < |log| && !log[i].ok && log[i].action.action == Delete && d in log[i].action.entry.dependencies
      ensures d in SavedBy(p, log)
    {
      FailedDeletionKeeps(job, posts, p, log, i, d);
    }
    hide IsRun, SavedBy;
  }

  lemma FailedDeletionKeeps(job: Job, posts: Posts, p: Progress, log: seq<Attempt>, i: nat, d: Id)
    requires IsRun(job, posts, p, log) && Complete(Graph(job.o))
    requires
      || DeletionsStandAlone(job.n, job.o, Leaving(job.n, job.o, posts))
      || DeletedStandAlone(job, p, Leaving(job.n, job.o, posts))
    requires i < |log| && log[i].action.action == Delete && d in log[i].action.entry.dependencies
    ensures d in SavedBy(p, log)
  {
    var x := log[i].action.id;
    assert IsRegistered(job, p, log[i].action);
    assert x in Leaving(job.n, job.o, posts) && x in job.o && x !in job.n && d in job.o[x].dependencies;
    CompleteHas(job.o, x);
    OutcomeAt(job, p, x);
    DeletedIsSaved(job, posts, p, log, d);
    hide IsRun, IsOutcome, Complete, SavedBy;
  }

  /** Every run with this outcome of the steps saves a state that can be loaded, whatever the callbacks do. */
  ghost predicate EveryRunLoads(job: Job, p: Progress, leaving: set<Id>) {
    forall posts: Posts, log ::
      IsRun(job, posts, p, log) && Leaving(job.n, job.o, posts) == leaving ==> Loadable(SavedBy(p, log))
  }

  /** Attempts of the actions, in their order. */
  lemma {:induction false} Attempts(b: Books, actions: seq<PostAction>) returns (log: seq<Attempt>)
    ensures IsLog(b, log) && forall a :: IsAttempted(log, a) <==> a in actions
  {
    log := [];
    if actions != [] {
      var a := actions[|actions| - 1];
      var init := Attempts(b, actions[..|actions| - 1]);
      var ok := MayRun(Replay(b, init), a) && a.callback.ends;
      assert init[..|init|] == init;
      LogNext(b, init, Attempt(a, |init|, ok));
      log := init + [Attempt(a, |init|, ok)];
      LastOf([], actions);
      hide IsLog, IsAttempted;
    }
  }

  /** Each leaves one callback, which ends well but for the one of `x`. */
  function OneFails(leaving: set<Id>, x: Id): Posts {
    y => if y in leaving then [Callback(false, y != x, [])] else []
  }

  /** The one post action of an entry, which ends well but for the one of `x`. */
  ghost predicate IsOneOf(job: Job, p: Progress, leaving: set<Id>, x: Id, a: PostAction) {
    a.id in leaving && IsRegistered(job, p, a) && a.callback == Callback(false, a.id != x, [])
  }

  lemma OneOfEach(job: Job, p: Progress, leaving: set<Id>, x: Id) returns (actions: seq<PostAction>)
    requires job.plan.Keys == job.n.Keys + job.o.Keys && leaving <= job.plan.Keys
    ensures forall a :: a in actions <==> IsOneOf(job, p, leaving, x, a)
  {
    var all := set y | y in leaving && IsCalled(job, p, y) ::
      PostAction(job.plan[y].action, y, PostEntry(job, y), Callback(false, y != x, []));
    hide IsCalled, PostEntry;
    forall a
      ensures a in all <==> IsOneOf(job, p, leaving, x, a)
    {
    }
    hide IsOneOf;
    actions := ListOf(all);
  }

  /** There is a run in which the callback of `x` throws and every other one ends well. */
  lemma RunWithFailure(job: Job, p: Progress, leaving: set<Id>, x: Id) returns (log: seq<Attempt>)
    requires IsOutcome(job, p) && leaving <= job.n.Keys + job.o.Keys
    ensures IsRun(job, OneFails(leaving, x), p, log)
  {
    assert job.plan.Keys == job.n.Keys + job.o.Keys;
    hide IsOutcome, IsCalled, IsLog, IsAttempted, IsOneOf, IsRun, OneFails;
    var actions := OneOfEach(job, p, leaving, x);
    log := Attempts(Opening(p), actions);
    OnesAreRun(job, p, leaving, x, log);
  }

  lemma OnesAreRun(job: Job, p: Progress, leaving: set<Id>, x: Id, log: seq<Attempt>)
    requires IsOutcome(job, p) && IsLog(Opening(p), log)
    requires forall a :: IsAttempted(log, a) <==> IsOneOf(job, p, leaving, x, a)
    ensures IsRun(job, OneFails(leaving, x), p, log)
  {
    hide IsOutcome, IsLog, IsRegistered;
    forall i | 0 <= i < |log|
      ensures IsRegistered(job, p, log[i].action)
      ensures IsFrom(log[i].action.callback, OneFails(leaving, x)(log[i].action.id))
    {
      var a := log[i].action;
      assert IsAttempted(log, a);
      assert OneFails(leaving, x)(a.id)[0] == a.callback && Descends(a.callback, a.callback);
    }
    hide IsAttempted, IsFrom;
  }

  /** In such a run each entry has that one post action. */
  lemma AttemptsAreOnes(job: Job, p: Progress, leaving: set<Id>, x: Id, log: seq<Attempt>, i: nat)
    requires IsRun(job, OneFails(leaving, x), p, log) && i < |log|
    ensures IsOneOf(job, p, leaving, x, log[i].action)
  {
    hide IsOutcome, IsLog, IsRegistered;
    var a := log[i].action;
    assert IsFrom(a.callback, OneFails(leaving, x)(a.id));
  }

  lemma OneHasFailed(job: Job, p: Progress, leaving: set<Id>, x: Id, log: seq<Attempt>)
    requires x in leaving && x in job.plan && x in job.n.Keys + job.o.Keys && IsCalled(job, p, x)
    requires IsRun(job, OneFails(leaving, x), p, log)
    ensures HasFailed(log, x)
  {
    var own := PostAction(job.plan[x].action, x, PostEntry(job, x), Callback(false, false, []));
    assert OneFails(leaving, x)(x)[0] == own.callback;
    assert IsRegistered(job, p, own);
    hide IsOutcome, IsFrom, IsCalled, PostEntry, Replay, MayRun;
    var i :| 0 <= i < |log| && log[i].action == own;
    assert GoesAsSeen(Opening(p), log[..i], log[i]);
  }

  /** A post action of a deletion that no entry can keep from running, and that ends well. */
  predicate IsSure(a: PostAction) {
    a.action == Delete && a.callback.ends && !a.callback.requireDependents
  }

  lemma SureEndsWell(b: Books, a: PostAction)
    requires IsSure(a) && a.id !in Kept(b)
    ensures MayRun(b, a) && a.callback.ends
  {
  }

  lemma LogBefore(b: Books, log: seq<Attempt>)
    requires IsLog(b, log) && log != []
    ensures
      var init, last := log[..|log| - 1], log[|log| - 1];
      IsLog(b, init) && GoesAsSeen(b, init, last)
  {
    hide GoesAsSeen;
    var init := log[..|log| - 1];
    assert forall i :: 0 <= i < |init| ==> log[i] == init[i] && log[..i] == init[..i];
  }

  lemma LogPrefix(b: Books, log: seq<Attempt>, k: nat)
    requires IsLog(b, log) && k <= |log|
    ensures IsLog(b, log[..k])
  {
    hide GoesAsSeen;
    assert forall i :: 0 <= i < k ==> log[..k][i] == log[i] && log[..k][..i] == log[..i];
  }

  /** An entry that is gone stays so when its post actions are sure to end well. */
  lemma {:induction false} GoneStaysGone(b: Books, log: seq<Attempt>, d: Id)
    requires IsLog(b, log) && d !in Kept(b)
    requires forall i :: 0 <= i < |log| && log[i].action.id == d ==> IsSure(log[i].action)
    ensures d !in Kept(Replay(b, log))
    decreases |log|
  {
    if log != [] {
      LogBefore(b, log);
      var init, last := log[..|log| - 1], log[|log| - 1];
      GoneStaysGone(b, init, d);
      KeptAfterFailure(Replay(b, init), last.action);
      if last.action.id == d {
        var seen := init[..last.seen];
        LogPrefix(b, init, last.seen);
        GoneStaysGone(b, seen, d);
        SureEndsWell(Replay(b, seen), last.action);
      }
      hide IsLog, MayRun, IsSure, Kept, Fail;
    }
  }

  /** The handler of an entry deleted was called, and its post actions have the old entry. */
  lemma DependentIsCalled(job: Job, p: Progress, x: Id)
    requires IsOutcome(job, p) && IsDeleted(job, p, x)
    ensures x in job.plan && IsCalled(job, p, x) && PostEntry(job, x) == job.o[x]
  {
    hide Blocks;
  }

  /**
   * Every run saves a state that can be loaded, whatever the callbacks do, if and only if no entry deleted that
   * leaves post actions depended on another one deleted.
   */
  lemma EveryRunLoadsIff(job: Job, p: Progress, leaving: set<Id>)
    requires IsOutcome(job, p) && Loadable(job.n) && Loadable(job.o) && leaving <= job.n.Keys + job.o.Keys
    ensures EveryRunLoads(job, p, leaving) <==> DeletedStandAlone(job, p, leaving)
  {
    hide IsOutcome, Loadable, IsRun, SavedBy, Blocks, HasFailed, Leaving, DeletionsKeepDependencies;
    if DeletedStandAlone(job, p, leaving) {
      forall posts: Posts, log | IsRun(job, posts, p, log) && Leaving(job.n, job.o, posts) == leaving
        ensures Loadable(SavedBy(p, log))
      {
        StandAloneKeep(job, posts, p, log);
        RunIsLoadable(job, posts, p, log);
      }
    } else {
      var x, d :| x in leaving && IsDeleted(job, p, x) && d in job.o[x].dependencies && IsDeleted(job, p, d);
      var log := RunWithFailure(job, p, leaving, x);
      OneFailureIsEnough(job, p, leaving, x, d, log);
    }
  }

  /**
   * When an entry deleted that leaves post actions depended on another one deleted: every run in which the callback of
   * the first throws and all others end well, whatever is over when, brings the first back without the other.
   */
  lemma OneFailureIsEnough(job: Job, p: Progress, leaving: set<Id>, x: Id, d: Id, log: seq<Attempt>)
    requires Loadable(job.o) && leaving <= job.n.Keys + job.o.Keys && x in leaving
    requires IsRun(job, OneFails(leaving, x), p, log)
    requires IsDeleted(job, p, x) && d in job.o[x].dependencies && IsDeleted(job, p, d)
    ensures Leaving(job.n, job.o, OneFails(leaving, x)) == leaving && !Loadable(SavedBy(p, log))
  {
    assert Leaving(job.n, job.o, OneFails(leaving, x)) == leaving;
    assert IsOutcome(job, p) && IsJob(job) && IsLog(Opening(p), log) && AllRegistered(job, p, log);
    DependentIsCalled(job, p, x);
    OneHasFailed(job, p, leaving, x, log);
    hide IsJob, IsOneOf, IsOutcome, AllRegistered, IsCalled, OneFails, IsRun, Loadable, Replay, Blocks, HasFailed,
         IsLog;
    DependentGoesFirst(job, x, d);
    forall i | 0 <= i < |log| && log[i].action.id == d
      ensures IsSure(log[i].action)
    {
      AttemptsAreOnes(job, p, leaving, x, log, i);
      OtherIsSure(job, p, leaving, x, log[i].action);
    }
    DeletedIsGone(job, p, d);
    GoneStaysGone(Opening(p), log, d);
    KeptAfterRounds(job, p, Opening(p), log, x);
    if Loadable(SavedBy(p, log)) {
      OldHas(SavedBy(p, log), x, d);
    }
  }

  lemma OldHas(o: States, x: Id, d: Id)
    requires Loadable(o) && x in o && d in o[x].dependencies
    ensures d in o
  {
    CompleteHas(o, x);
  }

  lemma DeletedIsGone(job: Job, p: Progress, d: Id)
    requires IsOutcome(job, p) && IsDeleted(job, p, d)
    ensures d !in Kept(Opening(p))
  {
    NothingIsLost(job, p, d);
  }

  lemma DependentGoesFirst(job: Job, x: Id, d: Id)
    requires IsJob(job) && x in job.o && x !in job.n && d in job.o[x].dependencies && d in job.o && d !in job.n
    ensures x != d
  {
    assert IsBefore(job.plan, x, d);
  }

  lemma OtherIsSure(job: Job, p: Progress, leaving: set<Id>, x: Id, a: PostAction)
    requires IsJob(job) && a.id in job.o && a.id !in job.n && a.id != x && IsOneOf(job, p, leaving, x, a)
    ensures IsSure(a)
  {
    assert job.plan[a.id].action == Delete;
    hide IsJob, IsCalled, PostEntry;
  }

  /** Every run of the plan saves a state that can be loaded, whatever the handlers and the callbacks do. */
  ghost predicate EveryDeployLoads(n: States, o: States, plan: map<Id, Step>, force: bool, leaving: set<Id>) {
    forall outcome: Id -> Outcome, p ::
      IsOutcome(Job(n, o, plan, outcome, force), p) ==> EveryRunLoads(Job(n, o, plan, outcome, force), p, leaving)
  }

  /** The outcome of the steps when every handler ends well. */
  lemma GoodOutcomeExists(job: Job) returns (p: Progress)
    requires IsJob(job) && forall x :: job.outcome(x).Done?
    ensures IsOutcome(job, p) && p.failed == map[]
  {
    var changed := map x | x in job.n ::
      AttemptChange(job.plan[x], job.n[x], Lookup(job.o, x), true, job.outcome(x), job.force).entry.value;
    p := Progress(map[], changed, map[]);
    assert DependenciesFirst(job.plan, job.n);
    forall x | x in job.n
      ensures AllIn(job.n[x].dependencies, p.succeeded)
    {
    }
    hide IsOrdered, AllIn;
  }

  /**
   * Every run of a plan saves a state that can be loaded, whatever the handlers and the callbacks do, if and only if
   * no entry to delete that leaves post actions depends on another one to delete.
   */
  lemma EveryDeployLoadsIff(n: States, o: States, plan: map<Id, Step>, force: bool, leaving: set<Id>)
    requires plan.Keys == n.Keys + o.Keys && IsOrdered(plan, n, o)
    requires Loadable(n) && Loadable(o) && leaving <= n.Keys + o.Keys
    ensures EveryDeployLoads(n, o, plan, force, leaving) <==> DeletionsStandAlone(n, o, leaving)
  {
    hide IsOrdered, Loadable, EveryRunLoads, IsOutcome;
    if DeletionsStandAlone(n, o, leaving) {
      forall outcome: Id -> Outcome, p | IsOutcome(Job(n, o, plan, outcome, force), p)
        ensures EveryRunLoads(Job(n, o, plan, outcome, force), p, leaving)
      {
        EveryRunLoadsIff(Job(n, o, plan, outcome, force), p, leaving);
      }
    } else {
      var x :| x in leaving && x in o && x !in n && !AllIn(o[x].dependencies, n);
      var d :| d in o[x].dependencies && d !in n;
      var good: Id -> Outcome := y => Done(None);
      var job := Job(n, o, plan, good, force);
      var p := GoodOutcomeExists(job);
      EveryRunLoadsIff(job, p, leaving);
      OldHas(o, x, d);
      assert IsDeleted(job, p, x) && IsDeleted(job, p, d);
    }
  }

  datatype DeployError = Planning(plan: PlanError) | Applying(apply: ApplyError)

  /** The steps are those the two states call for, each once, in an order their dependencies allow. */
  ghost predicate IsPlanned(steps: seq<Step>, plan: map<Id, Step>, n: States, o: States, handlers: Handlers) {
    ListsSteps(steps, plan) && PlansAsNeeded(steps, n, o, handlers) && IsOrdered(plan, n, o)
  }

  /**
   * The state saved comes from a run of the plan. Over a state that can be loaded, it can be loaded again if and only
   * if each deletion of the run whose post action failed or was skipped has its dependencies in it.
   */
  ghost predicate IsDeployed(job: Job, posts: Posts, saved: States) {
    exists p, log ::
      && Saves(job, posts, p, log, saved)
      && (Loadable(job.o) ==> (Loadable(saved) <==> DeletionsKeepDependencies(log, saved)))
  }

  /** Over itself, the handlers find each entry of the state the same, and preview no changes. */
  ghost predicate IsStable(s: States, handlers: Handlers) {
    forall x :: x in s && s[x].kind in handlers ==>
      handlers[s[x].kind].equals(s[x], s[x]) && PreviewsNothing(handlers[s[x].kind], s[x])
  }

  ghost predicate PreviewsNothing(handler: Handler, e: Entry) {
    forall shown :: handler.preview(e, e, shown) == None || handler.preview(e, e, shown).value <= 0
  }

  /** Then a plan of the state over itself has nothing to do. */
  lemma StableHasNothingToDo(steps: seq<Step>, plan: map<Id, Step>, s: States, handlers: Handlers)
    requires IsPlanned(steps, plan, s, s, handlers) && IsStable(s, handlers)
    requires forall x :: x in s ==> s[x].kind in handlers
    ensures forall x :: x in plan ==> HasNothingToDo(plan, false, x)
  {
    hide IsOrdered;
    SameStateIsUpdated(steps, s, handlers);
    forall x | x in plan
      ensures HasNothingToDo(plan, false, x)
    {
      var i :| 0 <= i < |steps| && steps[i].id == x;
      assert HasStep(steps, x) && PreviewsAsNeeded(steps[i], [], s, s, handlers);
      var shown :| IsPreviewOf(steps[i].preview, shown, [], s, s, handlers[s[x].kind], x);
    }
  }

  /**
   * A deploy. It goes through just when it can be planned and every kind is known, and over a state that can be
   * loaded that depends on the new state alone. Whatever the handlers and callbacks did, what it saves can be loaded
   * by the next deploy if and only if the failed post actions of deletions left their dependencies in place. It always
   * can be when no entry to delete that leaves post actions depends on another one to delete. Deploying again a state
   * in which the handlers find nothing changed keeps it as it is.
   */
  method Deploy(
    newIds: seq<Id>, newEntries: Option<States>, oldIds: seq<Id>, oldEntries: Option<States>,
    handlers: Handlers, outcome: Id -> Outcome, posts: Posts, force: bool, concurrency: nat
  ) returns (r: Result<States, DeployError>, ghost steps: seq<Step>, ghost plan: map<Id, Step>)
    requires Lists(newIds, Given(newEntries).Keys) && Lists(oldIds, Given(oldEntries).Keys)
    ensures r.Ok? <==>
      && (newEntries.Some? || oldEntries.Some?)
      && Plannable(Given(newEntries), Given(oldEntries), handlers)
      && KindsKnown(Given(newEntries), Given(oldEntries), handlers.Keys)
    ensures Loadable(Given(oldEntries)) ==>
      (r.Ok? <==>
        && (newEntries.Some? || oldEntries.Some?)
        && Loadable(Given(newEntries)) && KindsKnown(Given(newEntries), Given(oldEntries), handlers.Keys))
    ensures r.Ok? ==> IsPlanned(steps, plan, Given(newEntries), Given(oldEntries), handlers)
    ensures r.Ok? ==> IsDeployed(Job(Given(newEntries), Given(oldEntries), plan, outcome, force), posts, r.value)
    ensures
      var n, o := Given(newEntries), Given(oldEntries);
      r.Ok? && Loadable(o) && DeletionsStandAlone(n, o, Leaving(n, o, posts)) ==> Loadable(r.value)
    ensures r.Ok? && AllEndWell(Given(newEntries), Given(oldEntries), outcome, posts) ==>
      IsNewState(Job(Given(newEntries), Given(oldEntries), plan, outcome, force), r.value)
    ensures
      var n, o := Given(newEntries), Given(oldEntries);
      r.Ok? && n == o && IsStable(n, handlers) && !force ==> r.value == o
  {
    ghost var n, o := Given(newEntries), Given(oldEntries);
    steps, plan := [], map[];
    hide Loadable, Handled, KindsKnown, Plannable, IsPlan, IsRun, Lists, ListsSteps, IsDeployed, DeletionsStandAlone,
         Leaving, AllEndWell, IsNewState, PlansAsNeeded, IsStable, IsOrdered, IsApplied;
    PlannableNeeds(n, o, handlers);
    ghost var up, down, base;
    var planned;
    planned, plan, up, down, base := PlanSteps(newIds, newEntries, oldIds, oldEntries, handlers);
    if planned.Err? {
      r := Err(Planning(planned.error));
      return;
    }
    steps := planned.value;
    PlanIsOrdered(plan, n, o, handlers, up, down, base);
    var applied := ApplySteps(
      planned.value, newEntries, oldEntries, handlers.Keys, outcome, posts, force, concurrency, plan);
    if applied.Err? {
      r := Err(Applying(applied.error));
      return;
    }
    r := Ok(applied.value);
    DeployedIs(Job(n, o, plan, outcome, force), posts, steps, handlers, r.value);
  }

  lemma DeployedIs(job: Job, posts: Posts, steps: seq<Step>, handlers: Handlers, saved: States)
    requires IsPlanned(steps, job.plan, job.n, job.o, handlers) && Loadable(job.n) && Handled(job.n, handlers)
    requires IsApplied(job, posts, saved)
    ensures IsDeployed(job, posts, saved)
    ensures Loadable(job.o) && DeletionsStandAlone(job.n, job.o, Leaving(job.n, job.o, posts)) ==> Loadable(saved)
    ensures job.n == job.o && IsStable(job.n, handlers) && !job.force ==> saved == job.o
  {
    hide Loadable, IsRun, IsStable, DeletionsKeepDependencies, AreSaved, SavedBy, Leaving, DeletionsStandAlone,
         HasNothingToDo;
    var p, log :| Saves(job, posts, p, log, saved);
    if Loadable(job.o) {
      RunIsLoadable(job, posts, p, log);
    }
    if job.n == job.o && IsStable(job.n, handlers) && !job.force {
      StableHasNothingToDo(steps, job.plan, job.n, handlers);
      IdleRunSavesSame(job, posts, saved);
    }
    hide IsPlanned;
  }

  lemma PlannableNeeds(n: States, o: States, handlers: Handlers)
    ensures Plannable(n, o, handlers) ==> Loadable(n) && Handled(n, handlers)
    ensures Loadable(o) && KindsKnown(n, o, handlers.Keys) ==> (Plannable(n, o, handlers) <==> Loadable(n))
  {
    if Loadable(o) {
      LoadableIsPlannable(n, o, handlers);
    }
    if KindsKnown(n, o, handlers.Keys) {
      KnownAreHandled(n, o, handlers);
    }
    hide Loadable, Handled, KindsKnown;
  }

  lemma KnownAreHandled(n: States, o: States, handlers: Handlers)
    requires KindsKnown(n, o, handlers.Keys)
    ensures Handled(n, handlers)
  {
    assert forall x :: x in n ==> x in n.Keys + o.Keys;
  }
}
