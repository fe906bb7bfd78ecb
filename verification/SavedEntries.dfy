/** What the entries of a saved state hold, by what their handlers returned. */
module SavedEntries {
  import opened Common
  import opened Layers
  import opened StatePlan
  import opened StateApply
  import opened PostActions

  /** All that the entry depends on succeeded. */
  ghost predicate DependenciesDone(job: Job, p: Progress, x: Id)
    requires x in job.n
  {
    forall d :: d in job.n[x].dependencies ==> d in p.succeeded
  }

  /** What a new entry is once it is saved. */
  ghost predicate IsSavedNew(job: Job, p: Progress, log: seq<Attempt>, x: Id, e: Entry)
    requires x in job.n && x in job.plan
  {
    if !DependenciesDone(job, p, x) then x in job.o && e == job.o[x]
    else if HasNothingToDo(job.plan, job.force, x) then x in job.o && IsRelinked(e, job.o[x], job.n[x])
    else if job.outcome(x).Thrown? then
      if HasFailed(log, x) then e == job.n[x] else x in job.o && e == job.o[x]
    else IsHandled(e, job.n[x], job.plan[x].action, job.outcome(x).value)
  }

  /** What an entry of the old state alone is once it is saved. */
  ghost predicate IsSavedOld(job: Job, p: Progress, x: Id, e: Entry)
    requires x in job.o
  {
    if !Blocks(p.failed, x) && job.outcome(x).Warned? then IsReduced(e, job.o[x], job.n) else e == job.o[x]
  }

  /** An entry with a failed post action: what its handler left. */
  lemma PostEntryIs(job: Job, p: Progress, log: seq<Attempt>, x: Id)
    requires IsJob(job) && x in job.plan && IsCalled(job, p, x) && HasFailed(log, x)
    ensures x in job.n ==> IsSavedNew(job, p, log, x, PostEntry(job, x))
    ensures x !in job.n ==> x in job.o && IsSavedOld(job, p, x, PostEntry(job, x))
  {
    assert job.plan[x].action == Delete <==> x !in job.n;
    assert job.plan[x].action == Update ==> x in job.o;
    hide IsOrdered, HasFailed, Blocks, Within;
    if x in job.n {
      if !job.outcome(x).Thrown? {
        ChangedIs(job.plan[x].action, job.n[x], job.outcome(x).value);
      }
      hide Changed, IsHandled;
    } else {
      WithinIs(job.o[x].dependencies, job.n);
    }
  }

  /** Any other entry that the steps keep. */
  lemma ExpectedIs(job: Job, p: Progress, log: seq<Attempt>, x: Id)
    requires IsJob(job) && x in job.plan && x in job.n.Keys + job.o.Keys && !HasFailed(log, x)
    requires Expected(job, p, x).entry.Some?
    ensures x in job.n ==> IsSavedNew(job, p, log, x, Expected(job, p, x).entry.value)
    ensures x !in job.n ==> x in job.o && IsSavedOld(job, p, x, Expected(job, p, x).entry.value)
  {
    ExpectedIsRight(job, p, x);
    hide IsJob, Expected, HasFailed, Blocks, IsHandled, IsRelinked, IsReduced, HasNothingToDo;
  }

  lemma FailedIsCalled(job: Job, p: Progress, log: seq<Attempt>, x: Id)
    requires AllRegistered(job, p, log) && HasFailed(log, x)
    ensures x in job.plan && x in job.n.Keys + job.o.Keys && IsCalled(job, p, x)
  {
    hide IsCalled, PostEntry;
  }

  /** Every saved entry is the one its handler left, or the one that was there. */
  lemma SavedEntryIs(job: Job, p: Progress, log: seq<Attempt>, x: Id)
    requires IsOutcome(job, p) && AllRegistered(job, p, log)
    requires x in Kept(Replay(Books(p.succeeded, p.failed), log))
    ensures x in job.plan && x in job.n.Keys + job.o.Keys
    ensures
      var e := Kept(Replay(Books(p.succeeded, p.failed), log))[x];
      if x in job.n then IsSavedNew(job, p, log, x, e) else IsSavedOld(job, p, x, e)
  {
    var b := Books(p.succeeded, p.failed);
    KeptAfterRounds(job, p, b, log, x);
    assert IsJob(job);
    if HasFailed(log, x) {
      FailedIsCalled(job, p, log, x);
    }
    hide IsJob, IsCalled, AllRegistered, HasFailed, IsSavedNew, IsSavedOld, Replay, IsOutcome, Expected, PostEntry;
    if HasFailed(log, x) {
      PostEntryIs(job, p, log, x);
    } else {
      assert Kept(b) == Saved(p);
      OutcomeAt(job, p, x);
      assert Kept(b)[x] == Expected(job, p, x).entry.value;
      ExpectedIs(job, p, log, x);
    }
  }

  /** Every old entry of both states is saved, and a created one when its dependencies succeeded and it was made. */
  lemma NewIsSaved(job: Job, p: Progress, log: seq<Attempt>, x: Id)
    requires IsOutcome(job, p) && AllRegistered(job, p, log) && x in job.n
    ensures x in Kept(Replay(Books(p.succeeded, p.failed), log)) <==>
      x in job.o || (DependenciesDone(job, p, x) && !job.outcome(x).Thrown?) || HasFailed(log, x)
  {
    var b := Books(p.succeeded, p.failed);
    KeptAfterRounds(job, p, b, log, x);
    hide AllRegistered, HasFailed, Replay;
    assert x in Kept(b) <==> x in Saved(p);
    hide Kept;
    NewIsKept(job, p, x);
    hide IsOutcome, DependenciesDone, Saved;
  }

  lemma NewIsKept(job: Job, p: Progress, x: Id)
    requires IsOutcome(job, p) && x in job.n
    ensures x in Saved(p) <==> x in job.o || (DependenciesDone(job, p, x) && !job.outcome(x).Thrown?)
  {
    OutcomeAt(job, p, x);
    hide IsOutcome, Changed;
  }

  /** All that is saved, and what it holds. */
  ghost predicate AreSaved(job: Job, p: Progress, log: seq<Attempt>, saved: States) {
    && (forall x :: x in job.n && x in job.plan ==>
          (x in saved <==>
            x in job.o || (DependenciesDone(job, p, x) && !job.outcome(x).Thrown?) || HasFailed(log, x)))
    && (forall x :: x in saved ==>
          && (x in job.n ==> x in job.plan && IsSavedNew(job, p, log, x, saved[x]))
          && (x !in job.n ==> x in job.o && IsSavedOld(job, p, x, saved[x])))
  }

  lemma RunsSave(job: Job, p: Progress, log: seq<Attempt>)
    requires IsOutcome(job, p) && AllRegistered(job, p, log)
    ensures AreSaved(job, p, log, Kept(Replay(Books(p.succeeded, p.failed), log)))
  {
    var saved := Kept(Replay(Books(p.succeeded, p.failed), log));
    hide IsOutcome, AllRegistered, IsSavedNew, IsSavedOld, Kept, Replay, HasFailed, DependenciesDone;
    forall x | x in job.n && x in job.plan
      ensures x in saved <==>
        x in job.o || (DependenciesDone(job, p, x) && !job.outcome(x).Thrown?) || HasFailed(log, x)
    {
      NewIsSaved(job, p, log, x);
    }
    forall x | x in saved
      ensures x in job.n ==> x in job.plan && IsSavedNew(job, p, log, x, saved[x])
      ensures x !in job.n ==> x in job.o && IsSavedOld(job, p, x, saved[x])
    {
      SavedEntryIs(job, p, log, x);
    }
  }

  /** The new state: each entry as its handler left it, or as it was when there was nothing to do. */
  ghost predicate IsNewState(job: Job, saved: States) {
    && saved.Keys == job.n.Keys
    && forall x :: x in job.n ==> x in job.plan && IsNewEntry(job, x, saved[x])
  }

  ghost predicate IsNewEntry(job: Job, x: Id, e: Entry)
    requires x in job.n && x in job.plan
  {
    if HasNothingToDo(job.plan, job.force, x) then x in job.o && IsRelinked(e, job.o[x], job.n[x])
    else job.outcome(x).Done? && IsHandled(e, job.n[x], job.plan[x].action, job.outcome(x).value)
  }

  /** When every handler ends well, the steps leave the new state. */
  lemma GoodRunSaves(job: Job, p: Progress)
    requires IsOutcome(job, p) && forall x :: x in job.plan ==> job.outcome(x).Done?
    ensures p.failed == map[] && IsNewState(job, Saved(p))
  {
    GoodRunLeavesNewState(job, p);
    NothingAttempted(job, p);
    assert job.plan.Keys == job.n.Keys + job.o.Keys;
    hide IsOutcome, Kept, AllRegistered, IsNewEntry, Saved, AreSaved, Replay;
    RunsSave(job, p, []);
    forall x | x in job.n
      ensures x in job.plan && IsNewEntry(job, x, Saved(p)[x])
    {
      GoodEntry(job, p, x);
    }
  }

  lemma NothingAttempted(job: Job, p: Progress)
    ensures AllRegistered(job, p, [])
    ensures Kept(Replay(Books(p.succeeded, p.failed), [])) == Saved(p)
  {
  }

  lemma GoodEntry(job: Job, p: Progress, x: Id)
    requires IsOutcome(job, p) && x in job.n && x in job.plan && job.outcome(x).Done?
    requires p.failed == map[] && Saved(p).Keys == job.n.Keys && AreSaved(job, p, [], Saved(p))
    ensures IsNewEntry(job, x, Saved(p)[x])
  {
    NewSucceeds(job, p, x);
    hide IsOutcome, HasNothingToDo, IsRelinked, IsHandled, IsSavedOld, HasFailed;
    assert x in p.succeeded;
  }

  /** Nothing happens to an entry that has nothing to do when all it depends on has none either. */
  lemma {:induction false} IdleSucceeds(job: Job, p: Progress, x: Id)
    requires IsOutcome(job, p) && job.n == job.o && x in job.n
    requires forall y :: y in job.plan ==> HasNothingToDo(job.plan, job.force, y)
    ensures x in job.plan && x in p.succeeded && !IsCalled(job, p, x)
    decreases job.plan[x].order
  {
    NewSucceeds(job, p, x);
    assert x in job.plan && HasNothingToDo(job.plan, job.force, x);
    forall d | d in job.n[x].dependencies
      ensures d in p.succeeded
    {
      assert IsBefore(job.plan, d, x);
      IdleSucceeds(job, p, d);
    }
  }

  lemma FirstIsRegistered(job: Job, p: Progress, log: seq<Attempt>)
    requires AllRegistered(job, p, log)
    ensures log != [] ==> IsRegistered(job, p, log[0].action)
  {
    hide IsRegistered;
  }

  lemma IdleLeavesNothing(job: Job, p: Progress, log: seq<Attempt>)
    requires AllRegistered(job, p, log)
    requires forall x :: x in job.plan && x in job.n.Keys + job.o.Keys ==> !IsCalled(job, p, x)
    ensures log == []
  {
    FirstIsRegistered(job, p, log);
    hide IsCalled, AllRegistered;
  }

  /** Then no handler is called, and nothing changes. */
  lemma IdleRunKeepsState(job: Job, p: Progress, log: seq<Attempt>)
    requires IsOutcome(job, p) && AllRegistered(job, p, log) && job.n == job.o
    requires forall y :: y in job.plan ==> HasNothingToDo(job.plan, job.force, y)
    ensures log == [] && Kept(Replay(Books(p.succeeded, p.failed), log)) == job.o
    ensures forall x :: x in job.plan && x in job.n.Keys + job.o.Keys ==> !IsCalled(job, p, x)
  {
    assert job.plan.Keys == job.n.Keys + job.o.Keys;
    hide IsOutcome, IsCalled, HasNothingToDo;
    forall x | x in job.n
      ensures x in p.succeeded && x in job.plan && !IsCalled(job, p, x) && DependenciesDone(job, p, x)
    {
      IdleSucceeds(job, p, x);
      NewSucceeds(job, p, x);
    }
    hide DependenciesDone, AllRegistered;
    IdleLeavesNothing(job, p, log);
    RunsSave(job, p, log);
    IdleIsSame(job, p, Kept(Replay(Books(p.succeeded, p.failed), log)));
    hide AreSaved;
  }

  lemma IdleIsSame(job: Job, p: Progress, saved: States)
    requires job.n == job.o && job.plan.Keys == job.o.Keys && AreSaved(job, p, [], saved)
    requires forall x :: x in job.n ==> DependenciesDone(job, p, x)
    requires forall x :: x in job.plan ==> HasNothingToDo(job.plan, job.force, x)
    ensures saved == job.o
  {
    hide DependenciesDone, HasNothingToDo, IsSavedOld, HasFailed;
    forall x | x in saved
      ensures x in job.o && saved[x] == job.o[x]
    {
      assert IsRelinked(saved[x], job.o[x], job.n[x]);
    }
    assert forall x :: x in job.o ==> x in saved;
  }
}
