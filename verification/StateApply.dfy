/** Applying a plan: what becomes of every entry, whichever handlers fail. */
module StateApply {
  import opened Common
  import opened Layers
  import opened StatePlan

  /** How a handler ends; the value is the result it gives. */
  datatype Outcome = Done(value: Option<string>) | Warned(value: Option<string>) | Thrown

  datatype Issue = Nothing | Warnings | Failure

  /** The entry to keep, if any, and what was reported. */
  datatype StepResult = StepResult(entry: Option<Entry>, issue: Issue)

  /** A callback left for after the steps: how it ends, and what further ones it leaves. */
  datatype Callback = Callback(requireDependents: bool, ends: bool, more: seq<Callback>)

  /** A post action: a callback and the entry of the step whose handler left it. */
  datatype PostAction = PostAction(action: Action, id: Id, entry: Entry, callback: Callback)

  /** The callbacks the handler of an entry leaves, if it is called. */
  type Posts = Id -> seq<Callback>

  /** A plan to apply from the old state `o` to the new state `n`, and how the handler of each entry ends. */
  datatype Job = Job(n: States, o: States, ghost plan: map<Id, Step>, outcome: Id -> Outcome, force: bool)

  /** The entries the rest of the run sees, and those done with and without problems. */
  datatype Progress = Progress(entries: States, succeeded: States, failed: States)

  function Lookup(s: States, id: Id): Option<Entry> {
    if id in s then Some(s[id]) else None
  }

  predicate AllIn(ids: seq<Id>, s: States) {
    forall d :: d in ids ==> d in s
  }

  function Changed(action: Action, candidate: Entry, value: Option<string>): Entry {
    candidate.(result := if action == Create || value.Some? then value else candidate.result)
  }

  /** An update that finds nothing to do: no handler is called. */
  predicate IsUnchanged(step: Step, saved: Option<Entry>, force: bool) {
    step.action == Update && !force && (step.preview.None? || step.preview.value <= 0) && saved.Some?
  }

  /** A creation, a replacement or an update. */
  function AttemptChange(
    step: Step, candidate: Entry, saved: Option<Entry>, ready: bool, outcome: Outcome, force: bool
  ): StepResult {
    if !ready then StepResult(saved, Failure)
    else if IsUnchanged(step, saved, force) then
      StepResult(Some(saved.value.(dependencies := candidate.dependencies)), Nothing)
    else match outcome
      case Thrown => StepResult(saved, Failure)
      case Done(value) => StepResult(Some(Changed(step.action, candidate, value)), Nothing)
      case Warned(value) => StepResult(Some(Changed(step.action, candidate, value)), Warnings)
  }

  /** An entry that stays depends on the entry. */
  predicate Blocks(failed: States, id: Id) {
    exists y :: y in failed && id in failed[y].dependencies
  }

  function Within(ids: seq<Id>, s: States): (r: seq<Id>)
    ensures forall x :: x in r <==> x in ids && x in s
  {
    if ids == [] then []
    else
      var rest := Within(ids[..|ids| - 1], s);
      assert ids == ids[..|ids| - 1] + [ids[|ids| - 1]];
      if ids[|ids| - 1] in s then rest + [ids[|ids| - 1]] else rest
  }

  /** A deletion. With warnings the entry stays, with its dependencies among `entries`. */
  function AttemptDelete(current: Entry, blocked: bool, entries: States, outcome: Outcome): StepResult {
    if blocked then StepResult(Some(current), Failure)
    else match outcome
      case Thrown => StepResult(Some(current), Failure)
      case Done(_) => StepResult(None, Nothing)
      case Warned(_) => StepResult(Some(current.(dependencies := Within(current.dependencies, entries))), Warnings)
  }

  /** The entry a handler was given, once it has ended. */
  function EntryAfter(action: Action, candidate: Entry, entries: States, outcome: Outcome): Entry {
    if action == Delete then
      if outcome.Warned? then candidate.(dependencies := Within(candidate.dependencies, entries)) else candidate
    else if outcome.Thrown? then candidate
    else Changed(action, candidate, outcome.value)
  }

  function Leave(action: Action, id: Id, entry: Entry, callbacks: seq<Callback>): seq<PostAction> {
    seq(|callbacks|, i requires 0 <= i < |callbacks| => PostAction(action, id, entry, callbacks[i]))
  }

  // ---------------------------------------------------------------------------------
  // What the entries hold

  /** An update that was previewed to change nothing, and is not forced. */
  predicate HasNothingToDo(plan: map<Id, Step>, force: bool, x: Id)
    requires x in plan
  {
    plan[x].action == Update && !force && (plan[x].preview == None || plan[x].preview.value <= 0)
  }

  /** The entry given to the handler, with the result it returned. */
  predicate IsHandled(e: Entry, given: Entry, action: Action, result: Option<string>) {
    && e.kind == given.kind && e.parameters == given.parameters && e.dependencies == given.dependencies
    && (action == Create ==> e.result == result)
    && (action != Create && result.Some? ==> e.result == result)
    && (action != Create && result.None? ==> e.result == given.result)
  }

  /** The old entry, with the dependencies of the new one. */
  predicate IsRelinked(e: Entry, was: Entry, given: Entry) {
    && e.kind == was.kind && e.parameters == was.parameters && e.result == was.result
    && e.dependencies == given.dependencies
  }

  /** The old entry, without the dependencies that are not in the state. */
  ghost predicate IsReduced(e: Entry, was: Entry, s: States) {
    && e.kind == was.kind && e.parameters == was.parameters && e.result == was.result
    && IsFiltered(e.dependencies, was.dependencies, s)
  }

  /** The ids of the list that are in the state, in their order. */
  ghost predicate IsFiltered(r: seq<Id>, ids: seq<Id>, s: States) {
    if ids == [] then r == []
    else if ids[0] in s then r != [] && r[0] == ids[0] && IsFiltered(r[1..], ids[1..], s)
    else IsFiltered(r, ids[1..], s)
  }

  lemma {:induction false} WithinIs(ids: seq<Id>, s: States)
    ensures IsFiltered(Within(ids, s), ids, s)
  {
    if ids != [] {
      WithinIs(ids[1..], s);
      WithinFirst(ids, s);
      hide Within;
      var rest := Within(ids[1..], s);
      assert ([ids[0]] + rest)[1..] == rest && [] + rest == rest;
    }
  }

  lemma {:induction false} WithinFirst(ids: seq<Id>, s: States)
    requires ids != []
    ensures Within(ids, s) == (if ids[0] in s then [ids[0]] else []) + Within(ids[1..], s)
  {
    var init, last := ids[..|ids| - 1], ids[|ids| - 1];
    WithinLast(ids, s);
    if init == [] {
      assert ids[1..] == [] && Within([], s) == [];
    } else {
      hide Within;
      WithinFirst(init, s);
      WithinLast(ids[1..], s);
      assert init[1..] == ids[1..][..|ids[1..]| - 1];
      Associates(if ids[0] in s then [ids[0]] else [], Within(init[1..], s), if last in s then [last] else []);
    }
  }

  lemma WithinLast(ids: seq<Id>, s: States)
    requires ids != []
    ensures Within(ids, s) == Within(ids[..|ids| - 1], s) + if ids[|ids| - 1] in s then [ids[|ids| - 1]] else []
  {
    assert Within(ids[..|ids| - 1], s) + [] == Within(ids[..|ids| - 1], s);
  }

  lemma ChangedIs(action: Action, candidate: Entry, value: Option<string>)
    ensures IsHandled(Changed(action, candidate, value), candidate, action, value)
  {
  }

  // ---------------------------------------------------------------------------------
  // What a run amounts to

  /** What was found out about an entry. */
  ghost predicate Holds(p: Progress, x: Id, r: StepResult) {
    && (x in p.succeeded <==> r.entry.Some? && r.issue == Nothing)
    && (x in p.failed <==> r.entry.Some? && r.issue != Nothing)
    && (x in p.succeeded ==> p.succeeded[x] == r.entry.value)
    && (x in p.failed ==> p.failed[x] == r.entry.value)
  }

  /** What becomes of an entry, by what became of the others. */
  ghost function Expected(job: Job, p: Progress, x: Id): StepResult
    requires x in job.plan && x in job.n.Keys + job.o.Keys
  {
    if x in job.n then
      AttemptChange(
        job.plan[x], job.n[x], Lookup(job.o, x), AllIn(job.n[x].dependencies, p.succeeded), job.outcome(x), job.force)
    else AttemptDelete(job.o[x], Blocks(p.failed, x), job.n, job.outcome(x))
  }

  /** What the step of an entry comes to, by what succeeded and failed of the others. */
  ghost predicate IsRightResult(job: Job, p: Progress, x: Id, r: StepResult)
    requires x in job.plan && x in job.n.Keys + job.o.Keys
  {
    if x in job.n then
      if (exists d :: d in job.n[x].dependencies && d !in p.succeeded) ||
         (!HasNothingToDo(job.plan, job.force, x) && job.outcome(x).Thrown?)
      then r.issue == Failure && (if x in job.o then r.entry == Some(job.o[x]) else r.entry == None)
      else
        && r.entry.Some?
        && if HasNothingToDo(job.plan, job.force, x) then
             x in job.o && r.issue == Nothing && IsRelinked(r.entry.value, job.o[x], job.n[x])
           else
             && r.issue == (if job.outcome(x).Warned? then Warnings else Nothing)
             && IsHandled(r.entry.value, job.n[x], job.plan[x].action, job.outcome(x).value)
    else if Blocks(p.failed, x) || job.outcome(x).Thrown? then r == StepResult(Some(job.o[x]), Failure)
    else if job.outcome(x).Done? then r == StepResult(None, Nothing)
    else r.issue == Warnings && r.entry.Some? && IsReduced(r.entry.value, job.o[x], job.n)
  }

  lemma ExpectedIsRight(job: Job, p: Progress, x: Id)
    requires IsJob(job) && x in job.plan && x in job.n.Keys + job.o.Keys
    ensures IsRightResult(job, p, x, Expected(job, p, x))
  {
    assert job.plan[x].action == Update ==> x in job.o;
    hide IsOrdered, Blocks, Within;
    if x in job.n {
      if !job.outcome(x).Thrown? {
        ChangedIs(job.plan[x].action, job.n[x], job.outcome(x).value);
      }
      hide Changed, IsHandled;
    } else {
      WithinIs(job.o[x].dependencies, job.n);
    }
  }

  /** The step of an entry calls its handler. */
  ghost predicate IsCalled(job: Job, p: Progress, x: Id)
    requires x in job.plan && x in job.n.Keys + job.o.Keys
  {
    if x in job.n then
      AllIn(job.n[x].dependencies, p.succeeded) && !IsUnchanged(job.plan[x], Lookup(job.o, x), job.force)
    else !Blocks(p.failed, x)
  }

  /** The entry of a post action. */
  ghost function PostEntry(job: Job, x: Id): Entry
    requires x in job.plan && x in job.n.Keys + job.o.Keys
  {
    EntryAfter(job.plan[x].action, if x in job.n then job.n[x] else job.o[x], job.n, job.outcome(x))
  }

  /** The post actions the step of an entry leaves. */
  ghost function ExpectedPosts(job: Job, posts: Posts, p: Progress, x: Id): seq<PostAction>
    requires x in job.plan && x in job.n.Keys + job.o.Keys
  {
    if IsCalled(job, p, x) then Leave(job.plan[x].action, x, PostEntry(job, x), posts(x)) else []
  }

  /** The entries others see: what is kept of the ones done, and the new ones. */
  ghost predicate Shows(job: Job, p: Progress, x: Id) {
    && (x in p.entries <==> x in job.n || x in p.failed)
    && (x in p.entries && x !in p.succeeded && x !in p.failed ==> p.entries[x] == job.n[x])
  }

  /** An entry is as expected if it is done, or else still to do. */
  ghost predicate IsSettled(job: Job, p: Progress, k: nat, x: Id)
    requires x in job.plan && x in job.n.Keys + job.o.Keys
  {
    && Shows(job, p, x)
    && if job.plan[x].order < k then Holds(p, x, Expected(job, p, x)) else Holds(p, x, StepResult(None, Nothing))
  }

  /** Everything before order `k` is done. */
  ghost predicate Settled(job: Job, p: Progress, k: nat)
    requires job.plan.Keys == job.n.Keys + job.o.Keys
  {
    && p.succeeded.Keys <= job.n.Keys && p.failed.Keys <= job.plan.Keys && p.entries.Keys <= job.plan.Keys
    && forall x :: x in job.plan ==> IsSettled(job, p, k, x)
  }

  ghost predicate IsJob(job: Job) {
    job.plan.Keys == job.n.Keys + job.o.Keys && IsOrdered(job.plan, job.n, job.o)
  }

  // ---------------------------------------------------------------------------------
  // One order

  /** What the code makes of an entry of the next order. */
  ghost function Attempted(job: Job, p: Progress, x: Id): StepResult
    requires x in job.plan && if job.plan[x].action == Delete then x in job.o else x in p.entries
  {
    if job.plan[x].action == Delete then AttemptDelete(job.o[x], Blocks(p.failed, x), p.entries, job.outcome(x))
    else
      AttemptChange(
        job.plan[x], p.entries[x], Lookup(job.o, x), AllIn(p.entries[x].dependencies, p.succeeded),
        job.outcome(x), job.force)
  }

  ghost predicate Same(p: Progress, q: Progress, x: Id) {
    Lookup(p.entries, x) == Lookup(q.entries, x) && Lookup(p.succeeded, x) == Lookup(q.succeeded, x)
    && Lookup(p.failed, x) == Lookup(q.failed, x)
  }

  lemma WithinSame(ids: seq<Id>, s: States, t: States)
    requires forall d :: d in ids ==> (d in s <==> d in t)
    ensures Within(ids, s) == Within(ids, t)
  {
    if ids != [] {
      assert ids == ids[..|ids| - 1] + [ids[|ids| - 1]];
      WithinSame(ids[..|ids| - 1], s, t);
    }
  }

  /** A dependency of an entry to delete that was not deleted yet is only seen when it is a new one. */
  lemma SeenAreNew(job: Job, p: Progress, k: nat, x: Id, d: Id)
    requires IsJob(job) && Settled(job, p, k)
    requires x in job.o && x !in job.n && job.plan[x].order == k && d in job.o[x].dependencies
    ensures d in p.entries <==> d in job.n
  {
    if d in job.plan {
      assert d !in job.n ==> IsBefore(job.plan, x, d);
      assert IsSettled(job, p, k, d);
    }
  }

  /** So the code makes of it what is expected. */
  lemma AttemptedIsExpected(job: Job, p: Progress, k: nat, x: Id)
    requires IsJob(job) && Settled(job, p, k) && x in job.plan && job.plan[x].order == k
    ensures if job.plan[x].action == Delete then x in job.o else x in p.entries
    ensures Attempted(job, p, x) == Expected(job, p, x)
    ensures x !in job.n ==> Within(job.o[x].dependencies, p.entries) == Within(job.o[x].dependencies, job.n)
  {
    assert IsSettled(job, p, k, x);
    assert job.plan[x].action == Delete <==> x !in job.n;
    if x !in job.n {
      forall d | d in job.o[x].dependencies
        ensures d in p.entries <==> d in job.n
      {
        SeenAreNew(job, p, k, x, d);
      }
      WithinSame(job.o[x].dependencies, p.entries, job.n);
    }
  }

  /** The progress after an order. */
  ghost predicate Advances(job: Job, p: Progress, k: nat, q: Progress)
    requires job.plan.Keys == job.n.Keys + job.o.Keys
  {
    && q.succeeded.Keys <= job.n.Keys && q.failed.Keys <= job.plan.Keys && q.entries.Keys <= job.plan.Keys
    && forall x :: x in job.plan ==>
         if job.plan[x].order == k then Holds(q, x, Expected(job, p, x)) && Shows(job, q, x) else Same(p, q, x)
  }

  /** What is expected of an entry does not change with later orders. */
  lemma ExpectedStays(job: Job, p: Progress, k: nat, q: Progress, x: Id)
    requires IsJob(job) && Settled(job, p, k) && Advances(job, p, k, q) && x in job.plan && job.plan[x].order <= k
    ensures Expected(job, q, x) == Expected(job, p, x)
  {
    hide IsJob, Settled, Advances, Blocks, AllIn, AttemptChange, AttemptDelete;
    FateStays(job, p, k, q, x);
  }

  /** Nor does it change whether its handler was called. */
  lemma CalledStays(job: Job, p: Progress, k: nat, q: Progress, x: Id)
    requires IsJob(job) && Settled(job, p, k) && Advances(job, p, k, q) && x in job.plan && job.plan[x].order <= k
    ensures IsCalled(job, q, x) == IsCalled(job, p, x)
  {
    hide IsJob, Settled, Advances, Blocks, AllIn, IsUnchanged;
    FateStays(job, p, k, q, x);
  }

  /** What an entry waits for is decided before its order. */
  lemma FateStays(job: Job, p: Progress, k: nat, q: Progress, x: Id)
    requires IsJob(job) && Settled(job, p, k) && Advances(job, p, k, q) && x in job.plan && job.plan[x].order <= k
    ensures x in job.n.Keys + job.o.Keys
    ensures x in job.n ==> AllIn(job.n[x].dependencies, p.succeeded) == AllIn(job.n[x].dependencies, q.succeeded)
    ensures x !in job.n ==> Blocks(p.failed, x) == Blocks(q.failed, x)
  {
    if x in job.n {
      hide Settled, Blocks;
      forall d | d in job.n[x].dependencies
        ensures d in p.succeeded <==> d in q.succeeded
      {
        assert IsBefore(job.plan, d, x);
        assert Same(p, q, d);
      }
      hide Advances, IsOrdered;
    } else {
      assert x in job.o;
      hide IsJob, Settled, Advances, Blocks, AllIn;
      BlocksStays(job, p, k, q, x);
    }
  }

  lemma BlocksStays(job: Job, p: Progress, k: nat, q: Progress, x: Id)
    requires IsJob(job) && Settled(job, p, k) && Advances(job, p, k, q)
    requires x in job.o && x !in job.n && job.plan[x].order <= k
    ensures Blocks(q.failed, x) == Blocks(p.failed, x)
  {
    hide IsJob, Settled, Advances;
    forall y
      ensures y in q.failed && x in q.failed[y].dependencies <==> y in p.failed && x in p.failed[y].dependencies
    {
      if y in q.failed || y in p.failed {
        BlockerIsEarlier(job, p, k, q, x, y);
      }
    }
  }

  lemma BlockerIsEarlier(job: Job, p: Progress, k: nat, q: Progress, x: Id, y: Id)
    requires IsJob(job) && Settled(job, p, k) && Advances(job, p, k, q)
    requires x in job.o && x !in job.n && job.plan[x].order <= k
    requires y in q.failed || y in p.failed
    ensures y in job.plan
    ensures job.plan[y].order != k ==> Same(p, q, y)
    ensures job.plan[y].order == k ==> y !in p.failed && x !in q.failed[y].dependencies
  {
    assert y in job.n || x in job.o[y].dependencies ==> IsBefore(job.plan, y, x);
    assert IsSettled(job, p, k, y);
  }

  lemma OrderSettles(job: Job, p: Progress, k: nat, q: Progress)
    requires IsJob(job) && Settled(job, p, k) && Advances(job, p, k, q)
    ensures Settled(job, q, k + 1)
  {
    forall x | x in job.plan
      ensures IsSettled(job, q, k + 1, x)
    {
      EntrySettles(job, p, k, q, x);
    }
    hide IsSettled, IsOrdered, Shows, Holds, Same, Expected;
  }

  lemma EntrySettles(job: Job, p: Progress, k: nat, q: Progress, x: Id)
    requires IsJob(job) && Settled(job, p, k) && Advances(job, p, k, q) && x in job.plan
    ensures IsSettled(job, q, k + 1, x)
  {
    assert IsSettled(job, p, k, x);
    assert if job.plan[x].order == k then Holds(q, x, Expected(job, p, x)) && Shows(job, q, x) else Same(p, q, x);
    assert job.plan.Keys == job.n.Keys + job.o.Keys;
    hide Settled, Advances, IsJob, Expected, Holds, Shows, Same;
    if job.plan[x].order <= k {
      ExpectedStays(job, p, k, q, x);
    }
    if job.plan[x].order != k {
      SameHolds(job, p, q, x, if job.plan[x].order < k then Expected(job, p, x) else StepResult(None, Nothing));
    }
  }

  lemma SameHolds(job: Job, p: Progress, q: Progress, x: Id, r: StepResult)
    requires Same(p, q, x) && Holds(p, x, r) && Shows(job, p, x)
    ensures Holds(q, x, r) && Shows(job, q, x)
  {
  }

  // ---------------------------------------------------------------------------------
  // The state a run leaves

  /** Everything is done. */
  ghost predicate IsOutcome(job: Job, p: Progress) {
    && IsJob(job)
    && p.succeeded.Keys <= job.n.Keys && p.failed.Keys <= job.plan.Keys
    && forall x :: x in job.plan ==> Holds(p, x, Expected(job, p, x))
  }

  /** The state to save. */
  function Saved(p: Progress): States {
    p.succeeded + p.failed
  }

  /** The handler of a new entry finds nothing to do or ends well. */
  ghost predicate Finishes(job: Job, x: Id)
    requires x in job.plan
  {
    job.outcome(x).Done? || IsUnchanged(job.plan[x], Lookup(job.o, x), job.force)
  }

  /** The entry kept is the new one: it depends on what succeeded only. */
  ghost predicate IsNew(job: Job, p: Progress, s: States, x: Id) {
    && x in job.n && x in s
    && s[x].dependencies == job.n[x].dependencies && AllIn(job.n[x].dependencies, p.succeeded)
  }

  /** The entry kept is the old one: it depends on what the old one did, or part of it. */
  ghost predicate IsOld(job: Job, p: Progress, s: States, x: Id) {
    && x in job.o && x in s && x !in p.succeeded
    && forall d :: d in s[x].dependencies ==> d in job.o[x].dependencies
  }

  /** A state of new and old entries, with all those that succeeded. */
  ghost predicate IsMix(job: Job, p: Progress, s: States) {
    && p.succeeded.Keys <= s.Keys
    && forall x :: x in s ==> IsNew(job, p, s, x) || IsOld(job, p, s, x)
  }

  lemma NewOrOld(job: Job, p: Progress, x: Id)
    requires IsOutcome(job, p) && x in Saved(p)
    ensures IsNew(job, p, Saved(p), x) || IsOld(job, p, Saved(p), x)
  {
    hide IsOutcome;
    OutcomeAt(job, p, x);
    var r := Expected(job, p, x);
    if x in job.n {
      hide Blocks, AllIn;
      assert Saved(p)[x] == r.entry.value;
    } else {
      DeletedIsOld(job.o[x], Blocks(p.failed, x), job.n, job.outcome(x));
      hide Blocks, AttemptDelete;
      assert Saved(p)[x] == r.entry.value;
    }
  }

  lemma SavedIsMix(job: Job, p: Progress)
    requires IsOutcome(job, p)
    ensures IsMix(job, p, Saved(p))
  {
    hide IsOutcome, IsNew, IsOld;
    forall x | x in Saved(p)
      ensures IsNew(job, p, Saved(p), x) || IsOld(job, p, Saved(p), x)
    {
      NewOrOld(job, p, x);
    }
  }

  lemma OutcomeAt(job: Job, p: Progress, x: Id)
    requires IsOutcome(job, p) && (x in job.plan || x in Saved(p))
    ensures x in job.plan && x in job.n.Keys + job.o.Keys && Holds(p, x, Expected(job, p, x))
    ensures x in p.succeeded ==> x in job.n
  {
  }

  lemma DeletedIsOld(current: Entry, blocked: bool, entries: States, outcome: Outcome)
    ensures
      var r := AttemptDelete(current, blocked, entries, outcome);
      r.entry.Some? ==> r.issue != Nothing && forall d :: d in r.entry.value.dependencies ==> d in current.dependencies
  {
  }

  /** A new entry succeeds just when its dependencies did and it finishes, and they come before it. */
  lemma NewSucceeds(job: Job, p: Progress, x: Id)
    requires IsOutcome(job, p) && x in job.n
    ensures x in job.plan
    ensures x in p.succeeded <==> AllIn(job.n[x].dependencies, p.succeeded) && Finishes(job, x)
    ensures forall d :: d in job.n[x].dependencies ==> d in job.n && IsBefore(job.plan, d, x)
  {
    OutcomeAt(job, p, x);
    assert DependenciesFirst(job.plan, job.n);
    hide IsOutcome, AllIn;
  }

  /** An entry in both states is saved, and any other old entry unless its deletion ended well. */
  lemma NothingIsLost(job: Job, p: Progress, x: Id)
    requires IsOutcome(job, p) && x in job.o
    ensures x in job.n ==> x in Saved(p)
    ensures x !in job.n ==> (x in Saved(p) <==> Blocks(p.failed, x) || !job.outcome(x).Done?)
    ensures x !in job.n && Blocks(p.failed, x) ==> Saved(p)[x] == job.o[x]
  {
    assert Holds(p, x, Expected(job, p, x));
  }

  /** What a saved entry depends on is saved. */
  lemma DependencyIsSaved(job: Job, p: Progress, x: Id, d: Id)
    requires IsOutcome(job, p) && Complete(Graph(job.o)) && x in Saved(p) && d in Saved(p)[x].dependencies
    ensures d in Saved(p)
  {
    NewOrOld(job, p, x);
    if !IsNew(job, p, Saved(p), x) {
      assert IsOld(job, p, Saved(p), x);
      CompleteHas(job.o, x);
      assert x in p.failed && p.failed[x] == Saved(p)[x];
      assert Blocks(p.failed, d);
      hide IsOutcome, Blocks;
      NothingIsLost(job, p, d);
    }
  }

  lemma {:induction false} NewStaysNew(job: Job, p: Progress, s: States, q: seq<Id>)
    requires IsMix(job, p, s) && Chain(Graph(s), q) && IsNew(job, p, s, q[0])
    ensures Chain(Graph(job.n), q) && IsNew(job, p, s, q[|q| - 1])
  {
    if |q| > 1 {
      var init, y, last := q[..|q| - 1], q[|q| - 2], q[|q| - 1];
      ChainPart(Graph(s), q, 0, |q| - 1);
      assert q[0..|q| - 1] == init;
      NewStaysNew(job, p, s, init);
      assert q[|q| - 2 + 1] in Graph(s)[q[|q| - 2]];
      assert init[|init| - 1] == y;
      assert last in job.n[y].dependencies;
      assert last in p.succeeded;
      ChainGrows(Graph(job.n), init, last);
      assert q == init + [last];
    }
  }

  lemma {:induction false} OldCameFromOld(job: Job, p: Progress, s: States, q: seq<Id>)
    requires IsMix(job, p, s) && Chain(Graph(s), q) && q[|q| - 1] in s && !IsNew(job, p, s, q[|q| - 1])
    ensures Chain(Graph(job.o), q)
  {
    if |q| > 1 {
      var x, rest := q[0], q[1..];
      ChainPart(Graph(s), q, 1, |q|);
      assert q[1..|q|] == rest && rest[|rest| - 1] == q[|q| - 1];
      OldCameFromOld(job, p, s, rest);
      assert q[0 + 1] in Graph(s)[q[0]];
      if IsNew(job, p, s, x) {
        NewStaysNew(job, p, s, q);
      }
      assert IsOld(job, p, s, x);
      assert rest[0] in Graph(job.o)[x];
      ChainLeads(Graph(job.o), x, rest);
      assert q == [x] + rest;
    }
  }

  /** A mix of acyclic states is acyclic: no dependency leads from a new entry back to an old one. */
  lemma MixIsAcyclic(job: Job, p: Progress, s: States)
    requires IsMix(job, p, s) && Acyclic(Graph(job.n)) && Acyclic(Graph(job.o))
    ensures Acyclic(Graph(s))
  {
    forall q | Chain(Graph(s), q) && |q| > 1
      ensures q[0] != q[|q| - 1]
    {
      NoCycle(job, p, s, q);
    }
  }

  lemma NoCycle(job: Job, p: Progress, s: States, q: seq<Id>)
    requires IsMix(job, p, s) && Acyclic(Graph(job.n)) && Acyclic(Graph(job.o))
    requires Chain(Graph(s), q) && |q| > 1
    ensures q[0] != q[|q| - 1]
  {
    if IsNew(job, p, s, q[0]) {
      NewStaysNew(job, p, s, q);
    } else if q[0] == q[|q| - 1] {
      assert q[0] in Graph(s);
      OldCameFromOld(job, p, s, q);
    }
  }

  /**
   * Whichever handlers fail, warn or are skipped, the state the steps leave can be loaded: every dependency exists
   * and none is circular.
   */
  lemma SavedIsLoadable(job: Job, p: Progress)
    requires IsOutcome(job, p) && Loadable(job.n) && Loadable(job.o)
    ensures Loadable(Saved(p))
  {
    SavedIsMix(job, p);
    MixIsAcyclic(job, p, Saved(p));
    hide IsOutcome, IsMix, Acyclic;
    var g := Graph(Saved(p));
    forall x | x in g
      ensures g[x] <= g.Keys
    {
      forall d | d in g[x]
        ensures d in g
      {
        DependencyIsSaved(job, p, x, d);
      }
    }
  }

  // ---------------------------------------------------------------------------------
  // What was attempted

  /** A new entry succeeds just when it and everything it depends on, directly or not, finish. */
  lemma SucceedsWithDependencies(job: Job, p: Progress, x: Id)
    requires IsOutcome(job, p) && x in job.n
    ensures x in p.succeeded <==>
      forall q :: Chain(Graph(job.n), q) && q[0] == x && q[|q| - 1] in job.plan ==> Finishes(job, q[|q| - 1])
  {
    hide IsOutcome, Finishes, Graph;
    if x in p.succeeded {
      forall q | Chain(Graph(job.n), q) && q[0] == x && q[|q| - 1] in job.plan
        ensures Finishes(job, q[|q| - 1])
      {
        ChainFinishes(job, p, q);
      }
    } else {
      var q := ChainToUnfinished(job, p, x);
    }
  }

  /** A chain from an entry that succeeded leads to entries that did, so they finished. */
  lemma {:induction false} ChainFinishes(job: Job, p: Progress, q: seq<Id>)
    requires IsOutcome(job, p) && Chain(Graph(job.n), q) && q[0] in p.succeeded && q[0] in job.n
    ensures q[|q| - 1] in p.succeeded && q[|q| - 1] in job.n && q[|q| - 1] in job.plan && Finishes(job, q[|q| - 1])
    decreases |q|
  {
    hide IsOutcome, Finishes;
    NewSucceeds(job, p, q[0]);
    if |q| > 1 {
      assert q[0 + 1] in Graph(job.n)[q[0]];
      ChainPart(Graph(job.n), q, 1, |q|);
      TailOf(q);
      hide Chain, Graph;
      ChainFinishes(job, p, q[1..|q|]);
    }
  }

  lemma TailOf(q: seq<Id>)
    requires |q| > 1
    ensures q[1..|q|] != [] && q[1..|q|][0] == q[1] && q[1..|q|][|q[1..|q|]| - 1] == q[|q| - 1]
  {
  }

  lemma {:induction false} ChainToUnfinished(job: Job, p: Progress, x: Id) returns (q: seq<Id>)
    requires IsOutcome(job, p) && x in job.n && x !in p.succeeded
    ensures Chain(Graph(job.n), q) && q[0] == x && q[|q| - 1] in job.plan && !Finishes(job, q[|q| - 1])
    decreases if x in job.plan then job.plan[x].order else 0
  {
    NewSucceeds(job, p, x);
    hide IsOutcome, Finishes;
    q := [x];
    if Finishes(job, x) {
      var d :| d in job.n[x].dependencies && d !in p.succeeded;
      var rest := ChainToUnfinished(job, p, d);
      ChainLeads(Graph(job.n), x, rest);
      q := [x] + rest;
    }
  }

  /** Nothing but the handlers decides what a run leaves: there is one outcome. */
  lemma {:induction false} OutcomeIsUnique(job: Job, p: Progress, q: Progress, x: Id)
    requires IsOutcome(job, p) && IsOutcome(job, q) && x in job.plan
    ensures Lookup(p.succeeded, x) == Lookup(q.succeeded, x) && Lookup(p.failed, x) == Lookup(q.failed, x)
    decreases job.plan[x].order, 1
  {
    hide IsOutcome;
    OutcomeAt(job, p, x);
    OutcomeAt(job, q, x);
    if x in job.n {
      NewSucceeds(job, p, x);
      forall d | d in job.n[x].dependencies
        ensures d in p.succeeded <==> d in q.succeeded
      {
        OutcomeIsUnique(job, p, q, d);
      }
      assert AllIn(job.n[x].dependencies, p.succeeded) == AllIn(job.n[x].dependencies, q.succeeded);
      hide AllIn, AttemptChange;
    } else {
      SameBlocks(job, p, q, x);
      SameBlocks(job, q, p, x);
      hide Blocks, AttemptDelete;
    }
  }

  lemma {:induction false} SameBlocks(job: Job, p: Progress, q: Progress, x: Id)
    requires IsOutcome(job, p) && IsOutcome(job, q) && x in job.o && x !in job.n && x in job.plan
    ensures Blocks(p.failed, x) ==> Blocks(q.failed, x)
    decreases job.plan[x].order, 0
  {
    hide IsOutcome;
    if Blocks(p.failed, x) {
      var y :| y in p.failed && x in p.failed[y].dependencies;
      BlockerIsBefore(job, p, x, y);
      OutcomeIsUnique(job, p, q, y);
      assert Lookup(q.failed, y) == Some(p.failed[y]);
    }
  }

  /** An entry that blocks a deletion comes before it. */
  lemma BlockerIsBefore(job: Job, p: Progress, x: Id, y: Id)
    requires IsOutcome(job, p) && x in job.o && x !in job.n && y in p.failed && x in p.failed[y].dependencies
    ensures y in job.plan && IsBefore(job.plan, y, x)
  {
    assert Saved(p)[y] == p.failed[y];
    NewOrOld(job, p, y);
    assert y in job.n || x in job.o[y].dependencies;
  }

  /** When every handler ends well, the state the steps leave has the new entries and no others, and nothing failed. */
  lemma GoodRunLeavesNewState(job: Job, p: Progress)
    requires IsOutcome(job, p) && forall x :: x in job.plan ==> job.outcome(x).Done?
    ensures p.failed == map[] && Saved(p).Keys == job.n.Keys
    ensures forall x :: x in job.n ==> Saved(p)[x].dependencies == job.n[x].dependencies
  {
    forall x | x in job.plan
      ensures x !in p.failed && (x in job.n ==> x in p.succeeded)
    {
      GoodRun(job, p, x);
    }
    forall x | x in job.n
      ensures Saved(p)[x].dependencies == job.n[x].dependencies
    {
      NewOrOld(job, p, x);
    }
  }

  lemma {:induction false} GoodRun(job: Job, p: Progress, x: Id)
    requires IsOutcome(job, p) && x in job.plan && forall x :: x in job.plan ==> job.outcome(x).Done?
    ensures x !in p.failed && (x in job.n ==> x in p.succeeded)
    decreases job.plan[x].order
  {
    assert Holds(p, x, Expected(job, p, x));
    if x in job.n {
      forall d | d in job.n[x].dependencies
        ensures d in p.succeeded
      {
        assert IsBefore(job.plan, d, x);
        GoodRun(job, p, d);
      }
    } else if Blocks(p.failed, x) {
      var y :| y in p.failed && x in p.failed[y].dependencies;
      BlockerIsBefore(job, p, x, y);
      GoodRun(job, p, y);
    }
  }

  // ---------------------------------------------------------------------------------
  // The run

  datatype ApplyError = NoEntries | NoHandler(id: Id) | NoEntry(id: Id)

  /** Every chain of dependencies from the ids stays in the state. */
  ghost predicate ChainsStay(ids: seq<Id>, s: States) {
    forall q :: Chain(Graph(s), q) && q[0] in ids ==> q[|q| - 1] in s
  }

  lemma ChainsStayOneByOne(ids: seq<Id>, s: States)
    ensures ChainsStay(ids, s) <==> forall d :: d in ids ==> d in s && ChainsStay(s[d].dependencies, s)
  {
    if ChainsStay(ids, s) {
      forall d | d in ids
        ensures d in s && ChainsStay(s[d].dependencies, s)
      {
        assert Chain(Graph(s), [d]);
        forall q | Chain(Graph(s), q) && q[0] in s[d].dependencies
          ensures q[|q| - 1] in s
        {
          ChainLeads(Graph(s), d, q);
          assert ([d] + q)[|[d] + q| - 1] == q[|q| - 1];
        }
      }
    }
    if forall d :: d in ids ==> d in s && ChainsStay(s[d].dependencies, s) {
      forall q | Chain(Graph(s), q) && q[0] in ids
        ensures q[|q| - 1] in s
      {
        if |q| > 1 {
          assert q[0 + 1] in Graph(s)[q[0]];
          ChainPart(Graph(s), q, 1, |q|);
          assert q[1..|q|][|q| - 2] == q[|q| - 1];
        }
      }
    }
  }

  /** Dependencies come before. */
  ghost predicate GoesBack(s: States, plan: map<Id, Step>) {
    forall x, d :: x in s && d in s[x].dependencies && d in s ==> IsBefore(plan, d, x)
  }

  method CheckAllSucceeded(dependencies: seq<Id>, succeeded: States, ghost plan: map<Id, Step>, ghost bound: nat)
    returns (r: bool)
    requires GoesBack(succeeded, plan)
    requires forall d :: d in dependencies && d in succeeded ==> d in plan && plan[d].order < bound
    ensures r <==> ChainsStay(dependencies, succeeded)
    decreases bound
  {
    ChainsStayOneByOne(dependencies, succeeded);
    hide ChainsStay;
    for i := 0 to |dependencies|
      invariant forall j :: 0 <= j < i ==>
        dependencies[j] in succeeded && ChainsStay(succeeded[dependencies[j]].dependencies, succeeded)
    {
      var d := dependencies[i];
      assert d in dependencies;
      if d !in succeeded {
        return false;
      }
      var ok := CheckAllSucceeded(succeeded[d].dependencies, succeeded, plan, plan[d].order);
      if !ok {
        return false;
      }
    }
    return true;
  }

  /** Of what succeeded so far, every dependency did. */
  lemma SucceededIsClosed(job: Job, p: Progress, k: nat, x: Id)
    requires IsJob(job) && Settled(job, p, k) && x in p.succeeded
    ensures x in job.n && p.succeeded[x].dependencies == job.n[x].dependencies
    ensures AllIn(job.n[x].dependencies, p.succeeded)
  {
    assert IsSettled(job, p, k, x);
    assert job.plan.Keys == job.n.Keys + job.o.Keys && x in job.n;
    hide IsJob, Settled, Blocks, AllIn, Shows;
  }

  lemma SucceededGoesBack(job: Job, p: Progress, k: nat)
    requires IsJob(job) && Settled(job, p, k)
    ensures GoesBack(p.succeeded, job.plan)
    ensures forall x :: x in p.succeeded ==> AllIn(p.succeeded[x].dependencies, p.succeeded)
  {
    forall x | x in p.succeeded
      ensures x in job.n && p.succeeded[x].dependencies == job.n[x].dependencies
      ensures AllIn(job.n[x].dependencies, p.succeeded)
    {
      SucceededIsClosed(job, p, k, x);
    }
    hide Settled, ActionsFit, DependentsFirst, DeletionsLast, NoGaps;
  }

  /** In a state that has its dependencies, chains stay when their start does. */
  lemma ChainsStayInClosed(ids: seq<Id>, s: States)
    requires forall x :: x in s ==> AllIn(s[x].dependencies, s)
    ensures ChainsStay(ids, s) <==> AllIn(ids, s)
  {
    forall d | d in ids && ChainsStay(ids, s)
      ensures d in s
    {
      assert Chain(Graph(s), [d]);
    }
    forall q | Chain(Graph(s), q) && q[0] in s
      ensures q[|q| - 1] in s
    {
      if |q| > 1 {
        assert q[|q| - 2 + 1] in Graph(s)[q[|q| - 2]];
        assert AllIn(s[q[|q| - 2]].dependencies, s);
      }
    }
  }

  function KindOf(job: Job, x: Id): string
    requires x in job.n.Keys + job.o.Keys
  {
    if x in job.n then job.n[x].kind else job.o[x].kind
  }

  /** One step, and the post actions its handler leaves. */
  method ApplyPendingStep(job: Job, posts: Posts, step: Step, p: Progress, kinds: set<string>, ghost k: nat)
    returns (r: Result<StepResult, ApplyError>, postActions: seq<PostAction>)
    requires IsJob(job) && Settled(job, p, k)
    requires step.id in job.plan && job.plan[step.id] == step && step.order == k
    ensures r.Ok? <==> KindOf(job, step.id) in kinds
    ensures r.Ok? ==> r.value == Expected(job, p, step.id) && postActions == ExpectedPosts(job, posts, p, step.id)
    ensures r.Ok? ==> IsRightResult(job, p, step.id, r.value)
  {
    var id := step.id;
    AttemptedIsExpected(job, p, k, id);
    SucceededGoesBack(job, p, k);
    StartsAsPlanned(job, p, k, id);
    ExpectedIsRight(job, p, id);
    hide IsJob, Settled, Expected, GoesBack, IsRightResult;
    postActions := [];
    var candidate := Lookup(if step.action != Delete then p.entries else job.o, id);
    if candidate.None? {
      return Err(NoEntry(id)), [];
    }
    if candidate.value.kind !in kinds {
      return Err(NoHandler(id)), [];
    }
    var outcome := job.outcome(id);
    if step.action == Delete {
      var blocked := Blocks(p.failed, id);
      if !blocked {
        postActions := Leave(Delete, id, EntryAfter(Delete, candidate.value, p.entries, outcome), posts(id));
      }
      return Ok(AttemptDelete(candidate.value, blocked, p.entries, outcome)), postActions;
    }
    ChainsStayInClosed(candidate.value.dependencies, p.succeeded);
    var ready := CheckAllSucceeded(candidate.value.dependencies, p.succeeded, job.plan, k);
    var saved := Lookup(job.o, id);
    if ready && !IsUnchanged(step, saved, job.force) {
      postActions := Leave(step.action, id, EntryAfter(step.action, candidate.value, p.entries, outcome), posts(id));
    }
    return Ok(AttemptChange(step, candidate.value, saved, ready, outcome, job.force)), postActions;
  }

  lemma StartsAsPlanned(job: Job, p: Progress, k: nat, x: Id)
    requires IsJob(job) && Settled(job, p, k) && x in job.plan && job.plan[x].order == k
    ensures job.plan[x].action == Delete <==> x !in job.n
    ensures if x in job.n then x in p.entries && p.entries[x] == job.n[x] else x in job.o
    ensures x in job.n ==> forall d :: d in job.n[x].dependencies ==> d in job.plan && job.plan[d].order < k
  {
    assert IsSettled(job, p, k, x);
    assert DependenciesFirst(job.plan, job.n);
    forall d | x in job.n && d in job.n[x].dependencies
      ensures d in job.plan && job.plan[d].order < k
    {
      assert IsBefore(job.plan, d, x);
    }
  }

  /** The steps of one order. */
  ghost predicate IsBatch(next: seq<Step>, plan: map<Id, Step>, k: nat) {
    && DistinctSteps(next)
    && (forall i :: 0 <= i < |next| ==> next[i].id in plan && plan[next[i].id] == next[i] && next[i].order == k)
    && (forall x :: x in plan && plan[x].order == k ==> HasStep(next, x))
  }

  function FindPendingByOrder(steps: seq<Step>, order: nat): seq<Step> {
    if steps == [] then []
    else
      var rest, last := FindPendingByOrder(steps[..|steps| - 1], order), steps[|steps| - 1];
      if last.order == order then rest + [last] else rest
  }

  lemma {:induction false} PendingAre(steps: seq<Step>, order: nat)
    ensures forall s :: s in FindPendingByOrder(steps, order) <==> s in steps && s.order == order
    ensures DistinctSteps(steps) ==> DistinctSteps(FindPendingByOrder(steps, order))
  {
    if steps != [] {
      var init, last := steps[..|steps| - 1], steps[|steps| - 1];
      PendingAre(init, order);
      assert steps == init + [last];
      forall s | s in FindPendingByOrder(init, order) && DistinctSteps(steps)
        ensures s.id != last.id
      {
        var i :| 0 <= i < |init| && init[i] == s;
        assert steps[i].id != steps[|init|].id;
      }
    }
  }

  lemma PendingIsBatch(steps: seq<Step>, plan: map<Id, Step>, k: nat)
    requires ListsSteps(steps, plan)
    ensures IsBatch(FindPendingByOrder(steps, k), plan, k)
  {
    var next := FindPendingByOrder(steps, k);
    PendingAre(steps, k);
    forall i | 0 <= i < |next|
      ensures next[i].id in plan && plan[next[i].id] == next[i] && next[i].order == k
    {
      assert next[i] in next;
      var j :| 0 <= j < |steps| && steps[j] == next[i];
    }
    forall x | x in plan && plan[x].order == k
      ensures HasStep(next, x)
    {
      assert HasStep(steps, x);
      var j :| 0 <= j < |steps| && steps[j].id == x;
      assert steps[j] in next;
      var i :| 0 <= i < |next| && next[i] == steps[j];
      assert next[i].id == x;
    }
  }

  function Record(p: Progress, id: Id, r: StepResult): Progress {
    if r.entry.None? then p
    else
      Progress(
        p.entries[id := r.entry.value],
        if r.issue == Nothing then p.succeeded[id := r.entry.value] else p.succeeded,
        if r.issue != Nothing then p.failed[id := r.entry.value] else p.failed)
  }

  ghost predicate IsAmong(next: seq<Step>, i: nat, x: Id)
    requires i <= |next|
  {
    exists j :: 0 <= j < i && next[j].id == x
  }

  /** The results of the first `i` steps are recorded. */
  ghost predicate Recorded(job: Job, p: Progress, next: seq<Step>, i: nat, q: Progress)
    requires job.plan.Keys == job.n.Keys + job.o.Keys && i <= |next|
  {
    && q.succeeded.Keys <= job.n.Keys && q.failed.Keys <= job.plan.Keys && q.entries.Keys <= job.plan.Keys
    && forall x :: x in job.plan ==> IsRecorded(job, p, next, i, q, x)
  }

  lemma RecordAt(job: Job, p: Progress, k: nat, q: Progress, x: Id, r: StepResult)
    requires IsJob(job) && Settled(job, p, k) && x in job.plan && job.plan[x].order == k && Same(p, q, x)
    ensures Holds(Record(q, x, r), x, r)
    ensures r.issue == Nothing && r.entry.Some? ==> x in job.n ==> Shows(job, Record(q, x, r), x)
    ensures r.issue != Nothing || r.entry.None? ==> Shows(job, Record(q, x, r), x)
  {
    assert IsSettled(job, p, k, x);
    hide Settled, IsJob, Expected;
  }

  lemma OnlyNewSucceed(job: Job, p: Progress, x: Id)
    requires x in job.plan && x in job.n.Keys + job.o.Keys
    ensures Expected(job, p, x).entry.Some? && Expected(job, p, x).issue == Nothing ==> x in job.n
  {
  }

  lemma RecordElsewhere(job: Job, p: Progress, q: Progress, id: Id, r: StepResult, x: Id)
    requires x in job.plan && x in job.n.Keys + job.o.Keys && x != id
    ensures
      var q', e := Record(q, id, r), Expected(job, p, x);
      && (Holds(q, x, e) && Shows(job, q, x) ==> Holds(q', x, e) && Shows(job, q', x))
      && (Same(p, q, x) ==> Same(p, q', x))
  {
    hide Expected;
  }

  lemma AmongNext(next: seq<Step>, i: nat, x: Id)
    requires i < |next|
    ensures IsAmong(next, i + 1, x) <==> IsAmong(next, i, x) || x == next[i].id
  {
    if IsAmong(next, i, x) {
      var j :| 0 <= j < i && next[j].id == x;
      assert 0 <= j < i + 1;
    }
  }

  lemma NotAmong(next: seq<Step>, i: nat)
    requires DistinctSteps(next) && i < |next|
    ensures !IsAmong(next, i, next[i].id)
  {
  }

  lemma RecordKeys(job: Job, q: Progress, id: Id, r: StepResult)
    requires q.succeeded.Keys <= job.n.Keys && q.failed.Keys <= job.plan.Keys && q.entries.Keys <= job.plan.Keys
    requires id in job.plan && (r.entry.Some? && r.issue == Nothing ==> id in job.n)
    ensures
      var q' := Record(q, id, r);
      q'.succeeded.Keys <= job.n.Keys && q'.failed.Keys <= job.plan.Keys && q'.entries.Keys <= job.plan.Keys
  {
  }

  /** What is known of an entry once the first `i` results are recorded. */
  ghost predicate IsRecorded(job: Job, p: Progress, next: seq<Step>, i: nat, q: Progress, x: Id)
    requires x in job.plan && x in job.n.Keys + job.o.Keys && i <= |next|
  {
    if IsAmong(next, i, x) then Holds(q, x, Expected(job, p, x)) && Shows(job, q, x) else Same(p, q, x)
  }

  lemma RecordOne(job: Job, p: Progress, k: nat, next: seq<Step>, i: nat, q: Progress, x: Id)
    requires IsJob(job) && Settled(job, p, k) && IsBatch(next, job.plan, k) && i < |next| && x in job.plan
    requires IsRecorded(job, p, next, i, q, x)
    ensures IsRecorded(job, p, next, i + 1, Record(q, next[i].id, Expected(job, p, next[i].id)), x)
  {
    var id := next[i].id;
    var r := Expected(job, p, id);
    NotAmong(next, i);
    AmongNext(next, i, x);
    hide IsAmong, IsOrdered, Settled, Expected, Holds, Shows, Same, DistinctSteps, HasStep;
    if x == id {
      RecordAt(job, p, k, q, id, r);
      OnlyNewSucceed(job, p, id);
    } else {
      RecordElsewhere(job, p, q, id, r, x);
    }
  }

  lemma RecordNext(job: Job, p: Progress, k: nat, next: seq<Step>, i: nat, q: Progress)
    requires IsJob(job) && Settled(job, p, k) && IsBatch(next, job.plan, k) && i < |next|
    requires Recorded(job, p, next, i, q)
    ensures Recorded(job, p, next, i + 1, Record(q, next[i].id, Expected(job, p, next[i].id)))
  {
    hide IsOrdered, Settled, Expected, IsRecorded, DistinctSteps, HasStep, Record;
    OnlyNewSucceed(job, p, next[i].id);
    RecordKeys(job, q, next[i].id, Expected(job, p, next[i].id));
    forall x | x in job.plan
      ensures IsRecorded(job, p, next, i + 1, Record(q, next[i].id, Expected(job, p, next[i].id)), x)
    {
      RecordOne(job, p, k, next, i, q, x);
    }
  }

  ghost predicate BatchKnown(job: Job, next: seq<Step>, kinds: set<string>) {
    forall i :: 0 <= i < |next| ==> next[i].id in job.n.Keys + job.o.Keys && KindOf(job, next[i].id) in kinds
  }

  /** The post actions the steps leave, in their order. */
  ghost function PostsOf(job: Job, posts: Posts, p: Progress, next: seq<Step>): seq<PostAction>
    requires forall i :: 0 <= i < |next| ==> next[i].id in job.plan && next[i].id in job.n.Keys + job.o.Keys
  {
    if next == [] then []
    else PostsOf(job, posts, p, next[..|next| - 1]) + ExpectedPosts(job, posts, p, next[|next| - 1].id)
  }

  /** All the steps of one order: their handlers see what was done before, and then the results are recorded. */
  method ApplyOrder(job: Job, posts: Posts, next: seq<Step>, p: Progress, kinds: set<string>, ghost k: nat)
    returns (r: Result<Progress, ApplyError>, postActions: seq<PostAction>)
    requires IsJob(job) && Settled(job, p, k) && IsBatch(next, job.plan, k)
    ensures r.Ok? <==> BatchKnown(job, next, kinds)
    ensures r.Ok? ==> Settled(job, r.value, k + 1) && Advances(job, p, k, r.value)
    ensures r.Ok? ==> postActions == PostsOf(job, posts, p, next)
  {
    hide Settled, IsOrdered, Expected, Recorded, Advances, PostsOf, IsBatch;
    var results;
    results, postActions := ApplyAll(job, posts, next, p, kinds, k);
    if results.Err? {
      return Err(results.error), [];
    }
    var q := RecordAll(job, next, p, results.value, k);
    RecordedAdvances(job, p, k, next, q);
    OrderSettles(job, p, k, q);
    return Ok(q), postActions;
  }

  ghost predicate AreExpected(job: Job, p: Progress, next: seq<Step>, results: seq<StepResult>) {
    && |results| <= |next|
    && forall j :: 0 <= j < |results| ==>
         && next[j].id in job.plan && next[j].id in job.n.Keys + job.o.Keys
         && results[j] == Expected(job, p, next[j].id)
  }

  /** The results of the steps of one order, and what their handlers leave. */
  method ApplyAll(job: Job, posts: Posts, next: seq<Step>, p: Progress, kinds: set<string>, ghost k: nat)
    returns (r: Result<seq<StepResult>, ApplyError>, postActions: seq<PostAction>)
    requires IsJob(job) && Settled(job, p, k) && IsBatch(next, job.plan, k)
    ensures forall i :: 0 <= i < |next| ==> next[i].id in job.plan && next[i].id in job.n.Keys + job.o.Keys
    ensures r.Ok? <==> BatchKnown(job, next, kinds)
    ensures r.Ok? ==> |r.value| == |next| && AreExpected(job, p, next, r.value)
    ensures r.Ok? ==> postActions == PostsOf(job, posts, p, next)
  {
    var results: seq<StepResult> := [];
    postActions := [];
    BatchIsPlanned(job, next, k);
    assert AreExpected(job, p, next, []);
    hide Settled, IsJob, IsBatch, Expected, ExpectedPosts, KindOf, AreExpected;
    for i := 0 to |next|
      invariant |results| == i && AreExpected(job, p, next, results)
      invariant forall j :: 0 <= j < i ==> KindOf(job, next[j].id) in kinds
      invariant postActions == PostsOf(job, posts, p, next[..i])
    {
      var result, more := ApplyPendingStep(job, posts, next[i], p, kinds, k);
      if result.Err? {
        return Err(result.error), [];
      }
      OneMoreResult(job, posts, p, next, i, results, result.value);
      results := results + [result.value];
      postActions := postActions + more;
    }
    assert next[..|next|] == next;
    return Ok(results), postActions;
  }

  lemma BatchIsPlanned(job: Job, next: seq<Step>, k: nat)
    requires IsJob(job) && IsBatch(next, job.plan, k)
    ensures forall i :: 0 <= i < |next| ==>
      && next[i].id in job.plan && next[i].id in job.n.Keys + job.o.Keys
      && job.plan[next[i].id] == next[i] && next[i].order == k
  {
    hide IsOrdered, DistinctSteps, HasStep;
  }

  lemma OneMoreResult(
    job: Job, posts: Posts, p: Progress, next: seq<Step>, i: nat, results: seq<StepResult>, r: StepResult
  )
    requires forall j :: 0 <= j < |next| ==> next[j].id in job.plan && next[j].id in job.n.Keys + job.o.Keys
    requires i < |next| && |results| == i && AreExpected(job, p, next, results) && r == Expected(job, p, next[i].id)
    ensures AreExpected(job, p, next, results + [r])
    ensures PostsOf(job, posts, p, next[..i + 1]) ==
            PostsOf(job, posts, p, next[..i]) + ExpectedPosts(job, posts, p, next[i].id)
  {
    hide Expected, ExpectedPosts;
    assert next[..i + 1][..i] == next[..i];
  }

  method RecordAll(job: Job, next: seq<Step>, p: Progress, results: seq<StepResult>, ghost k: nat) returns (q: Progress)
    requires IsJob(job) && Settled(job, p, k) && IsBatch(next, job.plan, k)
    requires |results| == |next| && AreExpected(job, p, next, results)
    ensures Recorded(job, p, next, |next|, q)
  {
    q := p;
    NothingRecorded(job, p, k, next);
    hide Settled, IsOrdered, Expected, Recorded, IsBatch;
    for i := 0 to |next|
      invariant Recorded(job, p, next, i, q)
    {
      RecordNext(job, p, k, next, i, q);
      q := Record(q, next[i].id, results[i]);
    }
  }

  lemma NothingRecorded(job: Job, p: Progress, k: nat, next: seq<Step>)
    requires IsJob(job) && Settled(job, p, k)
    ensures Recorded(job, p, next, 0, p)
  {
  }

  lemma RecordedAdvances(job: Job, p: Progress, k: nat, next: seq<Step>, q: Progress)
    requires IsJob(job) && IsBatch(next, job.plan, k) && Recorded(job, p, next, |next|, q)
    ensures Advances(job, p, k, q)
  {
    hide Holds, Shows, Same, Expected, IsOrdered;
    forall x | x in job.plan
      ensures IsAmong(next, |next|, x) <==> job.plan[x].order == k
    {
      if job.plan[x].order == k {
        assert HasStep(next, x);
      }
    }
  }

  /** Every entry to change or delete is of a known kind. */
  ghost predicate KindsKnown(n: States, o: States, kinds: set<string>) {
    forall x :: x in n.Keys + o.Keys ==> (if x in n then n[x].kind else o[x].kind) in kinds
  }

  ghost predicate KindsBefore(job: Job, kinds: set<string>, k: nat) {
    forall x :: x in job.plan && job.plan[x].order < k ==> x in job.n.Keys + job.o.Keys && KindOf(job, x) in kinds
  }

  ghost function ToDo(plan: map<Id, Step>, k: nat): set<Id> {
    set x | x in plan && plan[x].order >= k
  }

  lemma NothingIsDoneYet(job: Job)
    requires IsJob(job)
    ensures Settled(job, Progress(job.n, map[], map[]), 0)
    ensures forall kinds :: KindsBefore(job, kinds, 0)
  {
  }

  lemma AllIsDone(job: Job, p: Progress, k: nat, kinds: set<string>)
    requires IsJob(job) && Settled(job, p, k) && !HasOrder(job.plan, k)
    ensures IsOutcome(job, p)
    ensures KindsBefore(job, kinds, k) ==> KindsKnown(job.n, job.o, kinds)
  {
    forall x | x in job.plan
      ensures job.plan[x].order < k && Holds(p, x, Expected(job, p, x))
    {
      assert IsSettled(job, p, k, x);
    }
  }

  /** The post action is one that the step of its entry leaves. */
  ghost predicate IsRegistered(job: Job, p: Progress, a: PostAction) {
    && a.id in job.plan && a.id in job.n.Keys + job.o.Keys && a.action == job.plan[a.id].action
    && IsCalled(job, p, a.id) && a.entry == PostEntry(job, a.id)
  }

  ghost predicate IsQueued(queue: seq<seq<PostAction>>, a: PostAction) {
    exists i :: 0 <= i < |queue| && a in queue[i]
  }

  /** The post action was left by the step itself, at an order before `k`. */
  ghost predicate IsLeft(job: Job, posts: Posts, p: Progress, k: nat, a: PostAction) {
    IsRegistered(job, p, a) && job.plan[a.id].order < k && a.callback in posts(a.id)
  }

  /** The post actions of the orders before `k`, and no others. */
  ghost predicate Collected(job: Job, posts: Posts, p: Progress, k: nat, queue: seq<seq<PostAction>>) {
    forall a :: IsQueued(queue, a) <==> IsLeft(job, posts, p, k, a)
  }

  lemma {:induction false} PostsOfAre(job: Job, posts: Posts, p: Progress, next: seq<Step>, a: PostAction)
    requires forall i :: 0 <= i < |next| ==>
      next[i].id in job.plan && next[i].id in job.n.Keys + job.o.Keys && job.plan[next[i].id] == next[i]
    ensures a in PostsOf(job, posts, p, next) <==>
      HasStep(next, a.id) && IsRegistered(job, p, a) && a.callback in posts(a.id)
  {
    if next != [] {
      var init, last := next[..|next| - 1], next[|next| - 1];
      PostsOfAre(job, posts, p, init, a);
      assert HasStep(next, a.id) <==> HasStep(init, a.id) || last.id == a.id by {
        assert forall i :: 0 <= i < |init| ==> next[i] == init[i];
        assert next[|next| - 1] == last;
      }
      var posted := ExpectedPosts(job, posts, p, last.id);
      assert a in posted <==> last.id == a.id && IsRegistered(job, p, a) && a.callback in posts(a.id) by {
        if last.id == a.id && IsRegistered(job, p, a) && a.callback in posts(a.id) {
          var i :| 0 <= i < |posts(a.id)| && posts(a.id)[i] == a.callback;
          assert posted[i] == a;
        }
      }
      hide HasStep, IsRegistered;
    }
  }

  lemma CollectedNext(
    job: Job, posts: Posts, p: Progress, k: nat, q: Progress, next: seq<Step>, queue: seq<seq<PostAction>>
  )
    requires IsJob(job) && Settled(job, p, k) && Advances(job, p, k, q) && IsBatch(next, job.plan, k)
    requires Collected(job, posts, p, k, queue)
    ensures Collected(job, posts, q, k + 1, queue + [PostsOf(job, posts, p, next)])
    ensures PostsOf(job, posts, p, next) == [] ==> Collected(job, posts, q, k + 1, queue)
  {
    var posted := PostsOf(job, posts, p, next);
    forall a
      ensures IsLeft(job, posts, q, k + 1, a) <==> IsQueued(queue, a) || a in posted
    {
      PostsOfAre(job, posts, p, next, a);
      assert IsQueued(queue, a) <==> IsLeft(job, posts, p, k, a);
      if a.id in job.plan && job.plan[a.id].order <= k {
        CalledStays(job, p, k, q, a.id);
      }
      if a.id in job.plan && job.plan[a.id].order == k {
        assert HasStep(next, a.id);
      }
      hide IsCalled, PostEntry, Settled, Advances, IsOrdered, IsQueued, PostsOf;
    }
    forall a
      ensures IsQueued(queue + [posted], a) <==> IsQueued(queue, a) || a in posted
    {
      QueuedNext(queue, posted, a);
    }
    hide IsQueued, IsLeft;
  }

  lemma QueuedNext(queue: seq<seq<PostAction>>, posted: seq<PostAction>, a: PostAction)
    ensures IsQueued(queue + [posted], a) <==> IsQueued(queue, a) || a in posted
  {
    var all := queue + [posted];
    if IsQueued(queue, a) {
      var i :| 0 <= i < |queue| && a in queue[i];
      assert a in all[i];
    }
    if a in posted {
      assert a in all[|queue|];
    }
  }

  /** The steps of a plan, order by order: what succeeded and failed, and the post actions left for after them. */
  method RunSteps(steps: seq<Step>, job: Job, posts: Posts, kinds: set<string>)
    returns (r: Result<Progress, ApplyError>, queue: seq<seq<PostAction>>)
    requires IsJob(job) && ListsSteps(steps, job.plan)
    ensures r.Ok? <==> KindsKnown(job.n, job.o, kinds)
    ensures r.Ok? ==> IsOutcome(job, r.value)
    ensures r.Ok? ==> forall a :: IsQueued(queue, a) <==> IsRegistered(job, r.value, a) && a.callback in posts(a.id)
  {
    NothingIsDoneYet(job);
    var p, order := Progress(job.n, map[], map[]), 0;
    queue := [];
    assert Collected(job, posts, p, 0, queue);
    hide IsOrdered, Settled, ListsSteps, IsBatch, KindsKnown, KindsBefore, BatchKnown, ToDo, HasOrder, IsOutcome,
         Collected, Advances, PostsOf;
    while true
      invariant IsJob(job) && Settled(job, p, order)
      invariant KindsBefore(job, kinds, order)
      invariant Collected(job, posts, p, order, queue)
      decreases ToDo(job.plan, order)
    {
      var next := FindPendingByOrder(steps, order);
      PendingIsBatch(steps, job.plan, order);
      BatchKinds(job, next, order, kinds);
      if next == [] {
        break;
      }
      var done, postActions := ApplyOrder(job, posts, next, p, kinds, order);
      if done.Err? {
        return Err(done.error), [];
      }
      CollectedNext(job, posts, p, order, done.value, next, queue);
      if postActions != [] {
        queue := queue + [postActions];
      }
      p, order := done.value, order + 1;
    }
    AllIsDone(job, p, order, kinds);
    AllIsCollected(job, posts, p, order, queue);
    return Ok(p), queue;
  }

  lemma AllIsCollected(job: Job, posts: Posts, p: Progress, k: nat, queue: seq<seq<PostAction>>)
    requires IsJob(job) && !HasOrder(job.plan, k) && Collected(job, posts, p, k, queue)
    ensures forall a :: IsQueued(queue, a) <==> IsRegistered(job, p, a) && a.callback in posts(a.id)
  {
    forall x | x in job.plan
      ensures job.plan[x].order < k
    {
    }
    forall a
      ensures IsQueued(queue, a) <==> IsRegistered(job, p, a) && a.callback in posts(a.id)
    {
      assert IsQueued(queue, a) <==> IsLeft(job, posts, p, k, a);
    }
  }

  lemma BatchKinds(job: Job, next: seq<Step>, k: nat, kinds: set<string>)
    requires IsJob(job) && IsBatch(next, job.plan, k)
    ensures next == [] <==> !HasOrder(job.plan, k)
    ensures BatchKnown(job, next, kinds) && KindsBefore(job, kinds, k) ==> KindsBefore(job, kinds, k + 1)
    ensures KindsKnown(job.n, job.o, kinds) ==> BatchKnown(job, next, kinds)
    ensures next != [] ==> ToDo(job.plan, k + 1) < ToDo(job.plan, k)
  {
    hide IsOrdered;
    if next != [] {
      assert next[0].id in ToDo(job.plan, k) && next[0].id !in ToDo(job.plan, k + 1);
    }
    forall x | x in job.plan && job.plan[x].order == k
      ensures exists i :: 0 <= i < |next| && next[i].id == x
    {
      assert HasStep(next, x);
    }
  }
}
