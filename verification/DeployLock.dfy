/**
 * The lock protocol of a deploy, for any number of runs whose steps interleave. A lock handler takes a free
 * lock for its owner and fails otherwise; an unlock handler removes the lock only while its owner holds it.
 * The number of a run stands for the owner id it makes up, so no two runs share one.
 */
module DeployLock {
  type Owner = nat

  datatype Phase =
    | Idle
    | Requesting  // the lock request is on its way
    | Granted     // the lock was taken, the answer is on its way
    | Inside      // the callback runs
    | Settling    // the callback ended or the lock was refused
    | Releasing   // the unlock request of `finally` is on its way
    | Finished

  datatype Run = Run(
    lockId: string,
    phase: Phase,
    isLocked: bool,
    signalled: bool,
    /** Unlock requests of the shutdown handler on their way, and answered. */
    unlocking: nat,
    unlocked: bool,
    exited: bool)

  datatype System = System(runs: map<Owner, Run>, locks: map<string, Owner>)

  datatype Step =
    | Begin(run: Owner)
    | LockLands(run: Owner)
    | LockRefused(run: Owner)
    | Enter(run: Owner)
    | CallbackEnds(run: Owner)
    | Settle(run: Owner)
    | UnlockLands(run: Owner)
    | Signal(run: Owner)
    | ShutdownUnlockLands(run: Owner)
    | Exit(run: Owner)

  /** Whether the shutdown handler of a run is registered. */
  predicate Listening(r: Run) {
    !r.phase.Idle? && !r.phase.Finished?
  }

  /** A request on its way lands even when the process that sent it is gone. */
  predicate Enabled(s: System, step: Step) {
    && step.run in s.runs
    && var r := s.runs[step.run];
       match step
       case Begin(_) => r.phase.Idle? && !r.exited
       case LockLands(_) => r.phase.Requesting? && r.lockId !in s.locks
       case LockRefused(_) => r.phase.Requesting? && r.lockId in s.locks
       case Enter(_) => r.phase.Granted? && !r.exited
       case CallbackEnds(_) => r.phase.Inside? && !r.exited
       case Settle(_) => r.phase.Settling? && !r.exited
       case UnlockLands(_) => r.phase.Releasing?
       case Signal(_) => Listening(r) && !r.exited
       case ShutdownUnlockLands(_) => r.unlocking > 0
       case Exit(_) => r.unlocked && !r.exited
  }

  /** The unlock handler: it removes the lock only while `owner` holds it. */
  function Release(locks: map<string, Owner>, lockId: string, owner: Owner): map<string, Owner> {
    if lockId in locks && locks[lockId] == owner then locks - {lockId} else locks
  }

  function Next(s: System, step: Step): System
    requires Enabled(s, step)
  {
    var id, r := step.run, s.runs[step.run];
    match step
    case Begin(_) => s.(runs := s.runs[id := r.(phase := Requesting)])
    case LockLands(_) => System(s.runs[id := r.(phase := Granted)], s.locks[r.lockId := id])
    case LockRefused(_) => s.(runs := s.runs[id := r.(phase := Settling)])
    case Enter(_) => s.(runs := s.runs[id := r.(phase := Inside, isLocked := true)])
    case CallbackEnds(_) => s.(runs := s.runs[id := r.(phase := Settling)])
    case Settle(_) => s.(runs := s.runs[id := r.(phase := if r.isLocked then Releasing else Finished)])
    case UnlockLands(_) => System(s.runs[id := r.(phase := Finished)], Release(s.locks, r.lockId, id))
    case Signal(_) => s.(runs := s.runs[id := r.(signalled := true, unlocking := r.unlocking + 1)])
    case ShutdownUnlockLands(_) =>
      System(s.runs[id := r.(unlocking := r.unlocking - 1, unlocked := true)], Release(s.locks, r.lockId, id))
    case Exit(_) => s.(runs := s.runs[id := r.(exited := true)])
  }

  /** The steps can be taken in this order. */
  ghost predicate Possible(s: System, steps: seq<Step>)
    decreases steps
  {
    steps == [] || (Enabled(s, steps[0]) && Possible(Next(s, steps[0]), steps[1..]))
  }

  function After(s: System, steps: seq<Step>): System
    requires Possible(s, steps)
    decreases steps
  {
    if steps == [] then s else After(Next(s, steps[0]), steps[1..])
  }

  /** No run has begun; a lock in place belongs to none of them. */
  ghost predicate Start(s: System) {
    && (forall i :: i in s.runs ==> s.runs[i] == Run(s.runs[i].lockId, Idle, false, false, 0, false, false))
    && (forall l :: l in s.locks ==> s.locks[l] !in s.runs)
  }

  // ---------------------------------------------------------------------------------
  // What every step keeps

  predicate Holds(s: System, i: Owner)
    requires i in s.runs
  {
    s.runs[i].lockId in s.locks && s.locks[s.runs[i].lockId] == i
  }

  /** The lock request of the run was answered with the lock. */
  predicate HasTaken(r: Run) {
    r.phase.Granted? || r.isLocked
  }

  /** A shutdown unlock of the run landed after its lock request did. */
  ghost predicate GaveBack(past: seq<Step>, i: Owner) {
    exists a, b :: 0 <= a < b < |past| && past[a] == LockLands(i) && past[b] == ShutdownUnlockLands(i)
  }

  /** The lock request of the run landed, and no unlock of its own did since. */
  ghost predicate KeepsLock(past: seq<Step>, i: Owner) {
    LockLands(i) in past && UnlockLands(i) !in past && !GaveBack(past, i)
  }

  /** What the past steps made of a run. */
  ghost predicate RunInv(s: System, past: seq<Step>, i: Owner)
    requires i in s.runs
  {
    var r := s.runs[i];
    && (Holds(s, i) <==> KeepsLock(past, i))
    && (LockLands(i) in past <==> HasTaken(r))
    && (UnlockLands(i) in past <==> r.phase.Finished? && r.isLocked)
    && (ShutdownUnlockLands(i) in past || r.unlocking > 0 || r.unlocked || r.exited ==> r.signalled)
    && (r.signalled <==> Signal(i) in past)
    && (r.phase.Inside? || r.phase.Releasing? ==> r.isLocked)
    && (r.phase.Idle? || r.phase.Requesting? || r.phase.Granted? ==> !r.isLocked)
    && (forall l :: l in s.locks && s.locks[l] == i ==> l == r.lockId)
  }

  ghost predicate Inv(s: System, past: seq<Step>) {
    forall i :: i in s.runs ==> RunInv(s, past, i)
  }

  lemma GaveBackNext(past: seq<Step>, step: Step, i: Owner)
    ensures GaveBack(past + [step], i) <==>
            GaveBack(past, i) || (step == ShutdownUnlockLands(i) && LockLands(i) in past)
    ensures GaveBack(past, i) ==> LockLands(i) in past && ShutdownUnlockLands(i) in past
  {
    var all := past + [step];
    if GaveBack(past, i) {
      var a, b :| 0 <= a < b < |past| && past[a] == LockLands(i) && past[b] == ShutdownUnlockLands(i);
      assert all[a] == LockLands(i) && all[b] == ShutdownUnlockLands(i);
    }
    if step == ShutdownUnlockLands(i) && LockLands(i) in past {
      var a :| 0 <= a < |past| && past[a] == LockLands(i);
      assert all[a] == LockLands(i) && all[|past|] == step;
    }
    if GaveBack(all, i) {
      var a, b :| 0 <= a < b < |all| && all[a] == LockLands(i) && all[b] == ShutdownUnlockLands(i);
      assert past[a] == LockLands(i);
      if b < |past| {
        assert past[b] == ShutdownUnlockLands(i);
      }
    }
  }

  lemma StepKeepsInv(s: System, past: seq<Step>, step: Step)
    requires Inv(s, past) && Enabled(s, step)
    ensures Inv(Next(s, step), past + [step])
  {
    var s' := Next(s, step);
    forall i | i in s'.runs
      ensures RunInv(s', past + [step], i)
    {
      assert RunInv(s, past, i) && RunInv(s, past, step.run);
      GaveBackNext(past, step, i);
      RunInvNext(s, past, step, i);
    }
  }

  lemma RunInvNext(s: System, past: seq<Step>, step: Step, i: Owner)
    requires Enabled(s, step) && i in s.runs && RunInv(s, past, i) && RunInv(s, past, step.run)
    requires GaveBack(past + [step], i) <==>
             GaveBack(past, i) || (step == ShutdownUnlockLands(i) && LockLands(i) in past)
    requires GaveBack(past, i) ==> LockLands(i) in past
    ensures RunInv(Next(s, step), past + [step], i)
  {
    hide GaveBack;
    assert forall e :: e in past + [step] <==> e in past || e == step;
    if i == step.run {
      OwnStep(s, past, step);
    } else {
      OtherStep(s, past, step, i);
    }
  }

  lemma OwnStep(s: System, past: seq<Step>, step: Step)
    requires Enabled(s, step) && RunInv(s, past, step.run)
    requires forall e :: e in past + [step] <==> e in past || e == step
    requires
      var i := step.run;
      && (GaveBack(past + [step], i) <==>
          GaveBack(past, i) || (step == ShutdownUnlockLands(i) && LockLands(i) in past))
      && (GaveBack(past, i) ==> LockLands(i) in past)
    ensures RunInv(Next(s, step), past + [step], step.run)
  {
    hide GaveBack;
  }

  lemma OtherStep(s: System, past: seq<Step>, step: Step, i: Owner)
    requires Enabled(s, step) && i in s.runs && i != step.run && RunInv(s, past, i)
    requires forall e :: e in past + [step] <==> e in past || e == step
    requires GaveBack(past + [step], i) <==>
             GaveBack(past, i) || (step == ShutdownUnlockLands(i) && LockLands(i) in past)
    ensures RunInv(Next(s, step), past + [step], i)
  {
    hide GaveBack;
    var s' := Next(s, step);
    assert s'.runs[i] == s.runs[i];
    assert forall l :: (l in s'.locks && s'.locks[l] == i) <==> (l in s.locks && s.locks[l] == i);
    hide Next, Enabled;
  }

  lemma {:induction false} RunsKeepInv(s: System, past: seq<Step>, steps: seq<Step>)
    requires Inv(s, past) && Possible(s, steps)
    ensures Inv(After(s, steps), past + steps)
    decreases steps
  {
    if steps == [] {
      assert past + steps == past;
    } else {
      StepKeepsInv(s, past, steps[0]);
      RunsKeepInv(Next(s, steps[0]), past + [steps[0]], steps[1..]);
      assert past + [steps[0]] + steps[1..] == past + steps;
    }
  }

  lemma ReachedInv(s: System, steps: seq<Step>)
    requires Start(s) && Possible(s, steps)
    ensures Inv(After(s, steps), steps)
  {
    assert Inv(s, []);
    RunsKeepInv(s, [], steps);
    assert [] + steps == steps;
  }

  // ---------------------------------------------------------------------------------
  // Safety

  /**
   * In every state of every run of the protocol, signals included: a deploy owns its lock if and only if its lock
   * request landed and none of its own unlocks did since.
   */
  lemma OwnsUntilReleased(s: System, steps: seq<Step>, i: Owner)
    requires Start(s) && Possible(s, steps) && i in After(s, steps).runs
    ensures Holds(After(s, steps), i) <==> KeepsLock(steps, i)
    ensures forall l :: l in After(s, steps).locks && After(s, steps).locks[l] == i ==>
      l == After(s, steps).runs[i].lockId
  {
    ReachedInv(s, steps);
    assert RunInv(After(s, steps), steps, i);
  }

  /**
   * While its callback runs, a deploy owns the lock if and only if no shutdown unlock of its own landed since it
   * took it; without a signal that is always.
   */
  lemma InsideOwnsTheLock(s: System, steps: seq<Step>, i: Owner)
    requires Start(s) && Possible(s, steps)
    requires i in After(s, steps).runs && After(s, steps).runs[i].phase.Inside?
    ensures Holds(After(s, steps), i) <==> !GaveBack(steps, i)
    ensures Signal(i) !in steps ==> Holds(After(s, steps), i)
  {
    ReachedInv(s, steps);
    assert RunInv(After(s, steps), steps, i);
    if GaveBack(steps, i) {
      GaveBackNext(steps, Signal(i), i);
    }
  }

  /** So of the deploys of a lock that are inside their callbacks, all but one gave it back. */
  lemma AtMostOneInside(s: System, steps: seq<Step>, i: Owner, j: Owner)
    requires Start(s) && Possible(s, steps)
    requires var t := After(s, steps);
      && i in t.runs && j in t.runs && t.runs[i].lockId == t.runs[j].lockId
      && t.runs[i].phase.Inside? && t.runs[j].phase.Inside?
    ensures i == j || GaveBack(steps, i) || GaveBack(steps, j)
    ensures Signal(i) !in steps && Signal(j) !in steps ==> i == j
  {
    InsideOwnsTheLock(s, steps, i);
    InsideOwnsTheLock(s, steps, j);
  }

  /** A finished deploy, its callback thrown or not, interrupted or not, leaves no lock of its own behind. */
  lemma FinishedLeavesNoLock(s: System, steps: seq<Step>, i: Owner)
    requires Start(s) && Possible(s, steps)
    requires i in After(s, steps).runs && After(s, steps).runs[i].phase.Finished?
    ensures forall l :: l in After(s, steps).locks ==> After(s, steps).locks[l] != i
  {
    ReachedInv(s, steps);
    assert RunInv(After(s, steps), steps, i);
  }

  /**
   * A deploy that exits on a signal leaves its lock behind if and only if its lock request landed after its last
   * shutdown unlock, and `finally` did not get to unlock either.
   */
  lemma ExitedLeavesLock(s: System, steps: seq<Step>, i: Owner)
    requires Start(s) && Possible(s, steps)
    requires i in After(s, steps).runs && After(s, steps).runs[i].exited
    ensures (exists l :: l in After(s, steps).locks && After(s, steps).locks[l] == i) <==> KeepsLock(steps, i)
    ensures ShutdownUnlockLands(i) in steps
  {
    OwnsUntilReleased(s, steps, i);
    SameRuns(s, steps);
    ExitedUnlocked(s, [], steps, i);
    assert [] + steps == steps;
  }

  lemma {:induction false} SameRuns(s: System, steps: seq<Step>)
    requires Possible(s, steps)
    ensures After(s, steps).runs.Keys == s.runs.Keys
    ensures forall i :: i in s.runs ==> After(s, steps).runs[i].lockId == s.runs[i].lockId
    decreases steps
  {
    if steps != [] {
      StepKeepsRuns(s, steps[0]);
      hide Next;
      SameRuns(Next(s, steps[0]), steps[1..]);
    }
  }

  lemma StepKeepsRuns(s: System, step: Step)
    requires Enabled(s, step)
    ensures Next(s, step).runs.Keys == s.runs.Keys
    ensures forall i :: i in s.runs ==> Next(s, step).runs[i].lockId == s.runs[i].lockId
  {
  }

  lemma {:induction false} ExitedUnlocked(s: System, past: seq<Step>, steps: seq<Step>, i: Owner)
    requires Possible(s, steps) && i in s.runs
    requires s.runs[i].exited || s.runs[i].unlocked ==> ShutdownUnlockLands(i) in past
    ensures i in After(s, steps).runs
    ensures After(s, steps).runs[i].exited ==> ShutdownUnlockLands(i) in past + steps
    decreases steps
  {
    if steps == [] {
      assert past + steps == past;
    } else {
      ExitedUnlocked(Next(s, steps[0]), past + [steps[0]], steps[1..], i);
      assert past + [steps[0]] + steps[1..] == past + steps;
    }
  }

  /** In every state, reached or not, a step takes away no lock but that of its own run. */
  lemma UnlockIsOwn(s: System, step: Step, l: string)
    requires Enabled(s, step) && l in s.locks
    requires l !in Next(s, step).locks || Next(s, step).locks[l] != s.locks[l]
    ensures s.locks[l] == step.run && l == s.runs[step.run].lockId
    ensures step.UnlockLands? || step.ShutdownUnlockLands?
  {
  }

  // ---------------------------------------------------------------------------------
  // What a signal can do

  /**
   * A signal breaks the exclusion, in every state where a deploy is inside its callback and another waits to
   * begin: the lock is free as soon as the shutdown handler gave it back, while the callback still runs.
   */
  lemma SignalLetsAnotherInside(s: System, i: Owner, j: Owner) returns (steps: seq<Step>)
    requires i != j && i in s.runs && j in s.runs && s.runs[i].lockId == s.runs[j].lockId
    requires s.runs[i].phase.Inside? && !s.runs[i].exited && Holds(s, i)
    requires s.runs[j].phase.Idle? && !s.runs[j].exited
    ensures Possible(s, steps)
    ensures After(s, steps).runs.Keys == s.runs.Keys
    ensures After(s, steps).runs[i].phase.Inside? && After(s, steps).runs[j].phase.Inside?
  {
    var s1 := Next(s, Signal(i));
    var s2 := Next(s1, ShutdownUnlockLands(i));
    var s3 := Next(s2, Begin(j));
    var s4 := Next(s3, LockLands(j));
    var s5 := Next(s4, Enter(j));
    assert s5.runs[i].phase.Inside? && s5.runs[j].phase.Inside? && s5.runs.Keys == s.runs.Keys;
    hide Next;
    steps := [Enter(j)];
    TakeFirst(s4, Enter(j), []);
    TakeFirst(s3, LockLands(j), steps);
    steps := [LockLands(j)] + steps;
    TakeFirst(s2, Begin(j), steps);
    steps := [Begin(j)] + steps;
    TakeFirst(s1, ShutdownUnlockLands(i), steps);
    steps := [ShutdownUnlockLands(i)] + steps;
    TakeFirst(s, Signal(i), steps);
    steps := [Signal(i)] + steps;
  }

  /** Both deploys end up inside, without a further shutdown unlock of `i`. */
  ghost predicate LeadsBothInside(s: System, rest: seq<Step>, i: Owner, j: Owner) {
    && Possible(s, rest) && ShutdownUnlockLands(i) !in rest
    && i in After(s, rest).runs && j in After(s, rest).runs
    && IsInside(After(s, rest).runs[i]) && IsInside(After(s, rest).runs[j])
  }

  /** The callback of the deploy runs, in a process that is still there. */
  predicate IsInside(r: Run) {
    r.phase.Inside? && !r.exited
  }

  /**
   * The exact exclusion: while a deploy is inside its callback, and no third one has the lock, another of its lock
   * that has not begun can get inside too if and only if a shutdown unlock of the first landed since it took the lock.
   */
  lemma ExclusionIsExact(s: System, steps: seq<Step>, i: Owner, j: Owner)
    requires Start(s) && Possible(s, steps) && i != j
    requires var t := After(s, steps);
      && i in t.runs && j in t.runs && t.runs[i].lockId == t.runs[j].lockId
      && IsInside(t.runs[i]) && t.runs[j].phase.Idle? && !t.runs[j].exited
      && (t.runs[i].lockId in t.locks ==> Holds(t, i))
    ensures (exists rest :: LeadsBothInside(After(s, steps), rest, i, j)) <==> GaveBack(steps, i)
  {
    var t := After(s, steps);
    ReachedInv(s, steps);
    assert RunInv(t, steps, i) && RunInv(t, steps, j);
    if GaveBack(steps, i) {
      LetsInside(t, i, j);
    } else {
      forall rest | LeadsBothInside(t, rest, i, j)
        ensures false
      {
        KeepsOut(t, steps, rest, i, j);
      }
    }
  }

  lemma LetsInside(t: System, i: Owner, j: Owner)
    requires i in t.runs && j in t.runs && i != j && t.runs[j].lockId !in t.locks
    requires IsInside(t.runs[i]) && t.runs[j].phase.Idle? && !t.runs[j].exited
    ensures exists rest :: LeadsBothInside(t, rest, i, j)
  {
    var t1 := Next(t, Begin(j));
    var t2 := Next(t1, LockLands(j));
    var t3 := Next(t2, Enter(j));
    assert IsInside(t3.runs[i]) && IsInside(t3.runs[j]);
    hide Next;
    TakeFirst(t2, Enter(j), []);
    TakeFirst(t1, LockLands(j), [Enter(j)]);
    TakeFirst(t, Begin(j), [LockLands(j)] + [Enter(j)]);
    var rest := [Begin(j)] + ([LockLands(j)] + [Enter(j)]);
    assert LeadsBothInside(t, rest, i, j);
  }

  /** The callback of the deploy has ended. */
  predicate IsLate(r: Run) {
    r.phase.Settling? || r.phase.Releasing? || r.phase.Finished?
  }

  lemma {:induction false} LateStaysLate(s: System, steps: seq<Step>, i: Owner)
    requires Possible(s, steps) && i in s.runs && IsLate(s.runs[i])
    ensures i in After(s, steps).runs && IsLate(After(s, steps).runs[i])
    decreases steps
  {
    if steps != [] {
      LateStaysLate(Next(s, steps[0]), steps[1..], i);
    }
  }

  /** As long as a deploy is inside and owns the lock, no other of its lock takes it. */
  lemma {:induction false} KeepsOut(s: System, past: seq<Step>, rest: seq<Step>, i: Owner, j: Owner)
    requires Inv(s, past) && Possible(s, rest) && ShutdownUnlockLands(i) !in rest
    requires i != j && i in s.runs && j in s.runs && s.runs[i].lockId == s.runs[j].lockId
    requires s.runs[i].phase.Inside? && Holds(s, i) && !HasTaken(s.runs[j])
    requires i in After(s, rest).runs && After(s, rest).runs[i].phase.Inside?
    ensures j in After(s, rest).runs && !After(s, rest).runs[j].phase.Inside?
    decreases rest
  {
    if rest == [] {
      assert RunInv(s, past, j);
    } else {
      var s' := Next(s, rest[0]);
      assert rest[0] in rest;
      assert forall e :: e in rest[1..] ==> e in rest;
      KeepsOutOnce(s, rest[0], i, j);
      StepKeepsInv(s, past, rest[0]);
      hide Next, Inv, RunInv, Holds, HasTaken;
      if IsLate(s'.runs[i]) {
        LateStaysLate(s', rest[1..], i);
      }
      KeepsOut(s', past + [rest[0]], rest[1..], i, j);
    }
  }

  lemma KeepsOutOnce(s: System, step: Step, i: Owner, j: Owner)
    requires Enabled(s, step) && step != ShutdownUnlockLands(i)
    requires i != j && i in s.runs && j in s.runs && s.runs[i].lockId == s.runs[j].lockId
    requires s.runs[i].phase.Inside? && Holds(s, i) && !HasTaken(s.runs[j])
    ensures var s' := Next(s, step);
      && i in s'.runs && j in s'.runs && s'.runs[i].lockId == s'.runs[j].lockId && !HasTaken(s'.runs[j])
      && (IsLate(s'.runs[i]) || (s'.runs[i].phase.Inside? && Holds(s', i)))
  {
  }

  /**
   * A signal that comes while the lock request is on its way can leave the lock behind: when the shutdown unlock
   * lands first, it finds no lock, the process exits, and then the lock request lands.
   */
  lemma ExitLeavesLock(s: System, i: Owner) returns (steps: seq<Step>)
    requires Start(s) && i in s.runs && s.runs[i].lockId !in s.locks
    ensures Possible(s, steps) && i in After(s, steps).runs
    ensures After(s, steps).runs[i].exited && Holds(After(s, steps), i)
  {
    ExitTrace(s, i);
    var s1 := Next(s, Begin(i));
    var s2 := Next(s1, Signal(i));
    var s3 := Next(s2, ShutdownUnlockLands(i));
    var s4 := Next(s3, Exit(i));
    hide Next, Enabled;
    steps := [LockLands(i)];
    TakeFirst(s4, LockLands(i), []);
    TakeFirst(s3, Exit(i), steps);
    steps := [Exit(i)] + steps;
    TakeFirst(s2, ShutdownUnlockLands(i), steps);
    steps := [ShutdownUnlockLands(i)] + steps;
    TakeFirst(s1, Signal(i), steps);
    steps := [Signal(i)] + steps;
    TakeFirst(s, Begin(i), steps);
    steps := [Begin(i)] + steps;
  }

  lemma ExitTrace(s: System, i: Owner)
    requires Start(s) && i in s.runs && s.runs[i].lockId !in s.locks
    ensures Enabled(s, Begin(i))
    ensures var s1 := Next(s, Begin(i)); Enabled(s1, Signal(i))
    ensures var s2 := Next(Next(s, Begin(i)), Signal(i)); Enabled(s2, ShutdownUnlockLands(i))
    ensures var s3 := Next(Next(Next(s, Begin(i)), Signal(i)), ShutdownUnlockLands(i)); Enabled(s3, Exit(i))
    ensures var s4 := Next(Next(Next(Next(s, Begin(i)), Signal(i)), ShutdownUnlockLands(i)), Exit(i));
      Enabled(s4, LockLands(i)) && i in Next(s4, LockLands(i)).runs
      && Next(s4, LockLands(i)).runs[i].exited && Holds(Next(s4, LockLands(i)), i)
  {
    var r := s.runs[i];
    var s2 := Next(Next(s, Begin(i)), Signal(i));
    assert s2.runs[i] == r.(phase := Requesting, signalled := true, unlocking := 1) && s2.locks == s.locks;
    var s3 := Next(s2, ShutdownUnlockLands(i));
    assert s3.runs[i] == s2.runs[i].(unlocking := 0, unlocked := true) && s3.locks == s.locks;
  }

  lemma TakeFirst(s: System, step: Step, rest: seq<Step>)
    requires Enabled(s, step) && Possible(Next(s, step), rest)
    ensures Possible(s, [step] + rest) && After(s, [step] + rest) == After(Next(s, step), rest)
  {
    assert ([step] + rest)[1..] == rest;
  }
}
