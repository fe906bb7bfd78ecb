/** Post actions: what handlers leave to be done after all steps, and the state when some of it fails. */
module PostActions {
  import opened Common
  import opened Layers
  import opened StatePlan
  import opened StateApply

  /** What succeeded and what failed so far. */
  datatype Books = Books(succeeded: States, failed: States)

  function Kept(b: Books): States {
    b.succeeded + b.failed
  }

  /** A post action failed or was skipped. */
  function Fail(b: Books, a: PostAction): Books {
    Books(b.succeeded - {a.id}, b.failed[a.id := a.entry])
  }

  // ---------------------------------------------------------------------------------
  // Dependents

  ghost predicate DependsOn(s: States, y: Id, x: Id) {
    y in s && x in s[y].dependencies
  }

  /** Each of the path depends on the one before. */
  ghost predicate Climbs(s: States, q: seq<Id>) {
    |q| > 1 && forall i :: 0 <= i < |q| - 1 ==> DependsOn(s, q[i + 1], q[i])
  }

  /** No entry that depends on `x`, directly or not, failed. */
  ghost predicate NoDependentFailed(s: States, failed: States, x: Id) {
    forall q :: Climbs(s, q) && q[0] == x ==> q[|q| - 1] !in failed
  }

  ghost predicate IsClimb(s: States, q: seq<Id>, x: Id, y: Id) {
    Climbs(s, q) && q[0] == x && q[|q| - 1] == y
  }

  lemma ClimbFirst(s: States, x: Id, y: Id)
    requires DependsOn(s, y, x)
    ensures IsClimb(s, [x, y], x, y)
  {
  }

  lemma ClimbFurther(s: States, x: Id, y: Id, q: seq<Id>, z: Id)
    requires DependsOn(s, y, x) && IsClimb(s, q, y, z)
    ensures IsClimb(s, [x] + q, x, z)
  {
    var p := [x] + q;
    forall i | 0 <= i < |p| - 1
      ensures DependsOn(s, p[i + 1], p[i])
    {
      if i > 0 {
        assert DependsOn(s, q[i - 1 + 1], q[i - 1]);
      }
    }
  }

  /** All dependents of the entries visited, other than `open` ones, were visited, and none failed. */
  ghost predicate Explored(s: States, failed: States, visited: set<Id>, open: set<Id>) {
    && (forall y :: y in visited ==> y !in failed)
    && forall x, y :: x in visited && x !in open && DependsOn(s, y, x) ==> y in visited
  }

  method CheckAllDependentsSucceeded(x: Id, s: States, failed: States, visited: set<Id>, ghost open: set<Id>)
    returns (r: bool, visited': set<Id>)
    requires visited <= s.Keys && Explored(s, failed, visited, open)
    ensures visited <= visited' <= s.Keys
    ensures r ==> Explored(s, failed, visited', open - {x}) && forall y :: DependsOn(s, y, x) ==> y in visited'
    ensures !r ==> !NoDependentFailed(s, failed, x)
    decreases s.Keys - visited
  {
    visited' := visited;
    var todo := s.Keys;
    while todo != {}
      invariant todo <= s.Keys
      invariant visited <= visited' <= s.Keys && Explored(s, failed, visited', open + {x})
      invariant forall y :: DependsOn(s, y, x) && y !in todo ==> y in visited'
      decreases todo
    {
      var y :| y in todo;
      todo := todo - {y};
      if x in s[y].dependencies && y !in visited' {
        ClimbFirst(s, x, y);
        visited' := visited' + {y};
        if y in failed {
          return false, visited';
        }
        var ok;
        ok, visited' := CheckAllDependentsSucceeded(y, s, failed, visited', open + {x, y});
        if !ok {
          ghost var q :| Climbs(s, q) && q[0] == y && q[|q| - 1] in failed;
          ClimbFurther(s, x, y, q, q[|q| - 1]);
          return false, visited';
        }
      }
    }
    r := true;
  }

  lemma {:induction false} ClimbStaysIn(s: States, failed: States, visited: set<Id>, q: seq<Id>)
    requires Explored(s, failed, visited, {}) && Climbs(s, q)
    requires forall y :: DependsOn(s, y, q[0]) ==> y in visited
    ensures q[|q| - 1] in visited
  {
    assert DependsOn(s, q[0 + 1], q[0]);
    if |q| > 2 {
      var p := q[..|q| - 1];
      forall i | 0 <= i < |p| - 1
        ensures DependsOn(s, p[i + 1], p[i])
      {
        assert DependsOn(s, q[i + 1], q[i]);
      }
      ClimbStaysIn(s, failed, visited, p);
      assert DependsOn(s, q[|q| - 2 + 1], q[|q| - 2]);
    }
  }

  // ---------------------------------------------------------------------------------
  // One post action

  /** The post action may run. */
  ghost predicate MayRun(b: Books, a: PostAction) {
    && a.id !in b.failed
    && (a.id in b.succeeded || a.action == Delete)
    && (a.id in b.succeeded ==> ChainsStay(a.entry.dependencies, b.succeeded))
    && (a.callback.requireDependents ==> NoDependentFailed(Kept(b), b.failed, a.id))
  }

  /** What succeeded is of the plan, which its dependencies go back in. */
  ghost predicate Follows(b: Books, plan: map<Id, Step>, bound: nat) {
    && GoesBack(b.succeeded, plan) && b.succeeded.Keys <= plan.Keys
    && forall x :: x in plan ==> plan[x].order < bound
  }

  /** A post action up to its callback, which is called if it may run; otherwise the entry failed. */
  method StartPostAction(a: PostAction, b: Books, ghost plan: map<Id, Step>, ghost bound: nat)
    returns (b': Books, called: bool)
    requires Follows(b, plan, bound)
    ensures called <==> MayRun(b, a)
    ensures b' == if called then b else Fail(b, a)
    ensures Follows(b', plan, bound)
  {
    FailureFollows(b, a, plan, bound);
    hide ChainsStay, GoesBack;
    called := false;
    b' := Fail(b, a);
    if a.id in b.failed || (a.id !in b.succeeded && a.action != Delete) {
      return;
    }
    if a.id in b.succeeded {
      var ok := CheckAllSucceeded(a.entry.dependencies, b.succeeded, plan, bound);
      if !ok {
        return;
      }
    }
    if a.callback.requireDependents {
      var ok, visited := CheckAllDependentsSucceeded(a.id, Kept(b), b.failed, {}, {});
      if !ok {
        return;
      }
      forall q | Climbs(Kept(b), q) && q[0] == a.id
        ensures q[|q| - 1] !in b.failed
      {
        ClimbStaysIn(Kept(b), b.failed, visited, q);
      }
    }
    called := true;
    b' := b;
  }

  /** A post action from the end of its callback: when it throws, the entry failed, whatever became of it meanwhile. */
  method EndPostAction(a: PostAction, b: Books, ghost plan: map<Id, Step>, ghost bound: nat) returns (b': Books)
    requires Follows(b, plan, bound)
    ensures b' == if a.callback.ends then b else Fail(b, a)
    ensures Follows(b', plan, bound)
  {
    FailureFollows(b, a, plan, bound);
    b' := b;
    if !a.callback.ends {
      b' := Fail(b, a);
    }
  }

  lemma FailureFollows(b: Books, a: PostAction, plan: map<Id, Step>, bound: nat)
    requires Follows(b, plan, bound)
    ensures Follows(Fail(b, a), plan, bound)
  {
  }

  // ---------------------------------------------------------------------------------
  // Rounds of post actions

  /** A post action that is over, how many were when it started, and whether its callback ran and ended well. */
  datatype Attempt = Attempt(action: PostAction, seen: nat, ok: bool)

  /** The books after the attempts, in the order in which they ended. */
  function Replay(b: Books, log: seq<Attempt>): Books {
    if log == [] then b
    else
      var before, last := Replay(b, log[..|log| - 1]), log[|log| - 1];
      if last.ok then before else Fail(before, last.action)
  }

  /** The attempt goes as the books stood when it started, at any time before it ends. */
  ghost predicate GoesAsSeen(b: Books, log: seq<Attempt>, e: Attempt) {
    e.seen <= |log| && (e.ok <==> MayRun(Replay(b, log[..e.seen]), e.action) && e.action.callback.ends)
  }

  ghost predicate IsLog(b: Books, log: seq<Attempt>) {
    forall i :: 0 <= i < |log| ==> GoesAsSeen(b, log[..i], log[i])
  }

  ghost predicate IsAttempted(log: seq<Attempt>, a: PostAction) {
    exists i :: 0 <= i < |log| && log[i].action == a
  }

  function Weight(c: Callback): nat {
    1 + Weights(c.more)
  }

  function Weights(callbacks: seq<Callback>): nat {
    if callbacks == [] then 0 else Weights(callbacks[..|callbacks| - 1]) + Weight(callbacks[|callbacks| - 1])
  }

  function Load(actions: seq<PostAction>): nat {
    if actions == [] then 0 else Load(actions[..|actions| - 1]) + Weight(actions[|actions| - 1].callback)
  }

  function TotalLoad(queue: seq<seq<PostAction>>): nat {
    if queue == [] then 0 else Load(queue[0]) + TotalLoad(queue[1..])
  }

  lemma {:induction false} LoadOf(a: seq<PostAction>, b: seq<PostAction>)
    ensures Load(a + b) == Load(a) + Load(b)
  {
    if b == [] {
      assert a + b == a;
    } else {
      assert (a + b)[..|a + b| - 1] == a + b[..|b| - 1];
      LoadOf(a, b[..|b| - 1]);
    }
  }

  lemma {:induction false} LoadAtLeast(actions: seq<PostAction>)
    ensures Load(actions) >= |actions|
  {
    if actions != [] {
      LoadAtLeast(actions[..|actions| - 1]);
    }
  }

  lemma {:induction false} LoadLeft(action: Action, id: Id, entry: Entry, callbacks: seq<Callback>)
    ensures Load(Leave(action, id, entry, callbacks)) == Weights(callbacks)
  {
    var left := Leave(action, id, entry, callbacks);
    if callbacks != [] {
      LoadLeft(action, id, entry, callbacks[..|callbacks| - 1]);
      assert left[..|left| - 1] == Leave(action, id, entry, callbacks[..|callbacks| - 1]);
    }
  }

  lemma {:induction false} TotalLoadNext(queue: seq<seq<PostAction>>, more: seq<PostAction>)
    ensures TotalLoad(queue + [more]) == TotalLoad(queue) + Load(more)
  {
    if queue == [] {
      assert queue + [more] == [more] && [more][1..] == [];
    } else {
      assert (queue + [more])[1..] == queue[1..] + [more];
      TotalLoadNext(queue[1..], more);
    }
  }

  /** The callback is the other one or left by it, directly or not. */
  ghost predicate Descends(c: Callback, root: Callback) {
    c == root || exists i :: 0 <= i < |root.more| && Descends(c, root.more[i])
  }

  lemma {:induction false} ChildDescends(c: Callback, root: Callback, i: nat)
    requires Descends(c, root) && i < |c.more|
    ensures Descends(c.more[i], root)
  {
    if c == root {
      assert Descends(c.more[i], root.more[i]);
    } else {
      var k :| 0 <= k < |root.more| && Descends(c, root.more[k]);
      ChildDescends(c, root.more[k], i);
    }
  }

  /** The action is one of the others or left by it, directly or not: it is of the same entry. */
  ghost predicate IsLeftBy(roots: set<PostAction>, a: PostAction) {
    exists r :: r in roots && IsLeftByOne(r, a)
  }

  ghost predicate IsLeftByOne(r: PostAction, a: PostAction) {
    r.id == a.id && r.action == a.action && r.entry == a.entry && Descends(a.callback, r.callback)
  }

  lemma LeftInTurn(roots: set<PostAction>, a: PostAction)
    requires IsLeftBy(roots, a)
    ensures AllLeftBy(roots, Leave(a.action, a.id, a.entry, a.callback.more))
  {
    var left := Leave(a.action, a.id, a.entry, a.callback.more);
    var r :| r in roots && IsLeftByOne(r, a);
    forall i | 0 <= i < |left|
      ensures IsLeftBy(roots, left[i])
    {
      ChildDescends(a.callback, r.callback, i);
      assert IsLeftByOne(r, left[i]);
    }
  }

  ghost predicate AllLeftBy(roots: set<PostAction>, actions: seq<PostAction>) {
    forall a :: a in actions ==> IsLeftBy(roots, a)
  }

  /** A callback that ends well, and so do all it leaves. */
  predicate EndsWell(c: Callback) {
    c.ends && forall i :: 0 <= i < |c.more| ==> EndsWell(c.more[i])
  }

  /** The action can only go well. */
  ghost predicate GoesWell(b: Books, a: PostAction) {
    && b.failed == map[] && EndsWell(a.callback)
    && (a.id in b.succeeded || a.action == Delete)
    && (a.id in b.succeeded ==> ChainsStay(a.entry.dependencies, b.succeeded))
  }

  ghost predicate AllGoWell(b: Books, actions: seq<PostAction>) {
    forall a :: a in actions ==> GoesWell(b, a)
  }

  lemma WellMayRun(b: Books, a: PostAction)
    requires GoesWell(b, a)
    ensures MayRun(b, a) && a.callback.ends
    ensures AllGoWell(b, Leave(a.action, a.id, a.entry, a.callback.more))
  {
  }

  lemma LogNext(b: Books, log: seq<Attempt>, e: Attempt)
    requires IsLog(b, log) && GoesAsSeen(b, log, e)
    ensures IsLog(b, log + [e])
    ensures Replay(b, log + [e]) == if e.ok then Replay(b, log) else Fail(Replay(b, log), e.action)
    ensures forall a :: IsAttempted(log + [e], a) <==> IsAttempted(log, a) || a == e.action
  {
    var all := log + [e];
    assert all[..|all| - 1] == log;
    hide GoesAsSeen;
    forall i | 0 <= i < |all|
      ensures GoesAsSeen(b, all[..i], all[i])
    {
      assert i < |log| ==> all[..i] == log[..i] && all[i] == log[i];
    }
    forall a
      ensures IsAttempted(all, a) <==> IsAttempted(log, a) || a == e.action
    {
      if IsAttempted(log, a) {
        var i :| 0 <= i < |log| && log[i].action == a;
        assert all[i].action == a;
      }
      assert all[|log|] == e;
    }
  }

  /** A post action whose callback runs, and how many were over when it started. */
  datatype Running = Running(action: PostAction, ghost seen: nat)

  ghost predicate WasCalled(start: Books, log: seq<Attempt>, r: Running) {
    r.seen <= |log| && MayRun(Replay(start, log[..r.seen]), r.action)
  }

  function ActionsOf(running: seq<Running>): seq<PostAction> {
    seq(|running|, i requires 0 <= i < |running| => running[i].action)
  }

  /** What a round makes of the attempts so far, when `actions` of it started and `running` of those are not over. */
  ghost predicate IsRound(
    start: Books, b: Books, log: seq<Attempt>, roots: set<PostAction>, actions: seq<PostAction>, running: seq<Running>,
    b': Books, log': seq<Attempt>, more: seq<PostAction>
  ) {
    && b' == Replay(start, log') && IsLog(start, log')
    && (forall r :: r in running ==> WasCalled(start, log', r) && r.action in actions)
    && (forall a :: IsAttempted(log', a) || a in ActionsOf(running) <==> IsAttempted(log, a) || a in actions)
    && (AllLeftBy(roots, actions) ==> AllLeftBy(roots, more))
    && (AllGoWell(b, actions) ==> b' == b && AllGoWell(b, more))
    && Load(more) + Load(ActionsOf(running)) + |actions| - |running| <= Load(actions)
  }

  lemma RunningNext(running: seq<Running>, r: Running)
    ensures ActionsOf(running + [r]) == ActionsOf(running) + [r.action]
  {
  }

  /** The next action is called. */
  lemma RoundCalls(
    start: Books, b: Books, log: seq<Attempt>, roots: set<PostAction>, actions: seq<PostAction>, running: seq<Running>,
    b': Books, log': seq<Attempt>, more: seq<PostAction>, a: PostAction
  )
    requires IsRound(start, b, log, roots, actions, running, b', log', more) && MayRun(b', a)
    ensures IsRound(start, b, log, roots, actions + [a], running + [Running(a, |log'|)], b', log', more)
  {
    hide IsLog, Replay, IsAttempted, Load, AllLeftBy, AllGoWell, MayRun, ActionsOf, GoesWell, IsLeftBy;
    var r := Running(a, |log'|);
    assert log'[..|log'|] == log';
    assert WasCalled(start, log', r);
    hide WasCalled;
    RunningNext(running, r);
    LoadOf(ActionsOf(running), [a]);
    LoadOf(actions, [a]);
    MoreActions(b, roots, actions, a);
    assert forall x :: x in running + [r] <==> x in running || x == r;
    assert forall x :: x in actions + [a] <==> x in actions || x == a;
    assert forall x :: x in ActionsOf(running) + [a] <==> x in ActionsOf(running) || x == a;
  }

  lemma MoreActions(b: Books, roots: set<PostAction>, actions: seq<PostAction>, a: PostAction)
    ensures AllLeftBy(roots, actions + [a]) <==> AllLeftBy(roots, actions) && IsLeftBy(roots, a)
    ensures AllGoWell(b, actions + [a]) <==> AllGoWell(b, actions) && GoesWell(b, a)
  {
    hide GoesWell, IsLeftBy;
    assert forall x :: x in actions + [a] <==> x in actions || x == a;
  }

  /** The next action is skipped. */
  lemma RoundSkips(
    start: Books, b: Books, log: seq<Attempt>, roots: set<PostAction>, actions: seq<PostAction>, running: seq<Running>,
    b': Books, log': seq<Attempt>, more: seq<PostAction>, a: PostAction
  )
    requires IsRound(start, b, log, roots, actions, running, b', log', more) && !MayRun(b', a)
    ensures IsRound(
      start, b, log, roots, actions + [a], running, Fail(b', a), log' + [Attempt(a, |log'|, false)], more)
  {
    var e := Attempt(a, |log'|, false);
    assert log'[..|log'|] == log';
    LogNext(start, log', e);
    MoreActions(b, roots, actions, a);
    if AllGoWell(b, actions + [a]) {
      WellMayRun(b, a);
    }
    LoadOf(actions, [a]);
    assert Load([a]) >= 1;
    hide IsLog, Replay, IsAttempted, Load, AllLeftBy, AllGoWell, MayRun, ActionsOf, Fail, GoesWell;
    CalledBefore(start, running, log', e);
    hide WasCalled;
  }

  /** Once called, always called. */
  lemma CalledBefore(start: Books, running: seq<Running>, log: seq<Attempt>, e: Attempt)
    requires forall r :: r in running ==> WasCalled(start, log, r)
    ensures forall r :: r in running ==> WasCalled(start, log + [e], r)
  {
    hide MayRun, Replay;
    forall r | r in running
      ensures WasCalled(start, log + [e], r)
    {
      assert (log + [e])[..r.seen] == log[..r.seen];
    }
  }

  function RemoveAt<T>(xs: seq<T>, i: nat): seq<T>
    requires i < |xs|
  {
    xs[..i] + xs[i + 1..]
  }

  lemma RemovedIs(running: seq<Running>, i: nat)
    requires i < |running|
    ensures forall a :: a in ActionsOf(running) <==> a in ActionsOf(RemoveAt(running, i)) || a == running[i].action
    ensures |RemoveAt(running, i)| == |running| - 1 && forall r :: r in RemoveAt(running, i) ==> r in running
    ensures Load(ActionsOf(running)) == Load(ActionsOf(RemoveAt(running, i))) + Weight(running[i].action.callback)
  {
    var a := running[i].action;
    var before, after, all := ActionsOf(running[..i]), ActionsOf(running[i + 1..]), ActionsOf(running);
    assert all == before + ([a] + after);
    assert ActionsOf(RemoveAt(running, i)) == before + after;
    LoadOf(before, [a] + after);
    LoadOf([a], after);
    LoadOf(before, after);
  }

  /** The callback of one of those running ends. */
  lemma RoundEnds(
    start: Books, b: Books, log: seq<Attempt>, roots: set<PostAction>, actions: seq<PostAction>, running: seq<Running>,
    b': Books, log': seq<Attempt>, more: seq<PostAction>, i: nat
  )
    requires i < |running| && IsRound(start, b, log, roots, actions, running, b', log', more)
    ensures
      var Running(a, seen) := running[i];
      IsRound(
        start, b, log, roots, actions, RemoveAt(running, i),
        if a.callback.ends then b' else Fail(b', a), log' + [Attempt(a, seen, a.callback.ends)],
        more + Leave(a.action, a.id, a.entry, a.callback.more))
  {
    hide IsLog, Replay, IsAttempted, Load, AllLeftBy, AllGoWell, MayRun, ActionsOf, Fail, Leave, Weights, RemoveAt;
    var Running(a, seen) := running[i];
    var e, left := Attempt(a, seen, a.callback.ends), Leave(a.action, a.id, a.entry, a.callback.more);
    assert running[i] in running;
    assert GoesAsSeen(start, log', e) by {
      assert WasCalled(start, log', running[i]);
    }
    hide GoesAsSeen;
    LogNext(start, log', e);
    CalledBefore(start, running, log', e);
    hide WasCalled;
    RemovedIs(running, i);
    LoadOf(more, left);
    LoadLeft(a.action, a.id, a.entry, a.callback.more);
    LeftEnds(b, roots, actions, more, a);
  }

  lemma LeftEnds(b: Books, roots: set<PostAction>, actions: seq<PostAction>, more: seq<PostAction>, a: PostAction)
    requires a in actions
    ensures
      var left := Leave(a.action, a.id, a.entry, a.callback.more);
      && (AllLeftBy(roots, actions) && AllLeftBy(roots, more) ==> AllLeftBy(roots, more + left))
      && (AllGoWell(b, actions) && AllGoWell(b, more) ==> AllGoWell(b, more + left) && a.callback.ends)
  {
    if AllLeftBy(roots, actions) {
      LeftInTurn(roots, a);
    }
    if AllGoWell(b, actions) {
      WellMayRun(b, a);
    }
    hide GoesWell, MayRun, IsLeftBy, Leave;
  }

  /**
   * One round: up to `concurrency` callbacks run at once, each checked when it starts, and they end in any order. They
   * may leave further post actions, for a later round.
   */
  method RunRound(
    actions: seq<PostAction>, b: Books, concurrency: nat, ghost plan: map<Id, Step>, ghost bound: nat,
    ghost start: Books, ghost log: seq<Attempt>, ghost roots: set<PostAction>
  ) returns (b': Books, more: seq<PostAction>, ghost log': seq<Attempt>)
    requires Follows(b, plan, bound) && b == Replay(start, log) && IsLog(start, log)
    ensures Follows(b', plan, bound) && IsRound(start, b, log, roots, actions, [], b', log', more)
  {
    b', more, log' := b, [], log;
    var next, running := 0, [];
    RoundStarts(start, b, log, roots);
    assert actions[..0] == [];
    hide Follows, IsRound, MayRun, Replay, IsLog, Leave, Fail, RemoveAt;
    while next < |actions| || running != []
      invariant next <= |actions|
      invariant Follows(b', plan, bound)
      invariant IsRound(start, b, log, roots, actions[..next], running, b', log', more)
      decreases |actions| - next, |running|
    {
      var starts := *;
      if next < |actions| && (running == [] || (|running| < concurrency && starts)) {
        var a, called := actions[next], false;
        ghost var before := b';
        b', called := StartPostAction(a, b', plan, bound);
        PrefixNext(actions, next);
        if called {
          RoundCalls(start, b, log, roots, actions[..next], running, before, log', more, a);
          running := running + [Running(a, |log'|)];
        } else {
          RoundSkips(start, b, log, roots, actions[..next], running, before, log', more, a);
          log' := log' + [Attempt(a, |log'|, false)];
        }
        next := next + 1;
      } else {
        var i :| 0 <= i < |running|;
        var a := running[i].action;
        RoundEnds(start, b, log, roots, actions[..next], running, b', log', more, i);
        b' := EndPostAction(a, b', plan, bound);
        log' := log' + [Attempt(a, running[i].seen, a.callback.ends)];
        more := more + Leave(a.action, a.id, a.entry, a.callback.more);
        running := RemoveAt(running, i);
      }
    }
    assert actions[..|actions|] == actions;
  }

  lemma RoundStarts(start: Books, b: Books, log: seq<Attempt>, roots: set<PostAction>)
    requires b == Replay(start, log) && IsLog(start, log)
    ensures IsRound(start, b, log, roots, [], [], b, log, [])
  {
    hide Replay, IsLog;
  }

  ghost function Roots(queue: seq<seq<PostAction>>): set<PostAction> {
    set i, a | 0 <= i < |queue| && a in queue[i] :: a
  }

  /** The rounds so far, up to `index`, and those still to run. */
  ghost predicate RoundsInv(
    queue: seq<seq<PostAction>>, rounds: seq<seq<PostAction>>, index: nat, start: Books, b: Books, log: seq<Attempt>
  ) {
    && index <= |rounds| && queue <= rounds
    && b == Replay(start, log) && IsLog(start, log)
    && (forall i :: 0 <= i < |rounds| ==> AllLeftBy(Roots(queue), rounds[i]))
    && (forall a :: IsAttempted(log, a) ==> IsLeftBy(Roots(queue), a))
    && (forall i, a :: 0 <= i < index && a in rounds[i] ==> IsAttempted(log, a))
    && (AllQueuedGoWell(queue, start) ==> b == start && forall i :: 0 <= i < |rounds| ==> AllGoWell(start, rounds[i]))
  }

  ghost predicate AllQueuedGoWell(queue: seq<seq<PostAction>>, b: Books) {
    forall i :: 0 <= i < |queue| ==> AllGoWell(b, queue[i])
  }

  lemma RoundsStart(queue: seq<seq<PostAction>>, b: Books)
    ensures RoundsInv(queue, queue, 0, b, b, [])
  {
    forall i, a | 0 <= i < |queue| && a in queue[i]
      ensures IsLeftBy(Roots(queue), a)
    {
      assert a in Roots(queue) && IsLeftByOne(a, a);
    }
  }

  lemma RoundsNext(
    queue: seq<seq<PostAction>>, rounds: seq<seq<PostAction>>, index: nat, start: Books, b: Books, log: seq<Attempt>,
    b': Books, log': seq<Attempt>, more: seq<PostAction>
  )
    requires RoundsInv(queue, rounds, index, start, b, log) && index < |rounds|
    requires IsRound(start, b, log, Roots(queue), rounds[index], [], b', log', more)
    ensures RoundsInv(queue, if more == [] then rounds else rounds + [more], index + 1, start, b', log')
    ensures var next := if more == [] then rounds else rounds + [more];
      TotalLoad(next[index + 1..]) < TotalLoad(rounds[index..]) ||
      (TotalLoad(next[index + 1..]) == TotalLoad(rounds[index..]) && |next| - index - 1 < |rounds| - index)
  {
    RoundsInvNext(queue, rounds, index, start, b, log, b', log', more);
    LoadFalls(rounds, index, more, |rounds[index]|);
  }

  lemma LoadFalls(rounds: seq<seq<PostAction>>, index: nat, more: seq<PostAction>, size: nat)
    requires index < |rounds| && size == |rounds[index]| && Load(more) + size <= Load(rounds[index])
    ensures var next := if more == [] then rounds else rounds + [more];
      TotalLoad(next[index + 1..]) < TotalLoad(rounds[index..]) ||
      (TotalLoad(next[index + 1..]) == TotalLoad(rounds[index..]) && |next| - index - 1 < |rounds| - index)
  {
    LoadAtLeast(more);
    assert rounds[index] == [] ==> Load(rounds[index]) == 0;
    hide Load;
    assert rounds[index..][0] == rounds[index] && rounds[index..][1..] == rounds[index + 1..];
    assert TotalLoad(rounds[index..]) == Load(rounds[index]) + TotalLoad(rounds[index + 1..]);
    hide TotalLoad;
    if more != [] {
      assert (rounds + [more])[index + 1..] == rounds[index + 1..] + [more];
      TotalLoadNext(rounds[index + 1..], more);
    }
  }

  lemma RoundsInvNext(
    queue: seq<seq<PostAction>>, rounds: seq<seq<PostAction>>, index: nat, start: Books, b: Books, log: seq<Attempt>,
    b': Books, log': seq<Attempt>, more: seq<PostAction>
  )
    requires RoundsInv(queue, rounds, index, start, b, log) && index < |rounds|
    requires IsRound(start, b, log, Roots(queue), rounds[index], [], b', log', more)
    ensures RoundsInv(queue, if more == [] then rounds else rounds + [more], index + 1, start, b', log')
  {
    hide IsLog, Replay, IsLeftBy, Load, GoesWell, IsAttempted, Roots;
    var next := if more == [] then rounds else rounds + [more];
    assert forall i :: 0 <= i < |rounds| ==> next[i] == rounds[i];
    assert more != [] ==> next[|rounds|] == more;
  }

  /** All rounds: first those the steps left, order by order, then what their callbacks left, until nothing is. */
  method RunRounds(queue: seq<seq<PostAction>>, b: Books, concurrency: nat, ghost plan: map<Id, Step>, ghost bound: nat)
    returns (b': Books, ghost log: seq<Attempt>)
    requires Follows(b, plan, bound)
    ensures b' == Replay(b, log) && IsLog(b, log)
    ensures forall a :: IsQueued(queue, a) ==> IsAttempted(log, a)
    ensures forall a :: IsAttempted(log, a) ==> IsLeftBy(Roots(queue), a)
    ensures AllQueuedGoWell(queue, b) ==> b' == b
  {
    b', log := b, [];
    var rounds, index := queue, 0;
    RoundsStart(queue, b);
    while index < |rounds|
      invariant Follows(b', plan, bound)
      invariant RoundsInv(queue, rounds, index, b, b', log)
      decreases TotalLoad(rounds[index..]), |rounds| - index
    {
      var next, more;
      ghost var log';
      next, more, log' := RunRound(rounds[index], b', concurrency, plan, bound, b, log, Roots(queue));
      RoundsNext(queue, rounds, index, b, b', log, next, log', more);
      if more != [] {
        rounds := rounds + [more];
      }
      b', log, index := next, log', index + 1;
    }
    forall a | IsQueued(queue, a)
      ensures IsAttempted(log, a)
    {
      var i :| 0 <= i < |queue| && a in queue[i];
      assert a in rounds[i];
    }
  }

  // ---------------------------------------------------------------------------------
  // How a failure spreads

  /** What failed stays failed. */
  lemma {:induction false} FailedStays(b: Books, log: seq<Attempt>, k: nat, x: Id)
    requires k <= |log| && x in Replay(b, log[..k]).failed && x !in Replay(b, log[..k]).succeeded
    ensures x in Replay(b, log).failed && x !in Replay(b, log).succeeded
    decreases |log|
  {
    if k < |log| {
      assert log[..|log| - 1][..k] == log[..k];
      FailedStays(b, log[..|log| - 1], k, x);
    } else {
      assert log[..k] == log;
    }
  }

  lemma FailedAtEnd(b: Books, log: seq<Attempt>, i: nat)
    requires i < |log| && !log[i].ok
    ensures
      var x := log[i].action.id;
      x in Replay(b, log[..i + 1]).failed && x !in Replay(b, log[..i + 1]).succeeded
  {
    var upTo := log[..i + 1];
    assert upTo[..|upTo| - 1] == log[..i] && upTo[|upTo| - 1] == log[i];
  }

  /**
   * Once a post action of an entry failed or was skipped, none that starts later runs: of the same entry, of one that
   * succeeded and depends on it along entries that did, or of one it depends on that asks for its dependents.
   */
  lemma FailureSpreads(b: Books, log: seq<Attempt>, i: nat, k: nat)
    requires IsLog(b, log) && i < |log| && k < |log| && !log[i].ok && i < log[k].seen
    ensures
      var now, x, a := Replay(b, log[..log[k].seen]), log[i].action.id, log[k].action;
      && (a.id == x ==> !log[k].ok)
      && (a.id in now.succeeded && x in a.entry.dependencies ==> !log[k].ok)
      && (a.id in now.succeeded &&
          (exists q :: Chain(Graph(now.succeeded), q) && q[0] in a.entry.dependencies && q[|q| - 1] == x) ==>
            !log[k].ok)
      && (a.callback.requireDependents && (exists q :: IsClimb(Kept(now), q, a.id, x)) ==> !log[k].ok)
  {
    var seen, x, a := log[k].seen, log[i].action.id, log[k].action;
    assert GoesAsSeen(b, log[..k], log[k]) && log[..k][..seen] == log[..seen];
    FailedAtEnd(b, log, i);
    assert log[..seen][..i + 1] == log[..i + 1];
    FailedStays(b, log[..seen], i + 1, x);
    hide Replay, IsLog;
    var now := Replay(b, log[..seen]);
    assert Chain(Graph(now.succeeded), [x]);
    if a.id in now.succeeded && x in a.entry.dependencies && MayRun(now, a) {
      assert [x][0] in a.entry.dependencies && [x][|[x]| - 1] in now.succeeded;
    }
  }

  // ---------------------------------------------------------------------------------
  // The state after the rounds

  lemma KeptAfterFailure(b: Books, a: PostAction)
    ensures Kept(Fail(b, a)) == Kept(b)[a.id := a.entry]
  {
  }

  /** A post action of the entry failed or was skipped. */
  ghost predicate HasFailed(log: seq<Attempt>, x: Id) {
    exists i :: 0 <= i < |log| && !log[i].ok && log[i].action.id == x
  }

  ghost predicate AllRegistered(job: Job, p: Progress, log: seq<Attempt>) {
    forall i :: 0 <= i < |log| ==> IsRegistered(job, p, log[i].action)
  }

  /** The entries with a failed post action are there as their handlers left them, the others as they were. */
  lemma {:induction false} KeptAfterRounds(job: Job, p: Progress, b: Books, log: seq<Attempt>, x: Id)
    requires AllRegistered(job, p, log)
    ensures
      var s := Kept(Replay(b, log));
      && (x in s <==> x in Kept(b) || HasFailed(log, x))
      && (HasFailed(log, x) ==> x in job.plan && x in job.n.Keys + job.o.Keys && s[x] == PostEntry(job, x))
      && (x in s && !HasFailed(log, x) ==> s[x] == Kept(b)[x])
  {
    if log != [] {
      var init, last := log[..|log| - 1], log[|log| - 1];
      KeptAfterRounds(job, p, b, init, x);
      KeptAfterFailure(Replay(b, init), last.action);
      assert IsRegistered(job, p, last.action);
      assert HasFailed(log, x) <==> HasFailed(init, x) || (!last.ok && last.action.id == x) by {
        assert forall i :: 0 <= i < |init| ==> log[i] == init[i];
        assert log[|log| - 1] == last;
      }
      hide HasFailed, Kept, Fail, PostEntry;
    }
  }

  lemma RegisteredIsNewOrOld(job: Job, p: Progress, s: States, x: Id)
    requires IsJob(job) && p.succeeded.Keys <= job.n.Keys && x in s
    requires x in job.plan && x in job.n.Keys + job.o.Keys && IsCalled(job, p, x) && s[x] == PostEntry(job, x)
    ensures IsNew(job, p, s, x) || IsOld(job, p, s, x)
  {
    assert job.plan[x].action == Delete <==> x !in job.n;
    hide IsOrdered, Blocks;
  }

  lemma RoundsLeaveMix(job: Job, p: Progress, log: seq<Attempt>)
    requires IsOutcome(job, p) && AllRegistered(job, p, log)
    ensures IsMix(job, p, Kept(Replay(Books(p.succeeded, p.failed), log)))
  {
    var b := Books(p.succeeded, p.failed);
    var s := Kept(Replay(b, log));
    assert IsJob(job) && p.succeeded.Keys <= job.n.Keys;
    assert Kept(b) == Saved(p);
    SavedIsMix(job, p);
    hide IsOutcome, IsJob;
    forall x | x in p.succeeded
      ensures x in s
    {
      KeptAfterRounds(job, p, b, log, x);
    }
    forall x | x in s
      ensures IsNew(job, p, s, x) || IsOld(job, p, s, x)
    {
      KeptAfterRounds(job, p, b, log, x);
      if HasFailed(log, x) {
        RegisteredIsNewOrOld(job, p, s, x);
      } else {
        assert IsNew(job, p, Saved(p), x) || IsOld(job, p, Saved(p), x);
      }
      hide Kept, Replay, IsRegistered, PostEntry;
    }
    hide IsNew, IsOld, Kept, Replay, AllRegistered;
  }

  /** Each deletion whose post action failed or was skipped has its dependencies in the state. */
  ghost predicate DeletionsKeepDependencies(log: seq<Attempt>, s: States) {
    forall i :: 0 <= i < |log| && !log[i].ok && log[i].action.action == Delete ==>
      AllIn(log[i].action.entry.dependencies, s)
  }

  lemma RoundsKeepDependencies(job: Job, p: Progress, log: seq<Attempt>, x: Id)
    requires IsOutcome(job, p) && Loadable(job.n) && Loadable(job.o) && AllRegistered(job, p, log)
    requires
      var s := Kept(Replay(Books(p.succeeded, p.failed), log));
      DeletionsKeepDependencies(log, s) && x in s
    ensures HasDependencies(Kept(Replay(Books(p.succeeded, p.failed), log)), x)
  {
    hide IsOutcome, Loadable, Replay, Kept, DeletionsKeepDependencies, AllRegistered;
    var b := Books(p.succeeded, p.failed);
    KeptAfterRounds(job, p, b, log, x);
    if HasFailed(log, x) {
      FailedKeepsDependencies(job, p, log, x);
    } else {
      OtherKeepsDependencies(job, p, log, x);
    }
  }

  lemma OtherKeepsDependencies(job: Job, p: Progress, log: seq<Attempt>, x: Id)
    requires IsOutcome(job, p) && Loadable(job.n) && Loadable(job.o) && AllRegistered(job, p, log)
    requires x in Kept(Replay(Books(p.succeeded, p.failed), log)) && !HasFailed(log, x)
    ensures HasDependencies(Kept(Replay(Books(p.succeeded, p.failed), log)), x)
  {
    var b := Books(p.succeeded, p.failed);
    var s := Kept(Replay(b, log));
    assert Kept(b) == Saved(p);
    hide IsOutcome, Replay, Kept, AllRegistered, HasFailed;
    SavedIsLoadable(job, p);
    KeptAfterRounds(job, p, b, log, x);
    CompleteHas(Saved(p), x);
    forall d | d in s[x].dependencies
      ensures d in s
    {
      KeptAfterRounds(job, p, b, log, d);
    }
  }

  lemma FailedKeepsDependencies(job: Job, p: Progress, log: seq<Attempt>, x: Id)
    requires IsOutcome(job, p) && AllRegistered(job, p, log) && HasFailed(log, x)
    requires
      var s := Kept(Replay(Books(p.succeeded, p.failed), log));
      DeletionsKeepDependencies(log, s) && x in s
    ensures HasDependencies(Kept(Replay(Books(p.succeeded, p.failed), log)), x)
  {
    var b := Books(p.succeeded, p.failed);
    var s := Kept(Replay(b, log));
    KeptAfterRounds(job, p, b, log, x);
    var i :| 0 <= i < |log| && !log[i].ok && log[i].action.id == x;
    assert IsRegistered(job, p, log[i].action);
    if x in job.n {
      RoundsLeaveMix(job, p, log);
      assert IsNew(job, p, s, x) by {
        CalledIsNew(job, p, s, x);
      }
      hide IsOutcome, Replay, Kept, DeletionsKeepDependencies, IsRegistered;
    } else {
      assert log[i].action.action == Delete;
      hide IsOutcome, Replay, Kept, IsRegistered;
    }
  }

  lemma CalledIsNew(job: Job, p: Progress, s: States, x: Id)
    requires IsJob(job) && x in s && x in job.n && x in job.plan
    requires IsCalled(job, p, x) && s[x] == PostEntry(job, x)
    ensures IsNew(job, p, s, x)
  {
    assert job.plan[x].action != Delete;
    hide IsJob, AllIn, IsUnchanged;
  }

  /**
   * After any attempts of post actions, in any order and interleaving: the state can be loaded if and only if each
   * deletion whose post action failed or was skipped has its dependencies in it.
   */
  lemma RoundsAreLoadable(job: Job, p: Progress, log: seq<Attempt>)
    requires IsOutcome(job, p) && Loadable(job.n) && Loadable(job.o) && AllRegistered(job, p, log)
    ensures
      var s := Kept(Replay(Books(p.succeeded, p.failed), log));
      Loadable(s) <==> DeletionsKeepDependencies(log, s)
  {
    var b := Books(p.succeeded, p.failed);
    var s := Kept(Replay(b, log));
    RoundsLeaveMix(job, p, log);
    MixIsAcyclic(job, p, s);
    if DeletionsKeepDependencies(log, s) {
      forall x | x in s
        ensures HasDependencies(s, x)
      {
        RoundsKeepDependencies(job, p, log, x);
      }
      hide IsOutcome, IsMix, Acyclic, Kept, Replay, DeletionsKeepDependencies;
    } else if Complete(Graph(s)) {
      var i :|
        0 <= i < |log| && !log[i].ok && log[i].action.action == Delete && !AllIn(log[i].action.entry.dependencies, s);
      var x := log[i].action.id;
      KeptAfterRounds(job, p, b, log, x);
      assert HasFailed(log, x);
      hide IsOutcome, IsMix, Acyclic, Kept, Replay;
      assert IsRegistered(job, p, log[i].action);
      CompleteHas(s, x);
    }
  }

  // ---------------------------------------------------------------------------------
  // A state that is lost

  /** A failed post action after which no deploy can plan over the state. */
  ghost predicate LeavesNotLoadable(job: Job, p: Progress, log: seq<Attempt>) {
    && IsOutcome(job, p) && Loadable(job.n) && Loadable(job.o)
    && AllRegistered(job, p, log) && IsLog(Books(p.succeeded, p.failed), log)
    && var s := Kept(Replay(Books(p.succeeded, p.failed), log));
       !Loadable(s) && forall handlers :: !Plannable(map[], s, handlers)
  }

  /**
   * Two entries are deleted, first the one that depends on the other; then the post action of the first fails,
   * which brings it back without the other. No deploy can plan over that state.
   */
  lemma FailedDeletionIsNotLoadable()
    ensures exists job, p, log :: LeavesNotLoadable(job, p, log)
  {
    hide LeavesNotLoadable;
    var job, p, log := LostDependency();
  }

  lemma LostDependency() returns (job: Job, p: Progress, log: seq<Attempt>)
    ensures LeavesNotLoadable(job, p, log)
  {
    var first, second := Entry("kind", ["b"], "", None), Entry("kind", [], "", None);
    var o: States := map["a" := first, "b" := second];
    var plan := map["a" := Step(Delete, "a", 0, None), "b" := Step(Delete, "b", 1, None)];
    job := Job(map[], o, plan, _ => Done(None), false);
    p := Progress(map[], map[], map[]);
    var a := PostAction(Delete, "a", first, Callback(false, false, []));
    log := [Attempt(a, 0, false)];
    var b := Books(p.succeeded, p.failed);
    ExampleIsJob(job);
    ExampleIsLoadable(o);
    AllDeleted(job);
    AttemptFails(job, p, a);
    hide IsOutcome, IsJob, Loadable, Plannable, IsRegistered, Replay, IsLog, AllRegistered;
    NothingPlans(Kept(Fail(b, a)), first);
  }

  /** When everything is deleted without problems, nothing is kept. */
  lemma AllDeleted(job: Job)
    requires IsJob(job) && job.n == map[] && forall x :: job.outcome(x).Done?
    ensures IsOutcome(job, Progress(map[], map[], map[])) && Loadable(job.n)
  {
    hide IsOrdered;
    var p := Progress(map[], map[], map[]);
    forall x | x in job.plan
      ensures Holds(p, x, Expected(job, p, x))
    {
      assert !Blocks(p.failed, x);
    }
  }

  lemma AttemptFails(job: Job, p: Progress, a: PostAction)
    requires IsJob(job) && p == Progress(map[], map[], map[]) && a.id in job.o && a.id !in job.n && !a.callback.ends
    requires a.action == Delete && job.outcome(a.id).Done? && a.entry == job.o[a.id]
    ensures
      var b, log := Books(p.succeeded, p.failed), [Attempt(a, 0, false)];
      AllRegistered(job, p, log) && IsLog(b, log) && Replay(b, log) == Fail(b, a)
  {
    assert job.plan[a.id].action == Delete;
    hide IsOrdered, MayRun;
    var log := [Attempt(a, 0, false)];
    assert log[..0] == [];
  }

  lemma NothingPlans(s: States, entry: Entry)
    requires s == map["a" := entry] && entry.dependencies == ["b"]
    ensures !Loadable(s) && forall handlers :: !Plannable(map[], s, handlers)
  {
    assert "b" in entry.dependencies;
    assert "b" in Graph(s)["a"] && "b" !in s;
    assert Combined(map[], s) == s;
  }

  lemma ExampleIsJob(job: Job)
    requires job.n == map[]
    requires job.o == map["a" := Entry("kind", ["b"], "", None), "b" := Entry("kind", [], "", None)]
    requires job.plan == map["a" := Step(Delete, "a", 0, None), "b" := Step(Delete, "b", 1, None)]
    ensures IsJob(job)
  {
    assert job.plan.Keys == {"a", "b"} == job.o.Keys;
    assert HasOrder(job.plan, 0) by {
      assert job.plan["a"].order == 0;
    }
  }

  lemma ExampleIsLoadable(o: States)
    requires o == map["a" := Entry("kind", ["b"], "", None), "b" := Entry("kind", [], "", None)]
    ensures Loadable(o)
  {
    var g, level := Graph(o), map["a" := 1, "b" := 0];
    assert g["a"] == {"b"} && g["b"] == {};
    assert WaitsForLevel(g, level, "a", 0);
    LayeredIsAcyclic(g, level);
  }
}
