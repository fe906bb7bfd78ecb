/** Planning a deploy: the steps from the old state to the new one, in an order their dependencies allow. */
module StatePlan {
  import opened Common
  import opened Layers

  datatype Entry = Entry(kind: string, dependencies: seq<Id>, parameters: string, result: Option<string>)

  type States = map<Id, Entry>

  datatype Action = Create | Replace | Update | Delete

  /** A step; of its preview only the number of changes matters. */
  datatype Step = Step(action: Action, id: Id, order: nat, preview: Option<int>)

  /** What a plan asks the handler of a kind. The preview is given the dependencies of the entry. */
  datatype Handler = Handler(equals: (Entry, Entry) -> bool, preview: (Entry, Entry, seq<Entry>) -> Option<int>)

  type Handlers = map<string, Handler>

  datatype PlanError = EntriesNotFound | HandlerNotFound(id: Id) | CorruptedReferences | DependencyNotFound(id: Id)

  /** The ids of the dependencies of each entry. */
  function Graph(s: States): Needs {
    map x | x in s :: set d | d in s[x].dependencies
  }

  /** Every dependency exists and none is circular. */
  ghost predicate Loadable(s: States) {
    Complete(Graph(s)) && Acyclic(Graph(s))
  }

  function Ids(ids: seq<Id>): set<Id> {
    set x | x in ids
  }

  /** The ids not visited yet that wait for visited ones only. */
  function FindPending(ids: seq<Id>, waits: map<Id, seq<Id>>, visited: set<Id>): (r: seq<Id>)
    requires forall x :: x in ids ==> x in waits
    ensures forall x :: x in r <==> x in ids && x !in visited && forall d :: d in waits[x] ==> d in visited
    ensures Distinct(ids) ==> Distinct(r)
  {
    if ids == [] then []
    else
      var init, last := ids[..|ids| - 1], ids[|ids| - 1];
      assert ids == init + [last];
      var rest := FindPending(init, waits, visited);
      if last !in visited && forall d :: d in waits[last] ==> d in visited then rest + [last] else rest
  }

  // ---------------------------------------------------------------------------------
  // Creation

  function Dependencies(s: States): map<Id, seq<Id>> {
    map x | x in s :: s[x].dependencies
  }

  predicate Handled(n: States, handlers: Handlers) {
    forall x :: x in n ==> n[x].kind in handlers
  }

  function ActionFor(n: States, o: States, handlers: Handlers, id: Id): Action
    requires id in n && n[id].kind in handlers
  {
    if id !in o then Create
    else if n[id].kind != o[id].kind then Replace
    else if !handlers[n[id].kind].equals(n[id], o[id]) then Replace
    else Update
  }

  /** The entries that lose their result. */
  ghost function Rewritten(n: States, o: States, handlers: Handlers): set<Id> {
    set x | x in n && n[x].kind in handlers && ActionFor(n, o, handlers, x) != Update
  }

  /** The dependencies of an entry, those in `rewritten` without a result. */
  function Shown(n: States, rewritten: set<Id>, dependencies: seq<Id>): seq<Entry>
    requires forall d :: d in dependencies ==> d in n
  {
    seq(|dependencies|, i requires 0 <= i < |dependencies| =>
      var entry := n[dependencies[i]];
      if dependencies[i] in rewritten then entry.(result := None) else entry)
  }

  ghost predicate HasDependencies(n: States, id: Id) {
    id in n && forall d :: d in n[id].dependencies ==> d in n
  }

  /** The step of an entry: its preview sees no result of anything that the plan creates or replaces. */
  ghost function StepFor(n: States, o: States, handlers: Handlers, id: Id, order: nat): Step
    requires HasDependencies(n, id) && n[id].kind in handlers
  {
    var preview :=
      if id !in o || n[id].kind != o[id].kind then None
      else handlers[n[id].kind].preview(n[id], o[id], Shown(n, Rewritten(n, o, handlers), n[id].dependencies));
    Step(ActionFor(n, o, handlers, id), id, order, preview)
  }

  /** Everything an entry depends on was visited. */
  ghost predicate IsFree(n: States, id: Id, visited: set<Id>) {
    id in n && forall d :: d in n[id].dependencies ==> d in visited
  }

  ghost predicate AreFree(n: States, ids: seq<Id>, visited: set<Id>) {
    forall x :: x in ids ==> IsFree(n, x, visited)
  }

  predicate AreHandled(n: States, ids: seq<Id>, handlers: Handlers) {
    forall x :: x in ids ==> x in n && n[x].kind in handlers
  }

  /** The steps of the entries, in their order. */
  ghost predicate AreStepsOf(steps: seq<Step>, ids: seq<Id>, n: States, o: States, handlers: Handlers, order: nat) {
    |steps| == |ids| && forall i :: 0 <= i < |ids| ==>
      HasDependencies(n, ids[i]) && n[ids[i]].kind in handlers && steps[i] == StepFor(n, o, handlers, ids[i], order)
  }

  /** The steps of one layer. */
  method PlanPendingChanges(
    ids: seq<Id>, visited: set<Id>, rewritten: set<Id>, n: States, o: States, handlers: Handlers, order: nat
  ) returns (r: Result<seq<Step>, PlanError>, visited': set<Id>, rewritten': set<Id>)
    requires visited <= n.Keys
    requires rewritten == Rewritten(n, o, handlers) * visited
    requires AreFree(n, ids, visited)
    ensures r.Ok? <==> AreHandled(n, ids, handlers)
    ensures r.Ok? ==>
      && visited' == visited + Ids(ids)
      && rewritten' == Rewritten(n, o, handlers) * visited'
      && AreStepsOf(r.value, ids, n, o, handlers, order)
  {
    visited', rewritten' := visited, rewritten;
    var steps := [];
    assert Ids(ids[..0]) == {};
    assert AreStepsOf([], ids[..0], n, o, handlers, order);
    hide StepFor, ActionFor, IsFree, HasDependencies, Rewritten, AreStepsOf, Ids;
    for k := 0 to |ids|
      invariant visited' == visited + Ids(ids[..k])
      invariant rewritten' == Rewritten(n, o, handlers) * visited'
      invariant AreHandled(n, ids[..k], handlers)
      invariant AreStepsOf(steps, ids[..k], n, o, handlers, order)
    {
      var id := ids[k];
      assert ids[..k + 1] == ids[..k] + [id];
      assert id in ids && IsFree(n, id, visited);
      FreeIs(n, id, visited);
      if n[id].kind !in handlers {
        return Err(HandlerNotFound(id)), visited', rewritten';
      }
      var step, isRewritten := PlanChange(id, visited, rewritten', n, o, handlers, order);
      RewrittenNext(n, o, handlers, id, visited');
      StepsNext(steps, ids[..k], n, o, handlers, order, step, id);
      visited' := visited' + {id};
      if isRewritten {
        rewritten' := rewritten' + {id};
      }
      steps := steps + [step];
    }
    assert ids[..|ids|] == ids;
    r := Ok(steps);
  }

  lemma StepsNext(
    steps: seq<Step>, ids: seq<Id>, n: States, o: States, handlers: Handlers, order: nat, step: Step, id: Id
  )
    requires AreStepsOf(steps, ids, n, o, handlers, order) && HasDependencies(n, id) && n[id].kind in handlers
    requires step == StepFor(n, o, handlers, id, order)
    ensures AreStepsOf(steps + [step], ids + [id], n, o, handlers, order)
    ensures Ids(ids + [id]) == Ids(ids) + {id}
  {
    hide StepFor, HasDependencies;
  }

  lemma FreeIs(n: States, id: Id, visited: set<Id>)
    requires IsFree(n, id, visited) && visited <= n.Keys
    ensures HasDependencies(n, id) && id in n
  {
  }

  lemma RewrittenNext(n: States, o: States, handlers: Handlers, id: Id, visited: set<Id>)
    requires id in n && n[id].kind in handlers
    ensures Rewritten(n, o, handlers) * (visited + {id}) ==
      Rewritten(n, o, handlers) * visited + if ActionFor(n, o, handlers, id) != Update then {id} else {}
  {
  }

  /** The step of one entry, and whether it loses its result. */
  method PlanChange(
    id: Id, ghost visited: set<Id>, rewritten: set<Id>, n: States, o: States, handlers: Handlers, order: nat
  ) returns (step: Step, isRewritten: bool)
    requires HasDependencies(n, id) && n[id].kind in handlers && IsFree(n, id, visited) && visited <= n.Keys
    requires forall x :: x in visited ==> (x in rewritten <==> x in Rewritten(n, o, handlers))
    ensures step == StepFor(n, o, handlers, id, order)
    ensures isRewritten <==> ActionFor(n, o, handlers, id) != Update
  {
    hide Rewritten;
    if id !in o {
      return Step(Create, id, order, None), true;
    }
    if n[id].kind != o[id].kind {
      return Step(Replace, id, order, None), true;
    }
    var handler := handlers[n[id].kind];
    var shown := Shown(n, rewritten, n[id].dependencies);
    assert shown == Shown(n, Rewritten(n, o, handlers), n[id].dependencies);
    var preview := handler.preview(n[id], o[id], shown);
    if !handler.equals(n[id], o[id]) {
      return Step(Replace, id, order, preview), true;
    }
    return Step(Update, id, order, preview), false;
  }

  // The steps of a list by entry

  ghost predicate DistinctSteps(steps: seq<Step>) {
    forall i, j :: 0 <= i < j < |steps| ==> steps[i].id != steps[j].id
  }

  ghost predicate HasStep(steps: seq<Step>, x: Id) {
    exists i :: 0 <= i < |steps| && steps[i].id == x
  }

  /** The list holds the steps, each once. */
  ghost predicate ListsSteps(steps: seq<Step>, plan: map<Id, Step>) {
    && DistinctSteps(steps)
    && (forall x :: x in plan ==> HasStep(steps, x))
    && (forall i :: 0 <= i < |steps| ==> steps[i].id in plan && plan[steps[i].id] == steps[i])
  }

  lemma ListsTogether(a: seq<Step>, p: map<Id, Step>, b: seq<Step>, q: map<Id, Step>)
    requires ListsSteps(a, p) && ListsSteps(b, q) && p.Keys !! q.Keys
    ensures ListsSteps(a + b, p + q)
  {
    var all := a + b;
    forall i | 0 <= i < |all|
      ensures all[i].id in p + q && (p + q)[all[i].id] == all[i]
    {
      assert all[i] == if i < |a| then a[i] else b[i - |a|];
    }
    forall i, j | 0 <= i < j < |all|
      ensures all[i].id != all[j].id
    {
      assert i < |a| <= j ==> a[i].id in p && b[j - |a|].id in q;
    }
    forall x | x in p + q
      ensures HasStep(all, x)
    {
      if x in p {
        var i :| 0 <= i < |a| && a[i].id == x;
        assert all[i].id == x;
      } else {
        var i :| 0 <= i < |b| && b[i].id == x;
        assert all[|a| + i].id == x;
      }
    }
  }

  lemma ListsLayer(steps: seq<Step>, ids: seq<Id>, plan: map<Id, Step>)
    requires Distinct(ids) && |steps| == |ids| && plan.Keys == Ids(ids)
    requires forall i :: 0 <= i < |ids| ==> ids[i] in plan && plan[ids[i]] == steps[i] && steps[i].id == ids[i]
    ensures ListsSteps(steps, plan)
  {
    forall x | x in plan
      ensures HasStep(steps, x)
    {
      assert x in ids;
      var i :| 0 <= i < |ids| && ids[i] == x;
      assert steps[i].id == x;
    }
  }

  ghost predicate AreCreatable(n: States, handlers: Handlers, ids: set<Id>) {
    forall x :: x in ids ==> HasDependencies(n, x) && n[x].kind in handlers
  }

  /** The steps of new entries, each at its level. */
  ghost function Creations(n: States, o: States, handlers: Handlers, level: map<Id, nat>): map<Id, Step>
    requires AreCreatable(n, handlers, level.Keys)
  {
    map x | x in level :: StepFor(n, o, handlers, x, level[x])
  }

  lemma MoreCreations(
    steps: seq<Step>, more: seq<Step>, ids: seq<Id>, n: States, o: States, handlers: Handlers,
    level: map<Id, nat>, order: nat
  )
    requires AreCreatable(n, handlers, level.Keys) && ListsSteps(steps, Creations(n, o, handlers, level))
    requires Distinct(ids) && Ids(ids) !! level.Keys && AreStepsOf(more, ids, n, o, handlers, order)
    ensures AreCreatable(n, handlers, AddLayer(level, Ids(ids), order).Keys)
    ensures ListsSteps(steps + more, Creations(n, o, handlers, AddLayer(level, Ids(ids), order)))
  {
    var layer := AddLayer(map[], Ids(ids), order);
    var before := Creations(n, o, handlers, level);
    LayerOfCreations(more, ids, n, o, handlers, order);
    hide ListsSteps, AreStepsOf, Distinct, AreCreatable;
    ListsTogether(steps, before, more, Creations(n, o, handlers, layer));
    CreationsGrow(n, o, handlers, level, Ids(ids), order);
  }

  lemma CreationsGrow(n: States, o: States, handlers: Handlers, level: map<Id, nat>, layer: set<Id>, order: nat)
    requires layer !! level.Keys && AreCreatable(n, handlers, level.Keys)
    requires AreCreatable(n, handlers, AddLayer(map[], layer, order).Keys)
    ensures AreCreatable(n, handlers, AddLayer(level, layer, order).Keys)
    ensures Creations(n, o, handlers, AddLayer(level, layer, order))
         == Creations(n, o, handlers, level) + Creations(n, o, handlers, AddLayer(map[], layer, order))
  {
    assert AddLayer(map[], layer, order).Keys == layer;
    assert AddLayer(level, layer, order).Keys == level.Keys + layer;
    assert AreCreatable(n, handlers, AddLayer(level, layer, order).Keys);
    hide StepFor, AreCreatable;
    var a := Creations(n, o, handlers, AddLayer(level, layer, order));
    var b := Creations(n, o, handlers, level) + Creations(n, o, handlers, AddLayer(map[], layer, order));
    assert a.Keys == level.Keys + layer == b.Keys;
    forall x | x in a
      ensures a[x] == b[x]
    {
      assert x in layer <==> x !in level;
    }
  }

  lemma LayerOfCreations(steps: seq<Step>, ids: seq<Id>, n: States, o: States, handlers: Handlers, order: nat)
    requires Distinct(ids) && AreStepsOf(steps, ids, n, o, handlers, order)
    ensures AreCreatable(n, handlers, AddLayer(map[], Ids(ids), order).Keys)
    ensures ListsSteps(steps, Creations(n, o, handlers, AddLayer(map[], Ids(ids), order)))
  {
    var layer := AddLayer(map[], Ids(ids), order);
    assert layer.Keys == Ids(ids);
    var now := Creations(n, o, handlers, layer);
    forall i | 0 <= i < |ids|
      ensures ids[i] in now && now[ids[i]] == steps[i] && steps[i].id == ids[i]
    {
      assert ids[i] in ids;
    }
    hide AreStepsOf, StepFor;
    ListsLayer(steps, ids, now);
  }

  /** The lists hold what the nodes of the graph wait for. */
  ghost predicate IsGraphOf(g: Needs, waits: map<Id, seq<Id>>) {
    forall x :: x in g ==> x in waits && Ids(waits[x]) == g[x]
  }

  lemma PendingIsReady(ids: seq<Id>, waits: map<Id, seq<Id>>, g: Needs, visited: set<Id>)
    requires Lists(ids, g.Keys) && IsGraphOf(g, waits)
    ensures
      var pending := FindPending(ids, waits, visited);
      && Distinct(pending)
      && Ids(pending) == Ready(g, visited)
      && (pending == [] <==> Ids(pending) == {})
      && Ids(pending) <= g.Keys - visited
  {
    var pending := FindPending(ids, waits, visited);
    assert pending != [] ==> pending[0] in Ids(pending);
    forall x | x in ids
      ensures x in pending <==> x in Ready(g, visited)
    {
      assert Ids(waits[x]) == g[x];
    }
  }

  lemma PendingAreFree(ids: seq<Id>, n: States, visited: set<Id>)
    requires Lists(ids, n.Keys)
    ensures AreFree(n, FindPending(ids, Dependencies(n), visited), visited)
  {
    forall x | x in FindPending(ids, Dependencies(n), visited)
      ensures IsFree(n, x, visited)
    {
      assert Dependencies(n)[x] == n[x].dependencies;
    }
  }

  lemma CreatableIsHandled(n: States, handlers: Handlers)
    requires AreCreatable(n, handlers, n.Keys)
    ensures Handled(n, handlers)
  {
  }

  lemma HandledLayer(n: States, ids: seq<Id>, handlers: Handlers)
    requires Handled(n, handlers) && Ids(ids) <= n.Keys
    ensures AreHandled(n, ids, handlers)
  {
  }

  lemma CreationStarts(n: States, o: States, handlers: Handlers)
    ensures Graph(n).Keys == n.Keys && IsGraphOf(Graph(n), Dependencies(n))
    ensures Layered(Graph(n), map[], 0)
    ensures AreCreatable(n, handlers, {}) && ListsSteps([], Creations(n, o, handlers, map[]))
  {
  }

  method PlanCreation(ids: seq<Id>, n: States, o: States, handlers: Handlers)
    returns (r: Result<seq<Step>, PlanError>, visited: set<Id>, orders: nat, ghost level: map<Id, nat>)
    requires Lists(ids, n.Keys)
    ensures r.Ok? <==> Handled(n, handlers) && Loadable(n)
    ensures r.Ok? ==>
      && visited == n.Keys
      && Layering(Graph(n), level) && Layered(Graph(n), level, orders)
      && AreCreatable(n, handlers, level.Keys) && ListsSteps(r.value, Creations(n, o, handlers, level))
  {
    var steps := [];
    var rewritten := {};
    visited, orders, level := {}, 0, map[];
    hide Ready, FindPending, Ids, Layering, Layered, AreCreatable, ListsSteps, Creations, Rewritten, StepFor, AddLayer,
         Lists, Complete, Acyclic, Distinct, AreFree, AreHandled, AreStepsOf, Handled, Graph, Dependencies, IsGraphOf;
    CreationStarts(n, o, handlers);
    while true
      invariant visited == level.Keys <= n.Keys
      invariant Layered(Graph(n), level, orders)
      invariant rewritten == Rewritten(n, o, handlers) * visited
      invariant AreCreatable(n, handlers, level.Keys) && ListsSteps(steps, Creations(n, o, handlers, level))
      decreases n.Keys - visited
    {
      var pending := FindPending(ids, Dependencies(n), visited);
      PendingIsReady(ids, Dependencies(n), Graph(n), visited);
      PendingAreFree(ids, n, visited);
      if pending == [] {
        break;
      }
      var next;
      ghost var before := visited;
      next, visited, rewritten := PlanPendingChanges(pending, visited, rewritten, n, o, handlers, orders);
      if next.Err? {
        if Handled(n, handlers) {
          HandledLayer(n, pending, handlers);
        }
        r := Err(next.error);
        return;
      }
      MoreCreations(steps, next.value, pending, n, o, handlers, level, orders);
      NextLayer(Graph(n), level, orders);
      level := AddLayer(level, Ready(Graph(n), before), orders);
      steps, orders := steps + next.value, orders + 1;
    }
    LastLayer(Graph(n), level, orders);
    ListLength(ids, n.Keys);
    SubsetSize(visited, n.Keys);
    if |ids| != |visited| {
      return Err(CorruptedReferences), visited, orders, level;
    }
    CreatableIsHandled(n, handlers);
    r := Ok(steps);
  }

  lemma {:induction false} SubsetSize(a: set<Id>, b: set<Id>)
    requires a <= b
    ensures |a| == |b| <==> a == b
  {
    if a != {} {
      var x :| x in a;
      SubsetSize(a - {x}, b - {x});
      assert a == (a - {x}) + {x} && b == (b - {x}) + {x};
    }
  }

  // ---------------------------------------------------------------------------------
  // Removal

  /** The known dependents, as pairs of a dependent and what it depends on. */
  ghost predicate Hydrated(keys: seq<Id>, dependents: map<Id, seq<Id>>, edges: set<(Id, Id)>) {
    && Lists(keys, dependents.Keys)
    && forall x, y :: (y, x) in edges <==> x in dependents && y in dependents[x]
  }

  function EdgesTo(id: Id, dependencies: seq<Id>): set<(Id, Id)> {
    set d | d in dependencies :: (id, d)
  }

  function EdgesFrom(s: States, ids: seq<Id>): set<(Id, Id)> {
    set y, d | y in ids && y in s && d in s[y].dependencies :: (y, d)
  }

  method HydrateEntry(s: States, id: Id, keys: seq<Id>, dependents: map<Id, seq<Id>>, ghost edges: set<(Id, Id)>)
    returns (r: Option<PlanError>, keys': seq<Id>, dependents': map<Id, seq<Id>>)
    requires id in s && dependents.Keys <= s.Keys && Hydrated(keys, dependents, edges)
    ensures r.None? <==> HasDependencies(s, id)
    ensures r.None? ==>
      && Hydrated(keys', dependents', edges + EdgesTo(id, s[id].dependencies))
      && dependents'.Keys == dependents.Keys + {id} + Ids(s[id].dependencies)
  {
    keys', dependents' := keys, dependents;
    var dependencies := s[id].dependencies;
    hide Hydrated, EdgesTo, Ids;
    if id !in dependents {
      NoMoreEdges(keys, dependents, edges, id);
    }
    NoEdges(edges, id);
    assert dependencies[..0] == [];
    if id !in dependents' {
      keys', dependents' := keys' + [id], dependents'[id := []];
    }
    for k := 0 to |dependencies|
      invariant Hydrated(keys', dependents', edges + EdgesTo(id, dependencies[..k]))
      invariant dependents'.Keys == dependents.Keys + {id} + Ids(dependencies[..k])
      invariant dependents'.Keys <= s.Keys
    {
      var d := dependencies[k];
      MoreEdges(keys', dependents', edges + EdgesTo(id, dependencies[..k]), id, d);
      EdgesGrow(edges, id, dependencies, k);
      if d in dependents' {
        dependents' := dependents'[d := dependents'[d] + [id]];
      } else {
        if d !in s {
          assert d in dependencies;
          return Some(DependencyNotFound(d)), keys', dependents';
        }
        keys', dependents' := keys' + [d], dependents'[d := [id]];
      }
    }
    assert dependencies[..|dependencies|] == dependencies;
    r := None;
  }

  lemma NoEdges(edges: set<(Id, Id)>, id: Id)
    ensures edges + EdgesTo(id, []) == edges && Ids([]) == {}
  {
  }

  lemma EdgesGrow(edges: set<(Id, Id)>, id: Id, dependencies: seq<Id>, k: nat)
    requires k < |dependencies|
    ensures
      var d := dependencies[k];
      && edges + EdgesTo(id, dependencies[..k + 1]) == edges + EdgesTo(id, dependencies[..k]) + {(id, d)}
      && Ids(dependencies[..k + 1]) == Ids(dependencies[..k]) + {d}
  {
    assert dependencies[..k + 1] == dependencies[..k] + [dependencies[k]];
  }

  lemma NoMoreEdges(keys: seq<Id>, dependents: map<Id, seq<Id>>, edges: set<(Id, Id)>, id: Id)
    requires Hydrated(keys, dependents, edges) && id !in dependents
    ensures Hydrated(keys + [id], dependents[id := []], edges)
  {
  }

  lemma MoreEdges(keys: seq<Id>, dependents: map<Id, seq<Id>>, edges: set<(Id, Id)>, id: Id, d: Id)
    requires Hydrated(keys, dependents, edges)
    ensures d in dependents ==> Hydrated(keys, dependents[d := dependents[d] + [id]], edges + {(id, d)})
    ensures d !in dependents ==> Hydrated(keys + [d], dependents[d := [id]], edges + {(id, d)})
  {
    if d in dependents {
      assert dependents[d := dependents[d] + [id]].Keys == dependents.Keys;
    }
  }

  ghost predicate AreDependents(dependents: map<Id, seq<Id>>, s: States) {
    && dependents.Keys == s.Keys
    && forall x, y :: x in s ==> (y in dependents[x] <==> y in s && x in s[y].dependencies)
  }

  lemma AllHydrated(ids: seq<Id>, s: States, keys: seq<Id>, dependents: map<Id, seq<Id>>)
    requires Lists(ids, s.Keys) && dependents.Keys == s.Keys && Hydrated(keys, dependents, EdgesFrom(s, ids))
    requires forall x :: x in ids ==> HasDependencies(s, x)
    ensures Lists(keys, s.Keys) && AreDependents(dependents, s) && Complete(Graph(s))
  {
    forall x | x in s
      ensures Graph(s)[x] <= s.Keys
    {
      assert x in ids && HasDependencies(s, x);
    }
    forall x, y | x in s
      ensures y in dependents[x] <==> y in s && x in s[y].dependencies
    {
      assert (y, x) in EdgesFrom(s, ids) <==> y in dependents[x];
    }
  }

  /** The dependents of each entry, or an error when a dependency does not exist. */
  method HydrateState(ids: seq<Id>, s: States) returns (r: Result<map<Id, seq<Id>>, PlanError>, keys: seq<Id>)
    requires Lists(ids, s.Keys)
    ensures r.Ok? <==> Complete(Graph(s))
    ensures r.Ok? ==>
      && Lists(keys, s.Keys)
      && AreDependents(r.value, s)
  {
    var dependents: map<Id, seq<Id>> := map[];
    keys := [];
    for i := 0 to |ids|
      invariant Hydrated(keys, dependents, EdgesFrom(s, ids[..i]))
      invariant Ids(ids[..i]) <= dependents.Keys <= s.Keys
      invariant forall x :: x in ids[..i] ==> HasDependencies(s, x)
    {
      var id := ids[i];
      assert id in ids;
      var error;
      assert ids[..i + 1] == ids[..i] + [id];
      assert EdgesFrom(s, ids[..i + 1]) == EdgesFrom(s, ids[..i]) + EdgesTo(id, s[id].dependencies);
      hide Hydrated, EdgesTo, EdgesFrom;
      error, keys, dependents := HydrateEntry(s, id, keys, dependents, EdgesFrom(s, ids[..i]));
      if error.Some? {
        if Complete(Graph(s)) {
          CompleteHas(s, id);
        }
        return Err(error.value), keys;
      }
    }
    assert ids[..|ids|] == ids;
    AllHydrated(ids, s, keys, dependents);
    r := Ok(dependents);
  }

  lemma CompleteHas(s: States, id: Id)
    requires id in s && Complete(Graph(s))
    ensures HasDependencies(s, id)
  {
    forall d | d in s[id].dependencies
      ensures d in s
    {
      assert d in Graph(s)[id];
    }
  }

  /** The deletions of old entries, each at its level from `base` on. */
  function Deletions(level: map<Id, nat>, base: nat): map<Id, Step> {
    map x | x in level :: Step(Delete, x, base + level[x], None)
  }

  /** The deletions of one layer. */
  function PlanPendingRemoval(ids: seq<Id>, order: nat): (steps: seq<Step>)
    ensures |steps| == |ids| && forall i :: 0 <= i < |ids| ==> steps[i] == Step(Delete, ids[i], order, None)
  {
    seq(|ids|, i requires 0 <= i < |ids| => Step(Delete, ids[i], order, None))
  }

  lemma MoreDeletions(steps: seq<Step>, ids: seq<Id>, level: map<Id, nat>, base: nat, n: nat)
    requires ListsSteps(steps, Deletions(level, base)) && Distinct(ids) && Ids(ids) !! level.Keys
    ensures ListsSteps(steps + PlanPendingRemoval(ids, base + n), Deletions(AddLayer(level, Ids(ids), n), base))
  {
    var layer := AddLayer(map[], Ids(ids), n);
    var now, more := Deletions(layer, base), PlanPendingRemoval(ids, base + n);
    forall i | 0 <= i < |ids|
      ensures ids[i] in now && now[ids[i]] == more[i]
    {
      assert ids[i] in ids;
    }
    ListsLayer(more, ids, now);
    hide ListsSteps, Distinct, PlanPendingRemoval;
    ListsTogether(steps, Deletions(level, base), more, now);
    DeletionsGrow(level, Ids(ids), base, n);
  }

  lemma DeletionsGrow(level: map<Id, nat>, layer: set<Id>, base: nat, n: nat)
    requires layer !! level.Keys
    ensures Deletions(AddLayer(level, layer, n), base) ==
            Deletions(level, base) + Deletions(AddLayer(map[], layer, n), base)
  {
    var a := Deletions(AddLayer(level, layer, n), base);
    var b := Deletions(level, base) + Deletions(AddLayer(map[], layer, n), base);
    assert a.Keys == level.Keys + layer == b.Keys;
    forall x | x in a
      ensures a[x] == b[x]
    {
      assert x in layer <==> x !in level;
    }
  }

  method PlanRemoval(ids: seq<Id>, waits: map<Id, seq<Id>>, base: nat, ghost g: Needs)
    returns (r: Result<seq<Step>, PlanError>, ghost level: map<Id, nat>)
    requires Lists(ids, g.Keys) && IsGraphOf(g, waits)
    ensures r.Ok? <==> Complete(g) && Acyclic(g)
    ensures r.Ok? ==> Layering(g, level) && ListsSteps(r.value, Deletions(level, base))
  {
    var steps := [];
    var visited: set<Id> := {};
    var orders := 0;
    level := map[];
    assert Layered(g, level, orders) && ListsSteps(steps, Deletions(level, base));
    hide Ready, FindPending, Ids, Layering, Layered, ListsSteps, Deletions, AddLayer, Complete, Acyclic, Distinct,
         PlanPendingRemoval;
    while true
      invariant visited == level.Keys <= g.Keys
      invariant Layered(g, level, orders)
      invariant ListsSteps(steps, Deletions(level, base))
      decreases g.Keys - visited
    {
      var pending := FindPending(ids, waits, visited);
      PendingIsReady(ids, waits, g, visited);
      if pending == [] {
        break;
      }
      MoreDeletions(steps, pending, level, base, orders);
      NextLayer(g, level, orders);
      steps := steps + PlanPendingRemoval(pending, base + orders);
      level := AddLayer(level, Ids(pending), orders);
      visited := visited + Ids(pending);
      orders := orders + 1;
    }
    LastLayer(g, level, orders);
    ListLength(ids, g.Keys);
    SubsetSize(visited, g.Keys);
    if |ids| != |visited| {
      return Err(CorruptedReferences), level;
    }
    r := Ok(steps);
  }

  /** What each entry to remove waits for: the entries to remove that depend on it. */
  function Removals(n: States, o: States): Needs {
    Reversed(Graph(o - n.Keys))
  }

  /** Both states, the new entries over the old ones. */
  function Combined(n: States, o: States): States {
    o + n
  }

  function Without(ids: seq<Id>, s: set<Id>): (r: seq<Id>)
    ensures forall x :: x in r <==> x in ids && x !in s
    ensures Distinct(ids) ==> Distinct(r)
  {
    if ids == [] then []
    else
      var init, last := ids[..|ids| - 1], ids[|ids| - 1];
      assert ids == init + [last];
      if last in s then Without(init, s) else Without(init, s) + [last]
  }

  /**
   * The plan: every entry of the new state is created, replaced or updated at the length of its longest chain
   * of dependencies, and then every other old entry is deleted at the length of its longest chain of dependents.
   */
  ghost predicate IsPlan(
    plan: map<Id, Step>, n: States, o: States, handlers: Handlers, up: map<Id, nat>, down: map<Id, nat>, base: nat
  ) {
    && Layering(Graph(n), up) && Layered(Graph(n), up, base)
    && Layering(Removals(n, o), down)
    && AreCreatable(n, handlers, up.Keys)
    && plan == Creations(n, o, handlers, up) + Deletions(down, base)
  }

  function Given(s: Option<States>): States {
    if s.Some? then s.value else map[]
  }

  /** A plan exists. */
  ghost predicate Plannable(n: States, o: States, handlers: Handlers) {
    && Handled(n, handlers) && Loadable(n)
    && Complete(Graph(Combined(n, o))) && Acyclic(Graph(o - n.Keys))
  }

  // ---------------------------------------------------------------------------------
  // What can be planned

  /** Entries each of which depends on the next, and which come back to the first. */
  ghost predicate IsCircle(s: States, q: seq<Id>) {
    && |q| > 1 && q[0] == q[|q| - 1]
    && forall i :: 0 <= i < |q| - 1 ==> q[i] in s && q[i + 1] in s[q[i]].dependencies
  }

  lemma CirclesAre(s: States)
    ensures Acyclic(Graph(s)) <==> forall q :: !IsCircle(s, q)
  {
    forall q
      ensures IsCircle(s, q) <==> |q| > 1 && Chain(Graph(s), q) && q[0] == q[|q| - 1]
    {
      CircleIsChain(s, q);
    }
    hide IsCircle, Chain;
  }

  lemma CircleIsChain(s: States, q: seq<Id>)
    ensures IsCircle(s, q) <==> |q| > 1 && Chain(Graph(s), q) && q[0] == q[|q| - 1]
  {
  }

  /**
   * A plan exists just when every kind has a handler, every new entry has its dependencies in the new state, every
   * entry to delete has them in one of the two, and neither the new entries nor those to delete have a circle.
   */
  lemma PlannableIs(n: States, o: States, handlers: Handlers)
    ensures Plannable(n, o, handlers) <==>
      && (forall x :: x in n ==> n[x].kind in handlers)
      && (forall x, d :: x in n && d in n[x].dependencies ==> d in n)
      && (forall x, d :: x in o && x !in n && d in o[x].dependencies ==> d in n || d in o)
      && (forall q :: !IsCircle(n, q)) && (forall q :: !IsCircle(o - n.Keys, q))
  {
    CirclesAre(n);
    CirclesAre(o - n.Keys);
    CompleteIs(n);
    if Complete(Graph(n)) {
      CombinedIs(n, o);
    }
    hide Acyclic, IsCircle, Complete, Graph, Combined;
  }

  lemma CombinedIs(n: States, o: States)
    requires forall x, d :: x in n && d in n[x].dependencies ==> d in n
    ensures Complete(Graph(Combined(n, o))) <==>
      forall x, d :: x in o && x !in n && d in o[x].dependencies ==> d in n || d in o
  {
    var all := Combined(n, o);
    CompleteIs(all);
    hide Complete, Graph;
    assert forall x :: x in all <==> x in n || x in o;
    assert forall x :: x in n ==> all[x] == n[x];
    assert forall x :: x in o && x !in n ==> all[x] == o[x];
  }

  lemma CompleteIs(s: States)
    ensures Complete(Graph(s)) <==> forall x, d :: x in s && d in s[x].dependencies ==> d in s
  {
    if Complete(Graph(s)) {
      forall x, d | x in s && d in s[x].dependencies
        ensures d in s
      {
        assert d in Graph(s)[x];
      }
    }
  }

  /** Nothing is missing in a state that can be loaded, and nothing depends on itself. */
  lemma LoadableIs(s: States)
    ensures Loadable(s) <==>
      (forall x, d :: x in s && d in s[x].dependencies ==> d in s) && forall q :: !IsCircle(s, q)
  {
    CirclesAre(s);
    CompleteIs(s);
    hide Acyclic, IsCircle, Complete, Graph;
  }

  lemma DependentsAreRemovals(n: States, o: States, dependents: map<Id, seq<Id>>)
    requires Complete(Graph(n)) && AreDependents(dependents, Combined(n, o))
    ensures IsGraphOf(Removals(n, o), dependents)
    ensures Complete(Removals(n, o))
  {
    hide Removals, AreDependents, Graph, Combined, Complete;
    var g := Removals(n, o);
    forall x | x in g
      ensures x in dependents && Ids(dependents[x]) == g[x] && g[x] <= g.Keys
    {
      RemovedHasDependents(n, o, dependents, x);
    }
    CompleteIf(g);
  }

  lemma CompleteIf(g: Needs)
    requires forall x :: x in g ==> g[x] <= g.Keys
    ensures Complete(g)
  {
  }

  lemma RemovedHasDependents(n: States, o: States, dependents: map<Id, seq<Id>>, x: Id)
    requires Complete(Graph(n)) && AreDependents(dependents, Combined(n, o)) && x in Removals(n, o)
    ensures x in dependents && Ids(dependents[x]) == Removals(n, o)[x] && Removals(n, o)[x] <= Removals(n, o).Keys
  {
    hide Removals, AreDependents, Graph, Combined, Complete;
    DependentIsRemoved(n, o, dependents, x, x);
    forall y
      ensures y in dependents[x] <==> y in Removals(n, o)[x]
      ensures y in Removals(n, o)[x] ==> y in Removals(n, o)
    {
      DependentIsRemoved(n, o, dependents, x, y);
    }
  }

  lemma DependentIsRemoved(n: States, o: States, dependents: map<Id, seq<Id>>, x: Id, y: Id)
    requires Complete(Graph(n)) && AreDependents(dependents, Combined(n, o)) && x in Removals(n, o)
    ensures x in dependents && (y in dependents[x] <==> y in Removals(n, o)[x])
    ensures y in Removals(n, o)[x] ==> y in Removals(n, o)
  {
    if y in n {
      CompleteHas(n, y);
    }
    hide Complete;
  }

  lemma ListsCombined(newIds: seq<Id>, oldIds: seq<Id>, n: States, o: States)
    requires Lists(newIds, n.Keys) && Lists(oldIds, o.Keys)
    ensures Lists(newIds + Without(oldIds, n.Keys), Combined(n, o).Keys)
  {
    var rest := Without(oldIds, n.Keys);
    var all := newIds + rest;
    forall i, j | 0 <= i < j < |all|
      ensures all[i] != all[j]
    {
      if i < |newIds| <= j {
        assert newIds[i] in newIds && rest[j - |newIds|] in rest;
      }
    }
  }

  /** The deletions of the old entries that are not in the new state. */
  method PlanDeletion(newIds: seq<Id>, n: States, oldIds: seq<Id>, o: States, visited: set<Id>, orders: nat)
    returns (r: Result<seq<Step>, PlanError>, ghost down: map<Id, nat>)
    requires Lists(newIds, n.Keys) && Lists(oldIds, o.Keys) && visited == n.Keys && Complete(Graph(n))
    ensures r.Ok? <==> Complete(Graph(Combined(n, o))) && Acyclic(Graph(o - n.Keys))
    ensures r.Ok? ==> Layering(Removals(n, o), down) && ListsSteps(r.value, Deletions(down, orders))
  {
    ListsCombined(newIds, oldIds, n, o);
    hide Layering, Lists, Complete, Acyclic, Graph, IsGraphOf, AreDependents, Without, Combined, ListsSteps, Deletions;
    var hydrated, keys := HydrateState(newIds + Without(oldIds, n.Keys), Combined(n, o));
    down := map[];
    if hydrated.Err? {
      r := Err(hydrated.error);
      return;
    }
    DependentsAreRemovals(n, o, hydrated.value);
    ReversedIsAcyclic(Graph(o - n.Keys));
    ListsRemovals(keys, n, o);
    r, down := PlanRemoval(Without(keys, visited), hydrated.value, orders, Removals(n, o));
  }

  /** The plan, or why there is none. */
  method PlanSteps(
    newIds: seq<Id>, newEntries: Option<States>, oldIds: seq<Id>, oldEntries: Option<States>, handlers: Handlers
  )
    returns (
      r: Result<seq<Step>, PlanError>,
      ghost plan: map<Id, Step>, ghost up: map<Id, nat>, ghost down: map<Id, nat>, ghost base: nat
    )
    requires Lists(newIds, Given(newEntries).Keys) && Lists(oldIds, Given(oldEntries).Keys)
    ensures r.Ok? <==>
      (newEntries.Some? || oldEntries.Some?) && Plannable(Given(newEntries), Given(oldEntries), handlers)
    ensures r.Ok? ==>
      ListsSteps(r.value, plan) && IsPlan(plan, Given(newEntries), Given(oldEntries), handlers, up, down, base)
    ensures r.Ok? ==> PlansAsNeeded(r.value, Given(newEntries), Given(oldEntries), handlers)
  {
    var n, o := Given(newEntries), Given(oldEntries);
    plan, up, down, base := map[], map[], map[], 0;
    if newEntries.None? && oldEntries.None? {
      r := Err(EntriesNotFound);
      return;
    }
    NothingToCreate(o, handlers);
    NothingToRemove(n);
    hide Layering, Layered, AreCreatable, ListsSteps, Creations, Deletions, Handled, Lists, Complete, Acyclic, Graph,
         Removals, IsGraphOf, AreDependents, Without, Combined, Distinct, PlansAsNeeded;
    var creations, removals, visited, orders := [], [], {}, 0;
    if newEntries.Some? {
      var created;
      created, visited, orders, up := PlanCreation(newIds, n, o, handlers);
      if created.Err? {
        r := Err(created.error);
        return;
      }
      creations := created.value;
    }
    base := orders;
    if oldEntries.Some? {
      var removed;
      removed, down := PlanDeletion(newIds, n, oldIds, o, visited, orders);
      if removed.Err? {
        r := Err(removed.error);
        return;
      }
      removals := removed.value;
    }
    r := Ok(creations + removals);
    plan := Creations(n, o, handlers, up) + Deletions(down, base);
    PlanKeys(n, o, handlers, up, down, base);
    ListsTogether(creations, Creations(n, o, handlers, up), removals, Deletions(down, base));
    PlanIsNeeded(plan, n, o, handlers, up, down, base, r.value);
  }

  lemma PlanKeys(n: States, o: States, handlers: Handlers, up: map<Id, nat>, down: map<Id, nat>, base: nat)
    requires Layering(Graph(n), up) && Layering(Removals(n, o), down) && AreCreatable(n, handlers, up.Keys)
    ensures Creations(n, o, handlers, up).Keys == up.Keys == n.Keys
    ensures Deletions(down, base).Keys == down.Keys == o.Keys - n.Keys
  {
  }

  lemma NothingToCreate(o: States, handlers: Handlers)
    ensures Layering(Graph(map[]), map[]) && Layered(Graph(map[]), map[], 0)
    ensures ListsSteps([], Creations(map[], o, handlers, map[]))
    ensures Handled(map[], handlers) && Loadable(map[])
  {
  }

  lemma NothingToRemove(n: States)
    ensures Layering(Removals(n, map[]), map[])
    ensures forall base: nat :: ListsSteps([], Deletions(map[], base))
    ensures Combined(n, map[]) == n && Acyclic(Graph(map[] - n.Keys))
  {
  }

  lemma ListsRemovals(keys: seq<Id>, n: States, o: States)
    requires Lists(keys, Combined(n, o).Keys)
    ensures Lists(Without(keys, n.Keys), Removals(n, o).Keys)
  {
  }

  /** Over an old state that is loadable, there is a plan just when the new one is and its kinds are known. */
  lemma LoadableIsPlannable(n: States, o: States, handlers: Handlers)
    requires Loadable(o)
    ensures Plannable(n, o, handlers) <==> Handled(n, handlers) && Loadable(n)
  {
    if Loadable(n) {
      forall x | x in Combined(n, o)
        ensures Graph(Combined(n, o))[x] <= Combined(n, o).Keys
      {
        if x in n {
          CompleteHas(n, x);
        } else {
          CompleteHas(o, x);
        }
      }
      forall p | Chain(Graph(o - n.Keys), p) && |p| > 1
        ensures p[0] != p[|p| - 1]
      {
        forall i | 0 <= i < |p| - 1
          ensures p[i] in Graph(o) && p[i + 1] in Graph(o)[p[i]]
        {
          assert p[i + 1] in Graph(o - n.Keys)[p[i]];
        }
        assert Chain(Graph(o), p);
      }
    }
  }

  // ---------------------------------------------------------------------------------
  // What a plan orders

  /** Each entry has its step. */
  ghost predicate ActionsFit(steps: map<Id, Step>, n: States, o: States) {
    && steps.Keys == n.Keys + o.Keys
    && forall x :: x in steps ==>
         && steps[x].id == x
         && (steps[x].action == Delete <==> x !in n) && (steps[x].action == Create <==> x !in o)
  }

  ghost predicate IsBefore(steps: map<Id, Step>, x: Id, y: Id) {
    x in steps && y in steps && steps[x].order < steps[y].order
  }

  /** A new entry comes after its dependencies. */
  ghost predicate DependenciesFirst(steps: map<Id, Step>, n: States) {
    forall x, d :: x in n && d in n[x].dependencies ==> d in n && IsBefore(steps, d, x)
  }

  /** Every deletion comes after all new entries. */
  ghost predicate DeletionsLast(steps: map<Id, Step>, n: States, o: States) {
    forall x, y :: x in n && y in o && y !in n ==> IsBefore(steps, x, y)
  }

  /** A deletion comes after the deletions of the entries that depend on it. */
  ghost predicate DependentsFirst(steps: map<Id, Step>, n: States, o: States) {
    forall y, d :: y in o && y !in n && d in o[y].dependencies && d in o && d !in n ==> IsBefore(steps, y, d)
  }

  /** No order is left out. */
  ghost predicate NoGaps(steps: map<Id, Step>) {
    forall x, k :: x in steps && 0 <= k < steps[x].order ==> HasOrder(steps, k)
  }

  ghost predicate IsOrdered(steps: map<Id, Step>, n: States, o: States) {
    && ActionsFit(steps, n, o)
    && DependenciesFirst(steps, n) && DeletionsLast(steps, n, o) && DependentsFirst(steps, n, o)
    && NoGaps(steps)
  }

  ghost predicate HasOrder(steps: map<Id, Step>, k: int) {
    exists x :: x in steps && steps[x].order == k
  }

  lemma CreationOf(n: States, o: States, handlers: Handlers, up: map<Id, nat>, x: Id)
    requires AreCreatable(n, handlers, up.Keys) && x in up
    ensures
      var s := Creations(n, o, handlers, up)[x];
      s.id == x && s.order == up[x] && s.action != Delete && (s.action == Create <==> x !in o)
  {
  }

  /** The step of an entry in a plan. */
  lemma PlanOf(
    plan: map<Id, Step>, n: States, o: States, handlers: Handlers, up: map<Id, nat>, down: map<Id, nat>, base: nat,
    x: Id
  )
    requires IsPlan(plan, n, o, handlers, up, down, base) && x in n.Keys + o.Keys
    ensures x in plan && plan[x].id == x
    ensures if x in n then x in up && plan[x].order == up[x] < base else x in down && plan[x].order == base + down[x]
    ensures (plan[x].action == Delete <==> x !in n) && (plan[x].action == Create <==> x !in o)
  {
    PlanKeys(n, o, handlers, up, down, base);
    if x in n {
      CreationOf(n, o, handlers, up, x);
      assert plan[x] == Creations(n, o, handlers, up)[x];
      hide Creations;
    }
  }

  lemma PlanCovers(
    plan: map<Id, Step>, n: States, o: States, handlers: Handlers, up: map<Id, nat>, down: map<Id, nat>, base: nat
  )
    requires IsPlan(plan, n, o, handlers, up, down, base)
    ensures plan.Keys == n.Keys + o.Keys
  {
    PlanKeys(n, o, handlers, up, down, base);
    hide Creations, Deletions, Layering, Layered, Graph, Removals;
  }

  lemma PlanActionsFit(
    plan: map<Id, Step>, n: States, o: States, handlers: Handlers, up: map<Id, nat>, down: map<Id, nat>, base: nat
  )
    requires IsPlan(plan, n, o, handlers, up, down, base)
    ensures ActionsFit(plan, n, o)
  {
    hide IsPlan;
    PlanCovers(plan, n, o, handlers, up, down, base);
    forall x | x in plan
      ensures plan[x].id == x && (plan[x].action == Delete <==> x !in n) && (plan[x].action == Create <==> x !in o)
    {
      PlanOf(plan, n, o, handlers, up, down, base, x);
    }
  }

  // ---------------------------------------------------------------------------------
  // What a plan does to each entry

  /** The entry is created or replaced, so it will have another result. */
  ghost predicate LosesResult(steps: seq<Step>, x: Id) {
    exists i :: 0 <= i < |steps| && steps[i].id == x && (steps[i].action == Create || steps[i].action == Replace)
  }

  /** The entry is in both states, of one kind. */
  predicate IsKept(n: States, o: States, x: Id) {
    x in n && x in o && n[x].kind == o[x].kind
  }

  /** The handler finds the entry the same in both states. */
  predicate IsEqual(n: States, o: States, handlers: Handlers, x: Id) {
    IsKept(n, o, x) && n[x].kind in handlers && handlers[n[x].kind].equals(n[x], o[x])
  }

  /** The action that the two states call for. */
  ghost predicate ActsAsNeeded(step: Step, n: States, o: States, handlers: Handlers) {
    && (step.action == Create <==> step.id in n && step.id !in o)
    && (step.action == Update <==> IsEqual(n, o, handlers, step.id))
    && (step.action == Replace <==> step.id in n && step.id in o && !IsEqual(n, o, handlers, step.id))
    && (step.action == Delete <==> step.id in o && step.id !in n)
  }

  /** The dependencies of an entry, without the results that the steps take away. */
  ghost predicate AreShown(shown: seq<Entry>, steps: seq<Step>, n: States, dependencies: seq<Id>) {
    && |shown| == |dependencies|
    && forall i :: 0 <= i < |dependencies| ==>
         && dependencies[i] in n
         && shown[i] == if LosesResult(steps, dependencies[i]) then n[dependencies[i]].(result := None)
                        else n[dependencies[i]]
  }

  ghost predicate IsPreviewOf(
    preview: Option<int>, shown: seq<Entry>, steps: seq<Step>, n: States, o: States, handler: Handler, x: Id
  )
    requires x in n && x in o
  {
    AreShown(shown, steps, n, n[x].dependencies) && preview == handler.preview(n[x], o[x], shown)
  }

  /** An entry of one kind in both states is previewed by its handler, and no other one. */
  ghost predicate PreviewsAsNeeded(step: Step, steps: seq<Step>, n: States, o: States, handlers: Handlers) {
    var x := step.id;
    if IsKept(n, o, x) then
      n[x].kind in handlers && exists shown :: IsPreviewOf(step.preview, shown, steps, n, o, handlers[n[x].kind], x)
    else step.preview == None
  }

  /** Each entry of the two states has one step, which is the one they call for, and there are no others. */
  ghost predicate PlansAsNeeded(steps: seq<Step>, n: States, o: States, handlers: Handlers) {
    && DistinctSteps(steps)
    && (forall x :: HasStep(steps, x) <==> x in n || x in o)
    && (forall i :: 0 <= i < |steps| ==>
          ActsAsNeeded(steps[i], n, o, handlers) && PreviewsAsNeeded(steps[i], steps, n, o, handlers))
  }

  lemma StepActs(
    plan: map<Id, Step>, n: States, o: States, handlers: Handlers, up: map<Id, nat>, down: map<Id, nat>, base: nat,
    x: Id
  )
    requires IsPlan(plan, n, o, handlers, up, down, base) && x in n.Keys + o.Keys
    ensures x in plan && plan[x].id == x && ActsAsNeeded(plan[x], n, o, handlers)
    ensures x in n ==> HasDependencies(n, x) && n[x].kind in handlers && plan[x] == StepFor(n, o, handlers, x, up[x])
    ensures x !in n ==> plan[x].preview == None
  {
    PlanKeys(n, o, handlers, up, down, base);
    PlanOf(plan, n, o, handlers, up, down, base, x);
  }

  lemma ActionIs(n: States, o: States, handlers: Handlers, x: Id, order: nat)
    requires HasDependencies(n, x) && n[x].kind in handlers
    ensures
      var action := StepFor(n, o, handlers, x, order).action;
      x in Rewritten(n, o, handlers) <==> action == Create || action == Replace
  {
  }

  lemma LosesIs(steps: seq<Step>, x: Id, step: Step)
    requires DistinctSteps(steps) && step in steps && step.id == x
    ensures LosesResult(steps, x) <==> step.action == Create || step.action == Replace
  {
    var i :| 0 <= i < |steps| && steps[i] == step;
    forall j | 0 <= j < |steps| && j != i
      ensures steps[j].id != x
    {
      if j < i {
        assert steps[j].id != steps[i].id;
      } else {
        assert steps[i].id != steps[j].id;
      }
    }
  }

  lemma LosesIsRewritten(
    plan: map<Id, Step>, n: States, o: States, handlers: Handlers, up: map<Id, nat>, down: map<Id, nat>, base: nat,
    steps: seq<Step>, x: Id
  )
    requires IsPlan(plan, n, o, handlers, up, down, base) && ListsSteps(steps, plan) && x in n
    ensures LosesResult(steps, x) <==> x in Rewritten(n, o, handlers)
  {
    StepActs(plan, n, o, handlers, up, down, base, x);
    hide IsPlan, StepFor, Rewritten, LosesResult, ActsAsNeeded, HasDependencies, DistinctSteps;
    ActionIs(n, o, handlers, x, up[x]);
    assert HasStep(steps, x);
    var i :| 0 <= i < |steps| && steps[i].id == x;
    assert steps[i] == plan[x];
    LosesIs(steps, x, plan[x]);
  }

  lemma ShownAre(steps: seq<Step>, n: States, rewritten: set<Id>, dependencies: seq<Id>)
    requires forall d :: d in dependencies ==> d in n && (LosesResult(steps, d) <==> d in rewritten)
    ensures AreShown(Shown(n, rewritten, dependencies), steps, n, dependencies)
  {
    hide LosesResult;
    forall i | 0 <= i < |dependencies|
      ensures LosesResult(steps, dependencies[i]) <==> dependencies[i] in rewritten
    {
      assert dependencies[i] in dependencies;
    }
  }

  lemma StepForPreviews(steps: seq<Step>, n: States, o: States, handlers: Handlers, x: Id, order: nat)
    requires HasDependencies(n, x) && n[x].kind in handlers
    requires forall d :: d in n[x].dependencies ==> (LosesResult(steps, d) <==> d in Rewritten(n, o, handlers))
    ensures PreviewsAsNeeded(StepFor(n, o, handlers, x, order), steps, n, o, handlers)
  {
    var shown := Shown(n, Rewritten(n, o, handlers), n[x].dependencies);
    ShownAre(steps, n, Rewritten(n, o, handlers), n[x].dependencies);
    hide Rewritten, LosesResult, AreShown, Shown, ActionFor;
    if IsKept(n, o, x) {
      var step := StepFor(n, o, handlers, x, order);
      assert IsPreviewOf(step.preview, shown, steps, n, o, handlers[n[x].kind], x);
    }
  }

  lemma StepPreviews(
    plan: map<Id, Step>, n: States, o: States, handlers: Handlers, up: map<Id, nat>, down: map<Id, nat>, base: nat,
    steps: seq<Step>, x: Id
  )
    requires IsPlan(plan, n, o, handlers, up, down, base) && ListsSteps(steps, plan) && x in n.Keys + o.Keys
    ensures x in plan && PreviewsAsNeeded(plan[x], steps, n, o, handlers)
  {
    StepActs(plan, n, o, handlers, up, down, base, x);
    hide IsPlan, ListsSteps, LosesResult, Rewritten, ActsAsNeeded, StepFor;
    if x in n {
      forall d | d in n[x].dependencies
        ensures LosesResult(steps, d) <==> d in Rewritten(n, o, handlers)
      {
        LosesIsRewritten(plan, n, o, handlers, up, down, base, steps, d);
      }
      hide PreviewsAsNeeded;
      StepForPreviews(steps, n, o, handlers, x, up[x]);
    }
  }

  lemma HasEachStep(steps: seq<Step>, plan: map<Id, Step>)
    requires ListsSteps(steps, plan)
    ensures DistinctSteps(steps) && forall x :: HasStep(steps, x) <==> x in plan
  {
    hide DistinctSteps;
  }

  lemma PlanIsNeeded(
    plan: map<Id, Step>, n: States, o: States, handlers: Handlers, up: map<Id, nat>, down: map<Id, nat>, base: nat,
    steps: seq<Step>
  )
    requires IsPlan(plan, n, o, handlers, up, down, base) && ListsSteps(steps, plan)
    ensures PlansAsNeeded(steps, n, o, handlers)
  {
    HasEachStep(steps, plan);
    PlanCovers(plan, n, o, handlers, up, down, base);
    hide IsPlan, ActsAsNeeded, PreviewsAsNeeded, StepFor, DistinctSteps, HasDependencies, HasStep;
    forall i | 0 <= i < |steps|
      ensures ActsAsNeeded(steps[i], n, o, handlers) && PreviewsAsNeeded(steps[i], steps, n, o, handlers)
    {
      var x := steps[i].id;
      assert plan[x] == steps[i];
      StepActs(plan, n, o, handlers, up, down, base, x);
      StepPreviews(plan, n, o, handlers, up, down, base, steps, x);
    }
    hide ListsSteps;
  }

  /** Planning a state over itself updates every entry and does nothing else, and its previews see every result. */
  lemma SameStateIsUpdated(steps: seq<Step>, s: States, handlers: Handlers)
    requires PlansAsNeeded(steps, s, s, handlers)
    requires forall x :: x in s ==> s[x].kind in handlers && handlers[s[x].kind].equals(s[x], s[x])
    ensures forall i :: 0 <= i < |steps| ==> steps[i].action == Update
    ensures forall i :: 0 <= i < |steps| ==> PreviewsAsNeeded(steps[i], [], s, s, handlers)
  {
    hide DistinctSteps, AreShown, PreviewsAsNeeded;
    forall i | 0 <= i < |steps|
      ensures steps[i].action == Update
    {
      assert HasStep(steps, steps[i].id);
    }
    forall i | 0 <= i < |steps|
      ensures PreviewsAsNeeded(steps[i], [], s, s, handlers)
    {
      UpdatesShowAll(steps, steps[i], s, handlers);
    }
  }

  lemma UpdatesShowAll(steps: seq<Step>, step: Step, s: States, handlers: Handlers)
    requires PreviewsAsNeeded(step, steps, s, s, handlers)
    requires forall i :: 0 <= i < |steps| ==> steps[i].action == Update
    ensures PreviewsAsNeeded(step, [], s, s, handlers)
  {
    var x := step.id;
    if IsKept(s, s, x) {
      var shown :| IsPreviewOf(step.preview, shown, steps, s, s, handlers[s[x].kind], x);
      assert AreShown(shown, [], s, s[x].dependencies);
      assert IsPreviewOf(step.preview, shown, [], s, s, handlers[s[x].kind], x);
    }
  }

  lemma PlanHasDeletionsLast(
    plan: map<Id, Step>, n: States, o: States, handlers: Handlers, up: map<Id, nat>, down: map<Id, nat>, base: nat
  )
    requires IsPlan(plan, n, o, handlers, up, down, base)
    ensures DeletionsLast(plan, n, o)
  {
    hide IsPlan;
    forall x, y | x in n && y in o && y !in n
      ensures IsBefore(plan, x, y)
    {
      PlanOf(plan, n, o, handlers, up, down, base, x);
      PlanOf(plan, n, o, handlers, up, down, base, y);
    }
  }

  /** A plan is in order. */
  lemma PlanIsOrdered(
    plan: map<Id, Step>, n: States, o: States, handlers: Handlers, up: map<Id, nat>, down: map<Id, nat>, base: nat
  )
    requires IsPlan(plan, n, o, handlers, up, down, base)
    ensures IsOrdered(plan, n, o)
  {
    PlanActionsFit(plan, n, o, handlers, up, down, base);
    PlanHasDeletionsLast(plan, n, o, handlers, up, down, base);
    PlanHasDependenciesFirst(plan, n, o, handlers, up, down, base);
    PlanHasDependentsFirst(plan, n, o, handlers, up, down, base);
    PlanHasNoGaps(plan, n, o, handlers, up, down, base);
    hide IsPlan, ActionsFit, DependenciesFirst, DeletionsLast, DependentsFirst, NoGaps;
  }

  lemma PlanHasDependenciesFirst(
    plan: map<Id, Step>, n: States, o: States, handlers: Handlers, up: map<Id, nat>, down: map<Id, nat>, base: nat
  )
    requires IsPlan(plan, n, o, handlers, up, down, base)
    ensures DependenciesFirst(plan, n)
  {
    hide IsPlan;
    forall x, d | x in n && d in n[x].dependencies
      ensures d in n && IsBefore(plan, d, x)
    {
      DependencyIsBelow(plan, n, o, handlers, up, down, base, x, d);
      PlanOf(plan, n, o, handlers, up, down, base, x);
      PlanOf(plan, n, o, handlers, up, down, base, d);
    }
  }

  lemma PlanHasDependentsFirst(
    plan: map<Id, Step>, n: States, o: States, handlers: Handlers, up: map<Id, nat>, down: map<Id, nat>, base: nat
  )
    requires IsPlan(plan, n, o, handlers, up, down, base)
    ensures DependentsFirst(plan, n, o)
  {
    hide IsPlan;
    forall y, d | y in o && y !in n && d in o[y].dependencies && d in o && d !in n
      ensures IsBefore(plan, y, d)
    {
      DependentIsBelow(plan, n, o, handlers, up, down, base, y, d);
      PlanOf(plan, n, o, handlers, up, down, base, y);
      PlanOf(plan, n, o, handlers, up, down, base, d);
    }
  }

  lemma PlanHasNoGaps(
    plan: map<Id, Step>, n: States, o: States, handlers: Handlers, up: map<Id, nat>, down: map<Id, nat>, base: nat
  )
    requires IsPlan(plan, n, o, handlers, up, down, base)
    ensures NoGaps(plan)
  {
    PlanCovers(plan, n, o, handlers, up, down, base);
    hide IsPlan, HasOrder;
    forall x, k | x in plan && 0 <= k < plan[x].order
      ensures HasOrder(plan, k)
    {
      PlanHasOrder(plan, n, o, handlers, up, down, base, x, k);
    }
  }

  lemma DependencyIsBelow(
    plan: map<Id, Step>, n: States, o: States, handlers: Handlers, up: map<Id, nat>, down: map<Id, nat>, base: nat,
    x: Id, d: Id
  )
    requires IsPlan(plan, n, o, handlers, up, down, base) && x in n && d in n[x].dependencies
    ensures d in n && x in up && d in up && up[d] < up[x]
  {
    assert d in Graph(n)[x] && Above(Graph(n), up, x);
  }

  lemma DependentIsBelow(
    plan: map<Id, Step>, n: States, o: States, handlers: Handlers, up: map<Id, nat>, down: map<Id, nat>, base: nat,
    y: Id, d: Id
  )
    requires IsPlan(plan, n, o, handlers, up, down, base)
    requires y in o - n.Keys && d in o[y].dependencies && d in o - n.Keys
    ensures y in down && d in down && down[y] < down[d]
  {
    assert y in Removals(n, o)[d] && Above(Removals(n, o), down, d);
  }

  lemma PlanHasOrder(
    plan: map<Id, Step>, n: States, o: States, handlers: Handlers, up: map<Id, nat>, down: map<Id, nat>, base: nat,
    x: Id, k: nat
  )
    requires IsPlan(plan, n, o, handlers, up, down, base) && x in plan && k < plan[x].order
    ensures HasOrder(plan, k)
  {
    PlanKeys(n, o, handlers, up, down, base);
    PlanOf(plan, n, o, handlers, up, down, base, x);
    var y;
    if k < base {
      assert InUse(up, k);
      y :| y in up && up[y] == k;
    } else {
      LevelsBelow(Removals(n, o), down, x, k - base);
      y :| y in down && down[y] == k - base;
    }
    hide IsPlan;
    PlanOf(plan, n, o, handlers, up, down, base, y);
  }
}
