/**
 * The scope of asynchronous tasks. A task holds references to stores: the one it inherited from the task that
 * spawned it, and a fresh one for each `runWithScope` it is in, innermost last. Writes go through the reference.
 */
module ScopeIsolation {
  import opened Common
  import opened Json
  import opened Records
  import opened Scope

  type Task = nat

  datatype Operation =
    | SetScope(values: Values, headers: Headers)
    | ClearScope
    | ImportScope(traceId: Str, raw: Option<Str>)

  /** What an operation leaves in the store it writes. */
  function Written(op: Operation): ScopeState {
    match op
    case SetScope(values, headers) => ScopeState(Some(values), headers)
    case ClearScope => NO_SCOPE
    case ImportScope(traceId, raw) => ImportedState(traceId, raw)
  }

  /** The stores by reference, the common one, and the references each task holds; none is the common store. */
  datatype Machine<R> = Machine(heap: map<R, ScopeState>, common: ScopeState, frames: map<Task, seq<Option<R>>>) {
    ghost predicate Knows(t: Task) {
      t in frames && frames[t] != []
    }

    /** The reference a task sees through. */
    ghost function Current(t: Task): Option<R>
      requires Knows(t)
    {
      frames[t][|frames[t]| - 1]
    }

    /** `getScopeState` */
    ghost function Seen(t: Task): ScopeState
      requires Knows(t)
    {
      var r := Current(t);
      if r.Some? && r.value in heap then heap[r.value] else common
    }

    ghost function Write(t: Task, s: ScopeState): Machine<R>
      requires Knows(t)
    {
      var r := Current(t);
      if r.Some? && r.value in heap then this.(heap := heap[r.value := s]) else this.(common := s)
    }
  }

  /**
   * A task spawns another, whose continuation inherits its store; it enters `runWithScope`, whose callback gets the
   * fresh store `store`; that call returns; or it writes the scope.
   */
  datatype Event<R> =
    | Spawn(task: Task, child: Task)
    | Enter(task: Task, store: R)
    | Leave(task: Task)
    | Do(task: Task, op: Operation)

  ghost predicate Enabled<R>(m: Machine<R>, e: Event<R>) {
    && m.Knows(e.task)
    && match e
       case Spawn(_, child) => child !in m.frames
       case Enter(_, store) => store !in m.heap
       case Leave(t) => |m.frames[t]| > 1
       case Do(_, _) => true
  }

  ghost function Step<R>(m: Machine<R>, e: Event<R>): Machine<R>
    requires Enabled(m, e)
  {
    match e
    case Spawn(t, child) => m.(frames := m.frames[child := [m.Current(t)]])
    case Enter(t, store) =>
      m.(heap := m.heap[store := NO_SCOPE], frames := m.frames[t := m.frames[t] + [Some(store)]])
    case Leave(t) => m.(frames := m.frames[t := m.frames[t][..|m.frames[t]| - 1]])
    case Do(t, op) => m.Write(t, Written(op))
  }

  /** The task that writes sees what it wrote. */
  lemma SeenAfterWrite<R>(m: Machine<R>, t: Task, op: Operation)
    requires m.Knows(t)
    ensures Enabled(m, Do(t, op)) && Step(m, Do(t, op)).Knows(t)
    ensures op.SetScope? ==> Step(m, Do(t, op)).Seen(t) == ScopeState(Some(op.values), op.headers)
    ensures op.ClearScope? ==> Step(m, Do(t, op)).Seen(t) == ScopeState(None, [])
    ensures op.ImportScope? ==> Step(m, Do(t, op)).Seen(t) == ImportedState(op.traceId, op.raw)
  {
  }

  /** The first task, with the common store. */
  ghost function Start<R>(): Machine<R> {
    Machine(map[], NO_SCOPE, map[0 := [None]])
  }

  /** The machine the events lead to, if they can happen in this order. */
  ghost function After<R>(events: seq<Event<R>>): Option<Machine<R>> {
    if events == [] then Some(Start())
    else
      var before, e := After(events[..|events| - 1]), events[|events| - 1];
      if before.Some? && Enabled(before.value, e) then Some(Step(before.value, e)) else None
  }

  // ---------------------------------------------------------------------------------
  // Which callback a task belongs to

  function Last(calls: seq<Option<nat>>): Option<nat> {
    if calls == [] then None else calls[|calls| - 1]
  }

  /**
   * The calls of `runWithScope` a task is in, as positions in the history, innermost last: those it entered and did
   * not leave, over the innermost one of the task that spawned it at the time.
   */
  ghost function Calls<R>(events: seq<Event<R>>, t: Task): seq<Option<nat>> {
    if events == [] then [None]
    else
      var init := events[..|events| - 1];
      match events[|events| - 1]
      case Spawn(u, child) => if child == t then [Last(Calls(init, u))] else Calls(init, t)
      case Enter(u, _) => if u == t then Calls(init, t) + [Some(|init|)] else Calls(init, t)
      case Leave(u) =>
        var calls := Calls(init, t);
        if u == t && |calls| > 1 then calls[..|calls| - 1] else calls
      case Do(_, _) => Calls(init, t)
  }

  /** The innermost call of `runWithScope` a task is in, if it is in any. */
  ghost function Innermost<R>(events: seq<Event<R>>, t: Task): Option<nat> {
    Last(Calls(events, t))
  }

  /** What the last write of a task in call `c` left, if there was any. */
  ghost function LastWrite<R>(events: seq<Event<R>>, c: Option<nat>): ScopeState {
    if events == [] then NO_SCOPE
    else
      var init, e := events[..|events| - 1], events[|events| - 1];
      if e.Do? && Innermost(init, e.task) == c then Written(e.op) else LastWrite(init, c)
  }

  // ---------------------------------------------------------------------------------
  // Isolation

  /** The store of a call. */
  ghost function StoreOf<R>(events: seq<Event<R>>, c: Option<nat>): Option<R> {
    if c.Some? && c.value < |events| && events[c.value].Enter? then Some(events[c.value].store) else None
  }

  ghost function StoresOf<R>(events: seq<Event<R>>, calls: seq<Option<nat>>): seq<Option<R>> {
    seq(|calls|, i requires 0 <= i < |calls| => StoreOf(events, calls[i]))
  }

  ghost predicate IsCall<R>(events: seq<Event<R>>, c: Option<nat>) {
    c.Some? ==> c.value < |events| && events[c.value].Enter?
  }

  /** Each task holds the stores of its calls. */
  ghost predicate FramesInv<R>(events: seq<Event<R>>, m: Machine<R>, t: Task) {
    && m.Knows(t)
    && m.frames[t] == StoresOf(events, Calls(events, t))
    && forall i :: 0 <= i < |Calls(events, t)| ==> IsCall(events, Calls(events, t)[i])
  }

  /** Each call has a store of its own, with what was last written in the call. */
  ghost predicate StoreInv<R>(events: seq<Event<R>>, m: Machine<R>, k: nat)
    requires k < |events| && events[k].Enter?
  {
    && events[k].store in m.heap && m.heap[events[k].store] == LastWrite(events, Some(k))
    && forall j :: 0 <= j < |events| && events[j].Enter? && events[j].store == events[k].store ==> j == k
  }

  ghost predicate Inv<R>(events: seq<Event<R>>, m: Machine<R>) {
    && m.common == LastWrite(events, None)
    && (forall k :: k >= |events| ==> LastWrite(events, Some(k)) == NO_SCOPE)
    && (forall t :: t in m.frames ==> FramesInv(events, m, t))
    && (forall k :: 0 <= k < |events| && events[k].Enter? ==> StoreInv(events, m, k))
  }

  lemma StoresStay<R>(events: seq<Event<R>>, e: Event<R>, calls: seq<Option<nat>>)
    requires forall i :: 0 <= i < |calls| ==> IsCall(events, calls[i])
    ensures StoresOf(events + [e], calls) == StoresOf(events, calls)
    ensures forall i :: 0 <= i < |calls| ==> IsCall(events + [e], calls[i])
  {
  }

  /** The reference a task sees through is the store of its innermost call. */
  lemma CurrentIsInnermost<R>(events: seq<Event<R>>, m: Machine<R>, t: Task)
    requires FramesInv(events, m, t)
    ensures m.Current(t) == StoreOf(events, Innermost(events, t)) && IsCall(events, Innermost(events, t))
    ensures m.Current(t).Some? <==> Innermost(events, t).Some?
  {
  }

  lemma CallsNext<R>(events: seq<Event<R>>, e: Event<R>, t: Task)
    ensures Calls(events + [e], t) ==
      var calls := Calls(events, t);
      if e.Spawn? && e.child == t then [Innermost(events, e.task)]
      else if e.Enter? && e.task == t then calls + [Some(|events|)]
      else if e.Leave? && e.task == t && |calls| > 1 then calls[..|calls| - 1]
      else calls
  {
    var all := events + [e];
    assert all[..|all| - 1] == events && all[|all| - 1] == e;
  }

  lemma FramesNext<R>(events: seq<Event<R>>, m: Machine<R>, e: Event<R>, t: Task)
    requires Inv(events, m) && Enabled(m, e) && t in Step(m, e).frames
    ensures FramesInv(events + [e], Step(m, e), t)
  {
    assert FramesInv(events, m, e.task) && (t in m.frames ==> FramesInv(events, m, t));
    hide Inv;
    CallsNext(events, e, t);
    var m' := Step(m, e);
    if e.Spawn? && e.child == t {
      CurrentIsInnermost(events, m, e.task);
      hide Calls;
      FramesSpawned(events, m, e);
    } else if e.Enter? && e.task == t {
      hide Calls;
      FramesEntered(events, m, e, m');
    } else {
      hide Calls;
      FramesKept(events, m, e, t);
    }
  }

  lemma FramesSpawned<R>(events: seq<Event<R>>, m: Machine<R>, e: Event<R>)
    requires e.Spawn? && Enabled(m, e) && m.Current(e.task) == StoreOf(events, Innermost(events, e.task))
    requires IsCall(events, Innermost(events, e.task)) && Calls(events + [e], e.child) == [Innermost(events, e.task)]
    ensures FramesInv(events + [e], Step(m, e), e.child)
  {
    hide Calls, Innermost;
    assert StoresOf(events, [Innermost(events, e.task)]) == [m.Current(e.task)];
    FramesHold(events, e, Step(m, e), e.child, [Innermost(events, e.task)]);
  }

  lemma FramesKept<R>(events: seq<Event<R>>, m: Machine<R>, e: Event<R>, t: Task)
    requires Enabled(m, e) && t in m.frames && FramesInv(events, m, t)
    requires !(e.Spawn? && e.child == t) && !(e.Enter? && e.task == t)
    requires Calls(events + [e], t) ==
      var calls := Calls(events, t);
      if e.Leave? && e.task == t && |calls| > 1 then calls[..|calls| - 1] else calls
    ensures FramesInv(events + [e], Step(m, e), t)
  {
    hide Calls, IsCall, StoreOf;
    FramesHold(events, e, Step(m, e), t, Calls(events + [e], t));
  }

  lemma FramesHold<R>(events: seq<Event<R>>, e: Event<R>, m: Machine<R>, t: Task, calls: seq<Option<nat>>)
    requires Calls(events + [e], t) == calls && m.Knows(t) && m.frames[t] == StoresOf(events, calls)
    requires forall i :: 0 <= i < |calls| ==> IsCall(events, calls[i])
    ensures FramesInv(events + [e], m, t)
  {
    hide Calls;
    StoresStay(events, e, calls);
  }

  lemma FramesEntered<R>(events: seq<Event<R>>, m: Machine<R>, e: Event<R>, m': Machine<R>)
    requires FramesInv(events, m, e.task) && e.Enter? && m'.Knows(e.task)
    requires Calls(events + [e], e.task) == Calls(events, e.task) + [Some(|events|)]
    requires m'.frames[e.task] == m.frames[e.task] + [Some(e.store)]
    ensures FramesInv(events + [e], m', e.task)
  {
    StoresStay(events, e, Calls(events, e.task));
    assert StoreOf(events + [e], Some(|events|)) == Some(e.store);
    hide Calls;
    assert m'.frames[e.task] == StoresOf(events + [e], Calls(events + [e], e.task));
  }

  lemma LastWriteNext<R>(events: seq<Event<R>>, e: Event<R>, c: Option<nat>)
    ensures LastWrite(events + [e], c) ==
            if e.Do? && Innermost(events, e.task) == c then Written(e.op) else LastWrite(events, c)
  {
    var all := events + [e];
    assert all[..|all| - 1] == events && all[|all| - 1] == e;
  }

  lemma StoreNext<R>(events: seq<Event<R>>, m: Machine<R>, e: Event<R>, k: nat)
    requires Inv(events, m) && Enabled(m, e) && k < |events| && events[k].Enter?
    ensures StoreInv(events + [e], Step(m, e), k)
  {
    assert StoreInv(events, m, k);
    LastWriteNext(events, e, Some(k));
    assert FramesInv(events, m, e.task);
    CurrentIsInnermost(events, m, e.task);
    var c := Innermost(events, e.task);
    if c.Some? {
      assert StoreInv(events, m, c.value);
    }
    hide LastWrite, FramesInv, Calls;
  }

  lemma InvNext<R>(events: seq<Event<R>>, m: Machine<R>, e: Event<R>)
    requires Inv(events, m) && Enabled(m, e)
    ensures Inv(events + [e], Step(m, e))
  {
    var all, m' := events + [e], Step(m, e);
    forall t | t in m'.frames
      ensures FramesInv(all, m', t)
    {
      FramesNext(events, m, e, t);
    }
    forall k | 0 <= k < |all| && all[k].Enter?
      ensures StoreInv(all, m', k)
    {
      if k < |events| {
        assert all[k] == events[k];
        StoreNext(events, m, e, k);
      } else {
        EnteredStore(events, m, e);
      }
    }
    LastWriteNext(events, e, None);
    assert FramesInv(events, m, e.task);
    CurrentIsInnermost(events, m, e.task);
    var c := Innermost(events, e.task);
    if c.Some? {
      assert StoreInv(events, m, c.value);
    }
    hide FramesInv, StoreInv, LastWrite, Calls;
    forall k | k >= |all|
      ensures LastWrite(all, Some(k)) == NO_SCOPE
    {
      LastWriteNext(events, e, Some(k));
    }
  }

  lemma EnteredStore<R>(events: seq<Event<R>>, m: Machine<R>, e: Event<R>)
    requires Inv(events, m) && Enabled(m, e) && e.Enter?
    ensures StoreInv(events + [e], Step(m, e), |events|)
  {
    LastWriteNext(events, e, Some(|events|));
    assert LastWrite(events, Some(|events|)) == NO_SCOPE;
    hide LastWrite, FramesInv;
    forall j | 0 <= j < |events| && events[j].Enter?
      ensures events[j].store in m.heap
    {
      assert StoreInv(events, m, j);
    }
    hide Inv;
  }

  lemma {:induction false} InvHolds<R>(events: seq<Event<R>>)
    requires After(events).Some?
    ensures Inv(events, After(events).value)
  {
    if events != [] {
      var init, e := events[..|events| - 1], events[|events| - 1];
      InvHolds(init);
      InvNext(init, After(init).value, e);
      assert events == init + [e];
    }
  }

  /**
   * For every history of tasks, nested and overlapping calls of `runWithScope` included: a task sees what was last
   * written by a task in the same innermost call, and nothing if none was. Outside of any call that is the common
   * scope.
   */
  lemma Isolation<R>(events: seq<Event<R>>, t: Task)
    requires After(events).Some? && t in After(events).value.frames
    ensures After(events).value.Knows(t)
    ensures After(events).value.Seen(t) == LastWrite(events, Innermost(events, t))
  {
    var m := After(events).value;
    InvHolds(events);
    assert FramesInv(events, m, t);
    CurrentIsInnermost(events, m, t);
    var c := Innermost(events, t);
    if c.Some? {
      assert StoreInv(events, m, c.value);
    }
  }

  /** A write is seen by exactly the tasks in the innermost call of the one that writes. */
  lemma WriteIsSeenInItsCall<R>(events: seq<Event<R>>, e: Event<R>, t: Task)
    requires After(events).Some? && Enabled(After(events).value, e) && e.Do? && t in After(events).value.frames
    ensures After(events + [e]).Some? && After(events + [e]).value.Knows(t) && After(events).value.Knows(t)
    ensures After(events + [e]).value.Seen(t) ==
            if Innermost(events, t) == Innermost(events, e.task) then Written(e.op) else After(events).value.Seen(t)
  {
    var all := events + [e];
    assert all[..|all| - 1] == events && all[|all| - 1] == e;
    Isolation(events, t);
    Isolation(all, t);
    LastWriteNext(events, e, Innermost(events, t));
    assert Calls(all, t) == Calls(events, t);
  }

  /** A callback starts without a scope, wherever it is called, and nobody else is in its call. */
  lemma CallStartsEmpty<R>(events: seq<Event<R>>, t: Task, store: R, u: Task)
    requires After(events).Some? && Enabled(After(events).value, Enter(t, store))
    requires u in After(events).value.frames
    ensures var all := events + [Enter(t, store)];
      && After(all).Some? && After(all).value.Knows(t)
      && After(all).value.Seen(t) == NO_SCOPE
      && (u != t ==> Innermost(all, u) != Innermost(all, t))
  {
    var e := Enter(t, store);
    var all := events + [e];
    assert all[..|all| - 1] == events && all[|all| - 1] == e;
    InvHolds(events);
    Isolation(all, t);
    LastWriteNext(events, e, Some(|events|));
    assert FramesInv(events, After(events).value, u);
    CurrentIsInnermost(events, After(events).value, u);
  }

  /** How many more calls a task entered than it left. */
  function Depth<R>(events: seq<Event<R>>, t: Task): int {
    if events == [] then 0
    else
      var e := events[|events| - 1];
      Depth(events[..|events| - 1], t) +
      if e.Enter? && e.task == t then 1 else if e.Leave? && e.task == t then -1 else 0
  }

  /** The task never leaves the call it was in at first. */
  ghost predicate StaysInside<R>(events: seq<Event<R>>, t: Task) {
    forall i :: 0 <= i <= |events| ==> Depth(events[..i], t) >= 0
  }

  lemma {:induction false} CallsGrow<R>(events: seq<Event<R>>, more: seq<Event<R>>, t: Task)
    requires After(events + more).Some? && After(events).Some? && t in After(events).value.frames
    requires StaysInside(more, t)
    ensures t in After(events + more).value.frames
    ensures |Calls(events + more, t)| == |Calls(events, t)| + Depth(more, t)
    ensures Calls(events, t) <= Calls(events + more, t)
  {
    if more == [] {
      assert events + more == events;
    } else {
      var init, e := more[..|more| - 1], more[|more| - 1];
      LastOf(events, more);
      AfterInit(events + init, e);
      DepthOfInit(more, t);
      hide After, StaysInside, Depth;
      CallsGrow(events, init, t);
      InvHolds(events + init);
      assert FramesInv(events + init, After(events + init).value, t);
      CallsNext(events + init, e, t);
      hide Calls, Inv, FramesInv;
    }
  }

  lemma AfterInit<R>(events: seq<Event<R>>, e: Event<R>)
    requires After(events + [e]).Some?
    ensures After(events).Some? && Enabled(After(events).value, e)
    ensures After(events + [e]) == Some(Step(After(events).value, e))
    ensures After(events).value.frames.Keys <= After(events + [e]).value.frames.Keys
  {
    var all := events + [e];
    assert all[..|all| - 1] == events && all[|all| - 1] == e;
  }

  lemma DepthOfInit<R>(more: seq<Event<R>>, t: Task)
    requires more != [] && StaysInside(more, t)
    ensures var init, e := more[..|more| - 1], more[|more| - 1];
      && StaysInside(init, t) && Depth(more, t) >= 0
      && Depth(more, t) == Depth(init, t) +
           if e.Enter? && e.task == t then 1 else if e.Leave? && e.task == t then -1 else 0
  {
    var init := more[..|more| - 1];
    assert forall i :: 0 <= i <= |init| ==> init[..i] == more[..i];
    assert more[..|more|] == more;
  }

  /** Once a call returns, its task sees again what the call around it has. */
  lemma ReturnResumesOuter<R>(events: seq<Event<R>>, inner: seq<Event<R>>, t: Task, store: R)
    requires After(events).Some? && t in After(events).value.frames
    requires After(events + ([Enter(t, store)] + inner + [Leave(t)])).Some?
    requires StaysInside(inner, t) && Depth(inner, t) == 0
    ensures var all := events + ([Enter(t, store)] + inner + [Leave(t)]);
      && Calls(all, t) == Calls(events, t)
      && t in After(all).value.frames && After(all).value.Knows(t)
      && After(all).value.Seen(t) == LastWrite(all, Innermost(events, t))
  {
    var entered := events + [Enter(t, store)];
    var all := events + ([Enter(t, store)] + inner + [Leave(t)]);
    assert all[..|all| - 1] == entered + inner && all[|all| - 1] == Leave(t);
    assert entered[..|entered| - 1] == events && entered[|entered| - 1] == Enter(t, store);
    PrefixHappens(entered, inner);
    CallsGrow(entered, inner, t);
    Isolation(all, t);
    InvHolds(events);
    assert FramesInv(events, After(events).value, t);
    assert Calls(entered + inner, t) == Calls(events, t) + [Some(|events|)];
  }

  lemma {:induction false} PrefixHappens<R>(events: seq<Event<R>>, more: seq<Event<R>>)
    requires After(events + more).Some?
    ensures After(events).Some?
  {
    if more == [] {
      assert events + more == events;
    } else {
      assert (events + more)[..|events + more| - 1] == events + more[..|more| - 1];
      PrefixHappens(events, more[..|more| - 1]);
    }
  }

  // ---------------------------------------------------------------------------------
  // The runtime

  /** A scope state, written in place. */
  class Store {
    var scope: Option<Values>
    var headers: Headers

    constructor ()
      ensures State() == NO_SCOPE
    {
      scope, headers := None, [];
    }

    ghost function State(): ScopeState
      reads this
    {
      ScopeState(scope, headers)
    }
  }

  /** The stores of the runtime. `frames` is what the asynchronous storage keeps for each task. */
  class Runtime {
    const globalState: Store
    var frames: map<Task, seq<Option<Store>>>
    ghost var stores: set<Store>

    constructor ()
      ensures Valid() && Now() == Start() && fresh(globalState)
    {
      globalState := new Store();
      frames, stores := map[0 := [None]], {};
    }

    ghost predicate Valid()
      reads this
    {
      && globalState !in stores
      && forall t :: t in frames ==> frames[t] != [] && forall i :: 0 <= i < |frames[t]| ==> IsKnown(frames[t][i])
    }

    ghost predicate IsKnown(r: Option<Store>)
      reads this
    {
      r.Some? ==> r.value in stores
    }

    ghost function Now(): Machine<Store>
      reads this, globalState, stores
    {
      Machine(map s | s in stores :: s.State(), globalState.State(), frames)
    }

    /** The state of the current callback, or the common one. */
    method GetScopeState(current: Task) returns (state: Store)
      requires Valid() && current in frames
      ensures state == globalState || state in stores
      ensures state == (if Now().Current(current).Some? then Now().Current(current).value else globalState)
      ensures state.State() == Now().Seen(current)
    {
      var store := frames[current][|frames[current]| - 1];
      assert IsKnown(store);
      state := if store.Some? then store.value else globalState;
    }

    method SetScope(current: Task, values: Values, headers: Headers)
      requires Valid() && current in frames
      modifies globalState, stores
      ensures Valid() && Now() == Step(old(Now()), Do(current, Operation.SetScope(values, headers)))
      ensures Now().Knows(current) && Now().Seen(current) == ScopeState(Some(values), headers)
    {
      SeenAfterWrite(Now(), current, Operation.SetScope(values, headers));
      var state := GetScopeState(current);
      state.scope := Some(values);
      state.headers := headers;
      WroteThrough(old(Now()), Now(), current, ScopeState(Some(values), headers));
    }

    method ClearScope(current: Task)
      requires Valid() && current in frames
      modifies globalState, stores
      ensures Valid() && Now() == Step(old(Now()), Do(current, Operation.ClearScope))
      ensures Now().Knows(current) && Now().Seen(current) == ScopeState(None, [])
    {
      SeenAfterWrite(Now(), current, Operation.ClearScope);
      var state := GetScopeState(current);
      state.scope := None;
      state.headers := [];
      WroteThrough(old(Now()), Now(), current, NO_SCOPE);
    }

    method ImportScope(current: Task, traceId: Str, raw: Option<Str>)
      requires Valid() && current in frames
      modifies globalState, stores
      ensures Valid() && Now() == Step(old(Now()), Do(current, Operation.ImportScope(traceId, raw)))
      ensures Now().Knows(current) && Now().Seen(current) == ImportedState(traceId, raw)
    {
      SeenAfterWrite(Now(), current, Operation.ImportScope(traceId, raw));
      var Payload(values, headers) := ParseScope(raw);
      var scopeValues: Record<Str> := [];
      for i := 0 to |headers|
        invariant scopeValues == Declared(headers[..i], values)
      {
        var key := headers[i].key;
        assert headers[..i + 1][..i] == headers[..i];
        if Has(values, key) {
          scopeValues := Assign(scopeValues, key, Truncate(Get(values, key)));
        }
      }
      assert headers[..|headers|] == headers;
      SetScope(current, AsValues(Put(scopeValues, TRACE_ID, traceId)), headers);
    }

    /** Enters a callback: it gets a fresh store for as long as it runs. */
    method RunWithScope(current: Task) returns (store: Store)
      requires Valid() && current in frames
      modifies this
      ensures Valid() && fresh(store)
      ensures store !in old(stores) && Enabled(old(Now()), Enter(current, store))
      ensures Now() == Step(old(Now()), Enter(current, store))
    {
      store := new Store();
      frames := frames[current := frames[current] + [Some(store)]];
      stores := stores + {store};
    }

    /** The callback of the innermost `runWithScope` of a task returned. */
    method EndRun(current: Task)
      requires Valid() && current in frames && |frames[current]| > 1
      modifies this
      ensures Valid() && Now() == Step(old(Now()), Leave(current))
    {
      frames := frames[current := frames[current][..|frames[current]| - 1]];
    }

    /** A task that `current` starts or awaits inherits its store. */
    method SpawnTask(current: Task, child: Task)
      requires Valid() && current in frames && child !in frames
      modifies this
      ensures Valid() && Now() == Step(old(Now()), Spawn(current, child))
    {
      frames := frames[child := [frames[current][|frames[current]| - 1]]];
    }
  }

  lemma WroteThrough<R>(m: Machine<R>, m': Machine<R>, t: Task, s: ScopeState)
    requires m.Knows(t) && m'.frames == m.frames && m'.heap.Keys == m.heap.Keys
    requires var r := m.Current(t);
      if r.Some? && r.value in m.heap then
        && m'.common == m.common
        && forall x :: x in m.heap ==> m'.heap[x] == if x == r.value then s else m.heap[x]
      else m'.common == s && m'.heap == m.heap
    ensures m' == m.Write(t, s)
  {
    assert m'.heap == m.Write(t, s).heap;
  }
}
