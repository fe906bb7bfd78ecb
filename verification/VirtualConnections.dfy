/** The real services a service connects to through virtual ones. */
module VirtualConnections {
  import opened Common
  import opened Reachability

  datatype Link = Link(name: string, reference: string)

  /** The deploy state of a service: a real entry, or a virtual one that links further. */
  datatype ServiceState = Real(entryId: string) | Virtual(services: Option<seq<Link>>)

  /** The virtual state of each service that has one, or else its regular one. */
  type States = map<string, ServiceState>

  function References(links: seq<Link>): (r: seq<string>)
    ensures |r| == |links| && forall i :: 0 <= i < |links| ==> r[i] == links[i].reference
  {
    seq(|links|, i requires 0 <= i < |links| => links[i].reference)
  }

  /** A virtual service leads to what it links; a real one leads nowhere. */
  function LeadsTo(states: States): Graph<string> {
    (name: string) =>
      if name in states && states[name].Virtual? && states[name].services.Some?
      then References(states[name].services.value)
      else []
  }

  /** The services linked at first and every service linked from a state. */
  ghost function AllServices(states: States, links: seq<Link>): set<string> {
    (set l | l in links :: l.reference) + (set n, m | n in states && m in LeadsTo(states)(n) :: m)
  }

  lemma LinksStayWithin(states: States, links: seq<Link>)
    ensures Closed(LeadsTo(states), AllServices(states, links))
  {
  }

  function EntryIds(states: States, names: seq<string>): seq<string> {
    if names == [] then []
    else
      var rest := EntryIds(states, names[..|names| - 1]);
      var last := names[|names| - 1];
      if last in states && states[last].Real? then rest + [states[last].entryId] else rest
  }

  ghost predicate Known(states: States, names: seq<string>) {
    forall n :: n in names ==> n in states
  }

  class Collector {
    const states: States
    /** The services of the project, which links stay within. */
    ghost const services: set<string>
    var connectionIds: seq<string>
    var resolved: seq<string>

    constructor (states: States, ghost services: set<string>)
      requires Closed(LeadsTo(states), services)
      ensures this.states == states && this.services == services && Valid() && resolved == []
    {
      this.states := states;
      this.services := services;
      connectionIds, resolved := [], [];
    }

    ghost predicate Valid()
      reads this
    {
      && Closed(LeadsTo(states), services)
      && connectionIds == EntryIds(states, resolved)
      && Known(states, resolved)
    }

    /** Resolves one service, once; it fails with the name of a service that has no state. */
    method Collect(name: string) returns (r: Result<(), string>)
      requires Valid() && name in services
      modifies this
      ensures r.Ok? ==> Valid() && resolved == Visit(LeadsTo(states), services, old(resolved), name)
      ensures r.Err? ==> r.error in Visit(LeadsTo(states), services, old(resolved), name) && r.error !in states
      decreases Left(services, resolved), 0
    {
      if name in resolved {
        return Ok(());
      }
      assert name in Left(services, resolved) && name !in Left(services, resolved + [name]);
      ghost var g := LeadsTo(states);
      resolved := resolved + [name];
      assert resolved[..|resolved| - 1] == old(resolved);
      if name !in states {
        return Err(name);
      }
      var state := states[name];
      if state.Real? {
        connectionIds := connectionIds + [state.entryId];
        assert g(name) == [];
      } else if state.services.Some? {
        assert g(name) == References(state.services.value);
        forall l | l in state.services.value
          ensures l.reference in services
        {
          assert l.reference in g(name);
        }
        r := CollectConnections(state.services.value);
        return;
      }
      return Ok(());
    }

    method CollectConnections(links: seq<Link>) returns (r: Result<(), string>)
      requires Valid() && forall l :: l in links ==> l.reference in services
      modifies this
      ensures r.Ok? ==> Valid() && resolved == VisitAll(LeadsTo(states), services, old(resolved), References(links))
      ensures r.Err? ==>
        r.error in VisitAll(LeadsTo(states), services, old(resolved), References(links)) && r.error !in states
      decreases Left(services, resolved), 1
    {
      ghost var g, names := LeadsTo(states), References(links);
      for i := 0 to |links|
        invariant Valid() && old(resolved) <= resolved
        invariant VisitAll(g, services, resolved, names[i..]) == VisitAll(g, services, old(resolved), names)
      {
        assert links[i] in links;
        assert names[i..][0] == links[i].reference && names[i..][1..] == names[i + 1..];
        assert Left(services, resolved) <= Left(services, old(resolved));
        r := Collect(links[i].reference);
        if r.Err? {
          return;
        }
      }
      assert names[|links|..] == [];
      return Ok(());
    }
  }

  /**
   * The connections of a service: one entry id for each real service reached through virtual ones only, in
   * the order they are met, or an error when a service on the way has no state.
   */
  method GetVirtualConnections(states: States, links: seq<Link>) returns (r: Result<seq<string>, string>)
    ensures r.Ok? <==> forall n :: ReachedFrom(LeadsTo(states), References(links), n) ==> n in states
    ensures r.Ok? ==> exists names :: OneEntryEach(states, links, names, r.value)
  {
    ghost var services := AllServices(states, links);
    LinksStayWithin(states, links);
    ghost var found := VisitAll(LeadsTo(states), services, [], References(links));
    VisitAllIsReachability(LeadsTo(states), services, References(links));
    var collector := new Collector(states, services);
    var done := collector.CollectConnections(links);
    if done.Err? {
      return Err(done.error);
    }
    ghost var names := EntryIdsOfRealServices(states, found);
    assert OneEntryEach(states, links, names, collector.connectionIds);
    return Ok(collector.connectionIds);
  }

  /** `ids` are the entry ids of `names`, which are the real services reached, each once. */
  ghost predicate OneEntryEach(states: States, links: seq<Link>, names: seq<string>, ids: seq<string>) {
    && Distinct(names) && |names| == |ids|
    && (forall n :: n in names <==>
          ReachedFrom(LeadsTo(states), References(links), n) && n in states && states[n].Real?)
    && (forall i :: 0 <= i < |names| ==>
          names[i] in states && states[names[i]].Real? && states[names[i]].entryId == ids[i])
  }

  lemma {:induction false} EntryIdsOfRealServices(states: States, found: seq<string>) returns (names: seq<string>)
    ensures |EntryIds(states, found)| == |names|
    ensures forall i :: 0 <= i < |names| ==>
      names[i] in states && states[names[i]].Real? && states[names[i]].entryId == EntryIds(states, found)[i]
    ensures forall n :: n in names <==> n in found && n in states && states[n].Real?
    ensures Distinct(found) ==> Distinct(names)
  {
    if found == [] {
      names := [];
    } else {
      var init, last := found[..|found| - 1], found[|found| - 1];
      names := EntryIdsOfRealServices(states, init);
      assert found == init + [last];
      if last in states && states[last].Real? {
        names := names + [last];
      }
    }
  }

  /** A service leads to the references of its links just when it is virtual, in their order. */
  lemma LeadsToIs(states: States, name: string, next: string)
    ensures next in LeadsTo(states)(name) <==>
      && name in states && states[name].Virtual? && states[name].services.Some?
      && exists l :: l in states[name].services.value && l.reference == next
    ensures name in states && states[name].Virtual? && states[name].services.Some? ==>
      && |LeadsTo(states)(name)| == |states[name].services.value|
      && forall i :: 0 <= i < |states[name].services.value| ==>
        LeadsTo(states)(name)[i] == states[name].services.value[i].reference
  {
    if name in states && states[name].Virtual? && states[name].services.Some? {
      var links := states[name].services.value;
      var leads := LeadsTo(states)(name);
      assert leads == References(links);
      if next in leads {
        var i :| 0 <= i < |leads| && leads[i] == next;
        assert links[i] in links && links[i].reference == next;
      }
      if l :| l in links && l.reference == next {
        var i :| 0 <= i < |links| && links[i] == l;
        assert leads[i] == next;
      }
    }
  }

  /** No path leads past a real service. */
  lemma RealServicesEndPaths(states: States, p: seq<string>, i: nat)
    requires Path(LeadsTo(states), p) && i + 1 < |p|
    ensures p[i] in states && states[p[i]].Virtual?
  {
    assert p[i + 1] in LeadsTo(states)(p[i]);
  }
}
