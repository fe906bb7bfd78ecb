/** The clients an emulated service is given: one cached map per links and options, within a version of the code. */
module Clients {
  import opened Common

  /** A client, or a function that makes it when it is first asked for. */
  datatype Client = Plain(id: nat) | Lazy(id: nat)

  type Options = map<string, string>

  datatype Link = Link(reference: string, options: Option<Options>)

  type Links = map<string, Link>

  /** The hash of a map of clients, which is injective. */
  datatype Key = Key(links: Links, options: Option<Options>)

  /** What the export handlers answer at a version of the code: nothing when a service has no client. */
  type Exports = (nat, Link, Option<Options>) -> Option<Client>

  // ---------------------------------------------------------------------------------
  // Reading a client

  /** A read of a client, with the override and the client of the current invocation, if there are any. */
  datatype Read = Read(property: string, overridden: Option<Client>, invocation: Option<Client>)

  datatype Answer = NotFound | Undefined | Answered(client: Client)

  /**
   * The clients of a map, the names whose functions are running, innermost last, and how often the client of each
   * name was made.
   */
  datatype Content = Content(clients: map<string, Client>, making: seq<string>, made: map<string, nat>)

  /** Whether the read gets to the cached client. */
  predicate IsDirect(c: Content, r: Read) {
    r.property in c.clients && r.overridden.None? && r.invocation.None?
  }

  /** Whether the read calls the function that makes the client. */
  predicate Calls(c: Content, r: Read) {
    IsDirect(c, r) && c.clients[r.property].Lazy?
  }

  function Timed(made: map<string, nat>, name: string): nat {
    if name in made then made[name] else 0
  }

  /** A read, and the end of the innermost function that runs: it answers a client, or it throws. */
  datatype Event = Reads(r: Read) | Returns(client: Client) | Throws

  predicate Enabled(c: Content, e: Event) {
    e.Reads? || (c.making != [] && c.making[|c.making| - 1] in c.clients)
  }

  function Step(c: Content, e: Event): Content
    requires Enabled(c, e)
  {
    match e
    case Reads(r) => if Calls(c, r) then c.(making := c.making + [r.property]) else c
    case Returns(client) =>
      var name := c.making[|c.making| - 1];
      Content(c.clients[name := client], c.making[..|c.making| - 1], c.made[name := Timed(c.made, name) + 1])
    case Throws => c.(making := c.making[..|c.making| - 1])
  }

  /** The answer to a read, unless a function has to be called for it first. */
  function AnswerTo(c: Content, r: Read): Option<Answer> {
    if r.property !in c.clients then Some(if r.property == "then" then Undefined else NotFound)
    else if r.overridden.Some? then Some(Answered(r.overridden.value))
    else if r.invocation.Some? then Some(Answered(r.invocation.value))
    else if c.clients[r.property].Lazy? then None
    else Some(Answered(c.clients[r.property]))
  }

  /** A map of clients, made at one version of the code. */
  class ClientMap {
    ghost const version: nat
    var clients: map<string, Client>
    ghost var making: seq<string>
    ghost var made: map<string, nat>

    constructor (ghost version: nat)
      ensures this.version == version && Now() == Content(map[], [], map[])
    {
      this.version := version;
      clients, making, made := map[], [], map[];
    }

    ghost function Now(): Content
      reads this
    {
      Content(clients, making, made)
    }

    /** The getter of the proxy over the map, up to the call of the function that makes the client. */
    method Get(r: Read) returns (answer: Option<Answer>)
      modifies this`making
      ensures Now() == Step(old(Now()), Reads(r))
      ensures answer == AnswerTo(old(Now()), r)
      ensures r.property !in clients ==> answer == Some(if r.property == "then" then Undefined else NotFound)
      ensures r.property in clients ==>
        && (r.overridden.Some? ==> answer == Some(Answered(r.overridden.value)))
        && (r.overridden.None? && r.invocation.Some? ==> answer == Some(Answered(r.invocation.value)))
        && (r.overridden.None? && r.invocation.None? && clients[r.property].Plain? ==>
              answer == Some(Answered(clients[r.property])))
      ensures answer.None? <==> making == old(making) + [r.property]
      ensures answer.Some? ==> making == old(making)
    {
      if r.property !in clients {
        return Some(if r.property == "then" then Undefined else NotFound);
      }
      if r.overridden.Some? {
        return Some(Answered(r.overridden.value));
      }
      if r.invocation.Some? {
        return Some(Answered(r.invocation.value));
      }
      if clients[r.property].Lazy? {
        making := making + [r.property];
        return None;
      }
      return Some(Answered(clients[r.property]));
    }

    /** The getter from the return of that function on, which may have read the map in between. */
    method Keep(property: string, client: Client) returns (answer: Answer)
      requires making != [] && making[|making| - 1] == property && property in clients
      modifies this
      ensures Now() == Step(old(Now()), Returns(client))
      ensures answer == Answered(client)
    {
      clients := clients[property := client];
      making := making[..|making| - 1];
      made := made[property := Timed(made, property) + 1];
      return Answered(clients[property]);
    }
  }

  // ---------------------------------------------------------------------------------
  // Making clients

  predicate AllExported(exports: Exports, version: nat, key: Key) {
    forall n :: n in key.links ==> exports(version, key.links[n], key.options).Some?
  }

  function Exported(exports: Exports, version: nat, key: Key): map<string, Client>
    requires AllExported(exports, version, key)
  {
    map n | n in key.links :: exports(version, key.links[n], key.options).value
  }

  /** For each link, the client its service exports for the options of the service that links. */
  ghost predicate AreExported(exports: Exports, version: nat, key: Key, clients: map<string, Client>) {
    && clients.Keys == key.links.Keys
    && forall n :: n in key.links ==> exports(version, key.links[n], key.options) == Some(clients[n])
  }

  method MakeEmulatorClients(exports: Exports, version: nat, key: Key) returns (r: Option<map<string, Client>>)
    ensures r.Some? <==> AllExported(exports, version, key)
    ensures r.Some? ==> r.value == Exported(exports, version, key)
    ensures r.Some? ==> AreExported(exports, version, key, r.value)
    ensures r.None? ==> exists n :: n in key.links && exports(version, key.links[n], key.options).None?
  {
    var allClients: map<string, Client> := map[];
    var todo := key.links.Keys;
    while todo != {}
      invariant todo <= key.links.Keys
      invariant allClients.Keys == key.links.Keys - todo
      invariant forall n :: n in allClients ==>
        exports(version, key.links[n], key.options) == Some(allClients[n])
      decreases todo
    {
      var name :| name in todo;
      var client := exports(version, key.links[name], key.options);
      if client.None? {
        return None;
      }
      allClients := allClients[name := client.value];
      todo := todo - {name};
    }
    return Some(allClients);
  }

  class Registry {
    const exports: Exports
    var clientsCache: map<Key, ClientMap>
    var clientsVersion: nat

    constructor (exports: Exports, version: nat)
      ensures this.exports == exports && clientsVersion == version && clientsCache == map[] && Valid()
    {
      this.exports := exports;
      clientsVersion := version;
      clientsCache := map[];
    }

    /** Every cached map was made at the version of the cache. */
    ghost predicate Valid()
      reads this
    {
      forall k :: k in clientsCache ==> clientsCache[k].version == clientsVersion
    }

    /**
     * The clients of `key` at the current version of the code: the cached map of this version, or a new one.
     * When a service has no client the call throws, and an empty map stays in the cache.
     */
    method MakeClients(version: nat, key: Key) returns (r: Option<ClientMap>)
      requires Valid()
      modifies this
      ensures Valid() && clientsVersion == version
      ensures key in clientsCache && (r.Some? ==> r.value == clientsCache[key] && r.value.version == version)
      ensures version == old(clientsVersion) ==> clientsCache.Keys == old(clientsCache).Keys + {key}
      ensures version == old(clientsVersion) ==>
        forall k :: k in old(clientsCache) ==> clientsCache[k] == old(clientsCache)[k]
      ensures version != old(clientsVersion) ==> clientsCache.Keys == {key}
      ensures version == old(clientsVersion) && key in old(clientsCache) ==> r == Some(old(clientsCache)[key])
      ensures !(version == old(clientsVersion) && key in old(clientsCache)) ==>
        && fresh(clientsCache[key])
        && (r.Some? <==> AllExported(exports, version, key))
        && clientsCache[key].Now() == Content(if r.Some? then Exported(exports, version, key) else map[], [], map[])
        && (r.Some? ==> AreExported(exports, version, key, clientsCache[key].clients))
    {
      hide AllExported, Exported, AreExported;
      if clientsVersion != version {
        clientsVersion := version;
        clientsCache := map[];
      }
      if key !in clientsCache {
        var clientMap := new ClientMap(version);
        clientsCache := clientsCache[key := clientMap];
        var allClients := MakeEmulatorClients(exports, version, key);
        if allClients.None? {
          return None;
        }
        assert map[] + allClients.value == allClients.value;
        clientMap.clients := clientMap.clients + allClients.value;
      }
      return Some(clientsCache[key]);
    }
  }

  // ---------------------------------------------------------------------------------
  // Runs of reads, nested in the making of clients or not

  function Init(events: seq<Event>): seq<Event>
    requires events != []
  {
    events[..|events| - 1]
  }

  /** The content after the events, if they can happen in this order. */
  function After(c: Content, events: seq<Event>): Option<Content> {
    if events == [] then Some(c)
    else
      var before, e := After(c, Init(events)), events[|events| - 1];
      if before.Some? && Enabled(before.value, e) then Some(Step(before.value, e)) else None
  }

  lemma AfterNext(c: Content, events: seq<Event>, e: Event)
    ensures After(c, events + [e]) ==
      var before := After(c, events);
      if before.Some? && Enabled(before.value, e) then Some(Step(before.value, e)) else None
  {
    assert Init(events + [e]) == events;
  }

  /** Whether an override or an invocation client answers a read. */
  predicate IsAnswered(e: Event) {
    e.Reads? && (e.r.overridden.Some? || e.r.invocation.Some?)
  }

  function Unanswered(events: seq<Event>): seq<Event> {
    if events == [] then []
    else Unanswered(Init(events)) + if IsAnswered(events[|events| - 1]) then [] else [events[|events| - 1]]
  }

  /** Reads answered by an override or an invocation client leave the map as if they never happened. */
  lemma {:induction false} AnsweredReadsLeaveNoTrace(c: Content, events: seq<Event>)
    ensures After(c, events) == After(c, Unanswered(events))
  {
    if events != [] {
      AnsweredReadsLeaveNoTrace(c, Init(events));
      var e := events[|events| - 1];
      if IsAnswered(e) {
        assert Unanswered(events) == Unanswered(Init(events));
      } else {
        AfterNext(c, Unanswered(Init(events)), e);
      }
    }
  }

  /** What the functions make are clients, not other functions. */
  ghost predicate MakesClients(events: seq<Event>) {
    forall i :: 0 <= i < |events| && events[i].Returns? ==> events[i].client.Plain?
  }

  function Start(clients: map<string, Client>): Content {
    Content(clients, [], map[])
  }

  /** How often a name is in the making. */
  function Depth(making: seq<string>, name: string): nat {
    multiset(making)[name]
  }

  ghost predicate NameInv(clients: map<string, Client>, c: Content, name: string) {
    && c.clients.Keys == clients.Keys
    && (name in c.making ==> name in clients && clients[name].Lazy?)
    && (name in clients && Timed(c.made, name) == 0 ==> c.clients[name] == clients[name])
    && (name in clients && Timed(c.made, name) > 0 ==> clients[name].Lazy? && c.clients[name].Plain?)
    && (name !in clients ==> Timed(c.made, name) == 0)
  }

  lemma {:induction false} NameInvHolds(clients: map<string, Client>, events: seq<Event>, name: string)
    requires MakesClients(events) && After(Start(clients), events).Some?
    ensures NameInv(clients, After(Start(clients), events).value, name)
  {
    if events != [] {
      NameInvHolds(clients, Init(events), name);
    }
  }

  lemma DepthOf(making: seq<string>, name: string)
    ensures name in making <==> Depth(making, name) > 0
    ensures making != [] ==>
      Depth(making[..|making| - 1], name) == Depth(making, name) - (if making[|making| - 1] == name then 1 else 0)
    ensures forall x :: Depth(making + [x], name) == Depth(making, name) + (if x == name then 1 else 0)
  {
    if making != [] {
      assert making == making[..|making| - 1] + [making[|making| - 1]];
    }
  }

  /** The event is a read that gets to `name` while its client is being made. */
  predicate ReadsWhileMaking(c: Content, e: Event, name: string) {
    e.Reads? && e.r.property == name && IsDirect(c, e.r) && name in c.making
  }

  /** Some read gets to `name` while its client is being made. */
  predicate ReadAgain(c: Content, events: seq<Event>, name: string) {
    events != [] &&
    (ReadAgain(c, Init(events), name) ||
     (After(c, Init(events)).Some? && ReadsWhileMaking(After(c, Init(events)).value, events[|events| - 1], name)))
  }

  lemma {:induction false} CountsCalls(clients: map<string, Client>, events: seq<Event>, name: string)
    requires MakesClients(events) && After(Start(clients), events).Some? && Throws !in events
    ensures var c := After(Start(clients), events).value;
      Timed(c.made, name) + Depth(c.making, name) > 1 <==> ReadAgain(Start(clients), events, name)
  {
    if events != [] {
      var init, e := Init(events), events[|events| - 1];
      assert forall x :: x in init ==> x in events;
      CountsCalls(clients, init, name);
      NameInvHolds(clients, init, name);
      CountsCall(clients, After(Start(clients), init).value, e, name);
    }
  }

  lemma CountsCall(clients: map<string, Client>, c: Content, e: Event, name: string)
    requires NameInv(clients, c, name) && Enabled(c, e) && !e.Throws?
    ensures var d := Step(c, e);
      Timed(d.made, name) + Depth(d.making, name) > 1 <==>
      Timed(c.made, name) + Depth(c.making, name) > 1 || ReadsWhileMaking(c, e, name)
  {
    DepthOf(c.making, name);
    hide Depth;
  }

  /**
   * Once no function is running, and none threw, a client was made more than once if and only if some read got to
   * it while it was being made; otherwise once at most.
   */
  lemma MadeAtMostOnce(clients: map<string, Client>, events: seq<Event>, name: string)
    requires MakesClients(events) && After(Start(clients), events).Some? && Throws !in events
    requires After(Start(clients), events).value.making == []
    ensures Timed(After(Start(clients), events).value.made, name) > 1 <==> ReadAgain(Start(clients), events, name)
  {
    CountsCalls(clients, events, name);
  }

  /** The event ends the making of `name` well, inside of another making of it or not. */
  predicate Makes(c: Content, e: Event, name: string) {
    e.Returns? && c.making != [] && c.making[|c.making| - 1] == name
  }

  predicate MakesInside(c: Content, e: Event, name: string) {
    Makes(c, e, name) && name in c.making[..|c.making| - 1]
  }

  /** A making of `name` ended well inside of another one. */
  predicate MadeInside(c: Content, events: seq<Event>, name: string) {
    events != [] &&
    (MadeInside(c, Init(events), name) ||
     (After(c, Init(events)).Some? && MakesInside(After(c, Init(events)).value, events[|events| - 1], name)))
  }

  /** And then another one of it ended well. */
  predicate MadeInsideAndAgain(c: Content, events: seq<Event>, name: string) {
    events != [] &&
    (MadeInsideAndAgain(c, Init(events), name) ||
     (&& After(c, Init(events)).Some? && Makes(After(c, Init(events)).value, events[|events| - 1], name)
      && MadeInside(c, Init(events), name)))
  }

  lemma {:induction false} CountsMakings(clients: map<string, Client>, events: seq<Event>, name: string)
    requires MakesClients(events) && After(Start(clients), events).Some?
    ensures var c := After(Start(clients), events).value;
      && (Timed(c.made, name) > 1 <==> MadeInsideAndAgain(Start(clients), events, name))
      && (Timed(c.made, name) == 0 ==> !MadeInside(Start(clients), events, name))
      && (Timed(c.made, name) == 1 && name in c.making ==> MadeInside(Start(clients), events, name))
  {
    if events != [] {
      var init, e := Init(events), events[|events| - 1];
      CountsMakings(clients, init, name);
      NameInvHolds(clients, init, name);
      var c := After(Start(clients), init).value;
      if e.Returns? {
        assert c.making == c.making[..|c.making| - 1] + [c.making[|c.making| - 1]];
      }
    }
  }

  /**
   * In every run, functions that throw included: a client is made more than once if and only if a making of it
   * ended well inside of another one, and another one ended well after that.
   */
  lemma MadeAgain(clients: map<string, Client>, events: seq<Event>, name: string)
    requires MakesClients(events) && After(Start(clients), events).Some?
    ensures Timed(After(Start(clients), events).value.made, name) > 1 <==>
      MadeInsideAndAgain(Start(clients), events, name)
  {
    CountsMakings(clients, events, name);
  }

  /**
   * A client that was made and is not being made again stays, is not made again, and answers every later read that
   * gets to it. So the outermost making of a client decides.
   */
  lemma {:induction false} MadeClientStays(c: Content, events: seq<Event>, name: string)
    requires name in c.clients && c.clients[name].Plain? && name !in c.making
    requires After(c, events).Some?
    ensures var d := After(c, events).value;
      && name in d.clients && d.clients[name] == c.clients[name] && name !in d.making
      && Timed(d.made, name) == Timed(c.made, name)
      && forall r: Read :: r.property == name && IsDirect(d, r) ==> AnswerTo(d, r) == Some(Answered(c.clients[name]))
  {
    if events != [] {
      MadeClientStays(c, Init(events), name);
    }
  }

  /** The outermost making of a client decides what it is: what it returns is there from then on. */
  lemma OutermostMakingStays(c: Content, client: Client, events: seq<Event>)
    requires Enabled(c, Returns(client)) && client.Plain?
    requires c.making[|c.making| - 1] !in c.making[..|c.making| - 1]
    requires After(Step(c, Returns(client)), events).Some?
    ensures var name, d := c.making[|c.making| - 1], After(Step(c, Returns(client)), events).value;
      name in d.clients && d.clients[name] == client && Timed(d.made, name) == Timed(c.made, name) + 1
  {
    MadeClientStays(Step(c, Returns(client)), events, c.making[|c.making| - 1]);
  }

  /**
   * A function that reads its own client back, as circular factories may: the client is made twice, and the inner
   * one, which was handed out, is replaced.
   */
  lemma CircularClientIsMadeTwice(name: string, inner: Client, outer: Client)
    requires inner.Plain? && outer.Plain? && inner != outer
    ensures
      var read := Reads(Read(name, None, None));
      var start := Start(map[name := Lazy(0)]);
      var half := After(start, [read, read, Returns(inner)]);
      var whole := After(start, [read, read, Returns(inner), Returns(outer)]);
      && half.Some? && half.value.clients == map[name := inner]
      && whole.Some? && whole.value.clients == map[name := outer]
      && Timed(whole.value.made, name) == 2 && whole.value.making == []
  {
    var read := Reads(Read(name, None, None));
    var start := Start(map[name := Lazy(0)]);
    CircularSteps(name, inner, outer);
    hide Step, Enabled;
    AfterTwo(start, read, read);
    AfterNext(start, [read, read], Returns(inner));
    AfterNext(start, [read, read, Returns(inner)], Returns(outer));
    hide After;
    assert [read, read] + [Returns(inner)] == [read, read, Returns(inner)];
    assert [read, read, Returns(inner)] + [Returns(outer)] == [read, read, Returns(inner), Returns(outer)];
  }

  lemma AfterTwo(c: Content, a: Event, b: Event)
    requires Enabled(c, a) && Enabled(Step(c, a), b)
    ensures After(c, [a, b]) == Some(Step(Step(c, a), b))
  {
    hide Step, Enabled;
    AfterNext(c, [], a);
    AfterNext(c, [a], b);
    assert [] + [a] == [a] && [a] + [b] == [a, b];
  }

  lemma CircularSteps(name: string, inner: Client, outer: Client)
    ensures
      var read := Reads(Read(name, None, None));
      var start := Start(map[name := Lazy(0)]);
      && Enabled(start, read) && Enabled(Step(start, read), read)
      && Enabled(Step(Step(start, read), read), Returns(inner))
      && Step(Step(Step(start, read), read), Returns(inner)) == Content(map[name := inner], [name], map[name := 1])
      && Enabled(Content(map[name := inner], [name], map[name := 1]), Returns(outer))
      && Step(Content(map[name := inner], [name], map[name := 1]), Returns(outer)) ==
         Content(map[name := outer], [], map[name := 2])
  {
    var read := Reads(Read(name, None, None));
    var start := Start(map[name := Lazy(0)]);
    assert Step(start, read) == start.(making := [name]) by {
      assert [] + [name] == [name];
    }
    assert Step(start.(making := [name]), read) == start.(making := [name, name]) by {
      assert [name] + [name] == [name, name];
    }
    hide Step;
    InnerReturns(name, inner);
    OuterReturns(name, inner, outer);
  }

  lemma InnerReturns(name: string, inner: Client)
    ensures
      var called := Content(map[name := Lazy(0)], [name, name], map[]);
      && Enabled(called, Returns(inner))
      && Step(called, Returns(inner)) == Content(map[name := inner], [name], map[name := 1])
  {
    assert [name, name][..1] == [name];
    assert map[name := Lazy(0)][name := inner] == map[name := inner];
  }

  lemma OuterReturns(name: string, inner: Client, outer: Client)
    ensures
      var half := Content(map[name := inner], [name], map[name := 1]);
      && Enabled(half, Returns(outer))
      && Step(half, Returns(outer)) == Content(map[name := outer], [], map[name := 2])
  {
    assert [name][..0] == [];
    assert map[name := inner][name := outer] == map[name := outer];
    assert map[name := 1][name := 2] == map[name := 2];
  }
}
