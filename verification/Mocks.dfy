/** Mocking the clients of emulated services, over the emulators a tester was configured with. */
module Mocks {
  import opened Common

  /** A client is a value, or a function that is called for it. */
  datatype Client = Value(id: nat) | Function(result: nat)

  /** An export handler: the one a service was configured with, or one that always answers `client`. */
  datatype Handler = Configured(id: nat) | Always(client: Client)

  datatype Emulator = Emulator(service: string, exportHandler: Option<Handler>)

  datatype State = State(emulators: map<string, Emulator>, originals: map<string, Option<Handler>>)

  datatype Operation = Mock(name: string, client: Client) | Restore(name: string)

  /** An operation on an unknown service throws and changes nothing. */
  function Apply(s: State, op: Operation): State {
    if op.name !in s.emulators then s else
      var emulator := s.emulators[op.name];
      match op
      case Mock(name, client) =>
        State(s.emulators[name := emulator.(exportHandler := Some(Always(client)))],
              if name in s.originals then s.originals else s.originals[name := emulator.exportHandler])
      case Restore(name) =>
        if name !in s.originals then s else
          State(s.emulators[name := emulator.(exportHandler := s.originals[name])], s.originals - {name})
  }

  function ApplyAll(s: State, ops: seq<Operation>): State {
    if ops == [] then s else Apply(ApplyAll(s, ops[..|ops| - 1]), ops[|ops| - 1])
  }

  datatype Found = NotFound | NoClient | FromHandler(id: nat) | Client(value: nat)

  function Answer(handler: Option<Handler>): Found {
    match handler
    case None => NoClient
    case Some(Configured(id)) => FromHandler(id)
    case Some(Always(Value(id))) => Found.Client(id)
    case Some(Always(Function(result))) => Found.Client(result)
  }

  class Tester {
    var emulators: map<string, Emulator>
    var originals: map<string, Option<Handler>>

    constructor Configure(emulators: map<string, Emulator>)
      ensures Now() == State(emulators, map[])
    {
      this.emulators := emulators;
      originals := map[];
    }

    ghost function Now(): State
      reads this
    {
      State(emulators, originals)
    }

    method MockServiceClient(name: string, client: Client) returns (found: bool)
      modifies this
      ensures found == (name in old(emulators))
      ensures Now() == Apply(old(Now()), Mock(name, client))
    {
      if name !in emulators {
        return false;
      }
      var emulator := emulators[name];
      if name !in originals {
        originals := originals[name := emulator.exportHandler];
      }
      emulators := emulators[name := emulator.(exportHandler := Some(Always(client)))];
      return true;
    }

    method RestoreServiceClient(name: string) returns (found: bool)
      modifies this
      ensures found == (name in old(emulators))
      ensures Now() == Apply(old(Now()), Restore(name))
    {
      if name !in emulators {
        return false;
      }
      if name in originals {
        emulators := emulators[name := emulators[name].(exportHandler := originals[name])];
        originals := originals - {name};
      }
      return true;
    }

    method GetServiceClient(name: string) returns (found: Found)
      ensures found == if name in emulators then Answer(emulators[name].exportHandler) else NotFound
    {
      if name !in emulators {
        return NotFound;
      }
      found := Answer(emulators[name].exportHandler);
    }
  }

  // ---------------------------------------------------------------------------------
  // A simple overlay

  /** The latest mock of a service that was not restored since. */
  function Latest(ops: seq<Operation>, name: string): Option<Client> {
    if ops == [] then None
    else
      var op := ops[|ops| - 1];
      if op.name != name then Latest(ops[..|ops| - 1], name)
      else if op.Mock? then Some(op.client)
      else None
  }

  /** A configured emulator under its latest mock, if it has one. */
  function Overlaid(base: Emulator, mock: Option<Client>): Emulator {
    if mock.Some? then base.(exportHandler := Some(Always(mock.value))) else base
  }

  /** `s` is the configured emulators under the mocks of `ops`, and remembers the real handler of each mocked one. */
  ghost predicate Overlays(base: map<string, Emulator>, ops: seq<Operation>, s: State) {
    && s.emulators.Keys == base.Keys
    && (forall n :: n in base ==> s.emulators[n] == Overlaid(base[n], Latest(ops, n)))
    && (forall n :: n in s.originals <==> n in base && Latest(ops, n).Some?)
    && (forall n :: n in s.originals ==> s.originals[n] == base[n].exportHandler)
  }

  lemma {:induction false} MocksAreAnOverlay(base: map<string, Emulator>, ops: seq<Operation>)
    ensures Overlays(base, ops, ApplyAll(State(base, map[]), ops))
  {
    if ops != [] {
      MocksAreAnOverlay(base, ops[..|ops| - 1]);
    }
  }

  /** After any mocks and restores, a service answers its latest mock, or else as it was configured to. */
  lemma LookupAfterMocks(base: map<string, Emulator>, ops: seq<Operation>, name: string)
    ensures var s := ApplyAll(State(base, map[]), ops);
      && (name in s.emulators <==> name in base)
      && (name in base ==>
            && s.emulators[name].service == base[name].service
            && var found, mock := Answer(s.emulators[name].exportHandler), Latest(ops, name);
               && (mock.Some? && mock.value.Value? ==> found == Found.Client(mock.value.id))
               && (mock.Some? && mock.value.Function? ==> found == Found.Client(mock.value.result))
               && (mock.None? && base[name].exportHandler.None? ==> found == NoClient)
               && forall id :: mock.None? && base[name].exportHandler == Some(Configured(id)) ==>
                 found == FromHandler(id))
  {
    MocksAreAnOverlay(base, ops);
  }

  /** Restoring every service, however often each was mocked, gives back the emulators it was configured with. */
  lemma RestoringAllRestoresAll(base: map<string, Emulator>, ops: seq<Operation>)
    requires forall n :: n in base ==> Latest(ops, n).None?
    ensures ApplyAll(State(base, map[]), ops) == State(base, map[])
  {
    MocksAreAnOverlay(base, ops);
    var s := ApplyAll(State(base, map[]), ops);
    assert s.emulators == base;
    assert s.originals == map[];
  }
}
