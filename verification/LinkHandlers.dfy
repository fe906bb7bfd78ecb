/** The handlers that answer a link, and the dispatch over all of them. */
module LinkHandlers {
  import opened Common
  import opened LinkedContexts

  const FACTORY := "@ez4/factory"
  const VALIDATION := "@ez4/validation"
  const COMMON := "@ez4/common"
  const VARIABLES := "@variables"

  predicate Expandable(kind: string) {
    kind == FACTORY || kind == VALIDATION
  }

  /** The answer for a factory or a validation: its own services, limited to the ones its handler uses. */
  function LinkedClient(service: Service): Source {
    Source(Client(service.options, service.name), service.variables,
           if service.services.None? then None
           else if service.references.None? then service.services
           else Some(map n | n in service.services.value && n in service.references.value :: service.services.value[n]))
  }

  /** The answer for the built-in services: the options client carries the options of the target. */
  function CommonClient(target: Service, service: Service): Option<Source> {
    if service.kind != COMMON then None
    else if service.name == VARIABLES then Some(Source(Client(None, "VariablesClient"), None, None))
    else Some(Source(Client(target.options, "OptionsClient"), None, None))
  }

  datatype Trigger = Factory | Validation | Other(handler: Handler) {
    function Handle(target: Service, service: Service): Option<Source> {
      match this
      case Factory => if service.kind == FACTORY then Some(LinkedClient(service)) else None
      case Validation => if service.kind == VALIDATION then Some(LinkedClient(service)) else None
      case Other(h) => h(target, service)
    }

    /** A provider's own handler answers for its own kinds of service, and links no further. */
    ghost predicate LinksNoFurther() {
      Other? ==> forall t, s :: handler(t, s).Some? ==> !Expandable(s.kind) && handler(t, s).value.services.None?
    }
  }

  type Metadata = map<string, Service>

  /** The first answer of the registered triggers. */
  function TriggerAll(triggers: seq<Trigger>, target: Service, service: Service): Option<Source> {
    if triggers == [] then None
    else if triggers[0].Handle(target, service).Some? then triggers[0].Handle(target, service)
    else TriggerAll(triggers[1..], target, service)
  }

  function Dispatch(triggers: seq<Trigger>, m: Metadata): World {
    World(m, (t, s) => TriggerAll(triggers, t, s))
  }

  lemma KindsDiffer()
    ensures FACTORY != VALIDATION && COMMON != FACTORY && COMMON != VALIDATION
  {
    assert FACTORY[5] != VALIDATION[5] && COMMON[5] != FACTORY[5] && COMMON[5] != VALIDATION[5];
  }

  lemma CommonLinksNoFurther()
    ensures Other(CommonClient).LinksNoFurther()
  {
    KindsDiffer();
  }

  /** For an expandable service the target does not matter, and neither do the options; other services end there. */
  lemma {:induction false} AnswerDependsOnKind(triggers: seq<Trigger>, t: Service, t': Service, s: Service, s': Service)
    requires forall trigger :: trigger in triggers ==> trigger.LinksNoFurther()
    requires s.kind == s'.kind
    ensures Expandable(s.kind) ==>
              && (TriggerAll(triggers, t, s).Some? <==> TriggerAll(triggers, t', s').Some?)
              && (TriggerAll(triggers, t, s).Some? ==> TriggerAll(triggers, t, s).value == LinkedClient(s))
              && (TriggerAll(triggers, t', s').Some? ==> TriggerAll(triggers, t', s').value == LinkedClient(s'))
    ensures !Expandable(s.kind) && TriggerAll(triggers, t, s).Some? ==> TriggerAll(triggers, t, s).value.services.None?
  {
    if triggers != [] {
      assert triggers[0].LinksNoFurther();
      AnswerDependsOnKind(triggers[1..], t, t', s, s');
    }
  }

  /** Whatever providers are registered and in whatever order, the dispatch is what the builder relies on. */
  lemma DispatchIsWellBehaved(triggers: seq<Trigger>, m: Metadata)
    requires forall trigger :: trigger in triggers ==> trigger.LinksNoFurther()
    ensures WellBehaved(Dispatch(triggers, m))
  {
    var w := Dispatch(triggers, m);
    forall t, l | Expands(w, t, l)
      ensures ExpandsItself(w, t, l)
    {
      var s := Linked(w, l);
      AnswerDependsOnKind(triggers, t, t, s, s);
    }
    forall t, l, t', l': Link | Expands(w, t, l) && l'.reference == l.reference
      ensures ExpandsAlike(w, t, l, t', l')
    {
      AnswerDependsOnKind(triggers, t, t', Linked(w, l), Linked(w, l'));
    }
  }

  // ---------------------------------------------------------------------------------
  // What the answers hold

  /** The answer of the first trigger that has one, whatever the later ones would say. */
  lemma {:induction false} FirstAnswers(triggers: seq<Trigger>, t: Service, s: Service, source: Source)
    ensures TriggerAll(triggers, t, s) == Some(source) <==>
      exists i :: 0 <= i < |triggers| && IsFirst(triggers, t, s, i) && triggers[i].Handle(t, s) == Some(source)
    ensures TriggerAll(triggers, t, s).None? <==> forall i :: 0 <= i < |triggers| ==> triggers[i].Handle(t, s).None?
  {
    if triggers != [] {
      var rest := triggers[1..];
      FirstAnswers(rest, t, s, source);
      assert forall i :: 0 <= i < |rest| ==> rest[i] == triggers[i + 1];
      if triggers[0].Handle(t, s).Some? {
        assert IsFirst(triggers, t, s, 0);
      } else {
        forall i | 0 <= i < |rest|
          ensures IsFirst(rest, t, s, i) <==> IsFirst(triggers, t, s, i + 1)
        {
          FirstOfRest(triggers, t, s, i);
        }
        if i :| 0 <= i < |rest| && IsFirst(rest, t, s, i) && rest[i].Handle(t, s) == Some(source) {
          assert IsFirst(triggers, t, s, i + 1);
        }
        if i :| 0 <= i < |triggers| && IsFirst(triggers, t, s, i) && triggers[i].Handle(t, s) == Some(source) {
          assert IsFirst(rest, t, s, i - 1) && rest[i - 1] == triggers[i];
        }
      }
    }
  }

  ghost predicate IsFirst(triggers: seq<Trigger>, t: Service, s: Service, i: int) {
    0 <= i < |triggers| && forall j :: 0 <= j < i ==> triggers[j].Handle(t, s).None?
  }

  lemma FirstOfRest(triggers: seq<Trigger>, t: Service, s: Service, i: nat)
    requires i + 1 < |triggers| && triggers[0].Handle(t, s).None?
    ensures IsFirst(triggers[1..], t, s, i) <==> IsFirst(triggers, t, s, i + 1)
  {
    if IsFirst(triggers[1..], t, s, i) {
      forall j | 0 <= j < i + 1
        ensures triggers[j].Handle(t, s).None?
      {
        assert j > 0 ==> triggers[1..][j - 1] == triggers[j];
      }
    }
    if IsFirst(triggers, t, s, i + 1) {
      forall j | 0 <= j < i
        ensures triggers[1..][j].Handle(t, s).None?
      {
        assert triggers[1..][j] == triggers[j + 1];
      }
    }
  }

  /** The services its handler refers to, out of those it links; all of them when that is not known. */
  ghost predicate AreInUse(service: Service, services: Option<Links>) {
    && (services.Some? <==> service.services.Some?)
    && (services.Some? ==>
          && (forall n :: n in services.value <==>
                n in service.services.value && (service.references.Some? ==> n in service.references.value))
          && SubMap(services.value, service.services.value))
  }

  /** The answer for a factory or a validation, whoever asks: its own options and variables, and the services in use. */
  lemma {:induction false} ExpandableAnswer(triggers: seq<Trigger>, t: Service, s: Service)
    requires forall trigger :: trigger in triggers ==> trigger.LinksNoFurther()
    requires Expandable(s.kind)
    ensures TriggerAll(triggers, t, s).Some? <==>
      (s.kind == FACTORY && Factory in triggers) || (s.kind == VALIDATION && Validation in triggers)
    ensures TriggerAll(triggers, t, s).Some? ==>
      var Source(client, variables, services) := TriggerAll(triggers, t, s).value;
      client == Client(s.options, s.name) && variables == s.variables && AreInUse(s, services)
  {
    KindsDiffer();
    if triggers != [] {
      assert triggers[0].LinksNoFurther();
      ExpandableAnswer(triggers[1..], t, s);
    }
  }

  /** The built-in services: one client knows the variables, every other one the options of the service that asks. */
  lemma CommonAnswer(t: Service, s: Service)
    ensures s.kind != COMMON <==> CommonClient(t, s).None?
    ensures s.kind == COMMON ==>
      var Source(client, variables, services) := CommonClient(t, s).value;
      && variables.None? && services.None?
      && (s.name == VARIABLES <==> client.code == "VariablesClient")
      && (s.name != VARIABLES <==> client.code == "OptionsClient")
      && (s.name == VARIABLES ==> client.options.None?)
      && (s.name != VARIABLES ==> client.options == t.options)
  {
    assert "VariablesClient"[0] != "OptionsClient"[0];
  }

  /**
   * When a path ends at a factory or a validation, its client has the options its last link sets, and those of the
   * service that the link does not set, and no others.
   */
  lemma UnfoldedOptions(
    triggers: seq<Trigger>, m: Metadata, root: Node, path: seq<string>, u: Node, client: Client
  )
    requires forall trigger :: trigger in triggers ==> trigger.LinksNoFurther()
    requires path != [] && Walk(Dispatch(triggers, m), root, path[..|path| - 1]) == Some(u)
    requires Unfold(Dispatch(triggers, m), root, path) == Some(client)
    ensures path[|path| - 1] in u.links && u.links[path[|path| - 1]].reference in m
    ensures
      var link := u.links[path[|path| - 1]];
      var base := m[link.reference];
      Expandable(base.kind) ==>
      && client.options.Some?
      && forall name, value ::
        HasOption(client.options, name, value) <==>
        || HasOption(link.options, name, value)
        || (!SetsOption(link.options, name) && HasOption(base.options, name, value))
  {
    var w := Dispatch(triggers, m);
    UnfoldEnds(w, root, path, u);
    var link := u.links[path[|path| - 1]];
    if Expandable(m[link.reference].kind) {
      var s := Linked(w, link);
      LinkedIsMerged(w, link, s);
      ExpandableAnswer(triggers, u.service, s);
    }
  }
}
