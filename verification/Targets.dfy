/**
 * The targets of a project, prepared one after another. A factory or a validation answers with the variables it has
 * at the time, which grow when it is prepared as a target itself.
 */
module Targets {
  import opened Common
  import opened LinkedContexts
  import opened LinkHandlers
  import Layers
  import Orders

  type Fact = Orders.Fact

  /** Services that differ in their variables only. */
  predicate SameButVariables(a: Service, b: Service) {
    a.(variables := None) == b.(variables := None)
  }

  /** A provider's own handler does not look at the variables of a service. */
  ghost predicate IgnoresVariables(trigger: Trigger) {
    trigger.Other? ==> forall t, t', s, s' :: SameButVariables(t, t') && SameButVariables(s, s') ==>
      trigger.handler(t, s) == trigger.handler(t', s')
  }

  ghost predicate AreProper(triggers: seq<Trigger>) {
    forall trigger :: trigger in triggers ==> trigger.LinksNoFurther() && IgnoresVariables(trigger)
  }

  function AllTargets(m: Metadata): set<string> {
    set n | n in m && m[n].services.Some?
  }

  function Root(m: Metadata, t: string): Node
    requires t in m && m[t].services.Some?
  {
    Node(m[t], m[t].services.value)
  }

  // ---------------------------------------------------------------------------------
  // Metadata that differ in variables only

  /** The same services, with variables where the others have some. */
  ghost predicate Alike(m: Metadata, m': Metadata) {
    && m.Keys == m'.Keys
    && forall n :: n in m ==> SameButVariables(m[n], m'[n]) && (m[n].variables.Some? <==> m'[n].variables.Some?)
  }

  ghost predicate AlikeNodes(u: Node, u': Node) {
    SameButVariables(u.service, u'.service) && u.links == u'.links
  }

  /** The answer for an expandable service has its variables, any other does not depend on variables. */
  lemma {:induction false} AnswersAlike(triggers: seq<Trigger>, t: Service, t': Service, s: Service, s': Service)
    requires AreProper(triggers) && SameButVariables(t, t') && SameButVariables(s, s')
    ensures TriggerAll(triggers, t, s).Some? <==> TriggerAll(triggers, t', s').Some?
    ensures TriggerAll(triggers, t, s).Some? ==>
      var answer, answer' := TriggerAll(triggers, t, s).value, TriggerAll(triggers, t', s').value;
      if Expandable(s.kind) then answer == LinkedClient(s) && answer' == LinkedClient(s')
      else answer == answer' && answer.services.None?
  {
    assert forall trigger :: trigger in triggers ==> trigger.LinksNoFurther();
    AnswerDependsOnKind(triggers, t, t', s, s');
    if triggers != [] {
      assert triggers[0] in triggers;
      AnswersAlike(triggers[1..], t, t', s, s');
    }
  }

  lemma AskedAlike(triggers: seq<Trigger>, m: Metadata, m': Metadata, u: Node, u': Node, name: string)
    requires AreProper(triggers) && Alike(m, m') && AlikeNodes(u, u') && name in u.links
    ensures
      var a, a' := Ask(Dispatch(triggers, m), u, name), Ask(Dispatch(triggers, m'), u', name);
      && (a.Missing? <==> a'.Missing?) && (a.Answered? <==> a'.Answered?)
      && (a.Answered? ==>
            var r := u.links[name].reference;
            && r in m
            && (a.child.Some? <==> a'.child.Some?)
            && (a.child.Some? ==> AlikeNodes(a.child.value, a'.child.value))
            && if Expandable(m[r].kind) then
                 a.source.variables == m[r].variables && a'.source.variables == m'[r].variables
               else a.source.variables == a'.source.variables)
  {
    var link := u.links[name];
    if link.reference in m {
      var s, s' := Linked(Dispatch(triggers, m), link), Linked(Dispatch(triggers, m'), link);
      assert SameButVariables(m[link.reference], m'[link.reference]);
      assert SameButVariables(s, s');
      AnswersAlike(triggers, u.service, u'.service, s, s');
    }
  }

  lemma {:induction false} WalkedAlike(
    triggers: seq<Trigger>, m: Metadata, m': Metadata, u: Node, u': Node, path: seq<string>
  )
    requires AreProper(triggers) && Alike(m, m') && AlikeNodes(u, u')
    ensures
      var v, v' := Walk(Dispatch(triggers, m), u, path), Walk(Dispatch(triggers, m'), u', path);
      (v.Some? <==> v'.Some?) && (v.Some? ==> AlikeNodes(v.value, v'.value))
    decreases path
  {
    if path != [] && path[0] in u.links {
      AskedAlike(triggers, m, m', u, u', path[0]);
      var c, c' := Child(Dispatch(triggers, m), u, path[0]), Child(Dispatch(triggers, m'), u', path[0]);
      if c.Some? {
        WalkedAlike(triggers, m, m', c.value, c'.value, path[1..]);
      }
    }
  }

  /** What one root reaches, the other does. */
  lemma ReachedAlike(triggers: seq<Trigger>, m: Metadata, m': Metadata, t: string, u: Node) returns (u': Node)
    requires AreProper(triggers) && Alike(m, m') && t in AllTargets(m)
    requires Reachable(Dispatch(triggers, m), Root(m, t), u)
    ensures t in AllTargets(m')
    ensures Reachable(Dispatch(triggers, m'), Root(m', t), u') && AlikeNodes(u, u')
  {
    assert SameButVariables(m[t], m'[t]);
    var path :| Walk(Dispatch(triggers, m), Root(m, t), path) == Some(u);
    WalkedAlike(triggers, m, m', Root(m, t), Root(m', t), path);
    u' := Walk(Dispatch(triggers, m'), Root(m', t), path).value;
  }

  // ---------------------------------------------------------------------------------
  // What a target takes over

  ghost function FactsIn(variables: Option<Variables>): set<Fact> {
    if variables.Some? then set a | a in variables.value :: (a, variables.value[a]) else {}
  }

  ghost predicate ReadsThrough(triggers: seq<Trigger>, m: Metadata, t: string, u: Node, name: string, r: string)
    requires t in AllTargets(m)
  {
    var w := Dispatch(triggers, m);
    && Reachable(w, Root(m, t), u) && name in u.links && u.links[name].reference == r
    && r in m && Expandable(m[r].kind) && Ask(w, u, name).Answered?
  }

  /** The target takes over the variables that `r` has at the time. */
  ghost predicate IsRead(triggers: seq<Trigger>, m: Metadata, t: string, r: string)
    requires t in AllTargets(m)
  {
    exists u, name :: ReadsThrough(triggers, m, t, u, name, r)
  }

  ghost predicate FixedThrough(triggers: seq<Trigger>, m: Metadata, t: string, u: Node, name: string, f: Fact)
    requires t in AllTargets(m)
  {
    var w := Dispatch(triggers, m);
    && Reachable(w, Root(m, t), u) && Sends(w, u, name, f.0, f.1)
    && u.links[name].reference in m && !Expandable(m[u.links[name].reference].kind)
  }

  /** The target takes over a variable that is the same at all times. */
  ghost predicate IsFixed(triggers: seq<Trigger>, m: Metadata, t: string, f: Fact)
    requires t in AllTargets(m)
  {
    exists u, name :: FixedThrough(triggers, m, t, u, name, f)
  }

  /** Every link the target reaches resolves, and it may take over variables if one sends some. */
  ghost predicate IsSupported(triggers: seq<Trigger>, m: Metadata, t: string)
    requires t in AllTargets(m)
  {
    forall u, name :: Reachable(Dispatch(triggers, m), Root(m, t), u) && name in u.links ==>
      Supported(Dispatch(triggers, m), m[t].variables, u, name)
  }

  lemma ReadAlike(triggers: seq<Trigger>, m: Metadata, m': Metadata, t: string, r: string)
    requires AreProper(triggers) && Alike(m, m') && t in AllTargets(m) && IsRead(triggers, m, t, r)
    ensures t in AllTargets(m')
    ensures exists u, name :: ReadsThrough(triggers, m', t, u, name, r)
  {
    var u, name :| ReadsThrough(triggers, m, t, u, name, r);
    var u' := ReachedAlike(triggers, m, m', t, u);
    AskedAlike(triggers, m, m', u, u', name);
    assert SameButVariables(m[r], m'[r]);
    assert ReadsThrough(triggers, m', t, u', name, r);
  }

  lemma FixedAlike(triggers: seq<Trigger>, m: Metadata, m': Metadata, t: string, f: Fact)
    requires AreProper(triggers) && Alike(m, m') && t in AllTargets(m) && IsFixed(triggers, m, t, f)
    ensures t in AllTargets(m')
    ensures exists u, name :: FixedThrough(triggers, m', t, u, name, f)
  {
    var u, name :| FixedThrough(triggers, m, t, u, name, f);
    var u' := ReachedAlike(triggers, m, m', t, u);
    AskedAlike(triggers, m, m', u, u', name);
    var r := u.links[name].reference;
    assert SameButVariables(m[r], m'[r]);
    assert FixedThrough(triggers, m', t, u', name, f);
  }

  lemma SupportedAlike(triggers: seq<Trigger>, m: Metadata, m': Metadata, t: string)
    requires AreProper(triggers) && Alike(m, m') && Alike(m', m) && t in AllTargets(m) && IsSupported(triggers, m, t)
    ensures t in AllTargets(m') && IsSupported(triggers, m', t)
  {
    assert SameButVariables(m[t], m'[t]);
    forall u', name | Reachable(Dispatch(triggers, m'), Root(m', t), u') && name in u'.links
      ensures Supported(Dispatch(triggers, m'), m'[t].variables, u', name)
    {
      var u := ReachedAlike(triggers, m', m, t, u');
      AskedAlike(triggers, m, m', u, u', name);
      assert Supported(Dispatch(triggers, m), m[t].variables, u, name);
    }
  }

  /** What a target has, with what it takes over now: by what it reads in metadata of other variables. */
  lemma ContributedIs(triggers: seq<Trigger>, m: Metadata, now: Metadata, t: string, f: Fact)
    requires AreProper(triggers) && Alike(m, now) && Alike(now, m) && t in AllTargets(m)
    ensures t in AllTargets(now)
    ensures Contributed(Dispatch(triggers, now), Root(now, t), now[t].variables, f.0, f.1) <==>
      || f in FactsIn(now[t].variables)
      || IsFixed(triggers, m, t, f)
      || (exists r :: r in now && IsRead(triggers, m, t, r) && f in FactsIn(now[r].variables))
  {
    var w := Dispatch(triggers, now);
    assert SameButVariables(m[t], now[t]);
    if u, name :| Reachable(w, Root(now, t), u) && Sends(w, u, name, f.0, f.1) {
      SentIs(triggers, m, now, t, f, u, name);
    }
    if IsFixed(triggers, m, t, f) {
      FixedAlike(triggers, m, now, t, f);
      var u, name :| FixedThrough(triggers, now, t, u, name, f);
    }
    if r :| r in now && IsRead(triggers, m, t, r) && f in FactsIn(now[r].variables) {
      ReadAlike(triggers, m, now, t, r);
      var u, name :| ReadsThrough(triggers, now, t, u, name, r);
      AskedAlike(triggers, now, now, u, u, name);
      assert Sends(w, u, name, f.0, f.1);
    }
  }

  lemma SentIs(triggers: seq<Trigger>, m: Metadata, now: Metadata, t: string, f: Fact, u: Node, name: string)
    requires AreProper(triggers) && Alike(m, now) && Alike(now, m) && t in AllTargets(m) && t in AllTargets(now)
    requires Reachable(Dispatch(triggers, now), Root(now, t), u) && Sends(Dispatch(triggers, now), u, name, f.0, f.1)
    ensures
      || IsFixed(triggers, m, t, f)
      || (exists r :: r in now && IsRead(triggers, m, t, r) && f in FactsIn(now[r].variables))
  {
    var u' := ReachedAlike(triggers, now, m, t, u);
    AskedAlike(triggers, now, m, u, u', name);
    var r := u.links[name].reference;
    assert SameButVariables(now[r], m[r]);
    if Expandable(now[r].kind) {
      assert ReadsThrough(triggers, m, t, u', name, r);
      assert f in FactsIn(now[r].variables);
    } else {
      assert FixedThrough(triggers, m, t, u', name, f);
    }
  }

  // ---------------------------------------------------------------------------------
  // The targets as a system

  /** The services that a link of the target, or one of them, can be asked of. */
  ghost function Askers(w: World, root: Node): set<Service> {
    {root.service} + set l | l in AllLinks(w, root) && l.reference in w.metadata :: Linked(w, l)
  }

  /** All a target can be sent. */
  ghost function Sendable(w: World, root: Node): set<Fact> {
    set s, l, f |
      && s in Askers(w, root) && l in AllLinks(w, root) && l.reference in w.metadata && w.handler(s, Linked(w, l)).Some?
      && f in FactsIn(w.handler(s, Linked(w, l)).value.variables) :: f
  }

  lemma {:induction false} WalkStaysKnown(w: World, root: Node, u: Node, path: seq<string>, v: Node)
    requires WellBehaved(w) && u.links.Values <= AllLinks(w, root) && u.service in Askers(w, root)
    requires Walk(w, u, path) == Some(v)
    ensures v.links.Values <= AllLinks(w, root) && v.service in Askers(w, root)
    decreases path
  {
    if path != [] {
      var child := Child(w, u, path[0]).value;
      ChildIsKnown(w, root, u, path[0]);
      assert u.links[path[0]] in u.links.Values;
      assert child.service == Linked(w, u.links[path[0]]);
      hide WellBehaved;
      WalkStaysKnown(w, root, child, path[1..], v);
    }
  }

  lemma SentIsSendable(w: World, root: Node, u: Node, name: string, f: Fact)
    requires WellBehaved(w) && Reachable(w, root, u) && Sends(w, u, name, f.0, f.1)
    ensures f in Sendable(w, root)
  {
    var path :| Walk(w, root, path) == Some(u);
    WalkStaysKnown(w, root, root, path, u);
    var l := u.links[name];
    assert l in u.links.Values && l in AllLinks(w, root);
    assert f in FactsIn(w.handler(u.service, Linked(w, l)).value.variables);
  }

  ghost function Fixed(triggers: seq<Trigger>, m: Metadata, t: string): set<Fact>
    requires t in AllTargets(m)
  {
    set f | f in Sendable(Dispatch(triggers, m), Root(m, t)) && IsFixed(triggers, m, t, f)
  }

  lemma FixedAre(triggers: seq<Trigger>, m: Metadata, t: string, f: Fact)
    requires AreProper(triggers) && t in AllTargets(m)
    ensures f in Fixed(triggers, m, t) <==> IsFixed(triggers, m, t, f)
  {
    assert forall trigger :: trigger in triggers ==> trigger.LinksNoFurther();
    DispatchIsWellBehaved(triggers, m);
    if IsFixed(triggers, m, t, f) {
      var u, name :| FixedThrough(triggers, m, t, u, name, f);
      SentIsSendable(Dispatch(triggers, m), Root(m, t), u, name, f);
    }
  }

  ghost function SystemOf(triggers: seq<Trigger>, m: Metadata): Orders.System {
    Orders.System(
      map t | t in AllTargets(m) :: set r | r in m && IsRead(triggers, m, t, r),
      map t | t in AllTargets(m) :: Fixed(triggers, m, t),
      set t | t in AllTargets(m) && IsSupported(triggers, m, t))
  }

  ghost function FactsOf(m: Metadata): Orders.Facts {
    map n | n in m :: FactsIn(m[n].variables)
  }

  lemma SystemFits(triggers: seq<Trigger>, m: Metadata, now: Metadata)
    requires now.Keys == m.Keys
    ensures Orders.Fits(SystemOf(triggers, m), FactsOf(now)) && SystemOf(triggers, m).read.Keys == AllTargets(m)
  {
  }

  /** What a target has and gets when it is prepared now. */
  ghost predicate Gets(triggers: seq<Trigger>, m: Metadata, t: string, f: Fact)
    requires t in AllTargets(m)
  {
    Contributed(Dispatch(triggers, m), Root(m, t), m[t].variables, f.0, f.1)
  }

  /** The target can be prepared now. */
  ghost predicate CanBePrepared(triggers: seq<Trigger>, m: Metadata, t: string)
    requires t in AllTargets(m)
  {
    Linkable(Dispatch(triggers, m), Root(m, t), m[t].variables)
  }

  /** What a target takes over is what it reads in the system. */
  lemma TakenIsContributed(triggers: seq<Trigger>, m: Metadata, now: Metadata, t: string, f: Fact)
    requires AreProper(triggers) && Alike(m, now) && Alike(now, m) && t in AllTargets(m)
    ensures t in AllTargets(now) && Orders.Fits(SystemOf(triggers, m), FactsOf(now))
    ensures f in Orders.Taken(SystemOf(triggers, m), FactsOf(now), t) <==> Gets(triggers, now, t, f)
  {
    SystemFits(triggers, m, now);
    ContributedIs(triggers, m, now, t, f);
    FixedAre(triggers, m, t, f);
    Orders.TakenIs(SystemOf(triggers, m), FactsOf(now), t, f);
    var sys, facts := SystemOf(triggers, m), FactsOf(now);
    assert Orders.IsReadFact(sys, facts, t, f) <==>
      (exists r :: r in now && IsRead(triggers, m, t, r) && f in FactsIn(now[r].variables)) by {
      if r :| r in now && IsRead(triggers, m, t, r) && f in FactsIn(now[r].variables) {
        assert r in sys.read[t] && f in facts[r];
      }
    }
    hide IsRead, IsFixed, Contributed, Fixed, FactsIn;
  }

  /** And it can take it over just when it can be linked. */
  lemma CanTakeIsLinkable(triggers: seq<Trigger>, m: Metadata, now: Metadata, t: string)
    requires AreProper(triggers) && Alike(m, now) && Alike(now, m) && t in AllTargets(m)
    ensures t in AllTargets(now) && Orders.Fits(SystemOf(triggers, m), FactsOf(now))
    ensures Orders.CanTake(SystemOf(triggers, m), FactsOf(now), t) <==> CanBePrepared(triggers, now, t)
  {
    var sys, facts, w := SystemOf(triggers, m), FactsOf(now), Dispatch(triggers, now);
    SystemFits(triggers, m, now);
    assert SameButVariables(m[t], now[t]);
    if IsSupported(triggers, m, t) {
      SupportedAlike(triggers, m, now, t);
    }
    if IsSupported(triggers, now, t) {
      SupportedAlike(triggers, now, m, t);
    }
    assert IsSupported(triggers, now, t) <==> t in sys.supported;
    forall f
      ensures f in Orders.Taken(sys, facts, t) <==> Contributed(w, Root(now, t), now[t].variables, f.0, f.1)
    {
      TakenIsContributed(triggers, m, now, t, f);
    }
    ConsistentIs(Orders.Taken(sys, facts, t), w, Root(now, t), now[t].variables);
    hide Contributed, Orders.Taken, SystemOf, Consistent, Orders.Consistent;
  }

  lemma ConsistentIs(facts: set<Fact>, w: World, root: Node, own: Option<Variables>)
    requires forall f :: f in facts <==> Contributed(w, root, own, f.0, f.1)
    ensures Orders.Consistent(facts) <==> Consistent(w, root, own)
  {
    hide Contributed;
    forall a, x
      ensures (a, x) in facts <==> Contributed(w, root, own, a, x)
    {
      var f := (a, x);
      assert f in facts <==> Contributed(w, root, own, f.0, f.1);
    }
  }

  // ---------------------------------------------------------------------------------
  // Preparing the targets

  /** Target `t` is prepared: its variables are its own and those of every service it reaches, as they are now. */
  ghost predicate Prepares(triggers: seq<Trigger>, m: Metadata, t: string, m': Metadata) {
    && t in AllTargets(m)
    && CanBePrepared(triggers, m, t)
    && t in m' && m' == m[t := m[t].(variables := m'[t].variables)]
    && (m'[t].variables.Some? <==> m[t].variables.Some?)
    && forall f :: f in FactsIn(m'[t].variables) <==> Gets(triggers, m, t, f)
  }

  /** The targets of `order` are prepared one after another. */
  ghost predicate RunsTo(triggers: seq<Trigger>, m: Metadata, order: seq<string>, m': Metadata) {
    if order == [] then m' == m
    else
      var init, t := order[..|order| - 1], order[|order| - 1];
      exists now :: RunsTo(triggers, m, init, now) && Prepares(triggers, now, t, m')
  }

  /** The variables of consistent facts. */
  ghost function VariablesOf(facts: set<Fact>): Variables
    requires Orders.Consistent(facts)
  {
    map f | f in facts :: f.0 := f.1
  }

  lemma VariablesHave(facts: set<Fact>)
    requires Orders.Consistent(facts)
    ensures FactsIn(Some(VariablesOf(facts))) == facts
  {
    var v := VariablesOf(facts);
    forall f | f in facts
      ensures f in FactsIn(Some(v))
    {
      assert f.0 in v && v[f.0] == f.1;
    }
    forall a | a in v
      ensures (a, v[a]) in facts
    {
      var f :| f in facts && f.0 == a;
      assert v[a] == f.1 && f == (a, v[a]);
    }
  }

  /** Every target that can be linked can be prepared. */
  lemma LinkableIsPrepared(triggers: seq<Trigger>, m: Metadata, now: Metadata, t: string) returns (m': Metadata)
    requires AreProper(triggers) && Alike(m, now) && Alike(now, m) && t in AllTargets(m)
    requires Orders.Fits(SystemOf(triggers, m), FactsOf(now)) && t in SystemOf(triggers, m).read
    requires Orders.CanTake(SystemOf(triggers, m), FactsOf(now), t)
    ensures Prepares(triggers, now, t, m')
  {
    hide Gets, CanBePrepared, FactsIn, SystemOf, Orders.Taken, FactsOf, Alike, Orders.Fits, Orders.Consistent, Prepares;
    var taken := Orders.Taken(SystemOf(triggers, m), FactsOf(now), t);
    CanTakeIsLinkable(triggers, m, now, t);
    VariablesHave(taken);
    var v := if now[t].variables.Some? then Some(VariablesOf(taken)) else None;
    forall f
      ensures f in FactsIn(v) <==> Gets(triggers, now, t, f)
    {
      TakenIsContributed(triggers, m, now, t, f);
      if now[t].variables.None? {
        NothingIsGot(triggers, now, t, f);
      }
    }
    m' := PreparedWith(triggers, now, t, v);
  }

  lemma PreparedWith(triggers: seq<Trigger>, m: Metadata, t: string, v: Option<Variables>) returns (m': Metadata)
    requires t in AllTargets(m) && CanBePrepared(triggers, m, t) && (v.Some? <==> m[t].variables.Some?)
    requires forall f :: f in FactsIn(v) <==> Gets(triggers, m, t, f)
    ensures Prepares(triggers, m, t, m')
  {
    hide CanBePrepared, Gets, FactsIn;
    m' := m[t := m[t].(variables := v)];
  }

  lemma NothingIsGot(triggers: seq<Trigger>, m: Metadata, t: string, f: Fact)
    requires t in AllTargets(m) && CanBePrepared(triggers, m, t) && m[t].variables.None?
    ensures !Gets(triggers, m, t, f) && f !in FactsIn(None)
  {
    NothingContributed(Dispatch(triggers, m), Root(m, t), f);
  }

  lemma NothingContributed(w: World, root: Node, f: Fact)
    requires Linkable(w, root, None)
    ensures !Contributed(w, root, None, f.0, f.1)
  {
    forall u, name | Reachable(w, root, u) && name in u.links
      ensures !Sends(w, u, name, f.0, f.1)
    {
      assert Supported(w, None, u, name);
    }
  }

  lemma PreparedAlike(triggers: seq<Trigger>, m: Metadata, now: Metadata, t: string, m': Metadata)
    requires Alike(m, now) && Alike(now, m) && Prepares(triggers, now, t, m')
    ensures Alike(m, m') && Alike(m', m)
  {
    hide CanBePrepared, Gets, FactsIn;
    forall n | n in m
      ensures SameButVariables(m[n], m'[n]) && (m[n].variables.Some? <==> m'[n].variables.Some?)
    {
      assert SameButVariables(m[n], now[n]);
    }
  }

  /** A prepared target has what it takes over in the system. */
  lemma PreparedIsTaken(triggers: seq<Trigger>, m: Metadata, now: Metadata, t: string, m': Metadata)
    requires AreProper(triggers) && Alike(m, now) && Alike(now, m) && t in AllTargets(m)
    requires Prepares(triggers, now, t, m')
    ensures Orders.Fits(SystemOf(triggers, m), FactsOf(now)) && t in SystemOf(triggers, m).read
    ensures Orders.CanTake(SystemOf(triggers, m), FactsOf(now), t)
    ensures FactsOf(m') == FactsOf(now)[t := Orders.Taken(SystemOf(triggers, m), FactsOf(now), t)]
  {
    assert now.Keys == m.Keys;
    hide Gets, CanBePrepared, FactsIn, SystemOf, Orders.Taken, Alike, Orders.Fits, Orders.CanTake, FactsOf;
    SystemFits(triggers, m, now);
    CanTakeIsLinkable(triggers, m, now, t);
    forall f
      ensures f in Orders.Taken(SystemOf(triggers, m), FactsOf(now), t) <==> f in FactsIn(m'[t].variables)
    {
      TakenIsContributed(triggers, m, now, t, f);
    }
    FactsChange(now, t, m', Orders.Taken(SystemOf(triggers, m), FactsOf(now), t));
  }

  lemma FactsChange(m: Metadata, t: string, m': Metadata, facts: set<Fact>)
    requires t in m && t in m' && m' == m[t := m[t].(variables := m'[t].variables)]
    requires forall f :: f in facts <==> f in FactsIn(m'[t].variables)
    ensures FactsOf(m') == FactsOf(m)[t := facts]
  {
    hide FactsIn;
    assert facts == FactsIn(m'[t].variables);
  }

  /** Preparing the targets is a run of the system. */
  lemma {:induction false} RunsAlike(triggers: seq<Trigger>, m: Metadata, order: seq<string>, m': Metadata)
    requires AreProper(triggers) && (forall t :: t in order ==> t in AllTargets(m)) && RunsTo(triggers, m, order, m')
    ensures Alike(m, m') && Alike(m', m)
    ensures Orders.Fits(SystemOf(triggers, m), FactsOf(m)) && SystemOf(triggers, m).read.Keys == AllTargets(m)
    ensures Orders.Run(SystemOf(triggers, m), FactsOf(m), order) == Some(FactsOf(m'))
  {
    SystemFits(triggers, m, m);
    if order != [] {
      var init, t := order[..|order| - 1], order[|order| - 1];
      var now :| RunsTo(triggers, m, init, now) && Prepares(triggers, now, t, m');
      assert t in order && forall x :: x in init ==> x in order;
      RunsAlike(triggers, m, init, now);
      hide RunsTo, Prepares, SystemOf, Alike, FactsOf, Orders.Fits, Orders.CanTake, Orders.Taken;
      PreparedAlike(triggers, m, now, t, m');
      PreparedIsTaken(triggers, m, now, t, m');
    }
  }

  lemma {:induction false} RunIsPrepared(triggers: seq<Trigger>, m: Metadata, order: seq<string>) returns (m': Metadata)
    requires AreProper(triggers) && forall t :: t in order ==> t in AllTargets(m)
    requires Orders.Fits(SystemOf(triggers, m), FactsOf(m)) && SystemOf(triggers, m).read.Keys == AllTargets(m)
    requires Orders.Run(SystemOf(triggers, m), FactsOf(m), order).Some?
    ensures RunsTo(triggers, m, order, m')
  {
    m' := m;
    if order != [] {
      var init, t := order[..|order| - 1], order[|order| - 1];
      assert t in order && forall x :: x in init ==> x in order;
      var now := RunIsPrepared(triggers, m, init);
      RunsAlike(triggers, m, init, now);
      m' := LinkableIsPrepared(triggers, m, now, t);
      hide Prepares, SystemOf, Alike, FactsOf, Orders.Run;
    }
  }

  // ---------------------------------------------------------------------------------
  // Whether the order of the targets matters

  /** Targets, each read by the one before. */
  ghost predicate Leads(triggers: seq<Trigger>, m: Metadata, p: seq<string>) {
    && p != [] && (forall i :: 0 <= i < |p| ==> p[i] in AllTargets(m))
    && forall i :: 0 <= i < |p| - 1 ==> IsRead(triggers, m, p[i], p[i + 1])
  }

  /** What a target can get at the most: what any target gets at the start that a chain of targets leads to. */
  ghost predicate CanGet(triggers: seq<Trigger>, m: Metadata, t: string, f: Fact) {
    exists p :: Leads(triggers, m, p) && p[0] == t && Gets(triggers, m, p[|p| - 1], f)
  }

  /** No two variables a target can get disagree. */
  ghost predicate NeverConflicts(triggers: seq<Trigger>, m: Metadata, t: string) {
    forall a, x, y :: CanGet(triggers, m, t, (a, x)) && CanGet(triggers, m, t, (a, y)) ==> x == y
  }

  /** Every order of the targets goes through, and gives target `t` the variables `v`. */
  ghost predicate AllOrdersGive(triggers: seq<Trigger>, m: Metadata, t: string, v: Option<Variables>) {
    forall order :: Lists(order, AllTargets(m)) ==> OrderGives(triggers, m, t, v, order)
  }

  ghost predicate OrderGives(triggers: seq<Trigger>, m: Metadata, t: string, v: Option<Variables>, order: seq<string>) {
    exists m': Metadata :: RunsTo(triggers, m, order, m') && t in m' && m'[t].variables == v
  }

  lemma AlikeSelf(m: Metadata)
    ensures Alike(m, m)
  {
  }

  lemma LeadsIsChain(triggers: seq<Trigger>, m: Metadata, p: seq<string>)
    requires p != [] && p[0] in AllTargets(m)
    ensures Leads(triggers, m, p) <==>
      Layers.Chain(Orders.Between(SystemOf(triggers, m)), p) && p[|p| - 1] in AllTargets(m)
  {
    var g := Orders.Between(SystemOf(triggers, m));
    assert g.Keys == AllTargets(m);
    forall x, y | x in AllTargets(m)
      ensures y in g[x] <==> y in AllTargets(m) && IsRead(triggers, m, x, y)
    {
    }
    hide IsRead, Fixed, SystemOf, Orders.Between, AllTargets;
    if Layers.Chain(g, p) && p[|p| - 1] in g {
      forall i | 0 <= i < |p|
        ensures p[i] in g && (i < |p| - 1 ==> p[i + 1] in g[p[i]])
      {
        assert i < |p| - 1 ==> p[i + 1] in g[p[i]];
      }
    }
  }

  lemma CanGetIs(triggers: seq<Trigger>, m: Metadata, t: string, f: Fact)
    requires AreProper(triggers) && t in AllTargets(m)
    ensures Orders.Fits(SystemOf(triggers, m), FactsOf(m)) && SystemOf(triggers, m).read.Keys == AllTargets(m)
    ensures CanGet(triggers, m, t, f) <==> Orders.Reaches(SystemOf(triggers, m), FactsOf(m), t, f)
  {
    var sys, facts := SystemOf(triggers, m), FactsOf(m);
    SystemFits(triggers, m, m);
    AlikeSelf(m);
    hide Gets, Orders.Taken, SystemOf, FactsOf, Alike, Orders.Fits, Orders.Between, Leads, Layers.Chain;
    if p :| Leads(triggers, m, p) && p[0] == t && Gets(triggers, m, p[|p| - 1], f) {
      LeadsIsChain(triggers, m, p);
      TakenIsContributed(triggers, m, m, p[|p| - 1], f);
      assert Orders.IsSourceOf(sys, facts, p, t, f);
    }
    if Orders.Reaches(sys, facts, t, f) {
      var p :| Orders.IsSourceOf(sys, facts, p, t, f);
      LeadsIsChain(triggers, m, p);
      TakenIsContributed(triggers, m, m, p[|p| - 1], f);
    }
  }

  /** The same facts are the same variables. */
  lemma SameFacts(v: Option<Variables>, v': Option<Variables>)
    requires FactsIn(v) == FactsIn(v') && (v.Some? <==> v'.Some?)
    ensures v == v'
  {
    if v.Some? {
      forall a | a in v.value
        ensures a in v'.value && v'.value[a] == v.value[a]
      {
        assert (a, v.value[a]) in FactsIn(v');
      }
      forall a | a in v'.value
        ensures a in v.value
      {
        assert (a, v'.value[a]) in FactsIn(v);
      }
      assert v.value == v'.value;
    }
  }

  lemma OrderGivesFacts(triggers: seq<Trigger>, m: Metadata, t: string, v: Option<Variables>, order: seq<string>)
    requires AreProper(triggers) && t in AllTargets(m) && Lists(order, AllTargets(m))
    requires Orders.Fits(SystemOf(triggers, m), FactsOf(m)) && SystemOf(triggers, m).read.Keys == AllTargets(m)
    requires v.Some? <==> m[t].variables.Some?
    ensures OrderGives(triggers, m, t, v, order) <==>
      Orders.Gives(SystemOf(triggers, m), FactsOf(m), t, FactsIn(v), order)
  {
    hide RunsTo, SystemOf, Orders.Run, Orders.Fits;
    if OrderGives(triggers, m, t, v, order) {
      var m': Metadata :| RunsTo(triggers, m, order, m') && t in m' && m'[t].variables == v;
      RunsAlike(triggers, m, order, m');
    }
    if Orders.Gives(SystemOf(triggers, m), FactsOf(m), t, FactsIn(v), order) {
      var m' := RunIsPrepared(triggers, m, order);
      RunsAlike(triggers, m, order, m');
      SameFacts(m'[t].variables, v);
    }
  }

  lemma OrderKeepsSupport(triggers: seq<Trigger>, m: Metadata, t: string, v: Option<Variables>, order: seq<string>)
    requires AreProper(triggers) && t in AllTargets(m) && Lists(order, AllTargets(m))
    requires OrderGives(triggers, m, t, v, order)
    ensures v.Some? <==> m[t].variables.Some?
  {
    var m': Metadata :| RunsTo(triggers, m, order, m') && t in m' && m'[t].variables == v;
    RunsAlike(triggers, m, order, m');
  }

  lemma AllOrdersAre(triggers: seq<Trigger>, m: Metadata, t: string)
    requires AreProper(triggers) && t in AllTargets(m)
    requires Orders.Fits(SystemOf(triggers, m), FactsOf(m)) && SystemOf(triggers, m).read.Keys == AllTargets(m)
    ensures (exists v :: AllOrdersGive(triggers, m, t, v)) <==>
            (exists facts :: Orders.AllGive(SystemOf(triggers, m), FactsOf(m), t, facts))
  {
    var sys, start := SystemOf(triggers, m), FactsOf(m);
    hide OrderGives, Orders.Gives, SystemOf, FactsOf, Orders.Fits, Lists;
    var some := ListOf(AllTargets(m));
    if v :| AllOrdersGive(triggers, m, t, v) {
      assert OrderGives(triggers, m, t, v, some);
      OrderKeepsSupport(triggers, m, t, v, some);
      forall order | Lists(order, AllTargets(m))
        ensures Orders.Gives(sys, start, t, FactsIn(v), order)
      {
        assert OrderGives(triggers, m, t, v, order);
        OrderGivesFacts(triggers, m, t, v, order);
      }
      assert Orders.AllGive(sys, start, t, FactsIn(v));
    }
    if facts :| Orders.AllGive(sys, start, t, facts) {
      assert Orders.Gives(sys, start, t, facts, some);
      var v := GivenVariables(triggers, m, t, facts, some);
      forall order | Lists(order, AllTargets(m))
        ensures OrderGives(triggers, m, t, v, order)
      {
        assert Orders.Gives(sys, start, t, facts, order);
        OrderGivesFacts(triggers, m, t, v, order);
      }
      assert AllOrdersGive(triggers, m, t, v);
    }
  }

  lemma GivenVariables(triggers: seq<Trigger>, m: Metadata, t: string, facts: set<Fact>, order: seq<string>)
    returns (v: Option<Variables>)
    requires AreProper(triggers) && t in AllTargets(m) && Lists(order, AllTargets(m))
    requires Orders.Fits(SystemOf(triggers, m), FactsOf(m)) && SystemOf(triggers, m).read.Keys == AllTargets(m)
    requires Orders.Gives(SystemOf(triggers, m), FactsOf(m), t, facts, order)
    ensures FactsIn(v) == facts && (v.Some? <==> m[t].variables.Some?)
  {
    hide RunsTo, SystemOf, Orders.Run, Orders.Fits;
    var m' := RunIsPrepared(triggers, m, order);
    RunsAlike(triggers, m, order, m');
    v := m'[t].variables;
  }

  /** No target can get variables that disagree or that it does not support, and `t` only what it gets at the start. */
  ghost predicate IsIndependent(triggers: seq<Trigger>, m: Metadata, t: string)
    requires t in AllTargets(m)
  {
    && (forall r :: r in AllTargets(m) ==> IsSupported(triggers, m, r) && NeverConflicts(triggers, m, r))
    && (forall f :: CanGet(triggers, m, t, f) <==> Gets(triggers, m, t, f))
  }

  lemma IndependentIs(triggers: seq<Trigger>, m: Metadata, t: string)
    requires AreProper(triggers) && t in AllTargets(m)
    ensures Orders.Fits(SystemOf(triggers, m), FactsOf(m)) && SystemOf(triggers, m).read.Keys == AllTargets(m)
    ensures IsIndependent(triggers, m, t) <==>
      Orders.AllSettle(SystemOf(triggers, m), FactsOf(m)) && Orders.IsReadAtStart(SystemOf(triggers, m), FactsOf(m), t)
  {
    var sys, facts := SystemOf(triggers, m), FactsOf(m);
    SystemFits(triggers, m, m);
    AlikeSelf(m);
    assert forall r :: r in AllTargets(m) ==> (r in sys.supported <==> IsSupported(triggers, m, r));
    hide SystemOf, FactsOf, Orders.Fits, CanGet, Gets, Orders.Reaches, Orders.Taken, Alike, AllTargets, IsSupported;
    forall r, f | r in AllTargets(m)
      ensures CanGet(triggers, m, r, f) <==> Orders.Reaches(sys, facts, r, f)
    {
      CanGetIs(triggers, m, r, f);
    }
    forall r | r in AllTargets(m)
      ensures NeverConflicts(triggers, m, r) <==> Orders.IsSettled(sys, facts, r)
    {
    }
    forall f
      ensures f in Orders.Taken(sys, facts, t) <==> Gets(triggers, m, t, f)
      ensures Gets(triggers, m, t, f) ==> CanGet(triggers, m, t, f)
    {
      TakenIsContributed(triggers, m, m, t, f);
      if f in Orders.Taken(sys, facts, t) {
        Orders.TakenReaches(sys, facts, t, f);
      }
    }
  }

  /**
   * Every order of the targets goes through and gives target `t` the same variables if and only if no target can get
   * two variables that disagree or one it does not support, and `t` can get nothing but what it gets at the start.
   */
  lemma OrderDoesNotMatter(triggers: seq<Trigger>, m: Metadata, t: string)
    requires AreProper(triggers) && t in AllTargets(m)
    ensures (exists v :: AllOrdersGive(triggers, m, t, v)) <==> IsIndependent(triggers, m, t)
  {
    hide AllOrdersGive, Orders.AllGive, SystemOf, FactsOf, Orders.Fits, IsIndependent, Orders.AllSettle,
         Orders.IsReadAtStart;
    IndependentIs(triggers, m, t);
    AllOrdersAre(triggers, m, t);
    Orders.OrderDoesNotMatter(SystemOf(triggers, m), FactsOf(m), t);
  }

  /**
   * Then it does not matter either how the targets interleave when they are prepared at the same time: target `t` gets
   * what it gets at the start.
   */
  lemma InterleavingDoesNotMatter(triggers: seq<Trigger>, m: Metadata, t: string, states: seq<Orders.Facts>)
    requires AreProper(triggers) && t in AllTargets(m) && IsIndependent(triggers, m, t)
    requires Orders.IsInterleaving(SystemOf(triggers, m), FactsOf(m), states)
    requires Orders.Fits(SystemOf(triggers, m), states[|states| - 1]) && Orders.IsOver(SystemOf(triggers, m), states)
    ensures t in states[|states| - 1]
    ensures forall f :: f in states[|states| - 1][t] <==> Gets(triggers, m, t, f)
    ensures forall i, r :: 0 <= i < |states| && r in AllTargets(m) ==>
      r in states[i] && Orders.Consistent(states[i][r])
  {
    hide SystemOf, FactsOf, IsIndependent, Orders.AllSettle, Orders.IsReadAtStart, Orders.IsInterleaving, Orders.IsOver,
         Orders.Taken, Gets, Orders.Consistent, Alike;
    IndependentIs(triggers, m, t);
    AlikeSelf(m);
    Orders.InterleavingDoesNotMatter(SystemOf(triggers, m), FactsOf(m), states, t);
    forall f
      ensures f in Orders.Taken(SystemOf(triggers, m), FactsOf(m), t) <==> Gets(triggers, m, t, f)
    {
      TakenIsContributed(triggers, m, m, t, f);
    }
  }

  // ---------------------------------------------------------------------------------
  // A case where it matters

  const DATA := Service(FACTORY, "data", None, None, Some(map["KEY" := "1"]), None)

  /** A factory that links a service its handler does not refer to. */
  const FRONT := Service(FACTORY, "front", Some({}), None, Some(map[]), Some(map["data" := Link("data", None)]))

  /** A target that links the factory. */
  const BACK := Service("target", "back", None, None, Some(map[]), Some(map["front" := Link("front", None)]))

  const PROJECT: Metadata := map["back" := BACK, "front" := FRONT, "data" := DATA]

  const TRIGGERS := [Factory]

  lemma ProjectTargets()
    ensures "back" != "front" && "front" != "data" && "back" != "data"
    ensures AllTargets(PROJECT) == {"back", "front"} && AreProper(TRIGGERS)
    ensures Root(PROJECT, "back").links == map["front" := Link("front", None)]
    ensures Root(PROJECT, "front").links == map["data" := Link("data", None)]
  {
    assert "back"[0] != "front"[0] && "front"[0] != "data"[0] && "back"[0] != "data"[0];
  }

  lemma ProjectAnswers()
    ensures
      var w := Dispatch(TRIGGERS, PROJECT);
      && "front" in Root(PROJECT, "back").links && "data" in Root(PROJECT, "front").links
      && var a, b := Ask(w, Root(PROJECT, "back"), "front"), Ask(w, Root(PROJECT, "front"), "data");
         && a.Answered? && a.source.variables == FRONT.variables && a.child.Some? && a.child.value.links == map[]
         && b.Answered? && b.source.variables == DATA.variables && b.child.None?
  {
    ProjectTargets();
    var w := Dispatch(TRIGGERS, PROJECT);
    var front := Linked(w, Link("front", None));
    assert front == FRONT.(options := Some(map[]));
    assert TriggerAll(TRIGGERS, BACK, front) == Some(LinkedClient(front));
    assert LinkedClient(front).services == Some(map[]);
    var data := Linked(w, Link("data", None));
    assert data == DATA.(options := Some(map[]));
    assert TriggerAll(TRIGGERS, FRONT, data) == Some(LinkedClient(data));
  }

  /** From the target, a path leads to it or to what links nothing. */
  lemma BackReaches(path: seq<string>, u: Node)
    requires "back" in AllTargets(PROJECT) && Walk(Dispatch(TRIGGERS, PROJECT), Root(PROJECT, "back"), path) == Some(u)
    ensures u == Root(PROJECT, "back") || u.links == map[]
  {
    ProjectTargets();
    ProjectAnswers();
    var w, root := Dispatch(TRIGGERS, PROJECT), Root(PROJECT, "back");
    if path != [] {
      var child := Child(w, root, "front").value;
      assert Walk(w, child, path[1..]) == Some(u);
      assert forall n :: Child(w, child, n).None?;
    }
  }

  lemma BackGetsNothing(f: Fact)
    ensures "back" in AllTargets(PROJECT) && !Gets(TRIGGERS, PROJECT, "back", f)
  {
    ProjectTargets();
    ProjectAnswers();
    var w, root := Dispatch(TRIGGERS, PROJECT), Root(PROJECT, "back");
    forall u, name | Reachable(w, root, u) && name in u.links
      ensures !Sends(w, u, name, f.0, f.1)
    {
      var path :| Walk(w, root, path) == Some(u);
      BackReaches(path, u);
    }
  }

  lemma BackCanGet()
    ensures CanGet(TRIGGERS, PROJECT, "back", ("KEY", "1"))
  {
    ProjectTargets();
    ProjectAnswers();
    var w, back, front := Dispatch(TRIGGERS, PROJECT), Root(PROJECT, "back"), Root(PROJECT, "front");
    assert Walk(w, back, []) == Some(back) && Walk(w, front, []) == Some(front);
    assert ReadsThrough(TRIGGERS, PROJECT, "back", back, "front", "front");
    assert Sends(w, front, "data", "KEY", "1");
    assert Gets(TRIGGERS, PROJECT, "front", ("KEY", "1"));
    var p := ["back", "front"];
    assert Leads(TRIGGERS, PROJECT, p);
    assert p[|p| - 1] == "front";
  }

  /**
   * As a target, the factory takes over the variables of all it links, and not only of what its handler refers to.
   * So what the other target gets depends on whether the factory was prepared before it.
   */
  lemma OrderOfTargetsMatters()
    ensures "back" in AllTargets(PROJECT) && !exists v :: AllOrdersGive(TRIGGERS, PROJECT, "back", v)
  {
    ProjectTargets();
    BackCanGet();
    BackGetsNothing(("KEY", "1"));
    hide CanGet, Gets, AllOrdersGive, AllTargets, NeverConflicts, IsSupported;
    OrderDoesNotMatter(TRIGGERS, PROJECT, "back");
  }

  // ---------------------------------------------------------------------------------
  // The preparation

  lemma {:induction false} RunStarts(s: Orders.System, facts: Orders.Facts, first: seq<string>, rest: seq<string>)
    requires Orders.Fits(s, facts) && forall x :: x in first + rest ==> x in s.read
    requires Orders.Run(s, facts, first + rest).Some?
    ensures (forall x :: x in first ==> x in s.read) && Orders.Run(s, facts, first).Some?
  {
    var all := first + rest;
    assert forall x :: x in first ==> x in all;
    if rest == [] {
      assert all == first;
    } else {
      var init := rest[..|rest| - 1];
      assert all[..|all| - 1] == first + init;
      assert forall x :: x in first + init ==> x in all;
      RunStarts(s, facts, first, init);
    }
  }

  lemma RunsToNext(triggers: seq<Trigger>, m: Metadata, order: seq<string>, now: Metadata, t: string, m': Metadata)
    requires RunsTo(triggers, m, order, now) && Prepares(triggers, now, t, m')
    ensures RunsTo(triggers, m, order + [t], m')
  {
    var all := order + [t];
    assert all[..|all| - 1] == order && all[|all| - 1] == t;
    hide Prepares;
  }

  /** A target that cannot be prepared stops every run that begins like this one. */
  lemma CannotRun(triggers: seq<Trigger>, m: Metadata, order: seq<string>, i: nat, now: Metadata)
    requires AreProper(triggers) && (forall t :: t in order ==> t in AllTargets(m)) && i < |order|
    requires RunsTo(triggers, m, order[..i], now)
    requires order[i] in AllTargets(now) && !CanBePrepared(triggers, now, order[i])
    ensures forall m' :: !RunsTo(triggers, m, order, m')
  {
    hide RunsTo, CanBePrepared, SystemOf, FactsOf, Alike, Orders.Run, Orders.CanTake, Orders.Fits, Orders.Taken;
    var before, t, rest := order[..i], order[i], order[i + 1..];
    SplitOrder(order, i);
    RunsAlike(triggers, m, before, now);
    CanTakeIsLinkable(triggers, m, now, t);
    Orders.RunNext(SystemOf(triggers, m), FactsOf(m), before, t);
    if Orders.Run(SystemOf(triggers, m), FactsOf(m), order).Some? {
      RunStarts(SystemOf(triggers, m), FactsOf(m), before + [t], rest);
    }
    forall m' | RunsTo(triggers, m, order, m')
      ensures false
    {
      RunsAlike(triggers, m, order, m');
    }
  }

  lemma SplitOrder(order: seq<string>, i: nat)
    requires i < |order|
    ensures order == (order[..i] + [order[i]]) + order[i + 1..]
    ensures order[i] in order && forall x :: x in order[..i] ==> x in order
  {
  }

  /** Prepares the targets in the given order, each over the variables the others have by then. */
  method PrepareLinkedServices(triggers: seq<Trigger>, metadata: Metadata, order: seq<string>)
    returns (r: Result<Metadata, Error>)
    requires AreProper(triggers) && forall t :: t in order ==> t in AllTargets(metadata)
    ensures r.Ok? ==> RunsTo(triggers, metadata, order, r.value)
    ensures r.Err? ==> forall m' :: !RunsTo(triggers, metadata, order, m')
  {
    var now := metadata;
    assert order[..0] == [];
    hide Prepares, CanBePrepared, AllTargets;
    for i := 0 to |order|
      invariant RunsTo(triggers, metadata, order[..i], now)
    {
      var t := order[i];
      SplitOrder(order, i);
      TargetStays(triggers, metadata, order[..i], now, t);
      var failure, variables := PrepareTarget(triggers, now, t);
      if failure.Some? {
        CannotRun(triggers, metadata, order, i, now);
        return Err(failure.value);
      }
      var next := now[t := now[t].(variables := variables)];
      RunsToNext(triggers, metadata, order[..i], now, t, next);
      assert order[..i + 1] == order[..i] + [t];
      now := next;
    }
    assert order[..|order|] == order;
    return Ok(now);
  }

  lemma TargetStays(triggers: seq<Trigger>, m: Metadata, order: seq<string>, now: Metadata, t: string)
    requires AreProper(triggers) && (forall x :: x in order ==> x in AllTargets(m)) && t in AllTargets(m)
    requires RunsTo(triggers, m, order, now)
    ensures t in AllTargets(now) && t in now && now[t].services.Some?
  {
    RunsAlike(triggers, m, order, now);
    assert SameButVariables(m[t], now[t]);
  }

  /** One target: its new variables, or why it cannot be prepared. */
  method PrepareTarget(triggers: seq<Trigger>, m: Metadata, t: string)
    returns (failure: Option<Error>, variables: Option<Variables>)
    requires AreProper(triggers) && t in AllTargets(m) && t in m && m[t].services.Some?
    ensures failure.None? <==> CanBePrepared(triggers, m, t)
    ensures failure.None? ==> Prepares(triggers, m, t, m[t := m[t].(variables := variables)])
  {
    assert forall trigger :: trigger in triggers ==> trigger.LinksNoFurther();
    DispatchIsWellBehaved(triggers, m);
    hide WellBehaved;
    var context := new Context();
    var builder := new Builder(Dispatch(triggers, m), m[t], m[t].services.value, context);
    var linked := builder.PrepareLinkedContext();
    variables := builder.variables;
    if linked.Err? {
      return Some(linked.error), None;
    }
    failure := None;
    forall f: Fact
      ensures f in FactsIn(variables) <==> Gets(triggers, m, t, f)
    {
    }
    hide Gets, FactsIn, CanBePrepared;
  }
}
