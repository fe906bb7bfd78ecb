/**
 * Targets that take over, one after another, what the services they read have at the time. When the order does not
 * matter, and when it does.
 */
module Orders {
  import opened Common
  import opened Layers

  /** A name and what it stands for. */
  type Fact = (string, string)

  /** What each service has. */
  type Facts = map<Id, set<Fact>>

  /**
   * The targets, the services each of them reads, what each gets besides that, and the ones that may take anything
   * over at all.
   */
  datatype System = System(read: map<Id, set<Id>>, fixed: map<Id, set<Fact>>, supported: set<Id>)

  ghost predicate Fits(s: System, facts: Facts) {
    && s.fixed.Keys == s.read.Keys && s.read.Keys <= facts.Keys
    && forall t :: t in s.read ==> s.read[t] <= facts.Keys
  }

  ghost predicate Consistent(facts: set<Fact>) {
    forall a, x, y :: (a, x) in facts && (a, y) in facts ==> x == y
  }

  ghost predicate IsReadFact(s: System, facts: Facts, t: Id, f: Fact)
    requires Fits(s, facts) && t in s.read
  {
    exists r :: r in s.read[t] && f in facts[r]
  }

  ghost function ReadFacts(s: System, facts: Facts, t: Id): set<Fact>
    requires Fits(s, facts) && t in s.read
  {
    set r, f | r in s.read[t] && f in facts[r] :: f
  }

  /** What target `t` takes over now, with what it has. */
  ghost function Taken(s: System, facts: Facts, t: Id): set<Fact>
    requires Fits(s, facts) && t in s.read
  {
    facts[t] + s.fixed[t] + ReadFacts(s, facts, t)
  }

  lemma TakenIs(s: System, facts: Facts, t: Id, f: Fact)
    requires Fits(s, facts) && t in s.read
    ensures f in Taken(s, facts, t) <==> f in facts[t] || f in s.fixed[t] || IsReadFact(s, facts, t, f)
  {
  }

  ghost predicate CanTake(s: System, facts: Facts, t: Id)
    requires Fits(s, facts) && t in s.read
  {
    t in s.supported && Consistent(Taken(s, facts, t))
  }

  /** What the services have once the targets took over in this order, unless one of them could not. */
  ghost function Run(s: System, facts: Facts, order: seq<Id>): Option<Facts>
    requires Fits(s, facts) && forall t :: t in order ==> t in s.read
  {
    if order == [] then Some(facts)
    else
      var before := Run(s, facts, order[..|order| - 1]);
      var t := order[|order| - 1];
      if before.None? || !Fits(s, before.value) || !CanTake(s, before.value, t) then None
      else Some(before.value[t := Taken(s, before.value, t)])
  }

  // ---------------------------------------------------------------------------------
  // The least and the most a target can get

  /** The targets each target reads. */
  ghost function Between(s: System): Needs {
    map t | t in s.read :: s.read[t] * s.read.Keys
  }

  /** What reaches `t` from some target along a chain of targets, each read by the one before. */
  ghost predicate Reaches(s: System, facts: Facts, t: Id, f: Fact)
    requires Fits(s, facts) && t in s.read
  {
    exists p :: IsSourceOf(s, facts, p, t, f)
  }

  ghost predicate IsSourceOf(s: System, facts: Facts, p: seq<Id>, t: Id, f: Fact)
    requires Fits(s, facts) && t in s.read
  {
    Chain(Between(s), p) && p[0] == t && p[|p| - 1] in s.read && f in Taken(s, facts, p[|p| - 1])
  }

  lemma TakenReaches(s: System, facts: Facts, t: Id, f: Fact)
    requires Fits(s, facts) && t in s.read && f in Taken(s, facts, t)
    ensures Reaches(s, facts, t, f)
  {
    assert IsSourceOf(s, facts, [t], t, f);
  }

  lemma ReachesThrough(s: System, facts: Facts, t: Id, r: Id, f: Fact)
    requires Fits(s, facts) && t in s.read && r in s.read[t] && r in s.read && Reaches(s, facts, r, f)
    ensures Reaches(s, facts, t, f)
  {
    var p :| IsSourceOf(s, facts, p, r, f);
    ChainLeads(Between(s), t, p);
    assert ([t] + p)[|[t] + p| - 1] == p[|p| - 1];
    assert IsSourceOf(s, facts, [t] + p, t, f);
  }

  /** A service has at least what it had, and at most what reaches it. */
  ghost predicate IsWithin(s: System, start: Facts, now: Facts, x: Id)
    requires Fits(s, start) && now.Keys == start.Keys && x in start
  {
    && start[x] <= now[x]
    && (x !in s.read ==> now[x] == start[x])
    && (x in s.read ==> forall f :: f in now[x] ==> Reaches(s, start, x, f))
  }

  ghost predicate AllWithin(s: System, start: Facts, now: Facts)
    requires Fits(s, start)
  {
    now.Keys == start.Keys && forall x :: x in start ==> IsWithin(s, start, now, x)
  }

  lemma StartsWithin(s: System, start: Facts)
    requires Fits(s, start)
    ensures AllWithin(s, start, start)
  {
    forall x, f | x in s.read && f in start[x]
      ensures Reaches(s, start, x, f)
    {
      TakenReaches(s, start, x, f);
    }
  }

  /** What a target takes over at any time is between the two. */
  lemma TakenIsWithin(s: System, start: Facts, now: Facts, t: Id, f: Fact)
    requires Fits(s, start) && AllWithin(s, start, now) && t in s.read
    ensures Fits(s, now)
    ensures f in Taken(s, start, t) ==> f in Taken(s, now, t)
    ensures f in Taken(s, now, t) ==> Reaches(s, start, t, f)
  {
    TakenIs(s, start, t, f);
    TakenIs(s, now, t, f);
    assert IsWithin(s, start, now, t);
    if f in Taken(s, start, t) && IsReadFact(s, start, t, f) {
      var r :| r in s.read[t] && f in start[r];
      assert IsWithin(s, start, now, r);
    }
    if IsReadFact(s, now, t, f) {
      var r :| r in s.read[t] && f in now[r];
      assert IsWithin(s, start, now, r);
      if r in s.read {
        ReachesThrough(s, start, t, r, f);
      } else {
        assert IsReadFact(s, start, t, f);
        TakenReaches(s, start, t, f);
      }
    } else if f in Taken(s, now, t) && f in s.fixed[t] {
      TakenReaches(s, start, t, f);
    }
  }

  lemma StepStaysWithin(s: System, start: Facts, now: Facts, t: Id)
    requires Fits(s, start) && AllWithin(s, start, now) && t in s.read && Fits(s, now)
    ensures AllWithin(s, start, now[t := Taken(s, now, t)])
  {
    var next := now[t := Taken(s, now, t)];
    forall x | x in start
      ensures IsWithin(s, start, next, x)
    {
      assert IsWithin(s, start, now, x);
      if x == t {
        forall f | f in Taken(s, now, t)
          ensures Reaches(s, start, t, f)
        {
          TakenIsWithin(s, start, now, t, f);
        }
        hide Reaches;
      }
    }
  }

  lemma {:induction false} RunStaysWithin(s: System, facts: Facts, order: seq<Id>)
    requires Fits(s, facts) && forall t :: t in order ==> t in s.read
    ensures Run(s, facts, order).Some? ==> AllWithin(s, facts, Run(s, facts, order).value)
  {
    if order == [] {
      StartsWithin(s, facts);
    } else if Run(s, facts, order).Some? {
      var init, t := order[..|order| - 1], order[|order| - 1];
      assert forall x :: x in init ==> x in order;
      RunStaysWithin(s, facts, init);
      StepStaysWithin(s, facts, Run(s, facts, init).value, t);
    }
  }

  /** No name that reaches a target stands for two things, and every target may take over. */
  ghost predicate AllSettle(s: System, facts: Facts)
    requires Fits(s, facts)
  {
    forall t :: t in s.read ==> t in s.supported && IsSettled(s, facts, t)
  }

  ghost predicate IsSettled(s: System, facts: Facts, t: Id)
    requires Fits(s, facts) && t in s.read
  {
    forall a, x, y :: Reaches(s, facts, t, (a, x)) && Reaches(s, facts, t, (a, y)) ==> x == y
  }

  /** Then every order goes through. */
  lemma {:induction false} SettledRuns(s: System, facts: Facts, order: seq<Id>)
    requires Fits(s, facts) && AllSettle(s, facts) && forall t :: t in order ==> t in s.read
    ensures Run(s, facts, order).Some?
  {
    if order != [] {
      var init, t := order[..|order| - 1], order[|order| - 1];
      assert forall x :: x in init ==> x in order;
      SettledRuns(s, facts, init);
      RunStaysWithin(s, facts, init);
      var now := Run(s, facts, init).value;
      assert t in order;
      forall a, x, y | (a, x) in Taken(s, now, t) && (a, y) in Taken(s, now, t)
        ensures x == y
      {
        TakenIsWithin(s, facts, now, t, (a, x));
        TakenIsWithin(s, facts, now, t, (a, y));
        assert IsSettled(s, facts, t);
      }
    }
  }

  // ---------------------------------------------------------------------------------
  // An order that gives a target the least

  lemma {:induction false} RunKeeps(s: System, facts: Facts, first: seq<Id>, rest: seq<Id>, t: Id)
    requires Fits(s, facts) && t in facts && t !in rest && forall x :: x in first + rest ==> x in s.read
    requires Run(s, facts, first + rest).Some?
    ensures (forall x :: x in first ==> x in first + rest) && Run(s, facts, first).Some?
    ensures t in Run(s, facts, first).value && t in Run(s, facts, first + rest).value
    ensures Run(s, facts, first + rest).value[t] == Run(s, facts, first).value[t]
  {
    var all := first + rest;
    assert forall x :: x in first ==> x in all;
    if rest == [] {
      assert all == first;
      RunStaysWithin(s, facts, first);
    } else {
      var init := rest[..|rest| - 1];
      assert all[..|all| - 1] == first + init && all[|all| - 1] == rest[|rest| - 1];
      assert forall x :: x in first + init ==> x in all;
      assert t !in init;
      RunKeeps(s, facts, first, init, t);
    }
  }

  /** A target that comes first gets what it reads at the start. */
  lemma FirstGetsLeast(s: System, facts: Facts, t: Id) returns (order: seq<Id>)
    requires Fits(s, facts) && t in s.read
    ensures Lists(order, s.read.Keys)
    ensures Run(s, facts, order).Some? ==>
      t in Run(s, facts, order).value && Run(s, facts, order).value[t] == Taken(s, facts, t)
  {
    var rest := ListOf(s.read.Keys - {t});
    order := [t] + rest;
    assert forall i :: 0 < i < |order| ==> order[i] == rest[i - 1] && rest[i - 1] in rest;
    if Run(s, facts, order).Some? {
      RunKeeps(s, facts, [t], rest, t);
      assert [t][..0] == [];
      assert Run(s, facts, [t][..0]) == Some(facts);
    }
  }

  // ---------------------------------------------------------------------------------
  // An order that gives a target the most

  ghost predicate HasReader(s: System, visit: seq<Id>, k: nat, bound: nat)
    requires k < |visit|
  {
    exists j :: 0 <= j < bound && j < |visit| && visit[j] in s.read && visit[k] in s.read[visit[j]]
  }

  /** Targets as a search finds them: each but the first is read by one found before. */
  ghost predicate IsSearch(s: System, visit: seq<Id>) {
    && visit != [] && Distinct(visit)
    && (forall k :: 0 <= k < |visit| ==> visit[k] in s.read)
    && (forall k :: 0 < k < |visit| ==> HasReader(s, visit, k, k))
  }

  ghost predicate IsWhole(s: System, visit: seq<Id>) {
    forall x, y :: x in visit && x in s.read && y in s.read[x] && y in s.read ==> y in visit
  }

  lemma SearchGrows(s: System, visit: seq<Id>, x: Id, y: Id)
    requires IsSearch(s, visit) && x in visit && y in s.read[x] && y in s.read && y !in visit
    ensures IsSearch(s, visit + [y])
  {
    var more := visit + [y];
    forall k | 0 < k < |more|
      ensures HasReader(s, more, k, k)
    {
      if k < |visit| {
        assert HasReader(s, visit, k, k);
        var j :| 0 <= j < k && j < |visit| && visit[j] in s.read && visit[k] in s.read[visit[j]];
        assert more[j] in s.read && more[k] in s.read[more[j]];
      } else {
        var j :| 0 <= j < |visit| && visit[j] == x;
        assert more[j] in s.read && more[k] in s.read[more[j]];
      }
    }
  }

  lemma {:induction false} Search(s: System, visit: seq<Id>) returns (all: seq<Id>)
    requires IsSearch(s, visit)
    ensures IsSearch(s, all) && IsWhole(s, all) && all[0] == visit[0]
    decreases s.read.Keys - set x | x in visit
  {
    all := visit;
    if x, y :| x in visit && x in s.read && y in s.read[x] && y in s.read && y !in visit {
      SearchGrows(s, visit, x, y);
      assert y in s.read.Keys - set z | z in visit;
      all := Search(s, visit + [y]);
    }
  }

  lemma {:induction false} ChainStaysInSearch(s: System, visit: seq<Id>, p: seq<Id>)
    requires IsWhole(s, visit) && Chain(Between(s), p) && p[0] in visit
    ensures p[|p| - 1] in visit
  {
    if |p| > 1 {
      ChainPart(Between(s), p, 0, |p| - 1);
      assert p[0..|p| - 1] == p[..|p| - 1];
      ChainStaysInSearch(s, visit, p[..|p| - 1]);
      assert p[|p| - 2 + 1] in Between(s)[p[|p| - 2]];
    }
  }

  /** The search from its end back to `i`. */
  function Backwards(visit: seq<Id>, i: nat): seq<Id>
    requires i <= |visit|
    decreases |visit| - i
  {
    if i == |visit| then [] else Backwards(visit, i + 1) + [visit[i]]
  }

  lemma {:induction false} BackwardsAre(visit: seq<Id>, i: nat)
    requires i <= |visit| && Distinct(visit)
    ensures forall x :: x in Backwards(visit, i) <==> exists k :: i <= k < |visit| && visit[k] == x
    ensures Distinct(Backwards(visit, i))
    decreases |visit| - i
  {
    if i < |visit| {
      BackwardsAre(visit, i + 1);
      var later, now := Backwards(visit, i + 1), Backwards(visit, i);
      forall k | 0 <= k < |later|
        ensures later[k] != visit[i]
      {
        assert later[k] in later;
      }
      forall x
        ensures x in now <==> exists k :: i <= k < |visit| && visit[k] == x
      {
        assert x in now <==> x in later || x == visit[i];
      }
    }
  }

  /** What target `visit[k]` takes at the start has come up to `visit[j]`, which none of the later ones reads. */
  ghost predicate HasComeTo(s: System, facts: Facts, visit: seq<Id>, i: nat, now: Facts, k: nat, j: nat)
    requires Fits(s, facts) && IsSearch(s, visit) && k < |visit| && j < |visit|
  {
    && i <= j && visit[j] in now && Taken(s, facts, visit[k]) <= now[visit[j]]
    && (j == 0 || HasReader(s, visit, j, i))
  }

  ghost predicate HasCome(s: System, facts: Facts, visit: seq<Id>, i: nat, now: Facts, k: int)
    requires Fits(s, facts) && IsSearch(s, visit)
  {
    0 <= k < |visit| && exists j :: 0 <= j < |visit| && HasComeTo(s, facts, visit, i, now, k, j)
  }

  ghost predicate AllHaveCome(s: System, facts: Facts, visit: seq<Id>, i: nat, now: Facts)
    requires Fits(s, facts) && IsSearch(s, visit)
  {
    forall k :: i <= k < |visit| ==> HasCome(s, facts, visit, i, now, k)
  }

  /** One further back: what the targets it reads have is taken on. */
  lemma ComesNext(s: System, facts: Facts, visit: seq<Id>, m: nat, now: Facts, k: nat)
    requires Fits(s, facts) && IsSearch(s, visit) && m <= k < |visit|
    requires AllWithin(s, facts, now) && Fits(s, now)
    requires k > m ==> HasCome(s, facts, visit, m + 1, now, k)
    ensures HasCome(s, facts, visit, m, now[visit[m] := Taken(s, now, visit[m])], k)
  {
    var t := visit[m];
    var next := now[t := Taken(s, now, t)];
    assert m == 0 || HasReader(s, visit, m, m);
    if k == m {
      forall f | f in Taken(s, facts, t)
        ensures f in Taken(s, now, t)
      {
        TakenIsWithin(s, facts, now, t, f);
      }
      hide Taken;
      assert HasComeTo(s, facts, visit, m, next, k, m);
    } else {
      var j :| 0 <= j < |visit| && HasComeTo(s, facts, visit, m + 1, now, k, j);
      assert visit[j] != t;
      if HasReader(s, visit, j, m) {
        hide Taken, HasReader;
        assert HasComeTo(s, facts, visit, m, next, k, j);
      } else {
        var r :| 0 <= r < m + 1 && r < |visit| && visit[r] in s.read && visit[j] in s.read[visit[r]];
        assert r == m;
        assert now[visit[j]] <= Taken(s, now, t);
        hide Taken, HasReader;
        assert HasComeTo(s, facts, visit, m, next, k, m);
      }
    }
  }

  lemma RunNext(s: System, facts: Facts, order: seq<Id>, t: Id)
    requires Fits(s, facts) && t in s.read && forall x :: x in order ==> x in s.read
    ensures forall x :: x in order + [t] ==> x in s.read
    ensures
      var before := Run(s, facts, order);
      Run(s, facts, order + [t]) ==
        if before.None? || !Fits(s, before.value) || !CanTake(s, before.value, t) then None
        else Some(before.value[t := Taken(s, before.value, t)])
  {
    var all := order + [t];
    assert all[..|all| - 1] == order && all[|all| - 1] == t;
  }

  lemma {:induction false} AllCome(s: System, facts: Facts, rest: seq<Id>, visit: seq<Id>, i: nat)
    requires Fits(s, facts) && IsSearch(s, visit) && i <= |visit|
    requires forall x :: x in rest + Backwards(visit, i) ==> x in s.read
    requires Run(s, facts, rest + Backwards(visit, i)).Some?
    ensures AllHaveCome(s, facts, visit, i, Run(s, facts, rest + Backwards(visit, i)).value)
    decreases |visit| - i
  {
    hide Taken, CanTake, AllHaveCome, AllWithin, IsSearch, Run, Backwards, Fits;
    if i == |visit| {
      NothingHasCome(s, facts, visit, Run(s, facts, rest + Backwards(visit, i)).value);
    } else {
      var init, order := rest + Backwards(visit, i + 1), rest + Backwards(visit, i);
      BackwardsNext(rest, visit, i);
      RunNext(s, facts, init, visit[i]);
      RunStaysWithin(s, facts, init);
      AllCome(s, facts, rest, visit, i + 1);
      AllComeNext(s, facts, visit, i, Run(s, facts, init).value);
    }
  }

  lemma BackwardsNext(rest: seq<Id>, visit: seq<Id>, i: nat)
    requires i < |visit|
    ensures
      var init, order := rest + Backwards(visit, i + 1), rest + Backwards(visit, i);
      order == init + [visit[i]] && visit[i] in order && forall x :: x in init ==> x in order
  {
    var init, order := rest + Backwards(visit, i + 1), rest + Backwards(visit, i);
    assert order == init + [visit[i]];
  }

  lemma NothingHasCome(s: System, facts: Facts, visit: seq<Id>, now: Facts)
    requires Fits(s, facts) && IsSearch(s, visit)
    ensures AllHaveCome(s, facts, visit, |visit|, now)
  {
  }

  lemma AllComeNext(s: System, facts: Facts, visit: seq<Id>, m: nat, now: Facts)
    requires Fits(s, facts) && IsSearch(s, visit) && m < |visit|
    requires AllWithin(s, facts, now) && Fits(s, now) && AllHaveCome(s, facts, visit, m + 1, now)
    ensures AllHaveCome(s, facts, visit, m, now[visit[m] := Taken(s, now, visit[m])])
  {
    hide HasCome, Taken, AllWithin;
    var next := now[visit[m] := Taken(s, now, visit[m])];
    forall k | m <= k < |visit|
      ensures HasCome(s, facts, visit, m, next, k)
    {
      ComesNext(s, facts, visit, m, now, k);
    }
  }

  /** A target that comes after all it leads to, the farthest first, gets all that reaches it. */
  lemma LastGetsMost(s: System, facts: Facts, t: Id) returns (order: seq<Id>)
    requires Fits(s, facts) && t in s.read
    ensures Lists(order, s.read.Keys)
    ensures Run(s, facts, order).Some? ==>
      && t in Run(s, facts, order).value
      && forall f :: f in Run(s, facts, order).value[t] <==> Reaches(s, facts, t, f)
  {
    var visit := Search(s, [t]);
    var rest := ListOf(s.read.Keys - set x | x in visit);
    order := rest + Backwards(visit, 0);
    OrderOfBoth(s, rest, visit);
    hide Run, Reaches, IsSearch, Backwards, Taken, IsWhole;
    if Run(s, facts, order).Some? {
      var last := Run(s, facts, order).value;
      AllCome(s, facts, rest, visit, 0);
      RunStaysWithin(s, facts, order);
      assert IsWithin(s, facts, last, t);
      forall f | Reaches(s, facts, t, f)
        ensures f in last[t]
      {
        ReachedHasCome(s, facts, visit, last, t, f);
      }
    }
  }

  lemma ReachedHasCome(s: System, facts: Facts, visit: seq<Id>, last: Facts, t: Id, f: Fact)
    requires Fits(s, facts) && IsSearch(s, visit) && IsWhole(s, visit) && visit[0] == t && t in s.read
    requires AllHaveCome(s, facts, visit, 0, last) && Reaches(s, facts, t, f)
    ensures t in last && f in last[t]
  {
    var p :| IsSourceOf(s, facts, p, t, f);
    ChainStaysInSearch(s, visit, p);
    var k :| 0 <= k < |visit| && visit[k] == p[|p| - 1];
    assert HasCome(s, facts, visit, 0, last, k);
    hide Taken, Chain, IsWhole;
    var j :| 0 <= j < |visit| && HasComeTo(s, facts, visit, 0, last, k, j);
  }

  lemma OrderOfBoth(s: System, rest: seq<Id>, visit: seq<Id>)
    requires IsSearch(s, visit) && Lists(rest, s.read.Keys - set x | x in visit)
    ensures Lists(rest + Backwards(visit, 0), s.read.Keys)
  {
    BackwardsAre(visit, 0);
    var back := Backwards(visit, 0);
    var order := rest + back;
    forall i, j | 0 <= i < j < |order|
      ensures order[i] != order[j]
    {
      if i < |rest| <= j {
        assert rest[i] in rest && back[j - |rest|] in back;
      }
    }
    forall x
      ensures x in order <==> x in s.read
    {
      assert x in order <==> x in rest || x in back;
      assert x in back <==> x in visit;
    }
  }

  // ---------------------------------------------------------------------------------
  // Whether the order matters

  /** Every order goes through and gives target `t` the facts `v`. */
  ghost predicate AllGive(s: System, facts: Facts, t: Id, v: set<Fact>)
    requires Fits(s, facts)
  {
    forall order :: Lists(order, s.read.Keys) ==> Gives(s, facts, t, v, order)
  }

  ghost predicate Gives(s: System, facts: Facts, t: Id, v: set<Fact>, order: seq<Id>)
    requires Fits(s, facts) && Lists(order, s.read.Keys)
  {
    Run(s, facts, order).Some? && t in Run(s, facts, order).value && Run(s, facts, order).value[t] == v
  }

  /** Nothing reaches target `t` that it does not read at the start. */
  ghost predicate IsReadAtStart(s: System, facts: Facts, t: Id)
    requires Fits(s, facts) && t in s.read
  {
    forall f :: Reaches(s, facts, t, f) ==> f in Taken(s, facts, t)
  }

  /** What a target has at the end is what it took at its turn. */
  lemma TookAtItsTurn(s: System, facts: Facts, order: seq<Id>, t: Id) returns (before: seq<Id>)
    requires Fits(s, facts) && Lists(order, s.read.Keys) && t in s.read && Run(s, facts, order).Some?
    ensures (forall x :: x in before ==> x in s.read) && Run(s, facts, before).Some?
    ensures var now := Run(s, facts, before).value;
      && Fits(s, now) && CanTake(s, now, t)
      && t in Run(s, facts, order).value && Run(s, facts, order).value[t] == Taken(s, now, t)
  {
    hide Taken, CanTake;
    var rest;
    before, rest := SplitAt(order, t);
    RunNext(s, facts, before, t);
    hide Run;
    RunKeeps(s, facts, before + [t], rest, t);
  }

  lemma SplitAt(order: seq<Id>, t: Id) returns (before: seq<Id>, rest: seq<Id>)
    requires Distinct(order) && t in order
    ensures order == (before + [t]) + rest && t !in rest
    ensures forall x :: x in before || x in before + [t] ==> x in order
  {
    var i :| 0 <= i < |order| && order[i] == t;
    before, rest := order[..i], order[i + 1..];
    assert order == (before + [t]) + rest;
    forall k | 0 <= k < |rest|
      ensures rest[k] != t
    {
      assert order[i] != order[i + 1 + k];
    }
  }

  lemma EveryOrderGivesTheSame(s: System, facts: Facts, t: Id, order: seq<Id>)
    requires Fits(s, facts) && t in s.read && AllSettle(s, facts) && IsReadAtStart(s, facts, t)
    requires Lists(order, s.read.Keys)
    ensures Gives(s, facts, t, Taken(s, facts, t), order)
  {
    SettledRuns(s, facts, order);
    var before := TookAtItsTurn(s, facts, order, t);
    var now := Run(s, facts, before).value;
    RunStaysWithin(s, facts, before);
    hide Run, Taken, CanTake, Reaches, AllWithin, AllSettle;
    forall f
      ensures f in Taken(s, facts, t) <==> f in Taken(s, now, t)
    {
      TakenIsWithin(s, facts, now, t, f);
    }
  }

  /** When every order goes through, no name that reaches a target stands for two things. */
  lemma RunsSettle(s: System, facts: Facts)
    requires Fits(s, facts)
    requires forall order :: Lists(order, s.read.Keys) ==> Run(s, facts, order).Some?
    ensures AllSettle(s, facts)
  {
    forall t | t in s.read
      ensures t in s.supported && IsSettled(s, facts, t)
    {
      var order := LastGetsMost(s, facts, t);
      assert Run(s, facts, order).Some?;
      var before := TookAtItsTurn(s, facts, order, t);
      hide Run, Taken, Reaches;
    }
  }

  /**
   * Every order of the targets goes through and gives target `t` the same facts if and only if no name that reaches
   * any target stands for two things, and nothing reaches `t` that it does not read at the start.
   */
  lemma OrderDoesNotMatter(s: System, facts: Facts, t: Id)
    requires Fits(s, facts) && t in s.read
    ensures (exists v :: AllGive(s, facts, t, v)) <==> AllSettle(s, facts) && IsReadAtStart(s, facts, t)
  {
    if AllSettle(s, facts) && IsReadAtStart(s, facts, t) {
      forall order | Lists(order, s.read.Keys)
        ensures Gives(s, facts, t, Taken(s, facts, t), order)
      {
        EveryOrderGivesTheSame(s, facts, t, order);
      }
      assert AllGive(s, facts, t, Taken(s, facts, t));
    }
    if v :| AllGive(s, facts, t, v) {
      forall order | Lists(order, s.read.Keys)
        ensures Run(s, facts, order).Some?
      {
        assert Gives(s, facts, t, v, order);
      }
      RunsSettle(s, facts);
      var first := FirstGetsLeast(s, facts, t);
      var last := LastGetsMost(s, facts, t);
      assert Gives(s, facts, t, v, first) && Gives(s, facts, t, v, last);
    }
  }

  // ---------------------------------------------------------------------------------
  // Targets that take over at the same time

  /** Target `t` takes over a part of what it can now. */
  ghost predicate TakesSome(s: System, now: Facts, t: Id, next: Facts)
    requires Fits(s, now)
  {
    && t in s.read && t in next && now[t] <= next[t] <= Taken(s, now, t)
    && next == now[t := next[t]]
  }

  ghost predicate IsStep(s: System, now: Facts, next: Facts) {
    Fits(s, now) && exists t :: TakesSome(s, now, t, next)
  }

  /** What the services have from `start` on, while the targets take over part by part, in any interleaving. */
  ghost predicate IsInterleaving(s: System, start: Facts, states: seq<Facts>) {
    && states != [] && states[0] == start
    && forall i :: 0 <= i < |states| - 1 ==> IsStep(s, states[i], states[i + 1])
  }

  /** In the end each target has what is fixed, and what each service it reads had at some time. */
  ghost predicate IsOver(s: System, states: seq<Facts>)
    requires states != [] && Fits(s, states[|states| - 1])
  {
    var last := states[|states| - 1];
    forall t :: t in s.read ==> s.fixed[t] <= last[t] && forall r :: r in s.read[t] ==> WasRead(states, r, last[t])
  }

  ghost predicate WasRead(states: seq<Facts>, r: Id, taken: set<Fact>) {
    exists i :: 0 <= i < |states| && r in states[i] && states[i][r] <= taken
  }

  lemma PartStaysWithin(s: System, start: Facts, now: Facts, next: Facts)
    requires Fits(s, start) && AllWithin(s, start, now) && IsStep(s, now, next)
    ensures AllWithin(s, start, next)
  {
    var t :| TakesSome(s, now, t, next);
    StepStaysWithin(s, start, now, t);
    var all := now[t := Taken(s, now, t)];
    hide Taken, Reaches;
    forall x | x in start
      ensures IsWithin(s, start, next, x)
    {
      assert IsWithin(s, start, now, x) && IsWithin(s, start, all, x);
    }
  }

  lemma {:induction false} InterleavingStaysWithin(s: System, start: Facts, states: seq<Facts>, i: nat)
    requires Fits(s, start) && IsInterleaving(s, start, states) && i < |states|
    ensures AllWithin(s, start, states[i])
  {
    hide AllWithin, IsStep;
    if i == 0 {
      StartsWithin(s, start);
    } else {
      InterleavingStaysWithin(s, start, states, i - 1);
      assert IsStep(s, states[i - 1], states[i - 1 + 1]);
      PartStaysWithin(s, start, states[i - 1], states[i]);
    }
  }

  /** At no time does a name of a target stand for two things. */
  lemma InterleavingIsConsistent(s: System, start: Facts, states: seq<Facts>, i: nat, t: Id)
    requires Fits(s, start) && AllSettle(s, start) && IsInterleaving(s, start, states) && i < |states| && t in s.read
    ensures t in states[i] && Consistent(states[i][t])
  {
    InterleavingStaysWithin(s, start, states, i);
    assert IsWithin(s, start, states[i], t) && IsSettled(s, start, t);
    hide Reaches, IsInterleaving;
  }

  /**
   * In the same case it does not matter either how the targets interleave: whatever each finds when it reads, no
   * conflict comes up, and target `t` ends with what it reads at the start.
   */
  lemma InterleavingDoesNotMatter(s: System, start: Facts, states: seq<Facts>, t: Id)
    requires Fits(s, start) && t in s.read && AllSettle(s, start) && IsReadAtStart(s, start, t)
    requires IsInterleaving(s, start, states) && Fits(s, states[|states| - 1]) && IsOver(s, states)
    ensures states[|states| - 1][t] == Taken(s, start, t)
    ensures forall i, r :: 0 <= i < |states| && r in s.read ==> r in states[i] && Consistent(states[i][r])
  {
    var last := states[|states| - 1];
    forall i, r | 0 <= i < |states| && r in s.read
      ensures r in states[i] && Consistent(states[i][r])
    {
      InterleavingIsConsistent(s, start, states, i, r);
    }
    hide AllSettle, Consistent, Reaches;
    InterleavingStaysWithin(s, start, states, |states| - 1);
    assert IsWithin(s, start, last, t);
    forall f | f in Taken(s, start, t)
      ensures f in last[t]
    {
      TakenIs(s, start, t, f);
      if r :| r in s.read[t] && f in start[r] {
        var i :| 0 <= i < |states| && r in states[i] && states[i][r] <= last[t];
        InterleavingStaysWithin(s, start, states, i);
        assert IsWithin(s, start, states[i], r);
      }
    }
    hide Taken;
  }
}
