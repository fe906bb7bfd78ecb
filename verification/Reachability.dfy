/** Depth-first visits of a finite graph, in the order nodes are first met. */
module Reachability {
  import opened Common

  type Graph<!T> = T -> seq<T>

  ghost predicate Closed<T(!new)>(g: Graph<T>, universe: set<T>) {
    forall x, y :: x in universe && y in g(x) ==> y in universe
  }

  ghost function Left<T>(universe: set<T>, seen: seq<T>): set<T> {
    set x | x in universe && x !in seen
  }

  /** The nodes seen once `x` was visited, `seen` first. */
  ghost function Visit<T(!new)>(g: Graph<T>, universe: set<T>, seen: seq<T>, x: T): (r: seq<T>)
    requires Closed(g, universe) && x in universe
    ensures seen <= r && x in r
    decreases Left(universe, seen), 0
  {
    if x in seen then seen
    else
      assert x in Left(universe, seen) && x !in Left(universe, seen + [x]);
      VisitAll(g, universe, seen + [x], g(x))
  }

  ghost function VisitAll<T(!new)>(g: Graph<T>, universe: set<T>, seen: seq<T>, xs: seq<T>): (r: seq<T>)
    requires Closed(g, universe) && forall x :: x in xs ==> x in universe
    ensures seen <= r && forall x :: x in xs ==> x in r
    decreases Left(universe, seen), |xs| + 1
  {
    if xs == [] then seen
    else
      var first := Visit(g, universe, seen, xs[0]);
      assert Left(universe, first) <= Left(universe, seen);
      VisitAll(g, universe, first, xs[1..])
  }

  // ---------------------------------------------------------------------------------
  // What a visit finds

  ghost predicate Path<T(!new)>(g: Graph<T>, p: seq<T>) {
    p != [] && forall i :: 0 <= i < |p| - 1 ==> p[i + 1] in g(p[i])
  }

  ghost predicate PathTo<T(!new)>(g: Graph<T>, p: seq<T>, x: T, y: T) {
    Path(g, p) && p[0] == x && p[|p| - 1] == y
  }

  ghost predicate Reaches<T(!new)>(g: Graph<T>, x: T, y: T) {
    exists p :: PathTo(g, p, x, y)
  }

  ghost predicate ReachedFrom<T(!new)>(g: Graph<T>, xs: seq<T>, y: T) {
    exists x :: x in xs && Reaches(g, x, y)
  }

  ghost predicate SuccessorsIn<T(!new)>(g: Graph<T>, x: T, r: seq<T>) {
    forall y :: y in g(x) ==> y in r
  }

  lemma ReachesSelf<T(!new)>(g: Graph<T>, x: T)
    ensures Reaches(g, x, x)
  {
    assert PathTo(g, [x], x, x);
  }

  lemma ReachesThrough<T(!new)>(g: Graph<T>, x: T, y: T, z: T)
    requires y in g(x) && Reaches(g, y, z)
    ensures Reaches(g, x, z)
  {
    var p :| PathTo(g, p, y, z);
    var q := [x] + p;
    forall i | 0 <= i < |q| - 1
      ensures q[i + 1] in g(q[i])
    {
      if i > 0 {
        assert p[i] in g(p[i - 1]);
      }
    }
    assert PathTo(g, q, x, z);
  }

  /** Every new node is reached from `x`, its successors were visited, and none is listed twice. */
  lemma {:induction false} VisitFinds<T(!new)>(g: Graph<T>, universe: set<T>, seen: seq<T>, x: T)
    requires Closed(g, universe) && x in universe
    ensures var r := Visit(g, universe, seen, x);
      && (Distinct(seen) ==> Distinct(r))
      && (forall y :: y in r && y !in seen ==> Reaches(g, x, y))
      && (forall y :: y in r && y !in seen ==> SuccessorsIn(g, y, r))
    decreases Left(universe, seen), 0
  {
    if x !in seen {
      assert x in Left(universe, seen) && x !in Left(universe, seen + [x]);
      VisitAllFinds(g, universe, seen + [x], g(x));
      ReachesSelf(g, x);
      var r := Visit(g, universe, seen, x);
      forall y | y in r && y !in seen && y != x
        ensures Reaches(g, x, y)
      {
        assert y !in seen + [x];
        assert ReachedFrom(g, g(x), y);
        var z :| z in g(x) && Reaches(g, z, y);
        ReachesThrough(g, x, z, y);
      }
      forall y | y in r && y !in seen
        ensures SuccessorsIn(g, y, r)
      {
        assert r == VisitAll(g, universe, seen + [x], g(x));
        assert y == x || y !in seen + [x];
      }
    }
  }

  lemma {:induction false} VisitAllFinds<T(!new)>(g: Graph<T>, universe: set<T>, seen: seq<T>, xs: seq<T>)
    requires Closed(g, universe) && forall x :: x in xs ==> x in universe
    ensures var r := VisitAll(g, universe, seen, xs);
      && (Distinct(seen) ==> Distinct(r))
      && (forall y :: y in r && y !in seen ==> ReachedFrom(g, xs, y))
      && (forall y :: y in r && y !in seen ==> SuccessorsIn(g, y, r))
    decreases Left(universe, seen), |xs| + 1
  {
    if xs != [] {
      var first := Visit(g, universe, seen, xs[0]);
      var r := VisitAll(g, universe, seen, xs);
      VisitFinds(g, universe, seen, xs[0]);
      assert Left(universe, first) <= Left(universe, seen);
      VisitAllFinds(g, universe, first, xs[1..]);
      forall y | y in r && y !in seen
        ensures ReachedFrom(g, xs, y)
      {
        if y in first {
          assert xs[0] in xs;
        } else {
          var x :| x in xs[1..] && Reaches(g, x, y);
          assert x in xs;
        }
      }
      forall y | y in r && y !in seen
        ensures SuccessorsIn(g, y, r)
      {
        if y in first {
          assert SuccessorsIn(g, y, first);
        }
      }
    }
  }

  /** A set that holds the start of a path and every successor holds its end. */
  lemma {:induction false} ClosedHoldsPath<T(!new)>(g: Graph<T>, r: seq<T>, p: seq<T>)
    requires Path(g, p) && p[0] in r
    requires forall y :: y in r ==> SuccessorsIn(g, y, r)
    ensures p[|p| - 1] in r
    decreases |p|
  {
    if |p| > 1 {
      var q := p[..|p| - 1];
      forall i | 0 <= i < |q| - 1
        ensures q[i + 1] in g(q[i])
      {
        assert p[i + 1] in g(p[i]);
      }
      ClosedHoldsPath(g, r, q);
      assert p[|p| - 2 + 1] in g(p[|p| - 2]);
    }
  }

  /** A visit from nothing lists exactly what is reached, each node once. */
  lemma VisitAllIsReachability<T(!new)>(g: Graph<T>, universe: set<T>, xs: seq<T>)
    requires Closed(g, universe) && forall x :: x in xs ==> x in universe
    ensures var r := VisitAll(g, universe, [], xs);
      Distinct(r) && forall y :: y in r <==> ReachedFrom(g, xs, y)
  {
    var r := VisitAll(g, universe, [], xs);
    VisitAllFinds(g, universe, [], xs);
    forall y | ReachedFrom(g, xs, y)
      ensures y in r
    {
      var x :| x in xs && Reaches(g, x, y);
      var p :| PathTo(g, p, x, y);
      ClosedHoldsPath(g, r, p);
    }
  }

  lemma VisitIsReachability<T(!new)>(g: Graph<T>, universe: set<T>, x: T)
    requires Closed(g, universe) && x in universe
    ensures var r := Visit(g, universe, [], x);
      && r != [] && r[0] == x && Distinct(r)
      && forall y :: y in r <==> Reaches(g, x, y)
  {
    var r := Visit(g, universe, [], x);
    VisitFinds(g, universe, [], x);
    assert [] + [x] == [x] && [x] <= r;
    forall y | Reaches(g, x, y)
      ensures y in r
    {
      var p :| PathTo(g, p, x, y);
      ClosedHoldsPath(g, r, p);
    }
  }
}
