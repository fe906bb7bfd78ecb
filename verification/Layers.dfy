/** Nodes in layers: each one as soon as everything it waits for is in an earlier layer. */
module Layers {

  type Id = string

  /** What each node waits for. */
  type Needs = map<Id, set<Id>>

  ghost predicate Chain(g: Needs, p: seq<Id>) {
    p != [] && forall i :: 0 <= i < |p| - 1 ==> p[i] in g && p[i + 1] in g[p[i]]
  }

  ghost predicate Acyclic(g: Needs) {
    forall p :: Chain(g, p) && |p| > 1 ==> p[0] != p[|p| - 1]
  }

  /** Nothing waits for a node that does not exist. */
  predicate Complete(g: Needs) {
    forall x :: x in g ==> g[x] <= g.Keys
  }

  ghost predicate WaitsForLevel(g: Needs, level: map<Id, nat>, x: Id, n: int)
    requires x in g
  {
    exists d :: d in g[x] && d in level && level[d] == n
  }

  /** A node is above all it waits for. */
  ghost predicate Above(g: Needs, level: map<Id, nat>, x: Id)
    requires x in g && x in level
  {
    forall d :: d in g[x] ==> d in level && level[d] < level[x]
  }

  /** Each node is one level above the highest it waits for, or at the bottom. */
  ghost predicate Layering(g: Needs, level: map<Id, nat>) {
    && level.Keys == g.Keys
    && forall x :: x in g ==>
         && Above(g, level, x)
         && (level[x] > 0 ==> WaitsForLevel(g, level, x, level[x] - 1))
  }

  // ---------------------------------------------------------------------------------
  // The levels are the longest chains

  lemma {:induction false} ChainDescends(g: Needs, level: map<Id, nat>, p: seq<Id>)
    requires Layering(g, level) && Chain(g, p) && p[0] in g
    ensures p[|p| - 1] in g && level[p[|p| - 1]] + |p| - 1 <= level[p[0]]
  {
    if |p| > 1 {
      var q := p[..|p| - 1];
      ChainDescends(g, level, q);
      assert p[|p| - 2 + 1] in g[p[|p| - 2]] && Above(g, level, p[|p| - 2]);
    }
  }

  lemma {:induction false} ChainOfLevel(g: Needs, level: map<Id, nat>, x: Id) returns (p: seq<Id>)
    requires Layering(g, level) && x in g
    ensures Chain(g, p) && p[0] == x && |p| == level[x] + 1
    decreases level[x]
  {
    p := [x];
    if level[x] > 0 {
      assert WaitsForLevel(g, level, x, level[x] - 1);
      var d :| d in g[x] && d in level && level[d] == level[x] - 1;
      var q := ChainOfLevel(g, level, d);
      p := [x] + q;
      assert forall i :: 1 <= i < |p| ==> p[i] == q[i - 1];
    }
  }

  /** The level of a node is the length of the longest chain from it. */
  lemma LevelIsLongestChain(g: Needs, level: map<Id, nat>, x: Id)
    requires Layering(g, level) && x in g
    ensures exists p :: Chain(g, p) && p[0] == x && |p| - 1 == level[x]
    ensures forall p :: Chain(g, p) && p[0] == x ==> |p| - 1 <= level[x]
  {
    var p := ChainOfLevel(g, level, x);
    forall q | Chain(g, q) && q[0] == x
      ensures |q| - 1 <= level[x]
    {
      ChainDescends(g, level, q);
    }
  }

  lemma LevelIsAtMost(g: Needs, a: map<Id, nat>, b: map<Id, nat>, x: Id)
    requires Layering(g, a) && Layering(g, b) && x in g
    ensures a[x] <= b[x]
  {
    var p := ChainOfLevel(g, a, x);
    ChainDescends(g, b, p);
  }

  /** So there is one layering at most. */
  lemma LayeringIsUnique(g: Needs, a: map<Id, nat>, b: map<Id, nat>)
    requires Layering(g, a) && Layering(g, b)
    ensures a == b
  {
    forall x | x in g
      ensures a[x] == b[x]
    {
      LevelIsAtMost(g, a, b, x);
      LevelIsAtMost(g, b, a, x);
    }
    hide Above, WaitsForLevel;
  }

  lemma LayeredIsAcyclic(g: Needs, level: map<Id, nat>)
    requires Layering(g, level)
    ensures Complete(g) && Acyclic(g)
  {
    forall p | Chain(g, p) && |p| > 1
      ensures p[0] != p[|p| - 1]
    {
      assert p[0] in g;
      ChainDescends(g, level, p);
    }
  }

  // ---------------------------------------------------------------------------------
  // Layer by layer

  /** The nodes that no longer wait. */
  function Ready(g: Needs, done: set<Id>): set<Id> {
    set x | x in g && x !in done && g[x] <= done
  }

  /** The first `n` layers. */
  ghost predicate Layered(g: Needs, level: map<Id, nat>, n: nat) {
    && level.Keys <= g.Keys
    && (forall x :: x in level ==>
          && level[x] < n
          && Above(g, level, x)
          && (level[x] > 0 ==> WaitsForLevel(g, level, x, level[x] - 1)))
    && (n > 0 ==> forall x :: x in Ready(g, level.Keys) ==> WaitsForLevel(g, level, x, n - 1))
    && (forall o :: 0 <= o < n ==> InUse(level, o))
  }

  ghost predicate InUse(level: map<Id, nat>, o: int) {
    exists x :: x in level && level[x] == o
  }

  function AddLayer(level: map<Id, nat>, layer: set<Id>, n: nat): map<Id, nat> {
    level + map x | x in layer :: n
  }

  lemma NextLayer(g: Needs, level: map<Id, nat>, n: nat)
    requires Layered(g, level, n) && Ready(g, level.Keys) != {}
    ensures Layered(g, AddLayer(level, Ready(g, level.Keys), n), n + 1)
    ensures AddLayer(level, Ready(g, level.Keys), n).Keys == level.Keys + Ready(g, level.Keys)
  {
    hide WaitsForLevel, InUse, Above, AddLayer, Ready;
    var layer := Ready(g, level.Keys);
    var next := AddLayer(level, layer, n);
    LayerKeys(g, level, n);
    forall x | x in next
      ensures next[x] < n + 1 && Above(g, next, x)
      ensures next[x] > 0 ==> WaitsForLevel(g, next, x, next[x] - 1)
    {
      NextLevel(g, level, n, x);
    }
    ReadyNext(g, level, n);
    LevelsInUse(level, layer, n);
  }

  lemma LayerKeys(g: Needs, level: map<Id, nat>, n: nat)
    ensures Ready(g, level.Keys) !! level.Keys && Ready(g, level.Keys) <= g.Keys
    ensures AddLayer(level, Ready(g, level.Keys), n).Keys == level.Keys + Ready(g, level.Keys)
  {
  }

  lemma NextLevel(g: Needs, level: map<Id, nat>, n: nat, x: Id)
    requires Layered(g, level, n) && x in AddLayer(level, Ready(g, level.Keys), n)
    ensures
      var next := AddLayer(level, Ready(g, level.Keys), n);
      && next[x] < n + 1 && Above(g, next, x)
      && (next[x] > 0 ==> WaitsForLevel(g, next, x, next[x] - 1))
  {
    var next := AddLayer(level, Ready(g, level.Keys), n);
    if x in level {
      assert Above(g, level, x);
    }
    if next[x] > 0 {
      assert WaitsForLevel(g, level, x, next[x] - 1);
      var d :| d in g[x] && d in level && level[d] == next[x] - 1;
      assert next[d] == level[d];
    }
  }

  lemma ReadyNext(g: Needs, level: map<Id, nat>, n: nat)
    ensures
      var next := AddLayer(level, Ready(g, level.Keys), n);
      forall x :: x in Ready(g, next.Keys) ==> WaitsForLevel(g, next, x, n)
  {
    var layer := Ready(g, level.Keys);
    var next := AddLayer(level, layer, n);
    assert next.Keys == level.Keys + layer;
    forall x | x in Ready(g, next.Keys)
      ensures WaitsForLevel(g, next, x, n)
    {
      assert x !in layer;
      var d :| d in g[x] && d !in level;
      assert next[d] == n;
    }
  }

  lemma LevelsInUse(level: map<Id, nat>, layer: set<Id>, n: nat)
    requires layer != {} && layer !! level.Keys && forall o :: 0 <= o < n ==> InUse(level, o)
    ensures forall o :: 0 <= o < n + 1 ==> InUse(AddLayer(level, layer, n), o)
  {
    var next := AddLayer(level, layer, n);
    forall o | 0 <= o < n + 1
      ensures InUse(next, o)
    {
      if o < n {
        assert InUse(level, o);
        var x :| x in level && level[x] == o;
        assert x in next && next[x] == o;
      } else {
        var x :| x in layer;
        assert x in next && next[x] == n;
      }
    }
  }

  /** No level below that of a node is empty. */
  lemma {:induction false} LevelsBelow(g: Needs, level: map<Id, nat>, x: Id, k: nat)
    requires Layering(g, level) && x in g && k <= level[x]
    ensures InUse(level, k)
    decreases level[x]
  {
    if k < level[x] {
      assert WaitsForLevel(g, level, x, level[x] - 1);
      var d :| d in g[x] && d in level && level[d] == level[x] - 1;
      LevelsBelow(g, level, d, k);
    }
  }

  /** When no node is ready, either all are in a layer or no layering exists. */
  lemma LastLayer(g: Needs, level: map<Id, nat>, n: nat)
    requires Layered(g, level, n) && Ready(g, level.Keys) == {}
    ensures level.Keys == g.Keys <==> Layering(g, level)
    ensures level.Keys == g.Keys <==> Complete(g) && Acyclic(g)
  {
    if level.Keys == g.Keys {
      LayeredIsAcyclic(g, level);
    } else if Complete(g) {
      var stuck := g.Keys - level.Keys;
      assert level.Keys + stuck == g.Keys;
      forall x | x in stuck
        ensures WaitsFor(g, x, stuck)
      {
        assert x !in Ready(g, level.Keys);
        var d :| d in g[x] && d !in level;
      }
      StuckHasCycle(g, stuck);
    }
  }

  ghost predicate WaitsFor(g: Needs, x: Id, s: set<Id>)
    requires x in g
  {
    exists d :: d in g[x] && d in s
  }

  /** Each of the nodes waits for one of them. */
  ghost predicate IsStuck(g: Needs, stuck: set<Id>) {
    stuck != {} && stuck <= g.Keys && forall x :: x in stuck ==> WaitsFor(g, x, stuck)
  }

  ghost predicate StaysIn(p: seq<Id>, s: set<Id>) {
    forall i :: 0 <= i < |p| ==> p[i] in s
  }

  lemma ChainGrows(g: Needs, p: seq<Id>, d: Id)
    requires Chain(g, p) && p[|p| - 1] in g && d in g[p[|p| - 1]]
    ensures Chain(g, p + [d])
  {
    var q := p + [d];
    forall i | 0 <= i < |q| - 1
      ensures q[i] in g && q[i + 1] in g[q[i]]
    {
      if i < |p| - 1 {
        assert p[i + 1] in g[p[i]];
      }
    }
  }

  lemma ChainLeads(g: Needs, x: Id, q: seq<Id>)
    requires Chain(g, q) && x in g && q[0] in g[x]
    ensures Chain(g, [x] + q)
  {
    var p := [x] + q;
    forall i | 0 <= i < |p| - 1
      ensures p[i] in g && p[i + 1] in g[p[i]]
    {
      if i > 0 {
        assert q[i - 1 + 1] in g[q[i - 1]];
      }
    }
  }

  lemma ChainPart(g: Needs, p: seq<Id>, i: nat, j: nat)
    requires Chain(g, p) && i < j <= |p|
    ensures Chain(g, p[i..j])
  {
    var q := p[i..j];
    forall k | 0 <= k < |q| - 1
      ensures q[k] in g && q[k + 1] in g[q[k]]
    {
      assert p[i + k + 1] in g[p[i + k]];
    }
  }

  lemma {:induction false} ChainWithin(g: Needs, stuck: set<Id>, n: nat) returns (p: seq<Id>)
    requires IsStuck(g, stuck)
    ensures Chain(g, p) && |p| == n + 1 && StaysIn(p, stuck)
  {
    if n == 0 {
      var x :| x in stuck;
      p := [x];
    } else {
      var q := ChainWithin(g, stuck, n - 1);
      assert WaitsFor(g, q[n - 1], stuck);
      var d :| d in g[q[n - 1]] && d in stuck;
      p := q + [d];
      ChainGrows(g, q, d);
    }
  }

  lemma {:induction false} Pigeonhole(p: seq<Id>, s: set<Id>) returns (i: nat, j: nat)
    requires StaysIn(p, s) && |p| > |s|
    ensures i < j < |p| && p[i] == p[j]
    decreases |p|
  {
    var last, q := p[|p| - 1], p[..|p| - 1];
    if k :| 0 <= k < |q| && q[k] == last {
      i, j := k, |p| - 1;
    } else {
      assert StaysIn(q, s - {last});
      i, j := Pigeonhole(q, s - {last});
    }
  }

  lemma StuckHasCycle(g: Needs, stuck: set<Id>)
    requires IsStuck(g, stuck)
    ensures !Acyclic(g)
  {
    hide IsStuck, WaitsFor, StaysIn, Chain;
    var p := ChainWithin(g, stuck, |stuck|);
    var i, j := Pigeonhole(p, stuck);
    ChainPart(g, p, i, j + 1);
    var q := p[i..j + 1];
    assert q[0] == q[|q| - 1];
  }

  // ---------------------------------------------------------------------------------
  // The other way round

  function Reversed(g: Needs): Needs {
    map x | x in g :: set y | y in g && x in g[y]
  }

  lemma CycleReversed(g: Needs, p: seq<Id>)
    requires Chain(g, p) && |p| > 1 && p[0] == p[|p| - 1]
    ensures !Acyclic(Reversed(g))
  {
    var n, h := |p|, Reversed(g);
    var q := seq(n, i requires 0 <= i < n => p[n - 1 - i]);
    forall i | 0 <= i < n - 1
      ensures q[i] in h && q[i + 1] in h[q[i]]
    {
      var k := n - 2 - i;
      assert p[k + 1] in g[p[k]];
      assert p[k + 1] in g by {
        assert k + 1 < n - 1 || p[k + 1] == p[0];
      }
    }
    assert Chain(h, q);
  }

  lemma ReversedIsAcyclic(g: Needs)
    ensures Acyclic(Reversed(g)) <==> Acyclic(g)
  {
    if p :| Chain(g, p) && |p| > 1 && p[0] == p[|p| - 1] {
      CycleReversed(g, p);
    }
    if p :| Chain(Reversed(g), p) && |p| > 1 && p[0] == p[|p| - 1] {
      CycleReversed(Reversed(g), p);
      var h := Reversed(Reversed(g));
      var q :| Chain(h, q) && |q| > 1 && q[0] == q[|q| - 1];
      forall i | 0 <= i < |q| - 1
        ensures q[i] in g && q[i + 1] in g[q[i]]
      {
        assert q[i + 1] in h[q[i]];
      }
      assert Chain(g, q);
    }
  }
}
