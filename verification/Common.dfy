/** Shared value types. */
module Common {

  datatype Option<+T> = None | Some(value: T)

  datatype Result<+T, +E> = Ok(value: T) | Err(error: E)

  ghost predicate Distinct<T>(xs: seq<T>) {
    forall i, j :: 0 <= i < j < |xs| ==> xs[i] != xs[j]
  }

  /** The elements, each once, in some order. */
  ghost predicate Lists<T(!new)>(xs: seq<T>, s: set<T>) {
    Distinct(xs) && forall x :: x in xs <==> x in s
  }

  lemma {:induction false} ListLength<T(!new)>(xs: seq<T>, s: set<T>)
    requires Lists(xs, s)
    ensures |xs| == |s|
  {
    if xs == [] {
      assert s == {};
    } else {
      var init, last := xs[..|xs| - 1], xs[|xs| - 1];
      assert last in s;
      assert Lists(init, s - {last}) by {
        assert xs == init + [last];
      }
      ListLength(init, s - {last});
    }
  }

  lemma {:induction false} ListOf<T(!new)>(s: set<T>) returns (list: seq<T>)
    ensures Lists(list, s)
  {
    list := [];
    if s != {} {
      var x :| x in s;
      var rest := ListOf(s - {x});
      list := rest + [x];
    }
  }

  /** The names every plain object answers to without having them. */
  const INHERITED := [
    "__proto__", "constructor", "hasOwnProperty", "isPrototypeOf", "propertyIsEnumerable", "toLocaleString",
    "toString", "valueOf", "__defineGetter__", "__defineSetter__", "__lookupGetter__", "__lookupSetter__"]

  /** Every binding of `m` is a binding of `m'`. */
  ghost predicate SubMap<K, V>(m: map<K, V>, m': map<K, V>) {
    forall k :: k in m ==> k in m' && m'[k] == m[k]
  }

  lemma Associates<T>(a: seq<T>, b: seq<T>, c: seq<T>)
    ensures (a + b) + c == a + (b + c)
  {
  }

  lemma PrefixNext<T>(xs: seq<T>, i: nat)
    requires i < |xs|
    ensures xs[..i + 1] == xs[..i] + [xs[i]]
  {
  }

  /** A list and its last element. */
  lemma LastOf<T>(a: seq<T>, b: seq<T>)
    requires b != []
    ensures b == b[..|b| - 1] + [b[|b| - 1]]
    ensures a + b == (a + b[..|b| - 1]) + [b[|b| - 1]]
  {
  }
}
