/** Plain objects as lists of properties, in property order. */
module Records {
  import opened Json

  datatype Pair<+V> = Pair(key: Str, value: V)

  type Record<V> = seq<Pair<V>>

  const PROTO := Ascii("__proto__")

  predicate DistinctKeys<V>(r: Record<V>) {
    forall i, j :: 0 <= i < j < |r| ==> r[i].key != r[j].key
  }

  /** The index of a key, or the number of properties. */
  function IndexOf<V>(r: Record<V>, key: Str): (i: nat)
    ensures i <= |r|
    ensures i < |r| ==> r[i].key == key
    ensures forall k :: 0 <= k < i ==> r[k].key != key
  {
    if r == [] || r[0].key == key then 0 else 1 + IndexOf(r[1..], key)
  }

  /** `Object.hasOwn(r, key)` */
  predicate Has<V>(r: Record<V>, key: Str) {
    IndexOf(r, key) < |r|
  }

  function Get<V>(r: Record<V>, key: Str): V
    requires Has(r, key)
  {
    r[IndexOf(r, key)].value
  }

  /** Defines a property: in its place if it exists, or last. */
  function Put<V>(r: Record<V>, key: Str, value: V): Record<V> {
    var i := IndexOf(r, key);
    if i < |r| then r[i := Pair(key, value)] else r + [Pair(key, value)]
  }

  /** `r[key] = value`: a text assigned to `__proto__` is ignored. */
  function Assign<V>(r: Record<V>, key: Str, value: V): Record<V> {
    if key == PROTO then r else Put(r, key, value)
  }

  lemma HasCons<V>(r: Record<V>, key: Str)
    requires r != []
    ensures Has(r, key) <==> r[0].key == key || Has(r[1..], key)
    ensures Has(r, key) ==> Get(r, key) == if r[0].key == key then r[0].value else Get(r[1..], key)
  {
  }

  lemma HasKey<V>(r: Record<V>, key: Str, i: nat)
    requires i < |r| && r[i].key == key
    ensures Has(r, key)
    ensures DistinctKeys(r) ==> Get(r, key) == r[i].value
  {
  }

  lemma PutKeeps<V>(r: Record<V>, key: Str, value: V)
    requires DistinctKeys(r)
    ensures DistinctKeys(Put(r, key, value))
    ensures Has(Put(r, key, value), key) && Get(Put(r, key, value), key) == value
    ensures forall k :: k != key ==> (Has(Put(r, key, value), k) <==> Has(r, k))
    ensures forall k :: k != key && Has(r, k) ==> Get(Put(r, key, value), k) == Get(r, k)
  {
    var r' := Put(r, key, value);
    HasKey(r', key, IndexOf(r, key));
    forall k | k != key
      ensures Has(r', k) <==> Has(r, k)
      ensures Has(r, k) ==> Get(r', k) == Get(r, k)
    {
      if Has(r, k) {
        HasKey(r', k, IndexOf(r, k));
      }
      if Has(r', k) {
        HasKey(r, k, IndexOf(r', k));
      }
    }
  }
}
