/**
 * A Python `dict` as the scripts use it: a map together with the order in
 * which its keys were first inserted, since `.items()` iterates in that order.
 */
module Dicts {

  datatype Dict<K(==), V> = Dict(keys: seq<K>, values: map<K, V>)

  /** The keys are listed once each, and exactly the keys of the map are listed. */
  predicate Valid<K(==), V>(d: Dict<K, V>) {
    (forall i, j :: 0 <= i < j < |d.keys| ==> d.keys[i] != d.keys[j]) &&
    (forall k | k in d.keys :: k in d.values) && (forall k | k in d.values :: k in d.keys)
  }

  /** `{}` */
  function Empty<K(==), V>(): (d: Dict<K, V>)
    ensures Valid(d) && d.keys == [] && d.values == map[]
  {
    Dict([], map[])
  }

  /**
   * `d[k] = v`: the value is replaced, and a key that was not there is
   * appended to the iteration order; a key that was keeps its place.
   */
  function Put<K(==), V>(d: Dict<K, V>, k: K, v: V): (r: Dict<K, V>)
    ensures Valid(d) ==> Valid(r)
    ensures r.values == d.values[k := v]
    ensures k in d.values ==> r.keys == d.keys
    ensures k !in d.values && Valid(d) ==> r.keys == d.keys + [k]
  {
    if k in d.values then Dict(d.keys, d.values[k := v]) else Dict(d.keys + [k], d.values[k := v])
  }
}
