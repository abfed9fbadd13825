/** Optional values: the model's stand-in for Java's `null` and `Optional`. */
module Wrappers {

  datatype Option<+T> = None | Some(value: T)

  /** The value a map holds for `key`, or `None` when the key is absent (`Map.get`). */
  function Lookup<K, V>(m: map<K, V>, key: K): (r: Option<V>)
    ensures r.Some? <==> key in m
    ensures r.Some? ==> r.value == m[key]
  {
    if key in m then Some(m[key]) else None
  }
}
