/** Optional values, standing for nil pointers, missing rows and NULL columns. */
module Options {
  datatype Option<+T> = None | Some(value: T)

  /** Map lookup that returns None for a missing key. */
  function Get<K, V>(m: map<K, V>, k: K): Option<V> {
    if k in m then Some(m[k]) else None
  }
}
