/** Java's nullable references, written as an explicit option. */
module Options {

  /** `None` stands for Java's `null`. */
  datatype Option<+T> = None | Some(value: T)

  /** The entry of `m` at `k`, or `None` when `m` holds no mapping for `k`
      (what `Map.get` returns for a map whose values are never null). */
  function Lookup<K, V>(m: map<K, V>, k: K): (r: Option<V>)
    ensures r.Some? <==> k in m
    ensures r.Some? ==> r.value == m[k]
  {
    if k in m then Some(m[k]) else None
  }
}
