/** Optional values and results, as used by every other module of the model. */
module Outcomes {

  /** A value that may be absent; in the JavaScript source, `undefined`. */
  datatype Option<+T> = None | Some(value: T)

  /** Either a computed value or the value an operation threw. */
  datatype Result<+R, +E> = Success(value: R) | Failure(error: E)

  /** The entry under `k`, if any. */
  function Lookup<K, V>(m: map<K, V>, k: K): (r: Option<V>)
    ensures r.Some? <==> k in m
    ensures r.Some? ==> r.value == m[k]
  {
    if k in m then Some(m[k]) else None
  }
}
