/** Optional values and failure-compatible results, used for Java's nullable
    references and `Optional`, and for exceptions raised by a stream collector. */
module Wrappers {

  /** A value that may be absent (Java `null` or an empty `Optional`). */
  datatype Option<+T> = None | Some(value: T)

  /** The result of a computation that may fail with an error value. */
  datatype Result<+R, +E> = Success(value: R) | Failure(error: E) {

    predicate IsFailure() {
      Failure?
    }

    function PropagateFailure<U>(): Result<U, E>
      requires Failure?
    {
      Failure(error)
    }

    function Extract(): R
      requires Success?
    {
      value
    }
  }

  /** `Map.get`: the value stored under `k`, or absent when `k` is not a key. */
  function MapGet<K, V>(m: map<K, V>, k: K): (r: Option<V>)
    ensures r.Some? <==> k in m
    ensures r.Some? ==> r.value == m[k]
  {
    if k in m then Some(m[k]) else None
  }
}
