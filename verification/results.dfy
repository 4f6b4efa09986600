/** Java's Optional and the host's NotReadyException, as values. */
module Results {

  /** An optional value: `java.util.Optional`, or a reference that may be null. */
  datatype Option<+T> = None | Some(value: T)

  /** Looks a key up in a map, yielding `None` where a Java lookup yields null. */
  function Get<K, V>(m: map<K, V>, k: K): (r: Option<V>)
    ensures r.Some? <==> k in m
    ensures r.Some? ==> r.value == m[k]
  {
    if k in m then Some(m[k]) else None
  }

  /** The outcome of a provider call: a value, or the NotReadyException the
      readiness gate throws. `:-` propagates `NotReady` the way the exception
      propagates out of the Java helpers. */
  datatype Result<+T> = Ok(value: T) | NotReady {

    predicate IsFailure() {
      NotReady?
    }

    function PropagateFailure<U>(): Result<U>
      requires NotReady?
    {
      NotReady
    }

    function Extract(): T
      requires Ok?
    {
      value
    }
  }
}
