/** Optional values and results with a typed error, standing in for Java's
    nullable references and thrown exceptions. */
module Results {

  /** A Java reference that may be null. */
  datatype Option<+T> = None | Some(value: T)

  /** The outcome of a computation that either returns a value or throws. */
  datatype Result<+T, +E> = Ok(value: T) | Err(error: E)

  /** The list behind a nullable collection, with null read as empty. */
  function OrEmpty<T>(xs: Option<seq<T>>): (r: seq<T>)
    ensures xs.Some? ==> r == xs.value
    ensures xs.None? ==> r == []
  {
    if xs.Some? then xs.value else []
  }
}
