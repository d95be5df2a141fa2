/** Optional values and error returns, used where the source returns None or raises. */
module Results {

  /** A value that may be absent (Python's `None`, a nullable column). */
  datatype Option<T> = None | Some(value: T)

  /** The outcome of an operation that either produces a value or fails with an error
      (a raised exception in the source). */
  datatype Result<T, E> = Ok(value: T) | Err(error: E)

  /** The outcome of an operation that returns nothing useful or fails with an error. */
  datatype Outcome<E> = Pass | Fail(error: E)
}
