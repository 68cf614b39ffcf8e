/** Failure-carrying wrappers shared by the basket model. */
module Results {

  /** A value that may be absent, as returned by a lookup. */
  datatype Option<+T> = None | Some(value: T)

  /** The outcome of an operation that the caller's input can make fail. */
  datatype Result<+T, +E> = Success(value: T) | Failure(error: E)
}
