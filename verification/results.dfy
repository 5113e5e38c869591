/** Failure-carrying return types for the operations that raise in the
    collage generator (ValueError on bad parameters or an unknown entity). */
module Results {

  datatype Option<+T> = None | Some(value: T)

  /** The value an operation returns, or the error it raises. */
  datatype Result<+T, +E> = Success(value: T) | Failure(error: E)

  /** A check that either passes or raises, without a value. */
  datatype Outcome<+E> = Pass | Fail(error: E)
}
