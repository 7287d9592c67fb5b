/** Failure-carrying values standing in for the exceptions the game throws
    and for JavaScript's `undefined`. */
module Results {

  /** A value that may be missing: `None` stands for `undefined`. */
  datatype Option<+T> = None | Some(value: T)

  /** The outcome of a check that throws on failure and otherwise returns nothing of interest. */
  datatype Outcome<+E> = Pass | Fail(error: E)

  /** The outcome of an operation that either returns a value or throws an error. */
  datatype Result<+R, +E> = Success(value: R) | Failure(error: E)
}
