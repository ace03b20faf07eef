/** Option and Result, the failure-carrying values used across the model. */
module Wrappers {

  /** A value that may be absent: JavaScript's `T | null` and `T | undefined`. */
  datatype Option<+T> = None | Some(value: T)

  /** The settled value of a call that either returns or throws: `Failure` carries what was thrown. */
  datatype Result<+T, +E> = Success(value: T) | Failure(error: E)
}
