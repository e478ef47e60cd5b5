/** Option and Result: Python's `None` and raised exceptions, as values. */
module Wrappers {

  datatype Option<+T> = None | Some(value: T)

  /** `Failure` carries the message of the exception the source would raise. */
  datatype Result<+T, +E> = Success(value: T) | Failure(error: E)
}
