/** Option and Result values used for the source's `null`, `NaN` and raised errors. */
module Wrappers {

  datatype Option<+T> = None | Some(value: T)

  datatype Result<+R, +E> = Success(value: R) | Failure(error: E)

  /** An operation that either passes or fails with an error and yields nothing. */
  datatype Outcome<+E> = Pass | Fail(error: E)
}
