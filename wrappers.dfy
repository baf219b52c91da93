/** Option and Result, the failure-carrying values the catalog's operations return. */
module Wrappers {

  datatype Option<+T> = None | Some(value: T)

  datatype Result<+T, +E> = Success(value: T) | Failure(error: E)

  /** A Result with nothing to carry on success. */
  datatype Outcome<+E> = Pass | Fail(error: E)
}
