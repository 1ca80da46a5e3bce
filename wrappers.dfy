/** Option and Result values standing for Python's `None` returns and raised exceptions. */
module Wrappers {

  datatype Option<+T> = None | Some(value: T)

  datatype Result<+R, +E> = Success(value: R) | Failure(error: E)

  /** The outcome of a procedure that returns nothing but may raise. */
  datatype Outcome<+E> = Pass | Fail(error: E)
}
