/** Option, Result and pass/fail wrappers used across the model: Python's `None`,
    raised exceptions and pass/fail checks. */
module Wrappers {

  /** A value or Python's `None`. */
  datatype Option<+T> = None | Some(value: T)

  /** A computed value, or the exception that the source raises instead. */
  datatype Result<+R, +E> = Success(value: R) | Failure(error: E)

  /** A check that either passes or raises. */
  datatype Outcome<+E> = Pass | Fail(error: E)
}
