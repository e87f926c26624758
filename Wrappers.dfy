/** Failure-carrying wrappers used for Python's `None` and raised exceptions. */
module Wrappers {

  /** A value that may be absent (`None` in Python, NaN in a DataFrame). */
  datatype Option<+T> = None | Some(value: T)

  /** The outcome of a call that either returns a value or raises. */
  datatype Result<+R, +E> = Success(value: R) | Failure(error: E)
}
