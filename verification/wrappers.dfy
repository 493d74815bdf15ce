/** Wrappers used across the model: an optional value (Python's `None` or
    a value) and a result that either succeeds or carries the error a
    database call would raise. */
module Wrappers {

  /** A value that may be missing, in place of Python's `None`. */
  datatype Option<+T> = None | Some(value: T)

  /** The outcome of an operation that can fail with an error value. */
  datatype Result<+R, +E> = Success(value: R) | Failure(error: E)
}
