/** Failure-compatible wrappers used throughout the model. */
module Wrappers {

  /** A value that may be absent. In a data array, `None` is the missing marker
      (JSON `null`) and `Some(x)` a number. */
  datatype Option<+T> = None | Some(value: T)

  /** The outcome of an operation that Python would abort with an exception. */
  datatype Result<+R, +E> = Success(value: R) | Failure(error: E)
}
