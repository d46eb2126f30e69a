/** Failure-carrying datatypes shared by the whole model. */
module Wrappers {

  /** A value that may be absent: Python's `Optional[T]`, with `None` for a missing value. */
  datatype Option<+T> = None | Some(value: T)

  /** The outcome of a step that can fail with an error description (a caught Python exception). */
  datatype Result<+R, +E> = Success(value: R) | Failure(error: E)
}
