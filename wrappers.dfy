/** Failure-carrying result types shared by the modules of this model. */
module Wrappers {

  /** A value that may be absent (Python's `None`). */
  datatype Option<+T> = None | Some(value: T)

  /** The outcome of an operation that may raise an error instead. */
  datatype Result<+R, +E> = Success(value: R) | Failure(error: E)
}
