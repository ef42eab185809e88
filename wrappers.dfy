/** The Option and Result types shared by the whole model. */
module Wrappers {

  /** `Some(v)` for a value that is present, `None` for JavaScript's `undefined`. */
  datatype Option<+T> = None | Some(value: T)

  /** The outcome of an operation that either returns a value or throws an error. */
  datatype Result<+R, +E> = Success(value: R) | Failure(error: E)
}
