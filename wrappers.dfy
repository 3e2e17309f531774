/** The optional value and the success-or-error value used throughout the model. */
module Wrappers {

  /** Python's `None` or a present value. */
  datatype Option<+T> = None | Some(value: T)

  /** A completed computation or the exception it raised. */
  datatype Result<+T, +E> = Success(value: T) | Failure(error: E)
}
