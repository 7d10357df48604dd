/** The Option and Result types the other modules share. */
module Wrappers {

  datatype Option<+T> = None | Some(value: T)

  /** The value-or-error pair that Go functions return as `(T, error)`. */
  datatype Result<+T, +E> = Success(value: T) | Failure(error: E)
}
