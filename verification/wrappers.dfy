/** Failure-compatible wrappers shared by every module of the model.
    `Option` stands for a value that may be missing (pandas' NaN, Python's
    None); `Result` stands for a computation that may raise. */
module Wrappers {

  /** A possibly-missing value. */
  datatype Option<+T> = None | Some(value: T)

  /** Either the value a call returns or the error it raises. */
  datatype Result<+T, +E> = Success(value: T) | Failure(error: E)
}
