/** Option and Result values, used where the source has null and exceptions. */
module Wrappers {

  /** A value that may be absent; `None` stands for a C# `null`. */
  datatype Option<+T> = None | Some(value: T)

  /** The value of an operation, or the exception it raised. */
  datatype Result<+R, +E> = Success(value: R) | Failure(error: E)
}
