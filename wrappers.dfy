/** Failure-carrying wrappers used by the analyzers and the shaping model. */
module Wrappers {

  /** A value that may be absent: a missing CSV cell, a regex that did not match,
      a token that does not parse as a number. */
  datatype Option<+T> = None | Some(value: T)

  /** The outcome of an operation that can raise: a value, or the error raised. */
  datatype Result<+T, +E> = Success(value: T) | Failure(error: E)
}
