/** Option and Result, the two shapes every fallible step of the integration returns. */
module Outcomes {

  /** A value that may be absent; stands for Python's `None` where a key may be missing. */
  datatype Option<+T> = None | Some(value: T)

  /** The outcome of a step that may raise: the value, or the exception it raised. */
  datatype Result<+T, +E> = Success(value: T) | Failure(error: E)
}
