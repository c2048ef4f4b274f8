/** Failure-carrying datatypes used throughout the model: `Option` for Python's
    "value or None" and `Result` for "value or raised error". */
module Wrappers {

  /** A value that may be absent (Python `None`, pandas `NaN`). */
  datatype Option<+T> = None | Some(value: T)

  /** The outcome of an operation that either returns a value or raises. */
  datatype Result<+R, +E> = Success(value: R) | Failure(error: E)
}
