/** Failure-carrying return types shared by the codec and hub modules. */
module Wrappers {

  /** A value that may be absent: Python's `None` return. */
  datatype Option<+T> = None | Some(value: T)

  /** A computed value or the error a function raises on bad input. */
  datatype Result<+T, +E> = Success(value: T) | Failure(error: E)

  /** How a Python call ends: it returns a value, or an exception escapes it. */
  datatype Completion<+T> = Returned(value: T) | Raised
}
