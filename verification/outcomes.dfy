/** Option, Result and the outcome of a Python call that may raise. */
module Outcomes {

  datatype Option<+T> = None | Some(value: T)

  /** What an external parser returns: a value, or the text of the error it raised. */
  datatype Result<+T, +E> = Success(value: T) | Failure(error: E)

  /** A Python call either returns a value or raises an exception; the exception is
      carried as its str() text, the only part of it the service ever reads. */
  datatype Outcome<+T> = Return(value: T) | Raise(error: string)
}
