/** The two result shapes used throughout the model: an optional value and a
  * value-or-error, standing for Go's `(T, error)` returns and for run-time
  * panics that a caller can reach. */
module Wrappers {
  datatype Option<T> = None | Some(value: T)

  datatype Result<T, E> = Success(value: T) | Failure(error: E)
}
