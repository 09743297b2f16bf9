/** Option and Result, the failure-carrying datatypes the rest of the model uses. */
module Wrappers {

  /** A value that may be absent, as a Go comma-ok result may be. */
  datatype Option<+T> = None | Some(value: T)

  /** A value or a reason why there is none. */
  datatype Result<+T, +E> = Success(value: T) | Failure(error: E)
}
