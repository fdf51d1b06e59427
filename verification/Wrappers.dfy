/** The optional values that the services pass around as null. */
module Wrappers {

  datatype Option<+T> = None | Some(value: T)

  /** Success, or the failure of a computation that raises an exception in the Python program. */
  datatype Result<+T, +E> = Success(value: T) | Failure(error: E)
}
