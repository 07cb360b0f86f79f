/** Result types shared by the other modules. */
module Wrappers {
  datatype Option<+T> = None | Some(value: T)

  /** The outcome of an operation whose failure carries the error it reports. */
  datatype Outcome<+E> = Ok | Failed(error: E)

  datatype Result<+T, +E> = Success(value: T) | Failure(error: E)
}
