/** The two result shapes every other module uses. */
module Wrappers {
  datatype Option<+T> = None | Some(value: T)

  /** `Failure` stands for the JavaScript error an operation throws. */
  datatype Result<+T, +E> = Success(value: T) | Failure(error: E)
}
