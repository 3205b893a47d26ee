/** Outcome types shared by every module: a value that may be absent, and a value or the error thrown instead. */
module Wrappers {
  datatype Option<+T> = None | Some(value: T)

  datatype Result<+T, +E> = Success(value: T) | Failure(error: E)
}
