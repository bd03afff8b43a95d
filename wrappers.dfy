/** Failure-compatible wrappers used throughout the model.
    A Java reference that may be null is an Option; a computation that may throw is a Result. */
module Wrappers {

  datatype Option<+T> = None | Some(value: T)

  datatype Result<+R, +E> = Success(value: R) | Failure(error: E)
}
