/** Optional values and typed failures, standing in for Swift optionals and `throws`. */
module Wrappers {

  /** A Swift optional: `nil` is `None`. */
  datatype Option<+T> = None | Some(value: T)

  /** The outcome of a throwing Swift call: a returned value or the error thrown. */
  datatype Result<+R, +E> = Success(value: R) | Failure(error: E)
}
