/** Optional values and success-or-error results, shared by the other modules. */
module Wrappers {

  /** A value that may be absent (a JSON field that may be null). */
  datatype Option<+T> = None | Some(value: T)

  /** The outcome of an operation that can fail with an error of type E. */
  datatype Result<+R, +E> = Success(value: R) | Failure(error: E)
}
