/** Optional values and results with an error, shared by the other modules. */
module Wrappers {

  /** A value that may be absent (a JSON field the template leaves out). */
  datatype Option<+T> = None | Some(value: T)

  /** The outcome of an operation that returns either a value or an error. */
  datatype Result<+R, +E> = Success(value: R) | Failure(error: E)
}
