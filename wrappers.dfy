/** Optional values and results with an error, for the places where the
    scripts use `null`/`undefined` or stop with an error. */
module Wrappers {

  datatype Option<+T> = None | Some(value: T)

  datatype Result<+T, +E> = Success(value: T) | Failure(error: E)
}
