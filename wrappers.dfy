/** Optional values and results with an error, for the exceptions and
    `None` values of the guitar input path. */
module Wrappers {

  datatype Option<+T> = None | Some(value: T)

  datatype Result<+R, +E> = Success(value: R) | Failure(error: E)
}
