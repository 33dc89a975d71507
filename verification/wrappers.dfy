/** Optional values and results with an error, used for Python's `None` and for
    exceptions that the code does not catch. */
module Wrappers {

  datatype Option<+T> = None | Some(value: T)

  datatype Result<+T, +E> = Success(value: T) | Failure(error: E)
}
