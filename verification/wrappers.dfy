/** Optional values and results with an error, used where the source returns a
    null pointer, an empty optional or throws. */
module Wrappers {

  datatype Option<+T> = None | Some(value: T)

  datatype Result<+T, +E> = Success(value: T) | Failure(error: E)
}
