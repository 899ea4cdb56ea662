/** Optional values and results with an error, for the values Python leaves as None
    and for the handlers that raise. */
module Wrappers {

  datatype Option<+T> = None | Some(value: T)

  datatype Result<+R, +E> = Success(value: R) | Failure(error: E)
}
