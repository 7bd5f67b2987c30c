/** Optional values and success/failure results, used for JavaScript's
    `undefined` lookups and for the error responses of the handlers. */
module Wrappers {

  datatype Option<+T> = None | Some(value: T)

  datatype Result<+R, +E> = Success(value: R) | Failure(error: E)
}
