/** Optional values and error-carrying results, used where the source returns
    `null` or answers an HTTP request with an error status. */
module Wrappers {

  datatype Option<+T> = None | Some(value: T)

  datatype Result<+T, +E> = Ok(value: T) | Err(error: E)
}
