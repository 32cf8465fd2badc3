/** Optional values and outcomes with an error, for absent tokens, empty exports and
    exceptions thrown by the search filter. */
module Wrappers {

  datatype Option<+T> = None | Some(value: T)

  datatype Result<+T, +E> = Ok(value: T) | Err(error: E)
}
