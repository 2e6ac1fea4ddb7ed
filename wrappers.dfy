/** Optional values and results with an error, used for nullable fields,
    optional query parameters and failing requests. */
module Wrappers {

  datatype Option<+T> = None | Some(value: T)

  datatype Result<+T, +E> = Ok(value: T) | Err(error: E)
}
