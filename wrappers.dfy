/** Optional values and success/failure results, used for nullable fields,
    cursors and the rejected/resolved outcomes of the client's promises. */
module Wrappers {

  datatype Option<+T> = None | Some(value: T)

  datatype Result<+T, +E> = Ok(value: T) | Err(error: E)
}
