/** Optional values and results with an error value, used for the absent
    fields of a request and for the validators that either return their
    input or raise a validation error. */
module Wrappers {

  datatype Option<+T> = None | Some(value: T)

  datatype Result<+T, +E> = Ok(value: T) | Err(error: E)
}
