/** The two failure-carrying datatypes the model uses. */
module Wrappers {

  /** An optional value: a field absent from a request body, a lookup that found nothing. */
  datatype Option<+T> = None | Some(value: T)

  /** A value or the error that stopped its computation. */
  datatype Result<+T, +E> = Ok(value: T) | Err(error: E)
}
