/** Option and Result, the error-carrying return values of the modelled Go
    functions (Go returns `(value, error)` pairs or a nil pointer). */
module Wrappers {

  datatype Option<+T> = None | Some(value: T)

  datatype Result<+T, +E> = Ok(value: T) | Err(error: E)
}
