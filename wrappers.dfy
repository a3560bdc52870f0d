/** Option and Result, the two failure-carrying datatypes the model uses for
    oracles that may fail and for Python exceptions that escape an operation. */
module Wrappers {

  datatype Option<+T> = None | Some(value: T)

  datatype Result<+R, +E> = Ok(value: R) | Err(error: E)
}
