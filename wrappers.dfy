/** Option and Result, the stock failure-carrying datatypes the rest of the
    model uses for Python's None and for raised exceptions. */
module Wrappers {

  datatype Option<+T> = None | Some(value: T)

  datatype Result<+T, +E> = Ok(value: T) | Err(error: E)
}
