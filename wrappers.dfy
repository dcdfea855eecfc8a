/** Small failure-carrying datatypes used to model the exceptions and `None`
    results of the Python source. */
module Wrappers {

  datatype Option<+T> = None | Some(value: T)

  datatype Result<+T, +E> = Ok(value: T) | Err(error: E)
}
