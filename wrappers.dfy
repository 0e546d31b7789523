/** Option and Result, shared by the modules of this model. */
module Wrappers {

  datatype Option<+T> = None | Some(value: T)

  /** A value or the error that stopped the computation producing it. */
  datatype Result<+T, +E> = Ok(value: T) | Err(error: E)
}
