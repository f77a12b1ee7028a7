/** Option and Result, the two wrappers the model uses for "maybe absent" and "value or error code". */
module Wrappers {

  datatype Option<+T> = None | Some(value: T)

  datatype Result<+T, +E> = Ok(value: T) | Err(error: E)
}
