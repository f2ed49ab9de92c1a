/** Option and Result, used for the values the source may lack and the errors it raises. */
module Wrappers {

  datatype Option<+T> = None | Some(value: T)

  /** The outcome of an operation that raises in the source: `Err` carries the exception's kind. */
  datatype Result<+T, +E> = Ok(value: T) | Err(error: E)
}
