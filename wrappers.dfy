/** Option and Result values standing for Python's `None` and for raised exceptions. */
module Wrappers {

  datatype Option<+T> = None | Some(value: T)

  /** `Err` carries the message `str(e)` of the exception the source raises. */
  datatype Result<+R> = Ok(value: R) | Err(error: string)
}
