/** Option and Result, shared by the other modules. */
module Wrappers {
  datatype Option<+T> = None | Some(value: T)

  /** A completed fetch: its value, or the error's message. */
  datatype Result<+T> = Ok(value: T) | Err(message: string)
}
