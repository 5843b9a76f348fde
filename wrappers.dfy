/** Option and Result: the model's stand-ins for null pointers and for the
    std::runtime_error exceptions the shell throws. */
module Wrappers {

  datatype Option<+T> = None | Some(value: T)

  /** A computation that either produced a value or threw an exception with
      the given message. */
  datatype Result<+T> = Ok(value: T) | Err(message: string)
}
