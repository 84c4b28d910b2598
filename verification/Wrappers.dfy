module Wrappers {
  datatype Option<+T> = None | Some(value: T)

  /** The value a Go function returns, or the message of its `error`. */
  datatype Result<+T> = Ok(value: T) | Err(message: string)
}
