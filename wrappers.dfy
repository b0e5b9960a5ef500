/** Option and Result values: `null`/`undefined` and thrown exceptions of the
    JavaScript code become these. */
module Wrappers {

  datatype Option<+T> = None | Some(value: T)

  /** The outcome of a computation that may throw a message. */
  datatype Result<+T> = Ok(value: T) | Err(error: string)
}
