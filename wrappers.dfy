/** Failure-carrying values shared by every module of the model. */
module Wrappers {

  /** A value that may be absent: JavaScript's `null`/`undefined` for one field. */
  datatype Option<+T> = None | Some(value: T)

  /** The outcome of an awaited call: either the resolved value or the message
      of the error it threw. */
  datatype Result<+R> = Ok(value: R) | Err(message: string)
}
