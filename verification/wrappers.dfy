/** Failure-carrying values shared by the whole model. */
module Wrappers {

  /** A value that may be absent: an optional record field, or `null`. */
  datatype Option<+T> = None | Some(value: T)

  /** The settled outcome of one remote call: its parsed body, or the failure it
      rejected with, seen only through the failure's `message` property (None when
      the rejected value carries none). */
  datatype Remote<+T> = Ok(value: T) | Err(message: Option<string>)
}
