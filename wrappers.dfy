/** Failure-compatible wrappers shared by the modules of this model. */
module Wrappers {

  /** An optional value: JavaScript's `undefined` / absent key, or a value. */
  datatype Option<+T> = None | Some(value: T) {
    function GetOr(default: T): T {
      match this
      case Some(v) => v
      case None => default
    }
  }

  /** The outcome of a call that may throw: a value, or the message of the thrown `Error`. */
  datatype Result<+T> = Ok(value: T) | Err(message: string)
}
