/** Failure-compatible wrappers shared by every module of the model:
    `undefined` becomes `None`, a thrown error becomes `Err` or `Fail`. */
module Wrappers {

  datatype Option<+T> = None | Some(value: T) {
    function GetOr(default: T): T {
      match this
      case Some(v) => v
      case None => default
    }
  }

  /** The value of an operation that may throw: `Err` carries the error message. */
  datatype Result<+T> = Ok(value: T) | Err(msg: string)

  /** The outcome of a check that returns nothing or throws. */
  datatype Outcome = Pass | Fail(error: string)
}
