/** Small failure-carrying datatypes shared by every module of the model. */
module Wrappers {

  /** A JavaScript value that may be `null`/`undefined`. */
  datatype Option<+T> = None | Some(value: T) {
    function GetOr(default: T): T {
      match this
      case Some(v) => v
      case None => default
    }
  }

  /** The result of a call that may throw: JavaScript's `try`/`catch`
      is modelled by matching on `Throws`. */
  datatype Outcome<+T> = Ok(value: T) | Throws
}
