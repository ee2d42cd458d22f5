/** Failure-compatible carriers shared by the modules of this model. */
module Wrappers {

  /** A Java reference that may be null, or an absent `Optional`. */
  datatype Option<+T> = None | Some(value: T) {
    function GetOr(default: T): T {
      match this
      case Some(v) => v
      case None => default
    }
  }

  /** The value a Java call returns, or the exception it throws. */
  datatype Result<+T, +E> = Ok(value: T) | Err(error: E)
}
