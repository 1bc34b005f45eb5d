// Option and Result: the "missing value" and "thrown error" outcomes of the
// remote store and of JavaScript's falsy checks.
module Wrappers {

  datatype Option<+T> = None | Some(value: T) {
    function GetOr(default: T): T {
      match this
      case Some(v) => v
      case None => default
    }
  }

  /** Ok carries a value; Err stands for an exception the source throws
      (or a store error object it receives). */
  datatype Result<+T> = Ok(value: T) | Err(message: string)
}
