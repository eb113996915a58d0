/** Option and Result values for Python's None and raised exceptions. */
module Wrappers {

  /** A value that may be missing: Python's `None` or an absent key. */
  datatype Option<T> = None | Some(value: T) {
    function GetOr(default: T): T {
      match this
      case Some(v) => v
      case None => default
    }
  }

  /** The outcome of an operation that may raise: `Err` carries the exception message. */
  datatype Result<T> = Ok(value: T) | Err(msg: string)
}
