/** Option and Result: the null returns and the exceptions of the source. */
module Wrappers {

  /** A value or the source's `null`. */
  datatype Option<+T> = None | Some(value: T) {
    function GetOr(default: T): T {
      match this
      case Some(v) => v
      case None => default
    }
  }

  /** A normal return, or the exception the source throws instead. */
  datatype Result<+R, +E> = Ok(value: R) | Err(error: E)
}
