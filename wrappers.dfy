/** Option, Result and Outcome: the shapes of Go's `(value, error)` and `error` returns. */
module Wrappers {

  /** A value that may be absent: a parsed path id or a decoded request body. */
  datatype Option<+T> = None | Some(value: T) {

    /** The value, or `default` when absent. */
    function GetOr(default: T): T {
      match this
      case Some(v) => v
      case None => default
    }
  }

  /** A value or the error the call reported instead. */
  datatype Result<+T, +E> = Ok(value: T) | Err(error: E)

  /** A call that returns only an `error`: nil (Pass) or not (Fail). */
  datatype Outcome<+E> = Pass | Fail(error: E)
}
