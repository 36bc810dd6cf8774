/** Failure-carrying wrappers used in place of `undefined` and of thrown errors. */
module Wrappers {

  /** A value that may be absent (`undefined` / `null` in the program). */
  datatype Option<+T> = None | Some(value: T) {

    /** The wrapped value, or `default` when absent (the `??` operator). */
    function GetOr(default: T): T {
      match this
      case Some(v) => v
      case None => default
    }
  }

  /** The outcome of an operation that the program reports by throwing. */
  datatype Result<+T, +E> = Ok(value: T) | Err(error: E)
}
