/** Option and Result: the explicit form of the `try`/`except` fall-backs
    and raised exceptions of the ingestion layer. */
module Wrappers {

  datatype Option<+T> = None | Some(value: T) {
    function GetOr(default: T): T {
      match this
      case Some(v) => v
      case None => default
    }
  }

  /** Ok carries the value a Python function returns; Err the exception it raises. */
  datatype Result<+T, +E> = Ok(value: T) | Err(error: E)
}
