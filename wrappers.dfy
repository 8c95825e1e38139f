/** Option and Result: the failure-carrying values the pipeline's functions return
    where the Python code returns None, returns a default, or raises. */
module Wrappers {

  datatype Option<+T> = None | Some(value: T) {
    /** The value, or `default` when there is none (Python's `x if x is not None else d`). */
    function GetOr(default: T): T {
      match this
      case Some(v) => v
      case None => default
    }
  }

  /** `Err` stands for an exception the Python code raises (or exits with). */
  datatype Result<+T, +E> = Ok(value: T) | Err(error: E)
}
