/** Option and Result, the two failure-carrying datatypes the model uses
    for the source's `None` returns and raised exceptions. */
module Wrappers {

  datatype Option<+T> = None | Some(value: T) {

    /** The value, or `default` when there is none (Python's `d.get(k, default)`). */
    function GetOr(default: T): T {
      match this
      case Some(v) => v
      case None => default
    }
  }

  /** A computation that either yields a value or raises `error`. */
  datatype Result<+T, +E> = Ok(value: T) | Err(error: E)
}
