/** Option and Result, the two failure-carrying shapes the rest of the model uses. */
module Wrappers {

  /** `None` stands for JavaScript's `undefined`/`null` and Python's `None`. */
  datatype Option<+T> = None | Some(value: T) {
    function GetOr(default: T): T {
      match this
      case Some(v) => v
      case None => default
    }
  }

  datatype Result<+T, +E> = Ok(value: T) | Err(error: E)
}
