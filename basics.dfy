/** Option and Result values used across the model in place of Python's
    None and raised exceptions. */
module Basics {

  datatype Option<+T> = None | Some(value: T) {
    /** `x or default` for a value that is either missing or present. */
    function GetOr(default: T): T {
      match this
      case Some(v) => v
      case None => default
    }
  }

  /** The outcome of an operation that raises in the original code. */
  datatype Result<+T, +E> = Ok(value: T) | Err(error: E)

  function Min(a: int, b: int): int {
    if a <= b then a else b
  }
}
