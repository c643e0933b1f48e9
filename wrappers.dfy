/** Option and Result, the two sum types the Rust sources use for absent values and error returns. */
module Wrappers {
  datatype Option<T> = None | Some(value: T) {
    /** `unwrap_or`. */
    function GetOr(default: T): T {
      match this
      case Some(v) => v
      case None => default
    }
  }

  datatype Result<T, E> = Ok(value: T) | Err(error: E)
}
