/** Option and Result values standing for Rust's `Option` and `Result`. */
module Wrappers {

  datatype Option<+T> = None | Some(value: T) {

    /** `unwrap_or`: the held value, or `default` when there is none. */
    function GetOr(default: T): T {
      match this
      case Some(v) => v
      case None => default
    }
  }

  datatype Result<+T, +E> = Ok(value: T) | Err(error: E) {

    /** `unwrap_or`: the success value, or `default` on an error. */
    function GetOr(default: T): T {
      match this
      case Ok(v) => v
      case Err(_) => default
    }
  }
}
