/** Option and Result values: the model's stand-ins for Go's `(value, error)` returns. */
module Wrappers {

  datatype Option<+T> = None | Some(value: T) {
    /** The carried value, or `default` when there is none. */
    function GetOr(default: T): T {
      match this
      case Some(v) => v
      case None => default
    }
  }

  /** A successful value or an error; an `Err` stands for a non-nil Go `error`
      returned beside the zero value. */
  datatype Result<+T, +E> = Ok(value: T) | Err(error: E)
}
