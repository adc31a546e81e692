/** Option and Result, used wherever the Python code returns None or raises. */
module Wrappers {

  datatype Option<+T> = None | Some(value: T) {
    function GetOr(default: T): T {
      match this
      case Some(v) => v
      case None => default
    }
  }

  /** A Python call either returns normally or raises; the error carries a short description. */
  datatype Result<+T> = Ok(value: T) | Raised(reason: string)
}
