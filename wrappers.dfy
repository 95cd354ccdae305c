/** Option and Result, the two failure-carrying shapes the model needs. */
module Wrappers {

  datatype Option<+T> = None | Some(value: T) {
    function GetOr(default: T): T {
      match this
      case Some(v) => v
      case None => default
    }
  }

  /** A fallible step: `Ok` carries the value, `Err` the error text. */
  datatype Result<+T> = Ok(value: T) | Err(error: string)
}
