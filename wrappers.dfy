/** Option and Result values used for the error paths of the modelled code. */
module Wrappers {

  datatype Option<+T> = None | Some(value: T) {
    function GetOr(default: T): T {
      match this
      case Some(v) => v
      case None => default
    }
  }

  /** The outcome of an operation that reports failure with a message. */
  datatype Result<+T> = Ok(value: T) | Err(msg: string)
}
