/** Optional values and error-or-value results shared by every module of the model. */
module Common {

  /** A JavaScript value that may be `null` or `undefined`. */
  datatype Option<+T> = None | Some(value: T) {
    function GetOr(default: T): T {
      match this
      case Some(v) => v
      case None => default
    }
  }

  /** The outcome of a handler that either produces a value or shows an error message. */
  datatype Result<+T> = Ok(value: T) | Err(message: string)
}
