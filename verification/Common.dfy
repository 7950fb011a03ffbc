/** Failure and optional values shared by the other modules. */
module Common {

  datatype Option<+T> = None | Some(value: T) {
    function GetOr(default: T): T {
      match this
      case Some(v) => v
      case None => default
    }
  }

  /** The exceptions the modelled code throws. */
  datatype Error =
    | InvalidArgument
    | RuntimeError
    | OutOfRange

  datatype Result<+T> = Ok(value: T) | Err(error: Error)
}
