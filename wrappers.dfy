/** Option and the exception-carrying result used across the model. */
module Wrappers {

  datatype Option<+T> = None | Some(value: T)
  {
    function GetOr(default: T): T
    {
      match this
      case Some(v) => v
      case None => default
    }
  }

  /** A message carried by an exception that the model lets through; never empty. */
  type Message = s: string | s != [] witness "error"

  /** The Python exceptions the modelled code raises; `msg` is the exception's str(). */
  datatype Exception =
    | FileNotFoundError(msg: string)
    | ValueError(msg: string)

  /** A value, or the exception a Python function raised instead of returning. */
  datatype Result<+T> = Ok(value: T) | Raised(exc: Exception)
}
