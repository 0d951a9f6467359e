/** Small shared datatypes. */
module Base {

  datatype Option<+T> = None | Some(value: T) {
    function GetOr(default: T): T {
      match this
      case Some(v) => v
      case None => default
    }
  }

  /** The result of a Python call that may raise: its value, or the exception that escapes it. */
  datatype Attempt<+T> = Ok(value: T) | Raised(error: string)
}
