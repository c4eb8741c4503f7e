/** The failure-carrying datatypes shared by the other modules. */
module Wrappers {

  /** A value a Python dict or list may leave out (`None`, or a key that is not there). */
  datatype Option<+T> = None | Some(value: T) {
    function GetOr(default: T): T {
      match this
      case Some(v) => v
      case None => default
    }
  }

  /** A returned value, or the exception the source raises instead. */
  datatype Result<+T> = Ok(value: T) | Err(error: string)
}
