/** Small failure-carrying datatypes shared by the other modules. */
module Wrappers {

  /** A value that may be absent, such as a missing key of a JSON object. */
  datatype Option<+T> = None | Some(value: T) {

    /** The value, or `default` when it is absent (Python's `dict.get(key, default)`). */
    function GetOr(default: T): T {
      match this
      case Some(v) => v
      case None => default
    }
  }

  /** Either a value or the error that was raised instead of producing it. */
  datatype Result<+R, +E> = Ok(value: R) | Err(error: E)
}
