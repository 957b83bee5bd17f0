/** Small value wrappers shared by every module of the model. */
module Wrappers {

  /** A value that may be missing (Python's `None`). */
  datatype Option<+T> = None | Some(value: T) {
    function GetOr(default: T): T {
      match this
      case Some(v) => v
      case None => default
    }
  }

  /** The outcome of an operation that can fail with an error value. */
  datatype Result<+T, +E> = Ok(value: T) | Err(error: E)

  /** A key of a request payload: either absent from the payload or given with a value.
      (Different from `Option`: a payload may give `supplier: null` explicitly.) */
  datatype Field<+T> = Absent | Given(value: T) {
    function OrElse(default: T): T {
      match this
      case Given(v) => v
      case Absent => default
    }
  }
}
