/** Absent/present values and success/failure outcomes shared by the other modules. */
module Wrappers {

  /** A value that may be absent (Python's `None`). */
  datatype Option<+T> = None | Some(value: T) {
    /** The value, or `default` when absent (Python's `d.get(key, default)`). */
    function GetOr(default: T): T {
      match this
      case Some(v) => v
      case None => default
    }
  }

  /** A successful value or the error that interrupted the computation. */
  datatype Result<+R, +E> = Success(value: R) | Failure(error: E)
}
