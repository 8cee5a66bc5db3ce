/** Optional values and error-carrying results shared by the model's modules. */
module Wrappers {

  /** Python's `Optional[T]`: a value or `None`. */
  datatype Option<+T> = None | Some(value: T) {

    /** The value, or `default` when there is none (`x if x is not None else default`). */
    function GetOr(default: T): T {
      match this
      case Some(v) => v
      case None => default
    }
  }

  /** A value, or the error that a Python function raises instead of returning. */
  datatype Result<+T, +E> = Success(value: T) | Failure(error: E)
}
