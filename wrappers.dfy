/** Optional values and results with an error, as the Python code uses `None`
    and exceptions. */
module Wrappers {

  datatype Option<+T> = None | Some(value: T) {

    /** The value, or `default` when there is none (Python's `dict.get(key, default)`). */
    function GetOr(default: T): T {
      match this
      case Some(v) => v
      case None => default
    }
  }

  /** `Err` stands for an exception that propagates to the caller. */
  datatype Result<+R, +E> = Ok(value: R) | Err(error: E)
}
