/** Optional values and results, used for the handler's absent JSON keys and for raised exceptions. */
module Outcomes {

  /** A value that may be absent: `dict.get(key)` returning `None`. */
  datatype Option<+T> = None | Some(value: T) {

    /** The value, or `default` when absent: `dict.get(key, default)`. */
    function GetOr(default: T): T {
      match this
      case Some(v) => v
      case None => default
    }
  }

  /** Either a value or the error that stopped the computation. */
  datatype Result<+T, +E> = Ok(value: T) | Err(error: E)
}
