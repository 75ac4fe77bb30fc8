/** Optional values and results with an error side, used by every screen model. */
module Wrappers {

  /** A value that may be absent: JavaScript's `undefined` / `null`. */
  datatype Option<+T> = None | Some(value: T) {

    /** The wrapped value, or `default` when absent (JavaScript's `x || default` once every falsy value is
        mapped to `None`). */
    function GetOr(default: T): T {
      match this
      case Some(v) => v
      case None => default
    }
  }

  /** Either a value that passed every check or the reason the first failing check gave. */
  datatype Result<+R, +E> = Success(value: R) | Failure(error: E)
}
