/** Option and Result, used for nullable values and guard chains throughout the model. */
module Wrappers {

  /** A value that may be absent (`undefined`/`null` on the JavaScript side). */
  datatype Option<T> = None | Some(value: T) {
    /** The value, or `default` when absent. */
    function GetOr(default: T): T {
      match this
      case Some(v) => v
      case None => default
    }
  }

  /** Either the value a guard chain lets through, or the reason it stopped. */
  datatype Result<T, E> = Ok(value: T) | Err(error: E)
}
