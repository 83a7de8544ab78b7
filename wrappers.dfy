/** Optional values and success/failure results.
    `Option` stands for a JavaScript value that may be `null` or `undefined`;
    `Result` for an operation that either returns a value or throws. */
module Wrappers {

  datatype Option<+T> = None | Some(value: T) {

    /** The `??` operator: the value, or `default` when absent. */
    function GetOr(default: T): T {
      match this
      case Some(v) => v
      case None => default
    }
  }

  datatype Result<+R, +E> = Success(value: R) | Failure(error: E)
}
