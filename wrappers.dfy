/** Option and Result, the shapes the services use for Java's nullable values,
    `Optional` lookups and thrown exceptions. */
module Wrappers {

  datatype Option<+T> = None | Some(value: T) {
    function GetOr(default: T): T {
      match this
      case Some(v) => v
      case None => default
    }
  }

  datatype Result<+R, +E> = Success(value: R) | Failure(error: E)

  /** The outcome of a `void` service method: it returns or it throws. */
  datatype Outcome<+E> = Pass | Fail(error: E)
}
