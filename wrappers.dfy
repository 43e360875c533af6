/** Failure-carrying result types shared by the modules of this model. */
module Wrappers {

  /** A value that may be absent (`undefined` or `null` on the host side). */
  datatype Option<+T> = None | Some(value: T) {
    function GetOr(default: T): T {
      match this
      case Some(v) => v
      case None => default
    }
  }

  /** Either a normal result or the error a host call throws. */
  datatype Result<+R, +E> = Success(value: R) | Failure(error: E)
}
