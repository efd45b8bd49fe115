/** Failure-carrying datatypes for the operations of the model that throw. */
module Wrappers {

  datatype Option<+T> = None | Some(value: T) {
    function GetOr(default: T): T {
      match this
      case Some(v) => v
      case None => default
    }
  }

  /** The value of a call that either returns normally or throws; `Failure` carries the error. */
  datatype Result<+R, +E> = Success(value: R) | Failure(error: E)

  /** The outcome of a statement that either completes or throws. */
  datatype Outcome<+E> = Pass | Fail(error: E)
}
