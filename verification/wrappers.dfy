/** Failure-compatible wrappers shared by every module of the model.
    `Option` stands for a Swift optional; `Result` for Swift's `Result<T, Error>`,
    with the error collapsed to a description string where the app only logs it.
 */
module Wrappers {

  datatype Option<+T> = None | Some(value: T) {

    /** The value, or `default` when absent (Swift's `??`). */
    function GetOr(default: T): T {
      match this
      case Some(v) => v
      case None => default
    }
  }

  datatype Result<+T> = Success(value: T) | Failure {

    function ToOption(): Option<T> {
      match this
      case Success(v) => Some(v)
      case Failure => None
    }
  }
}
