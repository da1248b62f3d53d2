/** Option and Result, the shapes of Kotlin's nullable values and kotlin.Result. */
module Wrappers {

  datatype Option<+T> = None | Some(value: T) {
    /** Kotlin's `?: default` */
    function GetOr(default: T): T {
      match this
      case Some(v) => v
      case None => default
    }
  }

  /** `kotlin.Result`: a failure carries the exception's (nullable) message. */
  datatype Result<+T> = Success(value: T) | Failure(message: Option<string>) {
    /** `Result.getOrDefault` */
    function GetOrDefault(default: T): T {
      match this
      case Success(v) => v
      case Failure(_) => default
    }
  }
}
