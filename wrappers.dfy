/** Option and Result, the two shapes the Kotlin code uses for "maybe absent" (`T?`) and
    "succeeded or threw" (`kotlin.Result<T>`). An exception is represented by its message. */
module Wrappers {

  datatype Option<+T> = None | Some(value: T) {
    /** Kotlin's elvis operator `x ?: default`. */
    function GetOr(default: T): T {
      match this
      case Some(v) => v
      case None => default
    }
  }

  datatype Result<+T> = Success(value: T) | Failure(message: string) {
    /** `Result.getOrNull()`. */
    function GetOrNull(): Option<T> {
      match this
      case Success(v) => Some(v)
      case Failure(_) => None
    }
  }
}
