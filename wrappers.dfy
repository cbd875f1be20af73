/** Optional values and the outcome of a call that either returns or throws. */
module Wrappers {

  /** A Kotlin nullable value. */
  datatype Option<+T> = None | Some(value: T) {
    /** The value, or `default` when absent (Kotlin's `?:`). */
    function GetOr(default: T): T {
      match this
      case Some(v) => v
      case None => default
    }
  }

  /** A Kotlin `Result`: a value, or the exception that was thrown. A Kotlin
      exception's message may be null, hence the optional message. */
  datatype Result<+T> = Success(value: T) | Failure(message: Option<string>) {
    predicate IsFailure() {
      Failure?
    }

    function PropagateFailure<U>(): Result<U>
      requires Failure?
    {
      Failure(message)
    }

    function Extract(): T
      requires Success?
    {
      value
    }

    /** `getOrNull()` */
    function ToOption(): Option<T> {
      match this
      case Success(v) => Some(v)
      case Failure(_) => None
    }
  }

  /** `Result.failure(Exception(msg))` */
  function Fail<T>(msg: string): Result<T> {
    Failure(Some(msg))
  }
}
