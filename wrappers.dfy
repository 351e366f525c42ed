/** Small value types shared by every module: optional values, results of
    calls that may fail, and the JavaScript values a `throw` can carry. */
module Wrappers {

  datatype Option<+T> = None | Some(value: T) {
    function GetOr(default: T): T {
      match this
      case Some(v) => v
      case None => default
    }
  }

  /** A value thrown by a JavaScript call: an `Error` object with its
      `message`, or any other value (`error instanceof Error` is false). */
  datatype Thrown = ErrorObject(message: string) | OtherValue

  /** `error instanceof Error ? error.message : fallback` */
  function MessageOr(e: Thrown, fallback: string): (m: string)
    ensures e.ErrorObject? ==> m == e.message
    ensures e.OtherValue? ==> m == fallback
  {
    match e
    case ErrorObject(msg) => msg
    case OtherValue => fallback
  }

  /** The outcome of an awaited call that returns nothing: it resolves, or
      it rejects with the thrown value. */
  datatype Outcome = Done | Threw(error: Thrown)

  /** The outcome of an awaited call that produces a value. */
  datatype Result<+R> = Success(value: R) | Failure(error: Thrown)
}
