/** Nullable values and failures of the C# code. A reference or a `Nullable<T>`
    that may be `null` becomes an `Option`; an operation that may throw becomes
    a `Result` whose failure carries the exception. */
module Wrappers {

  datatype Option<+T> = None | Some(value: T) {

    /** `x ?? d` */
    function GetOr(default: T): T {
      match this
      case Some(v) => v
      case None => default
    }
  }

  datatype Result<+R, +E> = Success(value: R) | Failure(error: E) {

    predicate IsFailure() {
      Failure?
    }
  }
}
