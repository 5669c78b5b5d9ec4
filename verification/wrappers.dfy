/** Option and Result: the shapes the components use for "maybe absent"
    (a `find` that returns undefined, a query whose data is null) and for
    "value or error" (a remote call that reports an error object). */
module Wrappers {

  datatype Option<+T> = None | Some(value: T) {

    /** The value, or `default` when absent. On an optional string with
        default "" this is also JavaScript's `x || ""`: the only other falsy
        string is "" itself. */
    function GetOr(default: T): T {
      match this
      case Some(v) => v
      case None => default
    }
  }

  datatype Result<+R, +E> = Success(value: R) | Failure(error: E)
}
