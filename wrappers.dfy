/** Optional values and fallible results, the shapes JavaScript expresses with
    `undefined`/`null` and with `{ data, error }` responses. */
module Wrappers {

  datatype Option<+T> = None | Some(value: T) {
    /** JavaScript's `x ?? d`: the value when present, `d` otherwise. */
    function GetOr(d: T): T {
      match this
      case Some(v) => v
      case None => d
    }
  }

  /** A remote response: the rows on success, or the error message. */
  datatype Result<+R> = Success(value: R) | Failure(message: string)
}
