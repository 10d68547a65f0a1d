/** Option and Outcome, used where the source returns null or throws. */
module Wrappers {

  datatype Option<+T> = None | Some(value: T) {
    /**
     * The carried value, or `default` for None. With `default` `""` this is
     * the source's `x?.y || ""`: an empty value and a missing one both give `""`.
     */
    function GetOr(default: T): T {
      match this
      case Some(v) => v
      case None => default
    }
  }

  /** The result of an operation that either completes or throws an error. */
  datatype Outcome<+E> = Pass | Fail(error: E)

  datatype Result<+T, +E> = Success(value: T) | Failure(error: E)
}
