/** Optional values, results and the Ruby exceptions the core raises or rescues. */
module Wrappers {

  datatype Option<+T> = None | Some(value: T) {
    function GetOr(default: T): T {
      match this
      case Some(v) => v
      case None => default
    }
  }

  datatype Result<+T, +E> = Success(value: T) | Failure(error: E)

  /** A raised Ruby exception: its class name and its message. */
  datatype Exception = Exception(className: string, message: string)

  /** What a Ruby method that returns nothing useful ends with: it either returns or raises. */
  type Outcome = Result<(), Exception>

  const Done: Outcome := Success(())
}
