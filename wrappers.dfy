/** Option and Result values used for the server's optional fields and its
    exception paths. */
module Wrappers {

  datatype Option<+T> = None | Some(value: T) {
    function GetOr(default: T): T {
      match this
      case Some(v) => v
      case None => default
    }
  }

  /** A Python call that either returns a value or raises; the error carries
      the exception's message (what `str(e)` gives). */
  datatype Result<+R> = Success(value: R) | Failure(error: string)
}
