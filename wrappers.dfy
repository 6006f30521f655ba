/** Optional values and the exceptions the teleporter code can raise. */
module Wrappers {

  datatype Option<+T> = None | Some(value: T) {
    /** The wrapped value, or `default` when there is none (C#'s `??`). */
    function GetOr(default: T): T {
      match this
      case Some(v) => v
      case None => default
    }
  }

  /** The .NET exceptions that escape the modelled operations. */
  datatype Exception =
    | ArgumentOutOfRange  // a List indexed outside 0..Count-1
    | KeyNotFound         // a Dictionary indexed with a missing key
    | NullReference       // a member read through a null reference
    | AssertionFailed     // Exiled's `Log.Assert` on a false condition: it logs, then throws

  /** Either a value or the exception that was thrown instead. */
  datatype Result<+T> = Ok(value: T) | Err(error: Exception)
}
