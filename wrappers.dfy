/** Optional values and success-or-error results, used for the source's
    `null`/`undefined` fields and for its early-return error paths. */
module Wrappers {

  datatype Option<+T> = None | Some(value: T) {
    /** `x ?? fallback` */
    function GetOr(fallback: T): T {
      match this
      case Some(v) => v
      case None => fallback
    }
  }

  datatype Result<+T, +E> = Ok(value: T) | Err(error: E)
}
