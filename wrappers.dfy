/** Optional values and success-or-error results, used for JavaScript's
    null/undefined and for thrown errors. */
module Wrappers {

  datatype Option<+T> = None | Some(value: T) {

    /** The wrapped value, or `default` when there is none. */
    function GetOr(default: T): T {
      match this
      case Some(v) => v
      case None => default
    }
  }

  /** `Ok` is a normal return; `Err` is a thrown error, carrying its message. */
  datatype Result<+T> = Ok(value: T) | Err(message: string)
}
