/** Optional values and fallible results, shared by every module of the model. */
module Wrappers {

  /** An optional value: `None` stands for an absent, `undefined` or `null` field. */
  datatype Option<+T> = None | Some(value: T) {
    function GetOr(default: T): T {
      match this
      case Some(v) => v
      case None => default
    }
  }

  /** The outcome of an operation that can fail with an error value. */
  datatype Result<+R, +E> = Ok(value: R) | Err(error: E)
}
