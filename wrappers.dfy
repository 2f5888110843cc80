/** Optional values and results shared by every module of the model. */
module Wrappers {
  /** `None` stands for a JavaScript `undefined` or `null` where the source treats both alike. */
  datatype Option<T> = None | Some(value: T) {
    function GetOr(default: T): T {
      match this
      case Some(v) => v
      case None => default
    }
  }

  /** `Err` stands for a thrown `Error`; `Ok` for a normal return. */
  datatype Result<T, E> = Ok(value: T) | Err(error: E)
}
