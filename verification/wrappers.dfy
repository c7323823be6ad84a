/** Optional values and a small outcome type shared by every module.
    `None` stands for JavaScript's `undefined` wherever a value may be absent. */
module Wrappers {

  datatype Option<+T> = None | Some(value: T) {

    /** The wrapped value, or `default` when absent. */
    function GetOr(default: T): T {
      match this
      case Some(v) => v
      case None => default
    }
  }

  /** Either a value or an error message (a thrown exception in the source). */
  datatype Result<+T> = Ok(value: T) | Err(message: string)
}
