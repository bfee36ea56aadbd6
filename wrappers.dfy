/** Optional values and success/failure results, used for JavaScript's
    `undefined`/`null` and for a mutation that either returns or throws. */
module Wrappers {

  datatype Option<+T> = None | Some(value: T) {
    function GetOr(default: T): T {
      match this
      case Some(v) => v
      case None => default
    }
  }

  /** `Err(message)` stands for a thrown `Error` whose message is `message`. */
  datatype Result<+R> = Ok(value: R) | Err(message: string)
}
