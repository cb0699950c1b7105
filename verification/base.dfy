/** Small result types shared by every module of the model. */
module Base {

  /** JavaScript's `null`/`undefined` versus a present value. */
  datatype Option<+T> = None | Some(value: T) {
    function GetOr(default: T): T {
      match this
      case Some(v) => v
      case None => default
    }
  }

  /** The outcome of a JavaScript expression that may throw: a property read on
      `undefined` (a `TypeError`) or `toISOString` on an invalid date. */
  datatype Try<+T> = Ok(value: T) | Threw
}
