/** Shared helper datatypes for the model. */
module Common {

  /** A value that may be absent: JavaScript's `null`/`undefined` versus a present value. */
  datatype Option<+T> = None | Some(value: T) {

    /** The `??` operator: the wrapped value, or `default` when absent. */
    function GetOr(default: T): T {
      match this
      case Some(v) => v
      case None => default
    }
  }
}
