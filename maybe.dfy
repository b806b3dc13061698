/** An optional value: JavaScript's `undefined`/`null` versus a present value. */
module Maybe {
  datatype Option<+T> = None | Some(value: T) {
    /** The value, or `default` when absent. */
    function GetOr(default: T): T {
      match this
      case Some(v) => v
      case None => default
    }
  }
}
