/** The optional value used wherever the processor yields "no value" (NaT, NaN)
    or "no result" (a None return) instead of raising. */
module Options {

  datatype Option<+T> = None | Some(value: T) {

    /** The wrapped value, or `default` when there is none (pandas' `fillna`). */
    function GetOr(default: T): T {
      match this
      case Some(v) => v
      case None => default
    }
  }
}
