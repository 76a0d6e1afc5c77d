/** A value that may be absent: a stored preference that was never written,
    an expanded job card when none is open, a scan that found no section. */
module Wrappers {

  datatype Option<+T> = None | Some(value: T) {

    /** The value when present, otherwise `default`. */
    function GetOr(default: T): T {
      match this
      case Some(v) => v
      case None => default
    }
  }
}
