/** The optional value used wherever the source has `null`, `undefined` or a
    `-1` "not found" answer. */
module Wrappers {

  datatype Option<+T> = None | Some(value: T) {

    /** The value if present, else `default`. Every use passes "", where
        this is JavaScript's `x || ''` on a string that may be missing: an
        empty string gives "" either way. */
    function GetOr(default: T): T
    {
      match this
      case Some(v) => v
      case None => default
    }
  }
}
