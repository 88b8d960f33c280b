/** A possibly missing value. The script meets one in three places: a
    lookup that finds nothing, a storage key never written, and a field that
    does not parse as a number. */
module Wrappers {

  datatype Option<+T> = None | Some(value: T) {

    /** The value held, falling back to `default` when nothing is held; the
        `x || fallback` of the script. */
    function GetOr(default: T): (r: T)
      ensures Some? ==> r == value
      ensures None? ==> r == default
    {
      if Some? then value else default
    }
  }
}
