/** The optional value used wherever the source keeps a nullable pointer
    (a pending next coordinate, a cached teleport destination, a collision
    partner that may be absent). */
module Wrappers {

  datatype Option<+T> = None | Some(value: T) {

    /** Returns the value in Some, or `default` when None. */
    function GetOr(default: T): (r: T)
      ensures Some? ==> r == value
      ensures None? ==> r == default
    {
      match this
      case Some(v) => v
      case None => default
    }
  }
}
