/** Optional values and results shared by the registry and the access-token models. */
module Wrappers {

  /** A value that may be absent: Java's nullable reference. */
  datatype Option<+T> = None | Some(value: T) {

    /** This value if it is set, otherwise `fallback`: the "declared wins, remote fills" rule for one field. */
    function OrElse(fallback: Option<T>): (r: Option<T>)
      ensures r.Some? <==> Some? || fallback.Some?
      ensures Some? ==> r == this
      ensures None? ==> r == fallback
    {
      if Some? then this else fallback
    }
  }

  /** The outcome of a step that either yields a value or fails. */
  datatype Result<+R, +E> = Success(value: R) | Failure(error: E)
}
