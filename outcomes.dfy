/** Optional values and results, used where the source returns Optional or throws. */
module Outcomes {

  /** java.util.Optional: a value or nothing. */
  datatype Option<T> = None | Some(value: T) {

    /** Optional.filter: keeps the value only when it satisfies `keep`. */
    function Filter(keep: T -> bool): (r: Option<T>)
      ensures r.Some? <==> Some? && keep(value)
      ensures r.Some? ==> r.value == value
    {
      if Some? && keep(value) then this else None
    }

    /** Optional.map: applies `f` to the value, if there is one. */
    function Map<U>(f: T -> U): (r: Option<U>)
      ensures r.Some? <==> Some?
      ensures r.Some? ==> r.value == f(value)
    {
      match this
      case None => None
      case Some(v) => Some(f(v))
    }
  }

  /** A normal return carrying a value, or an exception that propagates. */
  datatype Result<T, E> = Success(value: T) | Failure(error: E)
}
