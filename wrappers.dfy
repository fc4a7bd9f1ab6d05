/** Optional values, used for SQL NULL, for files that may not exist and for error results. */
module Wrappers {
  datatype Option<+T> = None | Some(value: T)

  /** SQL `coalesce(x, d)`: the value when it is not NULL, the default otherwise. */
  function Coalesce<T>(x: Option<T>, d: T): (r: T)
    ensures x.Some? ==> r == x.value
    ensures x.None? ==> r == d
  {
    match x
    case Some(v) => v
    case None => d
  }
}
