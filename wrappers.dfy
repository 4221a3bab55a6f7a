// Optional values and error returns shared by the other modules.
module Wrappers {

  datatype Option<T> = None | Some(value: T)

  /** The zero- or one-element sequence an optional report contributes. */
  function ToSeq<T>(o: Option<T>): (s: seq<T>)
    ensures |s| <= 1
    ensures o.None? <==> s == []
    ensures o.Some? ==> s == [o.value]
  {
    match o
    case None => []
    case Some(v) => [v]
  }
}
