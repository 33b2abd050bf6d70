// A value that may be missing, `null`, `undefined` or `None` in the sources, and
// the search that may find nothing.
module Wrappers {
  datatype Option<T> = None | Some(value: T)

  // The first position of `x`, if any.
  function IndexOf<T(==)>(s: seq<T>, x: T): (r: Option<nat>)
    ensures r.Some? ==> r.value < |s| && s[r.value] == x && x !in s[..r.value]
    ensures r.None? ==> x !in s
  {
    if s == [] then None
    else if s[0] == x then Some(0)
    else match IndexOf(s[1..], x)
      case None => None
      case Some(i) => Some(i + 1)
  }
}
