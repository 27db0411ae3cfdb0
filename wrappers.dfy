/** Null arguments and the list lookups of java.util.List shared by the three adapters. */
module Wrappers {

  /** A Java reference that may be null: `None` stands for null. */
  datatype Option<+T> = None | Some(value: T)

  /** The outcome of an indexed lookup: a value, or the IndexOutOfBoundsException
      that java.util.List.get throws, with the offending index and the list size. */
  datatype Result<+T> = Ok(value: T) | IndexOutOfBounds(index: int, size: int)

  /** java.util.List.get: defined exactly on the positions 0 .. |s|-1. */
  function At<T>(s: seq<T>, i: int): (r: Result<T>)
    ensures r.Ok? <==> 0 <= i < |s|
    ensures r.Ok? ==> r.value == s[i]
    ensures r.IndexOutOfBounds? ==> r.index == i && r.size == |s|
  {
    if 0 <= i < |s| then Ok(s[i]) else IndexOutOfBounds(i, |s|)
  }
}
