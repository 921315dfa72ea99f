/** The optional value used for "published something or nothing" and
    "the loop has ended or not". */
module Wrappers {

  datatype Option<+T> = None | Some(value: T)

  /** The list of values an optional value contributes to a transcript. */
  function ToSeq<T>(o: Option<T>): (r: seq<T>)
    ensures |r| <= 1
    ensures o.Some? <==> |r| == 1
    ensures o.Some? ==> r[0] == o.value
  {
    match o
    case None => []
    case Some(v) => [v]
  }
}
