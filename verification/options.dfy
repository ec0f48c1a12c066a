/** Small failure-carrying datatypes shared by the model. */
module Options {

  /** A value that may be absent. */
  datatype Option<+T> = None | Some(value: T)

  /** Either a value or an error. */
  datatype Result<+R, +E> = Ok(value: R) | Err(error: E)

  /** The sequence holding the value of `o`, if any. */
  function ToSeq<T>(o: Option<T>): (s: seq<T>)
    ensures |s| <= 1
    ensures o.Some? <==> |s| == 1
    ensures o.Some? ==> s[0] == o.value
  {
    match o
    case None => []
    case Some(v) => [v]
  }
}
