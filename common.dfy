/** Small value types shared by every part of the model. */
module Common {

  /** A pointer that may be null: `None` stands for `nullptr`. */
  datatype Option<+T> = None | Some(value: T)

  /** A construction that either succeeds or reports an error. */
  datatype Result<+T, +E> = Success(value: T) | Failure(error: E)

  /** A 2-D point (OpenCV's `Point2f`), with the float coordinates idealised as reals. */
  datatype Point = Point(x: real, y: real)

  function OptionToSeq<T>(o: Option<T>): (r: seq<T>)
    ensures |r| <= 1
    ensures o.Some? <==> |r| == 1
    ensures o.Some? ==> r[0] == o.value
  {
    match o
    case None => []
    case Some(v) => [v]
  }
}
