/**
 * The tag feature (`Tag`): built from four corners, with the center at their
 * mean and the longer of two adjacent sides as the width.
 */
module Tags {
  import opened Common

  /** `TagType`: which tag was recognised; its meaning is opaque here. */
  datatype TagType = TagType(id: nat)

  /** `RMVL_StsBadArg`, with the corner count that caused it. */
  datatype TagError = BadArg(cornerCount: nat)

  /** The component-wise sum of the points, as the loop `center += corner` builds it. */
  function PointSum(ps: seq<Point>): Point
  {
    if |ps| == 0 then Point(0.0, 0.0)
    else
      var s := PointSum(ps[..|ps| - 1]);
      Point(s.x + ps[|ps| - 1].x, s.y + ps[|ps| - 1].y)
  }

  /** The mean of the points. */
  function Centroid(ps: seq<Point>): Point
    requires |ps| > 0
  {
    var s := PointSum(ps);
    Point(s.x / (|ps| as real), s.y / (|ps| as real))
  }

  /** With four corners, the center is the arithmetic mean of the four. */
  lemma CentroidOfFour(ps: seq<Point>)
    requires |ps| == 4
    ensures Centroid(ps) == Point((ps[0].x + ps[1].x + ps[2].x + ps[3].x) / 4.0, (ps[0].y + ps[1].y + ps[2].y + ps[3].y) / 4.0)
  {
    assert PointSum(ps[..1]) == ps[0] by {
      assert ps[..1][..0] == [];
    }
    assert ps[..2][..1] == ps[..1] && ps[..3][..2] == ps[..2] && ps[..4][..3] == ps[..3] && ps[..4] == ps;
    assert PointSum(ps[..2]) == Point(ps[0].x + ps[1].x, ps[0].y + ps[1].y);
    assert PointSum(ps[..3]) == Point(ps[0].x + ps[1].x + ps[2].x, ps[0].y + ps[1].y + ps[2].y);
  }

  /** The center lies in every axis-aligned box that holds all four corners. */
  lemma CentroidInBox(ps: seq<Point>, lo: Point, hi: Point)
    requires |ps| == 4
    requires forall i :: 0 <= i < 4 ==> lo.x <= ps[i].x <= hi.x && lo.y <= ps[i].y <= hi.y
    ensures lo.x <= Centroid(ps).x <= hi.x && lo.y <= Centroid(ps).y <= hi.y
  {
    CentroidOfFour(ps);
  }

  /**
   * The width and height chosen from two adjacent side lengths: the width is
   * the longer one and the height the other, so together they are the two
   * lengths and the width is never the smaller.
   */
  function SideLengths(length1: real, length2: real): (r: (real, real))
    ensures r.0 >= r.1
    ensures r.0 == (if length1 >= length2 then length1 else length2)
    ensures multiset{r.0, r.1} == multiset{length1, length2}
    ensures length1 == length2 ==> r.0 == length1 && r.1 == length1
  {
    var width := if length1 > length2 then length1 else length2;
    var height := if width == length1 then length2 else length1;
    (width, height)
  }

  /** A tag feature. It never changes after construction. */
  class Tag {
    const corners: seq<Point>
    const tagType: TagType
    const center: Point
    const width: real
    const height: real

    /**
     * The body of `Tag(corners, type)` once the corner count is known to be
     * four; `dist` is `getDistance`.
     */
    constructor (corners: seq<Point>, tagType: TagType, dist: (Point, Point) -> real)
      requires |corners| == 4
      ensures this.corners == corners && this.tagType == tagType
      ensures center == Centroid(corners)
      ensures (width, height) == SideLengths(dist(corners[0], corners[1]), dist(corners[1], corners[2]))
    {
      this.corners := corners;
      this.tagType := tagType;
      var sum := Point(0.0, 0.0);
      for i := 0 to |corners|
        invariant sum == PointSum(corners[..i])
      {
        assert corners[..i + 1][..i] == corners[..i];
        sum := Point(sum.x + corners[i].x, sum.y + corners[i].y);
      }
      assert corners[..|corners|] == corners;
      var n := |corners| as real;
      center := Point(sum.x / n, sum.y / n);
      var length1 := dist(corners[0], corners[1]);
      var length2 := dist(corners[1], corners[2]);
      var w := if length1 > length2 then length1 else length2;
      width := w;
      height := if w == length1 then length2 else length1;
    }
  }

  /**
   * `Tag(corners, type)`: fails with a bad-argument error unless there are
   * exactly four corners; otherwise stores the corners in order and the type,
   * puts the center at the corners' mean and takes the longer of the sides
   * c0-c1 and c1-c2 as the width.
   */
  method NewTag(corners: seq<Point>, tagType: TagType, dist: (Point, Point) -> real) returns (r: Result<Tag, TagError>)
    ensures r.Failure? <==> |corners| != 4
    ensures r.Failure? ==> r.error == BadArg(|corners|)
    ensures r.Success? ==>
      && r.value.corners == corners
      && r.value.tagType == tagType
      && r.value.center == Centroid(corners)
      && (r.value.width, r.value.height) == SideLengths(dist(corners[0], corners[1]), dist(corners[1], corners[2]))
  {
    if |corners| != 4 {
      return Failure(BadArg(|corners|));
    }
    var tag := new Tag(corners, tagType, dist);
    r := Success(tag);
  }
}
