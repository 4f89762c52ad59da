/**
 * Light-blob extraction (`GyroDetector::findLightBlobs`) and the removal of
 * over-exposed blobs (`GyroDetector::eraseBrightBlobs`).
 */
module BlobExtraction {
  import opened Common
  import opened DetectorTypes
  import opened Sequences

  // ---------------------------------------------------------------------------
  // findLightBlobs
  // ---------------------------------------------------------------------------

  /** A contour yields a blob when its area reaches the minimum and the blob fit succeeds. */
  predicate Qualifies(v: Primitives, minArea: real, c: Contour)
  {
    v.contourArea(c) >= minArea && v.makeFeature(c).Some?
  }

  function QualifiesFn(v: Primitives, minArea: real): Contour -> bool
  {
    c => Qualifies(v, minArea, c)
  }

  /** The blobs extracted from `cs`, one per qualifying contour, in contour order. */
  function Extracted(v: Primitives, minArea: real, cs: seq<Contour>): seq<LightBlob>
  {
    if |cs| == 0 then []
    else
      var c := cs[|cs| - 1];
      Extracted(v, minArea, cs[..|cs| - 1]) + (if Qualifies(v, minArea, c) then [v.makeFeature(c).value] else [])
  }

  /** Each extracted blob is the fit of the contour kept at the same position. */
  lemma {:induction false} ExtractedFromKept(v: Primitives, minArea: real, cs: seq<Contour>)
    ensures var kept := Filter(cs, QualifiesFn(v, minArea));
      && |Extracted(v, minArea, cs)| == |kept|
      && forall k :: 0 <= k < |kept| ==> v.makeFeature(kept[k]) == Some(Extracted(v, minArea, cs)[k])
  {
    if |cs| > 0 {
      ExtractedFromKept(v, minArea, cs[..|cs| - 1]);
    }
  }

  /**
   * The extracted blobs are exactly the fits of the qualifying contours, in
   * contour order: the k-th blob comes from the k-th qualifying contour.
   */
  lemma ExtractedExactly(v: Primitives, minArea: real, cs: seq<Contour>)
    ensures var idx := FilterIndices(cs, QualifiesFn(v, minArea));
      && |Extracted(v, minArea, cs)| == |idx|
      && (forall k, l :: 0 <= k < l < |idx| ==> idx[k] < idx[l])
      && (forall k :: 0 <= k < |idx| ==>
            0 <= idx[k] < |cs| && v.makeFeature(cs[idx[k]]) == Some(Extracted(v, minArea, cs)[k]))
      && (forall i :: 0 <= i < |cs| ==> (Qualifies(v, minArea, cs[i]) <==> i in idx))
  {
    FilterSelectsKept(cs, QualifiesFn(v, minArea));
    ExtractedFromKept(v, minArea, cs);
  }

  method FindLightBlobs(v: Primitives, minArea: real, contours: seq<Contour>) returns (blobs: seq<LightBlob>)
    ensures blobs == Extracted(v, minArea, contours)
  {
    blobs := [];
    for i := 0 to |contours|
      invariant blobs == Extracted(v, minArea, contours[..i])
    {
      assert contours[..i + 1][..i] == contours[..i];
      var contour := contours[i];
      if v.contourArea(contour) < minArea {
        continue;
      }
      var light := v.makeFeature(contour);
      if light.Some? {
        blobs := blobs + [light.value];
      }
    }
    assert contours[..|contours|] == contours;
  }

  // ---------------------------------------------------------------------------
  // eraseBrightBlobs
  // ---------------------------------------------------------------------------

  /** The sum of the ten samples above which a blob counts as over-exposed. */
  const BrightnessLimit: int := 1100

  /** C++'s float-to-int conversion, which truncates toward zero. */
  function Trunc(r: real): (t: int)
    ensures r >= 0.0 ==> 0 <= t && t as real <= r < t as real + 1.0
    ensures r < 0.0 ==> t <= 0 && t as real - 1.0 < r <= t as real
  {
    if r >= 0.0 then r.Floor else -((-r).Floor)
  }

  /** Column of sample `i`: `center.x - height * i / 5`, truncated toward zero. */
  function SampleX(b: LightBlob, i: int): (x: int)
    ensures var e := b.center.x - b.height * (i as real) / 5.0;
      && (e >= 0.0 ==> 0 <= x && x as real <= e < x as real + 1.0)
      && (e < 0.0 ==> x <= 0 && x as real - 1.0 < e <= x as real)
  {
    Trunc(b.center.x - b.height * (i as real) / 5.0)
  }

  /** Row of every sample: `center.y`, truncated toward zero. */
  function SampleY(b: LightBlob): (y: int)
    ensures b.center.y >= 0.0 ==> 0 <= y && y as real <= b.center.y < y as real + 1.0
    ensures b.center.y < 0.0 ==> y <= 0 && y as real - 1.0 < b.center.y <= y as real
  {
    Trunc(b.center.y)
  }

  /**
   * The column clamp as written: `x > cols` becomes `cols - 1`, then `x < 0`
   * becomes 1. A column equal to `cols` is left as it is.
   */
  function ClampXAsWritten(x: int, cols: int): (r: int)
    ensures 0 <= x <= cols ==> r == x
    ensures x < 0 ==> r == 1
    ensures x > cols && cols >= 1 ==> r == cols - 1
  {
    var x1 := if x > cols then cols - 1 else x;
    if x1 < 0 then 1 else x1
  }

  /**
   * The row clamp as written: `y < 0` becomes 1, then `y > rows` becomes
   * `rows - 1`. A row equal to `rows` is left as it is.
   */
  function ClampYAsWritten(y: int, rows: int): (r: int)
    ensures 0 <= y <= rows ==> r == y
    ensures y < 0 && rows >= 1 ==> r == 1
    ensures y > rows ==> r == rows - 1
  {
    var y1 := if y < 0 then 1 else y;
    if y1 > rows then rows - 1 else y1
  }

  /** As written, the clamp lets the column one past the last one through. */
  lemma ClampXAsWrittenEscapes(cols: int)
    requires cols >= 0
    ensures ClampXAsWritten(cols, cols) == cols
    ensures !(0 <= ClampXAsWritten(cols, cols) < cols)
  {
  }

  /** As written, the clamp lets the row one past the last one through. */
  lemma ClampYAsWrittenEscapes(rows: int)
    requires rows >= 0
    ensures ClampYAsWritten(rows, rows) == rows
    ensures !(0 <= ClampYAsWritten(rows, rows) < rows)
  {
  }

  /** The corrected column clamp: `x >= cols` becomes `cols - 1`, then `x < 0` becomes 1. */
  function ClampX(x: int, cols: int): (r: int)
    ensures cols >= 2 ==> 0 <= r < cols
    ensures 0 <= x < cols ==> r == x
    ensures x >= cols && cols >= 1 ==> r == cols - 1
    ensures x < 0 ==> r == 1
  {
    var x1 := if x >= cols then cols - 1 else x;
    if x1 < 0 then 1 else x1
  }

  /** The corrected row clamp: `y < 0` becomes 1, then `y >= rows` becomes `rows - 1`. */
  function ClampY(y: int, rows: int): (r: int)
    ensures rows >= 2 ==> 0 <= r < rows
    ensures 0 <= y < rows ==> r == y
    ensures y >= rows ==> r == rows - 1
    ensures y < 0 && rows >= 2 ==> r == 1
  {
    var y1 := if y < 0 then 1 else y;
    if y1 >= rows then rows - 1 else y1
  }

  /** The brightness of sample `i` of blob `b`. */
  function Sample(img: Image, b: LightBlob, i: int): int
  {
    img.luma(ClampY(SampleY(b), img.rows), ClampX(SampleX(b, i), img.cols))
  }

  /** The sum of the samples `lo <= i < hi`, skipping the center sample `i == 0`. */
  function SampleSum(img: Image, b: LightBlob, lo: int, hi: int): int
    decreases hi - lo
  {
    if hi <= lo then 0
    else SampleSum(img, b, lo, hi - 1) + (if hi - 1 == 0 then 0 else Sample(img, b, hi - 1))
  }

  /** The brightness of a blob: its ten samples `i` in -5..5 except 0. */
  function Brightness(img: Image, b: LightBlob): int
  {
    SampleSum(img, b, -5, 6)
  }

  /** The brightness is exactly the sum of the ten off-center samples. */
  lemma {:induction false} BrightnessIsTenSamples(img: Image, b: LightBlob)
    ensures Brightness(img, b)
         == Sample(img, b, -5) + Sample(img, b, -4) + Sample(img, b, -3) + Sample(img, b, -2) + Sample(img, b, -1)
          + Sample(img, b, 1) + Sample(img, b, 2) + Sample(img, b, 3) + Sample(img, b, 4) + Sample(img, b, 5)
  {
    assert SampleSum(img, b, -5, -2) == Sample(img, b, -5) + Sample(img, b, -4) + Sample(img, b, -3);
    assert SampleSum(img, b, -5, 1) == SampleSum(img, b, -5, -2) + Sample(img, b, -2) + Sample(img, b, -1);
    assert SampleSum(img, b, -5, 4) == SampleSum(img, b, -5, 1) + Sample(img, b, 1) + Sample(img, b, 2) + Sample(img, b, 3);
  }

  predicate OverExposed(img: Image, b: LightBlob)
  {
    Brightness(img, b) > BrightnessLimit
  }

  function NotOverExposedFn(img: Image): LightBlob -> bool
  {
    b => !OverExposed(img, b)
  }

  /**
   * The sampling loop of `eraseBrightBlobs`' predicate, for one blob. The
   * coordinates go through the corrected clamps `ClampX` and `ClampY`, so no
   * sample reads column `cols` or row `rows`.
   */
  method TotalBrightness(img: Image, b: LightBlob) returns (total: int)
    ensures total == Brightness(img, b)
  {
    total := 0;
    for i := -5 to 6
      invariant total == SampleSum(img, b, -5, i)
    {
      if i == 0 {
        continue;
      }
      var x := ClampX(SampleX(b, i), img.cols);
      var y := ClampY(SampleY(b), img.rows);
      var brightness := img.luma(y, x);
      total := total + brightness;
    }
  }

  /** Removes the over-exposed blobs, keeping the others in order. */
  method EraseBrightBlobs(img: Image, blobs: seq<LightBlob>) returns (kept: seq<LightBlob>)
    ensures kept == Filter(blobs, NotOverExposedFn(img))
  {
    kept := [];
    for k := 0 to |blobs|
      invariant kept == Filter(blobs[..k], NotOverExposedFn(img))
    {
      FilterPrefixStep(blobs, k, NotOverExposedFn(img));
      var total := TotalBrightness(img, blobs[k]);
      if !(total > BrightnessLimit) {
        kept := kept + [blobs[k]];
      }
    }
    assert blobs[..|blobs|] == blobs;
  }

  /**
   * A blob survives exactly when it was among the input and its ten samples
   * sum to at most the limit; the survivors keep their order.
   */
  lemma EraseBrightBlobsExactly(img: Image, blobs: seq<LightBlob>, b: LightBlob)
    ensures b in Filter(blobs, NotOverExposedFn(img)) <==> b in blobs && Brightness(img, b) <= BrightnessLimit
    ensures IsSubsequence(Filter(blobs, NotOverExposedFn(img)), blobs)
  {
    FilterMembership(blobs, NotOverExposedFn(img), b);
    FilterIsSubsequence(blobs, NotOverExposedFn(img));
  }
}
