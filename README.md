# Gyro detector pipeline, vanish counter, combo cloning and tag construction — a Dafny model

This project models the core of RMVL's whole-robot ("gyro") armor detection and the small stateful
pieces around it:

- **Detection pass** (`GyroDetector::find` in `extra/detector/src/gyro_detector/find.cpp`). Light
  blobs are extracted from contours (`findLightBlobs`), and over-exposed blobs are dropped
  (`eraseBrightBlobs`). The survivors are sorted left to right in place, and every pair `i < j` is
  tried as an armor (`findArmors`). Armors that share a light blob are resolved by the width and
  error tie-breaks (`eraseErrorArmors`). Blobs and armors are appended to the caller's feature and
  combo lists. `eraseFakeArmors`, which drops armors of unknown type, is modelled on its own: its
  call in `find` is commented out (`find.cpp:50`), and in the build without number classification
  every armor is `UNKNOWN`, so calling it would empty the list.
- **Vanish counter** of `GyroTracker` (`extra/tracker/include/rmvl/tracker/gyro_tracker.h`): the
  `VanishState` enum, `updateVanishState`, and the getters whose values it must leave alone.
- **`DefaultCombo`** (`extra/combo/src/combo.cpp`): construction from one feature, and
  `clone(tick)`, which deep-copies every feature and replaces only the timestamp.
- **`Tag`** (`extra/feature/src/tag/tag.cpp`): the corner-count check, the center as the mean of
  the corners, and the width/height choice from two adjacent sides.

The vision primitives the detector calls but does not define are fields of the datatype
`DetectorTypes.Primitives`, passed in as parameters: `contourArea`, `LightBlob::make_feature`,
`Armor::make_combo` (closed over the detector's gyro data and tick) and `Armor::isContainBlob`. The
frame is `DetectorTypes.Image`, which holds its size and the per-pixel integer brightness
`int(0.1 B + 0.6 G + 0.3 R)`. `getDistance` is a parameter of the tag constructor. Shared pointers
are modelled by values that carry an `id`, so pointer equality (`at(0) == at(1)`, the keys of
`armor_map`) is value equality, on the assumption that distinct objects carry distinct ids. Floats
are idealised as reals. C++'s float-to-int conversion is written out as truncation toward zero
(`BlobExtraction.Trunc`).

Files: `common.dfy` (Option, Result, Point), `sequences.dfy` (the meaning of
`erase(remove_if(...))`), `detector_types.dfy`, `blob_extraction.dfy`, `armor_matching.dfy`,
`armor_selection.dfy`, `gyro_detector.dfy`, `gyro_tracker.dfy`, `combo.dfy`, `tag.dfy`.

Notes on the code:
- The blobs are sorted with `std::sort`, which is not stable. Only sortedness and permutation are
  promised, not a stable left-to-right order.
- Ties in `eraseErrorArmors` are broken in a fixed way: the later armor `armors[j]` is marked.
  Flags are only ever set, never cleared. The opposite-side test runs only when the same-side test
  fails. So no comparison overrides another ("last write wins" cannot arise).
- Containment of a blob inside an armor is checked only by the matcher, for the blobs strictly
  between the pair. The disambiguator looks only at shared blobs.
- The tag constructor's parameter is a `std::array` of four points, so its count check can never
  fail in C++. The model takes a sequence so that the error path can be stated.

## Model

| member | source | states |
|---|---|---|
| `BlobExtraction.FindLightBlobs` | extra/detector/src/gyro_detector/find.cpp:68-88 | returns the blobs of the contours whose area reaches the minimum and whose `make_feature` is non-null, in contour order (as `Extracted`) |
| `BlobExtraction.ExtractedExactly` | extra/detector/src/gyro_detector/find.cpp:76-86 | the k-th extracted blob is the fit of the k-th qualifying contour; a contour contributes if and only if its area is at least the minimum and its fit succeeds; contour order is kept |
| `BlobExtraction.ExtractedFromKept` | extra/detector/src/gyro_detector/find.cpp:82-85 | each extracted blob is the non-null `make_feature` result of the kept contour at the same position |
| `BlobExtraction.Trunc` | extra/detector/src/gyro_detector/find.cpp:183-186 | float-to-int conversion truncates toward zero: the result lies within one of the real, on the side of zero |
| `BlobExtraction.SampleX` | extra/detector/src/gyro_detector/find.cpp:183 | the column of sample `i` is `center.x - height * i / 5` truncated toward zero: within one of it, on the side of zero |
| `BlobExtraction.SampleY` | extra/detector/src/gyro_detector/find.cpp:186 | the row of every sample is `center.y` truncated toward zero: within one of it, on the side of zero |
| `BlobExtraction.ClampXAsWritten` | extra/detector/src/gyro_detector/find.cpp:184-185 | as written: a column above `cols` becomes `cols - 1`, a negative one becomes 1, and every column in `[0, cols]` is untouched, including `cols` itself |
| `BlobExtraction.ClampYAsWritten` | extra/detector/src/gyro_detector/find.cpp:186-188 | as written: a negative row becomes 1, a row above `rows` becomes `rows - 1`, and every row in `[0, rows]` is untouched |
| `BlobExtraction.ClampXAsWrittenEscapes` | extra/detector/src/gyro_detector/find.cpp:184 | the column `cols` passes the as-written clamp and lies outside the image |
| `BlobExtraction.ClampYAsWrittenEscapes` | extra/detector/src/gyro_detector/find.cpp:188 | the row `rows` passes the as-written clamp and lies outside the image |
| `BlobExtraction.ClampX` | extra/detector/src/gyro_detector/find.cpp:184-185 | corrected clamp: on an image at least 2 wide every sampled column is inside it; in-range columns are untouched |
| `BlobExtraction.ClampY` | extra/detector/src/gyro_detector/find.cpp:187-188 | corrected clamp: on an image at least 2 high every sampled row is inside it; in-range rows are untouched |
| `BlobExtraction.BrightnessIsTenSamples` | extra/detector/src/gyro_detector/find.cpp:179-191 | a blob's brightness is the sum of exactly the ten samples `i` in -5..5 other than 0 |
| `BlobExtraction.TotalBrightness` | extra/detector/src/gyro_detector/find.cpp:178-192 | the accumulation loop computes the blob's brightness, the sum of its ten off-center samples, each read through the corrected clamps |
| `BlobExtraction.EraseBrightBlobs` | extra/detector/src/gyro_detector/find.cpp:173-196 | returns the input blobs whose brightness is at most 1100, in their original order |
| `BlobExtraction.EraseBrightBlobsExactly` | extra/detector/src/gyro_detector/find.cpp:175-195 | a blob survives if and only if it was in the input and its ten samples sum to at most 1100; the survivors are an order-preserving subsequence of the input |
| `Sequences.Filter` | extra/detector/src/gyro_detector/find.cpp:155-160 | every element that `erase(remove_if(...))` keeps satisfies the keep predicate, and there are no more of them than inputs |
| `Sequences.FilterSelectsKept` | extra/detector/src/gyro_detector/find.cpp:155-160 | `erase(remove_if(...))` keeps exactly the positions whose element satisfies the keep predicate, at strictly increasing positions |
| `Sequences.FilterMembership` | extra/detector/src/gyro_detector/find.cpp:155-160 | a value is kept if and only if it occurs in the input and satisfies the keep predicate |
| `ArmorMatching.SortByX` | extra/detector/src/gyro_detector/find.cpp:93-97 | the in-place sort leaves the array non-decreasing in center x and a permutation of its input |
| `ArmorMatching.ContainsBlob` | extra/detector/src/gyro_detector/find.cpp:116-124 | the scan reports containment if and only if some blob strictly between `i` and `j` lies inside the armor |
| `ArmorMatching.Candidate` | extra/detector/src/gyro_detector/find.cpp:108-127 | pair `(i, j)` yields an armor if and only if `make_combo` is non-null and no blob strictly between them lies inside it; the armor is `make_combo`'s |
| `ArmorMatching.MatchRow` | extra/detector/src/gyro_detector/find.cpp:105-129 | the inner loop appends the accepted armors of pairs `(i, j)`, `j > i`, in order of `j` |
| `ArmorMatching.MatchPairs` | extra/detector/src/gyro_detector/find.cpp:99-131 | the outer loop returns the accepted armors of all pairs `i < j` in lexicographic order, and nothing for fewer than 2 blobs |
| `ArmorMatching.FindArmors` | extra/detector/src/gyro_detector/find.cpp:90-132 | sorts the blobs in place (sorted, a permutation) and returns the matches of the sorted blobs |
| `ArmorMatching.MatchesMembership` | extra/detector/src/gyro_detector/find.cpp:103-128 | an armor is returned if and only if some pair `i < j` accepts it |
| `ArmorMatching.MatchesLength` | extra/detector/src/gyro_detector/find.cpp:103-105 | at most n(n-1)/2 armors are returned for n blobs |
| `ArmorMatching.PairBudgetClosedForm` | extra/detector/src/gyro_detector/find.cpp:103-105 | the pairs `(i, j)` with `i < n`, `i < j < m` number n(2m-n-1)/2 |
| `ArmorMatching.ContainedPairRejected` | extra/detector/src/gyro_detector/find.cpp:117-127 | for three blobs, an outer pair whose armor encloses the middle blob yields nothing |
| `ArmorSelection.Loser` | extra/detector/src/gyro_detector/find.cpp:148-151 | a comparison marks an armor if and only if the two share a blob; on a same-side share the strictly wider one, otherwise the one with strictly larger error, else the later one |
| `ArmorSelection.MarkRow` | extra/detector/src/gyro_detector/find.cpp:145-152 | after the comparisons of `armors[i]` with every later armor, exactly the armors marked by the rows up to `i` are flagged |
| `ArmorSelection.EraseErrorArmors` | extra/detector/src/gyro_detector/find.cpp:134-161 | leaves fewer than two armors unchanged; otherwise returns the armors no comparison marked, in order |
| `ArmorSelection.RemoveFlagged` | extra/detector/src/gyro_detector/find.cpp:155-160 | removes exactly the flagged armors and keeps the rest in order |
| `ArmorSelection.MarksExactly` | extra/detector/src/gyro_detector/find.cpp:139-153 | an armor is flagged if and only if the comparison of some pair `p < q` marks it; flags are never cleared |
| `ArmorSelection.LoserMarked` | extra/detector/src/gyro_detector/find.cpp:143-152 | whatever armor a comparison names as the loser ends up flagged |
| `ArmorSelection.SurvivorsSubsequence` | extra/detector/src/gyro_detector/find.cpp:155-160 | the survivors are an order-preserving subsequence of the input |
| `ArmorSelection.SurvivorsExactly` | extra/detector/src/gyro_detector/find.cpp:139-160 | with two or more armors, an armor survives if and only if it was in the input and no comparison marked it |
| `ArmorSelection.SurvivorsShareNoBlob` | extra/detector/src/gyro_detector/find.cpp:143-152 | no two survivors share a blob under any of the four `at(0)`/`at(1)` equalities |
| `ArmorSelection.SameSideTieBreak` | extra/detector/src/gyro_detector/find.cpp:148-149 | on a same-side share the strictly wider armor is removed, and on equal width `armors[j]` |
| `ArmorSelection.OppositeSideTieBreak` | extra/detector/src/gyro_detector/find.cpp:150-151 | on an opposite-side share without a same-side one, the armor with strictly larger error is removed, and on equal error `armors[j]` |
| `ArmorSelection.EraseFakeArmors` | extra/detector/src/gyro_detector/find.cpp:163-171 | returns the armors whose robot type is not `UNKNOWN`, in order |
| `ArmorSelection.EraseFakeArmorsExactly` | extra/detector/src/gyro_detector/find.cpp:165-170 | an armor survives if and only if it was in the input and its type is known |
| `GyroDetector.Unclassified` | extra/detector/src/gyro_detector/find.cpp:53-54 | every armor gets type `UNKNOWN` and nothing else about it changes |
| `GyroDetector.MarkUnknown` | extra/detector/src/gyro_detector/find.cpp:53-54 | the loop sets every armor's type to `UNKNOWN` and changes nothing else |
| `GyroDetector.SurvivorsUnknown` | extra/detector/src/gyro_detector/find.cpp:53-58 | every armor left after typing all armors `UNKNOWN` and disambiguating them is `UNKNOWN` |
| `GyroDetector.DetectArmors` | extra/detector/src/gyro_detector/find.cpp:34-58 | the armor stage: the blobs come back sorted by x and permuted, and the armors are the disambiguated matches of the sorted blobs, all `UNKNOWN` |
| `GyroDetector.Find` | extra/detector/src/gyro_detector/find.cpp:26-66 | appends only when at least 2 blobs survive: the surviving blobs sorted by x (a permutation of them), then the disambiguated matches of those blobs; never clears; every appended armor is `UNKNOWN` |
| `GyroTracking.StateCode` | extra/tracker/include/rmvl/tracker/gyro_tracker.h:30-34 | the enum has two values, `VANISH = 0` and `APPEAR = 1` |
| `GyroTracking.StateOfCode` | extra/tracker/include/rmvl/tracker/gyro_tracker.h:30-34 | only the codes 0 and 1 name an enumerator |
| `GyroTracking.StateCodeRoundTrip` | extra/tracker/include/rmvl/tracker/gyro_tracker.h:30-34 | enumerators and their codes convert back and forth without loss |
| `GyroTracking.GyroTracker.UpdateVanishState` | extra/tracker/include/rmvl/tracker/gyro_tracker.h:85-92 | `VANISH` adds exactly one to the counter, `APPEAR` sets it to 0; sample time, pose and rotation speed, read through their getters, are unchanged |
| `GyroTracking.GyroTracker.GetSampleTime` | extra/tracker/include/rmvl/tracker/gyro_tracker.h:88 | returns the stored frame time delta and reads nothing else; `UpdateVanishState` leaves it unchanged |
| `GyroTracking.GyroTracker.GetPose` | extra/tracker/include/rmvl/tracker/gyro_tracker.h:90 | returns the stored corrected pose normal and reads nothing else; `UpdateVanishState` leaves it unchanged |
| `GyroTracking.GyroTracker.GetRotatedSpeed` | extra/tracker/include/rmvl/tracker/gyro_tracker.h:92 | returns the stored filtered rotation speed and reads nothing else; `UpdateVanishState` leaves it unchanged |
| `GyroTracking.VanishAfterConcat` | extra/tracker/include/rmvl/tracker/gyro_tracker.h:85 | updates compose: running two sequences of states equals running their concatenation |
| `GyroTracking.VanishOnlyCounts` | extra/tracker/include/rmvl/tracker/gyro_tracker.h:85 | without `APPEAR`, k updates raise the counter by exactly k |
| `GyroTracking.AppearThenVanishes` | extra/tracker/include/rmvl/tracker/gyro_tracker.h:85 | `APPEAR` followed by k `VANISH` leaves the counter at k, whatever it was before |
| `GyroTracking.AppearResets` | extra/tracker/include/rmvl/tracker/gyro_tracker.h:85 | one `APPEAR` anywhere makes the earlier history irrelevant |
| `GyroTracking.AppearIdempotent` | extra/tracker/include/rmvl/tracker/gyro_tracker.h:85 | `APPEAR` twice equals `APPEAR` once, and both leave 0 |
| `Combos.Feature.Clone` | extra/combo/src/combo.cpp:34 | a feature's clone is a new object with the same attributes |
| `Combos.DefaultCombo.constructor` | extra/combo/src/combo.cpp:17-27 | the features are exactly `[p_feature]`; height, width, center, angle, corners and type are the feature's; the tick is the argument |
| `Combos.DefaultCombo.Clone` | extra/combo/src/combo.cpp:29-38 | a new combo with as many features, each a fresh clone of the corresponding one (never aliased to an original), the given tick, every other attribute equal, and the original untouched |
| `Tags.SideLengths` | extra/feature/src/tag/tag.cpp:33-36 | the width is the larger of the two side lengths and is never below the height; the pair is the two lengths; equal lengths give both |
| `Tags.CentroidInBox` | extra/feature/src/tag/tag.cpp:27-31 | the center lies in every axis-aligned box holding all four corners |
| `Tags.CentroidOfFour` | extra/feature/src/tag/tag.cpp:27-31 | with four corners the center is their arithmetic mean |
| `Tags.Tag.constructor` | extra/feature/src/tag/tag.cpp:25-36 | stores the corners in order and the type, sets the center to the corners' mean, and width/height from the sides c0-c1 and c1-c2 |
| `Tags.NewTag` | extra/feature/src/tag/tag.cpp:20-37 | fails with a bad-argument error carrying the count if and only if there are not exactly 4 corners; otherwise builds the tag as above |

## Left out

- ONNX number classification (`find.cpp:38-51`), `Armor::getNumberROI` and the `rois` output: a foreign inference call. The model is the build without it, where every armor is typed `UNKNOWN`.
- `findContours`, `contourArea`, `make_feature`, `make_combo`, `isContainBlob` and the pixel read: opaque parameters whose internals belong to OpenCV and to the feature and combo classes.
- The float brightness weights (`find.cpp:190`): the per-pixel brightness is an opaque integer function of the image.
- Floats are idealised as reals, so float rounding in `height * i / 5` and in the tag center is not modelled.
- BlobExtraction.TotalBrightness: clamps each sample with the corrected `ClampX`/`ClampY` (`>=`) where `find.cpp:184,188` test `>`. As written, a sample at column `cols` or row `rows` reads one past the image edge (see Findings); the model never reads it.
- BlobExtraction.EraseBrightBlobs: samples through the corrected clamp (`ClampX`, `ClampY`). As written, a sample at column `cols` or row `rows` reads one past the image edge (see Findings). Nothing else changes.
- Distinct objects are assumed to carry distinct ids, so that value equality stands for pointer equality. Nothing in the model enforces this: if `make_combo` returned the same value for two pairs, `eraseErrorArmors` would see one armor twice and drop both copies, where C++ would drop only `armors[j]`.
- Vectors passed by reference (`blobs`, `armors`, `features`, `combos`) are modelled as sequence values that each operation returns. The in-place sort keeps an array; the compaction that `remove_if` does in place is modelled by its result only.
- GyroTracking.GyroTracker.UpdateVanishState: the counter is an unbounded `nat`, so the wrap-around of the base class's fixed-width `_vanish_num` after 2^32 misses is not modelled.
- The tracker's Kalman filters (`gyro_tracker.h:41-43`), `update`, `updateFromCombo`, the rotation-speed computation and the tracker constructor: float numerics implemented in files that are not part of this model. The getters only read fields.
- Track removal once the vanish counter exceeds a threshold: done by the tracker set, which is not part of this model.
- `feature::clone` is virtual and defined per feature kind. `Combos.Feature.Clone` stands for it as an attribute-for-attribute copy.
- `getDistance` is a parameter of the tag constructor: its square root is not expressible over reals here.
- The rune tracker, the OPC UA server and client, the camera driver, the calibration sample and the AprilTag detector: I/O, threads and foreign libraries outside the detection core.

## Findings

| source | as written | input that shows it | evidently intended | confidence | as-written member | corrected member |
|---|---|---|---|---|---|---|
| extra/detector/src/gyro_detector/find.cpp:184 | `x = (x > src.cols) ? src.cols - 1 : x` leaves `x == cols` as it is, and `src.at` then reads column `cols`, one past the last | `cols = 640`, blob center x = 600, height 40, sample `i = -5`: x = 600 + 40 = 640 | `x >= cols` maps to `cols - 1` | high; not executed | `BlobExtraction.ClampXAsWrittenEscapes` | `BlobExtraction.ClampX` |
| extra/detector/src/gyro_detector/find.cpp:188 | `y = (y > src.rows) ? src.rows - 1 : y` leaves `y == rows` as it is, one past the last row | `rows = 480`, blob center y = 480.0 | `y >= rows` maps to `rows - 1` | medium (needs a center on the bottom edge); not executed | `BlobExtraction.ClampYAsWrittenEscapes` | `BlobExtraction.ClampY` |
