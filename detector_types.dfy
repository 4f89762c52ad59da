/**
 * The entities the gyro detector works on. Shared pointers are modelled by
 * values that carry an `id`: two pointers are equal exactly when the values
 * they point to are equal, provided every object gets its own id.
 */
module DetectorTypes {
  import opened Common

  /** A contour as returned by OpenCV's `findContours`; its points are opaque here. */
  datatype Contour = Contour(points: seq<(int, int)>)

  /** A light blob (`LightBlob`): a feature with a center and a height. */
  datatype LightBlob = LightBlob(id: nat, center: Point, height: real)

  /** The robot type assigned to an armor; `Unknown` is `RobotType::UNKNOWN`. */
  datatype RobotType = Unknown | Known(code: nat)

  /**
   * An armor (`Armor`): a combo of two light blobs. `left` is `at(0)` and
   * `right` is `at(1)`; `width` is `getWidth()` and `error` is `getError()`.
   */
  datatype Armor = Armor(id: nat, left: LightBlob, right: LightBlob, width: real, error: real, robotType: RobotType)

  /**
   * The vision primitives the detector consumes and does not define:
   * `contourArea`, `LightBlob::make_feature`, `Armor::make_combo` (already
   * closed over the detector's gyro data and tick) and `Armor::isContainBlob`.
   */
  datatype Primitives = Primitives(
    contourArea: Contour -> real,
    makeFeature: Contour -> Option<LightBlob>,
    makeCombo: (LightBlob, LightBlob) -> Option<Armor>,
    isContainBlob: (LightBlob, Armor) -> bool)

  /**
   * A colour frame: its size and, for a pixel at row `y` and column `x`, the
   * integer brightness `int(0.1 * B + 0.6 * G + 0.3 * R)` computed from it.
   */
  datatype Image = Image(cols: int, rows: int, luma: (int, int) -> int)
}
