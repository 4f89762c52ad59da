/**
 * One detection pass (`GyroDetector::find`) built without the ONNX number
 * classifier: extract blobs, drop over-exposed ones, pair them into armors,
 * type every armor as unknown, resolve shared blobs, and append the results.
 */
module GyroDetector {
  import opened Common
  import opened DetectorTypes
  import opened Sequences
  import opened BlobExtraction
  import opened ArmorMatching
  import opened ArmorSelection

  /** The armors with their robot type set to `Unknown`, everything else kept. */
  function Unclassified(armors: seq<Armor>): (r: seq<Armor>)
    ensures |r| == |armors|
    ensures forall k :: 0 <= k < |r| ==> r[k].robotType == Unknown && r[k].(robotType := armors[k].robotType) == armors[k]
  {
    seq(|armors|, k requires 0 <= k < |armors| => armors[k].(robotType := Unknown))
  }

  /** The loop `for (auto armor : armors) armor->setType(RobotType::UNKNOWN)`. */
  method MarkUnknown(armors: seq<Armor>) returns (result: seq<Armor>)
    ensures result == Unclassified(armors)
  {
    result := armors;
    for k := 0 to |armors|
      invariant |result| == |armors|
      invariant forall m :: 0 <= m < k ==> result[m] == armors[m].(robotType := Unknown)
      invariant forall m :: k <= m < |armors| ==> result[m] == armors[m]
    {
      result := result[k := result[k].(robotType := Unknown)];
    }
  }

  /** Every armor that survives disambiguation of unclassified armors is typed unknown. */
  lemma SurvivorsUnknown(armors: seq<Armor>)
    ensures forall a :: a in Survivors(Unclassified(armors)) ==> a.robotType == Unknown
  {
    var typed := Unclassified(armors);
    forall a | a in Survivors(typed)
      ensures a.robotType == Unknown
    {
      if |typed| >= 2 {
        FilterMembership(typed, UnmarkedFn(typed), a);
      }
    }
  }

  /**
   * The armor stage of a detection pass: sort the blobs in place, match every
   * pair, type every armor unknown, then resolve shared blobs.
   */
  method DetectArmors(v: Primitives, blobs: seq<LightBlob>) returns (sorted: seq<LightBlob>, armors: seq<Armor>)
    ensures |sorted| == |blobs| && multiset(sorted) == multiset(blobs)
    ensures SortedByX(sorted)
    ensures armors == Survivors(Unclassified(Matches(v, sorted)))
    ensures forall k :: 0 <= k < |armors| ==> armors[k].robotType == Unknown
  {
    var lightBlobs := new LightBlob[|blobs|](k requires 0 <= k < |blobs| => blobs[k]);
    assert lightBlobs[..] == blobs;
    var matched := FindArmors(v, lightBlobs);
    sorted := lightBlobs[..];
    var typed := MarkUnknown(matched);
    armors := EraseErrorArmors(typed);
    SurvivorsUnknown(matched);
  }

  /** The blobs that reach the matcher: extracted, then not over-exposed. */
  function Candidates(img: Image, v: Primitives, minArea: real, contours: seq<Contour>): seq<LightBlob>
  {
    Filter(Extracted(v, minArea, contours), NotOverExposedFn(img))
  }

  /**
   * A detection pass. `features` and `combos` are only ever appended to, and
   * only when at least two blobs survive: then every surviving blob is
   * appended in left-to-right order, followed by the armors that the
   * disambiguator keeps among those matched from them, all typed unknown.
   */
  method Find(img: Image, v: Primitives, minArea: real, contours: seq<Contour>,
              features: seq<LightBlob>, combos: seq<Armor>)
    returns (features': seq<LightBlob>, combos': seq<Armor>)
    ensures var blobs := Candidates(img, v, minArea, contours);
      if |blobs| < 2 then
        features' == features && combos' == combos
      else
        && |features'| == |features| + |blobs|
        && features'[..|features|] == features
        && var sorted := features'[|features|..];
        && multiset(sorted) == multiset(blobs)
        && SortedByX(sorted)
        && combos' == combos + Survivors(Unclassified(Matches(v, sorted)))
    ensures forall k :: |combos| <= k < |combos'| ==> combos'[k].robotType == Unknown
  {
    features', combos' := features, combos;
    var extracted := FindLightBlobs(v, minArea, contours);
    var blobs := EraseBrightBlobs(img, extracted);
    assert blobs == Candidates(img, v, minArea, contours);
    if |blobs| >= 2 {
      var sorted, armors := DetectArmors(v, blobs);
      features' := features + sorted;
      assert features'[..|features|] == features && features'[|features|..] == sorted;
      combos' := combos + armors;
    }
  }
}
