/**
 * The single-feature combo (`DefaultCombo`): built from one feature, and
 * cloned with a new timestamp by deep-copying its features.
 */
module Combos {
  import opened Common

  /** The type tag a feature or combo carries; its meaning is opaque here. */
  datatype FeatureType = FeatureType(code: nat)

  /** The attributes a feature exposes through its getters. */
  datatype FeatureAttrs = FeatureAttrs(height: real, width: real, center: Point, angle: real, corners: seq<Point>, featureType: FeatureType)

  /**
   * A feature (`feature`). Its attributes never change after construction, so
   * they are constant fields; `Clone` makes a new object with equal attributes.
   */
  class Feature {
    const height: real
    const width: real
    const center: Point
    const angle: real
    const corners: seq<Point>
    const featureType: FeatureType

    function Attrs(): FeatureAttrs
    {
      FeatureAttrs(height, width, center, angle, corners, featureType)
    }

    constructor (attrs: FeatureAttrs)
      ensures Attrs() == attrs
    {
      height, width, center, angle := attrs.height, attrs.width, attrs.center, attrs.angle;
      corners, featureType := attrs.corners, attrs.featureType;
    }

    method Clone() returns (c: Feature)
      ensures fresh(c)
      ensures c.Attrs() == Attrs()
    {
      c := new Feature(Attrs());
    }
  }

  /** `DefaultCombo`: a combo made of exactly the features it was given. */
  class DefaultCombo {
    var features: seq<Feature>
    var height: real
    var width: real
    var center: Point
    var angle: real
    var corners: seq<Point>
    var comboType: FeatureType
    var tick: real

    /** The attributes other than the features and the tick. */
    function Attrs(): FeatureAttrs
      reads this
    {
      FeatureAttrs(height, width, center, angle, corners, comboType)
    }

    /** `DefaultCombo(p_feature, tick)`: one feature, whose attributes it copies verbatim. */
    constructor (feature: Feature, tick: real)
      ensures features == [feature]
      ensures Attrs() == feature.Attrs()
      ensures this.tick == tick
    {
      features := [feature];
      height := feature.height;
      width := feature.width;
      center := feature.center;
      angle := feature.angle;
      corners := feature.corners;
      comboType := feature.featureType;
      this.tick := tick;
    }

    /** The copy constructor that `std::make_shared<DefaultCombo>(*this)` runs. */
    constructor Copy(other: DefaultCombo)
      ensures features == other.features
      ensures Attrs() == other.Attrs()
      ensures tick == other.tick
    {
      features := other.features;
      height, width, center, angle := other.height, other.width, other.center, other.angle;
      corners, comboType, tick := other.corners, other.comboType, other.tick;
    }

    /**
     * `clone(tick)`: a new combo whose every feature is a fresh clone of the
     * corresponding feature, whose tick is the argument, and whose other
     * attributes are this combo's. This combo is left untouched.
     */
    method Clone(tick: real) returns (r: DefaultCombo)
      ensures fresh(r)
      ensures |r.features| == |features|
      ensures forall k :: 0 <= k < |features| ==> fresh(r.features[k]) && r.features[k].Attrs() == features[k].Attrs()
      ensures forall k, l :: 0 <= k < |r.features| && 0 <= l < |features| ==> r.features[k] != features[l]
      ensures r.Attrs() == Attrs()
      ensures r.tick == tick
      ensures unchanged(this)
    {
      r := new DefaultCombo.Copy(this);
      for i := 0 to |features|
        invariant fresh(r)
        invariant |r.features| == |features|
        invariant forall k :: 0 <= k < i ==> fresh(r.features[k]) && r.features[k].Attrs() == features[k].Attrs()
        invariant forall k :: i <= k < |features| ==> r.features[k] == features[k]
        invariant r.Attrs() == Attrs()
      {
        var c := features[i].Clone();
        r.features := r.features[i := c];
      }
      r.tick := tick;
    }
  }
}
