/*
 * Values and helpers shared by the three controllers: the motion command,
 * the marker and contour records that the vision collaborators produce, and
 * the numeric helpers of racecar_utils (clamp, remap_range,
 * get_largest_contour) as the controllers use them.
 */
module RacecarUtils {

  datatype Option<T> = None | Some(value: T)

  /** The (speed, angle) pair handed to set_speed_angle. */
  datatype Command = Command(speed: real, angle: real)

  /** Orientation of an AR marker as the detector reports it. */
  datatype Orientation = Up | Left | Down | Right

  /**
   * An AR marker reduced to what the controllers read: its id, its
   * orientation and the name of the colour the detector classified it as.
   */
  datatype Marker = Marker(id: int, orientation: Orientation, color: string)

  datatype Hsv = Hsv(h: int, s: int, v: int)

  /** A colour as (hsv_min, hsv_max, name). */
  datatype ColorRange = ColorRange(low: Hsv, high: Hsv, name: string)

  /** A contour reduced to its area and the column of its centre. */
  datatype Contour = Contour(area: real, col: real)

  function Min(a: real, b: real): real { if a <= b then a else b }
  function Max(a: real, b: real): real { if a <= b then b else a }

  /** rc_utils.clamp: the value, or the nearer bound when it lies outside. */
  function Clamp(v: real, lo: real, hi: real): (r: real)
    ensures lo <= hi ==> lo <= r <= hi
    ensures lo <= v <= hi ==> r == v
    ensures v < lo ==> r == lo
    ensures lo <= v && hi < v ==> r == hi
  {
    if v < lo then lo else if v > hi then hi else v
  }

  lemma ClampMonotone(v1: real, v2: real, lo: real, hi: real)
    requires lo <= hi && v1 <= v2
    ensures Clamp(v1, lo, hi) <= Clamp(v2, lo, hi)
  {
  }

  /**
   * rc_utils.remap_range: the linear map sending inMin to outMin and inMax to
   * outMax; with saturate, the result is clamped to the interval spanned by
   * outMin and outMax, whichever of the two is smaller.
   */
  function RemapRange(v: real, inMin: real, inMax: real, outMin: real, outMax: real,
                      saturate: bool): (r: real)
    requires inMin != inMax
    ensures saturate ==> Min(outMin, outMax) <= r <= Max(outMin, outMax)
  {
    Lerp(outMin, outMax, (v - inMin) / (inMax - inMin), saturate)
  }

  /**
   * The point a fraction t of the way from outMin to outMax; with saturate,
   * clamped to the interval the two span.
   */
  function Lerp(outMin: real, outMax: real, t: real, saturate: bool): (r: real)
    ensures saturate ==> Min(outMin, outMax) <= r <= Max(outMin, outMax)
  {
    var x := outMin + (outMax - outMin) * t;
    if !saturate then x
    else if outMin < outMax then Clamp(x, outMin, outMax)
    else Clamp(x, outMax, outMin)
  }

  /** Unsaturated, the result lies on the line through (inMin, outMin) and (inMax, outMax). */
  lemma RemapLinear(v: real, inMin: real, inMax: real, outMin: real, outMax: real)
    requires inMin != inMax
    ensures var r := RemapRange(v, inMin, inMax, outMin, outMax, false);
            (r - outMin) * (inMax - inMin) == (v - inMin) * (outMax - outMin)
  {
    var t := (v - inMin) / (inMax - inMin);
    assert t * (inMax - inMin) == v - inMin;
  }

  /** The product of two non-negative reals is non-negative. */
  lemma MulNonNegative(x: real, y: real)
    requires 0.0 <= x && 0.0 <= y
    ensures 0.0 <= x * y
  {
  }

  /** Where 0 <= t <= 1 the point a + (b - a) * t lies between a and b. */
  lemma BetweenEnds(a: real, b: real, t: real)
    requires 0.0 <= t <= 1.0
    ensures Min(a, b) <= a + (b - a) * t <= Max(a, b)
  {
    if a <= b {
      MulNonNegative(b - a, t);
      MulNonNegative(b - a, 1.0 - t);
    } else {
      MulNonNegative(a - b, t);
      MulNonNegative(a - b, 1.0 - t);
    }
  }

  /** The position of v inside [inMin, inMax], as a fraction of its width, is in [0, 1]. */
  lemma FractionWithin(v: real, inMin: real, inMax: real)
    requires inMin < inMax && inMin <= v <= inMax
    ensures 0.0 <= (v - inMin) / (inMax - inMin) <= 1.0
  {
    var d := inMax - inMin;
    var t := (v - inMin) / d;
    assert t * d == v - inMin;
    if t < 0.0 {
      MulNonNegative(-t, d);
    }
    if t > 1.0 {
      MulNonNegative(t - 1.0, d);
      assert (t - 1.0) * d == t * d - d;
      // so (t - 1) * d, which is v - inMax <= 0, is 0; a product of two non-zero factors is not
      if (t - 1.0) * d == 0.0 {
        assert t - 1.0 > 0.0 && d > 0.0;
      }
    }
  }

  /** A value inside the input interval is sent inside the output interval. */
  lemma RemapWithin(v: real, inMin: real, inMax: real, outMin: real, outMax: real, saturate: bool)
    requires inMin < inMax && inMin <= v <= inMax
    ensures Min(outMin, outMax) <= RemapRange(v, inMin, inMax, outMin, outMax, saturate) <= Max(outMin, outMax)
  {
    FractionWithin(v, inMin, inMax);
    BetweenEnds(outMin, outMax, (v - inMin) / (inMax - inMin));
  }

  /** The product of two positive reals is positive. */
  lemma MulPositive(x: real, y: real)
    requires 0.0 < x && 0.0 < y
    ensures 0.0 < x * y
  {
  }

  /** The position of v inside an increasing input interval grows with v. */
  lemma FractionMonotone(v1: real, v2: real, inMin: real, inMax: real)
    requires inMin < inMax && v1 <= v2
    ensures (v1 - inMin) / (inMax - inMin) <= (v2 - inMin) / (inMax - inMin)
  {
    var d := inMax - inMin;
    var t1, t2 := (v1 - inMin) / d, (v2 - inMin) / d;
    assert t1 * d == v1 - inMin && t2 * d == v2 - inMin;
    if t2 < t1 {
      MulPositive(t1 - t2, d);
    }
  }

  /** With outMin <= outMax the interpolation is non-decreasing in t. */
  lemma LerpMonotone(outMin: real, outMax: real, t1: real, t2: real, saturate: bool)
    requires outMin <= outMax && t1 <= t2
    ensures Lerp(outMin, outMax, t1, saturate) <= Lerp(outMin, outMax, t2, saturate)
  {
    MulNonNegative(outMax - outMin, t2 - t1);
    var x1, x2 := outMin + (outMax - outMin) * t1, outMin + (outMax - outMin) * t2;
    assert x2 - x1 == (outMax - outMin) * (t2 - t1);
    if saturate && outMin < outMax {
      ClampMonotone(x1, x2, outMin, outMax);
    } else if saturate {
      ClampMonotone(x1, x2, outMax, outMin);
    }
  }

  /** With outMin <= outMax the remap is non-decreasing in its argument. */
  lemma RemapMonotone(v1: real, v2: real, inMin: real, inMax: real, outMin: real, outMax: real,
                      saturate: bool)
    requires inMin < inMax && outMin <= outMax && v1 <= v2
    ensures RemapRange(v1, inMin, inMax, outMin, outMax, saturate)
         <= RemapRange(v2, inMin, inMax, outMin, outMax, saturate)
  {
    FractionMonotone(v1, v2, inMin, inMax);
    LerpMonotone(outMin, outMax, (v1 - inMin) / (inMax - inMin), (v2 - inMin) / (inMax - inMin), saturate);
  }

  /**
   * The index Python's max(contours, key=area) picks: an element of
   * greatest area, the first one among equals.
   */
  function FirstLargestIndex(cs: seq<Contour>): (k: nat)
    requires |cs| > 0
    ensures k < |cs|
    ensures forall j :: 0 <= j < |cs| ==> cs[j].area <= cs[k].area
    ensures forall j :: 0 <= j < k ==> cs[j].area < cs[k].area
  {
    if |cs| == 1 then 0
    else
      var k' := FirstLargestIndex(cs[1..]);
      assert forall j :: 1 <= j < |cs| ==> cs[j] == cs[1..][j - 1];
      if cs[0].area >= cs[k' + 1].area then 0 else k' + 1
  }

  /**
   * rc_utils.get_largest_contour: no contour when the list is empty or when
   * its largest contour is smaller than minArea, else the largest contour.
   */
  function GetLargestContour(cs: seq<Contour>, minArea: real): (r: Option<Contour>)
    ensures r.None? <==> forall j :: 0 <= j < |cs| ==> cs[j].area < minArea
    ensures r.Some? ==> r.value in cs && minArea <= r.value.area
    ensures r.Some? ==> forall j :: 0 <= j < |cs| ==> cs[j].area <= r.value.area
    ensures r.Some? ==> exists k :: 0 <= k < |cs| && r.value == cs[k] && forall j :: 0 <= j < k ==> cs[j].area < cs[k].area
  {
    if |cs| == 0 then None
    else
      var k := FirstLargestIndex(cs);
      var c := cs[k];
      if c.area < minArea then None else Some(c)
  }
}
