/*
 * Lane following (labSolutions/lane_following_solution.py).
 *
 * The car waits for AR marker 1, whose colour names the primary (fast) lane
 * colour; the other colour is the secondary one, marking sharp turns.  Each
 * frame it steers from the contours of the secondary colour if any qualify,
 * else from those of the primary colour: toward the midpoint of the two
 * largest, or away from a single visible lane.
 */
module LaneFollowing {
  import opened RacecarUtils

  const MIN_CONTOUR_AREA: real := 500.0

  const ORANGE: ColorRange := ColorRange(Hsv(10, 100, 100), Hsv(25, 255, 255), "orange")
  const PURPLE: ColorRange := ColorRange(Hsv(125, 100, 100), Hsv(150, 255, 255), "purple")

  const AR_MARKER_ID: int := 1

  const FAST_SPEED: real := 1.0
  const SLOW_SPEED: real := 0.5
  const ONE_LANE_TURN_ANGLE: real := 0.75

  /** The globals: whether marker 1 has been seen, and the primary and secondary lane colours. */
  datatype Lanes = Lanes(driving: bool, primary: ColorRange, secondary: ColorRange)

  /** The state start() sets up (the same values the globals start with). */
  const INITIAL: Lanes := Lanes(false, ORANGE, PURPLE)

  /** The two lane colours are orange and purple, one each. */
  predicate Valid(s: Lanes)
  {
    || (s.primary == ORANGE && s.secondary == PURPLE)
    || (s.primary == PURPLE && s.secondary == ORANGE)
  }

  /** One iteration of check_ar's loop over the detected markers. */
  function SeeMarker(s: Lanes, marker: Marker): Lanes
  {
    if marker.id == AR_MARKER_ID then
      var d := s.(driving := true);
      if marker.color != s.primary.name then d.(primary := s.secondary, secondary := s.primary) else d
    else s
  }

  /** check_ar: the markers processed in the order the detector lists them. */
  function CheckedAr(s: Lanes, markers: seq<Marker>): Lanes
    decreases |markers|
  {
    if |markers| == 0 then s
    else SeeMarker(CheckedAr(s, markers[..|markers| - 1]), markers[|markers| - 1])
  }

  lemma InitialValid()
    ensures Valid(INITIAL) && !INITIAL.driving
  {
  }

  /** Marker 1 latches driving and leaves the colours as a mismatch swaps them or a match keeps them; any other marker changes nothing. */
  lemma SeeMarkerEffect(s: Lanes, marker: Marker)
    ensures var n := SeeMarker(s, marker);
      && (marker.id != AR_MARKER_ID ==> n == s)
      && (marker.id == AR_MARKER_ID ==> n.driving)
      && (marker.id == AR_MARKER_ID && marker.color != s.primary.name ==>
            n.primary == s.secondary && n.secondary == s.primary)
      && (marker.id == AR_MARKER_ID && marker.color == s.primary.name ==>
            n.primary == s.primary && n.secondary == s.secondary)
  {
  }

  /** The two colours stay orange and purple, one each, whatever markers are seen. */
  lemma {:induction false} CheckedArValid(s: Lanes, markers: seq<Marker>)
    requires Valid(s)
    ensures Valid(CheckedAr(s, markers))
    decreases |markers|
  {
    if |markers| > 0 {
      CheckedArValid(s, markers[..|markers| - 1]);
    }
  }

  /** After check_ar the car is driving exactly when it already was or some marker had id 1: nothing but start() clears it. */
  lemma {:induction false} CheckedArDriving(s: Lanes, markers: seq<Marker>)
    ensures CheckedAr(s, markers).driving
        <==> s.driving || exists i :: 0 <= i < |markers| && markers[i].id == AR_MARKER_ID
    decreases |markers|
  {
    if |markers| > 0 {
      var front := markers[..|markers| - 1];
      CheckedArDriving(s, front);
      assert forall i :: 0 <= i < |front| ==> front[i] == markers[i];
      if CheckedAr(s, markers).driving && !CheckedAr(s, front).driving {
        assert markers[|markers| - 1].id == AR_MARKER_ID;
      }
    }
  }

  /** Markers none of which has id 1 leave the state as it was. */
  lemma {:induction false} CheckedArIgnoresOthers(s: Lanes, markers: seq<Marker>)
    requires forall i :: 0 <= i < |markers| ==> markers[i].id != AR_MARKER_ID
    ensures CheckedAr(s, markers) == s
    decreases |markers|
  {
    if |markers| > 0 {
      CheckedArIgnoresOthers(s, markers[..|markers| - 1]);
    }
  }

  /** Markers after the last id-1 marker do not matter. */
  lemma {:induction false} CheckedArUpToLast(s: Lanes, markers: seq<Marker>, k: nat)
    requires k < |markers|
    requires forall j :: k < j < |markers| ==> markers[j].id != AR_MARKER_ID
    ensures CheckedAr(s, markers) == CheckedAr(s, markers[..k + 1])
    decreases |markers|
  {
    if |markers| > k + 1 {
      var front := markers[..|markers| - 1];
      assert front[..k + 1] == markers[..k + 1];
      CheckedArUpToLast(s, front, k);
    } else {
      assert markers[..k + 1] == markers;
    }
  }

  /**
   * When the last id-1 marker is classified orange or purple, that colour is
   * the primary afterwards and the other one the secondary.
   */
  lemma LastMarkerSetsPrimary(s: Lanes, markers: seq<Marker>, k: nat)
    requires Valid(s)
    requires k < |markers| && markers[k].id == AR_MARKER_ID
    requires forall j :: k < j < |markers| ==> markers[j].id != AR_MARKER_ID
    requires markers[k].color == ORANGE.name || markers[k].color == PURPLE.name
    ensures CheckedAr(s, markers).primary.name == markers[k].color
    ensures CheckedAr(s, markers).driving
  {
    CheckedArUpToLast(s, markers, k);
    var upTo := markers[..k + 1];
    assert upTo[..k] == markers[..k];
    CheckedArValid(s, markers[..k]);
  }

  /** The contours of one colour whose area is strictly above MIN_CONTOUR_AREA, in their original order. */
  function Qualifying(cs: seq<Contour>): (r: seq<Contour>)
    ensures |r| <= |cs|
    ensures forall c :: c in r <==> c in cs && c.area > MIN_CONTOUR_AREA
    decreases |cs|
  {
    if |cs| == 0 then []
    else (if cs[0].area > MIN_CONTOUR_AREA then [cs[0]] else []) + Qualifying(cs[1..])
  }

  /** Each contour of area above MIN_CONTOUR_AREA is kept as often as it occurs; no other is kept. */
  lemma {:induction false} QualifyingMultiset(cs: seq<Contour>)
    ensures forall c :: multiset(Qualifying(cs))[c] == if c.area > MIN_CONTOUR_AREA then multiset(cs)[c] else 0
    decreases |cs|
  {
    if |cs| > 0 {
      QualifyingMultiset(cs[1..]);
      assert cs == [cs[0]] + cs[1..];
    }
  }

  /** The positions in cs of the contours Qualifying keeps. */
  ghost function QualifyingPositions(cs: seq<Contour>): seq<nat>
    decreases |cs|
  {
    if |cs| == 0 then []
    else
      var rest := Shifted(QualifyingPositions(cs[1..]));
      if cs[0].area > MIN_CONTOUR_AREA then [0] + rest else rest
  }

  /** Every position moved one place on. */
  ghost function Shifted(s: seq<nat>): (r: seq<nat>)
    ensures |r| == |s| && forall k :: 0 <= k < |s| ==> r[k] == s[k] + 1
  {
    seq(|s|, k requires 0 <= k < |s| => s[k] + 1)
  }

  /** The kept contours are the contours at those positions, one for one. */
  lemma {:induction false} PositionsMatch(cs: seq<Contour>)
    ensures var idx := QualifyingPositions(cs);
      && |idx| == |Qualifying(cs)|
      && (forall k :: 0 <= k < |idx| ==> idx[k] < |cs| && Qualifying(cs)[k] == cs[idx[k]])
    decreases |cs|
  {
    if |cs| > 0 {
      PositionsMatch(cs[1..]);
      var rest := QualifyingPositions(cs[1..]);
      var q := Qualifying(cs[1..]);
      var sh := Shifted(rest);
      forall k | 0 <= k < |sh|
        ensures sh[k] < |cs| && q[k] == cs[sh[k]]
      {
        assert cs[sh[k]] == cs[1..][rest[k]];
      }
      if cs[0].area > MIN_CONTOUR_AREA {
        var idx := [0] + sh;
        var r := [cs[0]] + q;
        assert forall k :: 1 <= k < |idx| ==> idx[k] == sh[k - 1] && r[k] == q[k - 1];
      }
    }
  }

  /** The positions are strictly increasing, so the kept contours stay in source order. */
  lemma {:induction false} PositionsIncrease(cs: seq<Contour>)
    ensures forall k, l :: 0 <= k < l < |QualifyingPositions(cs)| ==> QualifyingPositions(cs)[k] < QualifyingPositions(cs)[l]
    decreases |cs|
  {
    if |cs| > 0 {
      PositionsIncrease(cs[1..]);
      var rest := QualifyingPositions(cs[1..]);
      var sh := Shifted(rest);
      assert forall k, l :: 0 <= k < l < |sh| ==> sh[k] < sh[l];
      if cs[0].area > MIN_CONTOUR_AREA {
        var idx := [0] + sh;
        assert QualifyingPositions(cs) == idx;
        forall k, l | 0 <= k < l < |idx|
          ensures idx[k] < idx[l]
        {
          assert idx[l] == sh[l - 1];
          if k > 0 {
            assert idx[k] == sh[k - 1];
          }
        }
      }
    }
  }

  /** A position is listed exactly when the contour there has area above MIN_CONTOUR_AREA. */
  lemma {:induction false} PositionsComplete(cs: seq<Contour>)
    ensures var idx := QualifyingPositions(cs);
      forall i :: 0 <= i < |cs| ==> (i in idx <==> cs[i].area > MIN_CONTOUR_AREA)
    decreases |cs|
  {
    if |cs| > 0 {
      PositionsComplete(cs[1..]);
      var rest := QualifyingPositions(cs[1..]);
      var sh := Shifted(rest);
      forall i | 1 <= i < |cs|
        ensures i in sh <==> cs[i].area > MIN_CONTOUR_AREA
      {
        assert cs[i] == cs[1..][i - 1];
        if i - 1 in rest {
          var k :| 0 <= k < |rest| && rest[k] == i - 1;
          assert sh[k] == i;
        }
      }
      assert 0 !in sh;
    }
  }

  /**
   * Qualifying keeps exactly the contours at the positions of area above
   * MIN_CONTOUR_AREA, in increasing order of position.
   */
  lemma QualifyingInOrder(cs: seq<Contour>)
    ensures var idx := QualifyingPositions(cs);
      && |idx| == |Qualifying(cs)|
      && (forall k :: 0 <= k < |idx| ==> idx[k] < |cs| && Qualifying(cs)[k] == cs[idx[k]])
      && (forall k, l :: 0 <= k < l < |idx| ==> idx[k] < idx[l])
      && (forall i :: 0 <= i < |cs| ==> (i in idx <==> cs[i].area > MIN_CONTOUR_AREA))
  {
    PositionsMatch(cs);
    PositionsIncrease(cs);
    PositionsComplete(cs);
  }

  /** No contour qualifies exactly when all are at most MIN_CONTOUR_AREA. */
  lemma QualifyingEmpty(cs: seq<Contour>)
    ensures |Qualifying(cs)| == 0 <==> forall j :: 0 <= j < |cs| ==> cs[j].area <= MIN_CONTOUR_AREA
  {
    var q := Qualifying(cs);
    if |q| > 0 {
      assert q[0] in q;
    } else {
      forall j | 0 <= j < |cs|
        ensures cs[j].area <= MIN_CONTOUR_AREA
      {
        assert cs[j] in cs;
      }
    }
  }

  /**
   * The second element after contours.sort(key=area, reverse=True): the
   * first contour of greatest area once the first element is set aside.
   */
  function SecondLargestIndex(cs: seq<Contour>): (j: nat)
    requires |cs| >= 2
    ensures j < |cs| && j != FirstLargestIndex(cs)
    ensures forall l :: 0 <= l < |cs| && l != FirstLargestIndex(cs) ==> cs[l].area <= cs[j].area
    ensures forall l :: 0 <= l < j && l != FirstLargestIndex(cs) ==> cs[l].area < cs[j].area
  {
    var i := FirstLargestIndex(cs);
    var k := FirstLargestIndex(Without(cs, i));
    var j := if k < i then k else k + 1;
    LargestOfRest(cs, i, k, j);
    j
  }

  /** The index k of the first largest element once cs[i] is removed, mapped back to an index of cs. */
  lemma LargestOfRest(cs: seq<Contour>, i: nat, k: nat, j: nat)
    requires i < |cs| && |cs| >= 2 && k == FirstLargestIndex(Without(cs, i))
    requires j == if k < i then k else k + 1
    ensures j < |cs| && j != i
    ensures forall l :: 0 <= l < |cs| && l != i ==> cs[l].area <= cs[j].area
    ensures forall l :: 0 <= l < j && l != i ==> cs[l].area < cs[j].area
  {
    var rest := Without(cs, i);
    assert cs[j] == rest[k];
    forall l | 0 <= l < |cs| && l != i
      ensures cs[l].area <= cs[j].area
      ensures l < j ==> cs[l].area < cs[j].area
    {
      var m := if l < i then l else l - 1;
      assert cs[l] == rest[m];
    }
  }

  /** The sequence with the element at index i removed. */
  function Without(cs: seq<Contour>, i: nat): (r: seq<Contour>)
    requires i < |cs|
    ensures |r| == |cs| - 1
    ensures forall l :: 0 <= l < |r| ==> r[l] == cs[if l < i then l else l + 1]
  {
    cs[..i] + cs[i + 1..]
  }

  /**
   * The steering for one colour's qualifying contours: aim at the midpoint
   * of the two largest, or turn away from a single lane.
   */
  function Steer(cs: seq<Contour>, speed: real, width: real): Command
    requires |cs| > 0 && width != 0.0
  {
    if |cs| >= 2 then
      var midpoint := (cs[FirstLargestIndex(cs)].col + cs[SecondLargestIndex(cs)].col) / 2.0;
      Command(speed, RemapRange(midpoint, 0.0, width, -1.0, 1.0, false))
    else if cs[0].col > width / 2.0 then Command(speed, -ONE_LANE_TURN_ANGLE)
    else Command(speed, ONE_LANE_TURN_ANGLE)
  }

  /** The lane decision of update(), for a driving car with an image. */
  function LaneCommand(s: Lanes, contoursOf: ColorRange -> seq<Contour>, width: real): Command
    requires width != 0.0
  {
    var secondary := Qualifying(contoursOf(s.secondary));
    if |secondary| > 0 then Steer(secondary, SLOW_SPEED, width)
    else
      var primary := Qualifying(contoursOf(s.primary));
      if |primary| == 0 then Command(SLOW_SPEED, 0.0)
      else Steer(primary, FAST_SPEED, width)
  }

  /** What update() does with the drive: stop, or set a speed and angle. */
  datatype Drive = Stop | Move(cmd: Command)

  /** update() after check_ar: stop until driving or without an image, else the lane decision. */
  function LaneDrive(s: Lanes, imageAvailable: bool, contoursOf: ColorRange -> seq<Contour>, width: real): Drive
    requires width != 0.0
  {
    if !s.driving || !imageAvailable then Stop else Move(LaneCommand(s, contoursOf, width))
  }

  /** Before marker 1 is seen the car is stopped and no speed or angle is set. */
  lemma NotDrivingStops(s: Lanes, imageAvailable: bool, contoursOf: ColorRange -> seq<Contour>, width: real)
    requires width != 0.0 && !s.driving
    ensures LaneDrive(s, imageAvailable, contoursOf, width) == Stop
  {
  }

  /** With no contour above the area threshold in either colour the car goes straight at the slow speed. */
  lemma NoLanesStraight(s: Lanes, contoursOf: ColorRange -> seq<Contour>, width: real)
    requires width != 0.0
    requires forall j :: 0 <= j < |contoursOf(s.secondary)| ==> contoursOf(s.secondary)[j].area <= MIN_CONTOUR_AREA
    requires forall j :: 0 <= j < |contoursOf(s.primary)| ==> contoursOf(s.primary)[j].area <= MIN_CONTOUR_AREA
    ensures LaneCommand(s, contoursOf, width) == Command(SLOW_SPEED, 0.0)
  {
    QualifyingEmpty(contoursOf(s.secondary));
    QualifyingEmpty(contoursOf(s.primary));
  }

  /** The fast speed is chosen exactly when no secondary contour qualifies and some primary contour does; otherwise the speed is slow. */
  lemma FastOnlyOnPrimary(s: Lanes, contoursOf: ColorRange -> seq<Contour>, width: real)
    requires width != 0.0
    ensures var speed := LaneCommand(s, contoursOf, width).speed;
      && (speed == FAST_SPEED <==>
            (forall j :: 0 <= j < |contoursOf(s.secondary)| ==> contoursOf(s.secondary)[j].area <= MIN_CONTOUR_AREA)
            && (exists j :: 0 <= j < |contoursOf(s.primary)| && contoursOf(s.primary)[j].area > MIN_CONTOUR_AREA))
      && (speed == FAST_SPEED || speed == SLOW_SPEED)
  {
    QualifyingEmpty(contoursOf(s.secondary));
    QualifyingEmpty(contoursOf(s.primary));
  }

  /** An index of greatest area with no earlier one as large is the one FirstLargestIndex picks. */
  lemma FirstLargestUnique(cs: seq<Contour>, i: nat)
    requires i < |cs|
    requires forall l :: 0 <= l < |cs| ==> cs[l].area <= cs[i].area
    requires forall l :: 0 <= l < i ==> cs[l].area < cs[i].area
    ensures i == FirstLargestIndex(cs)
  {
  }

  /** Likewise, the first index of greatest area among the others is the one SecondLargestIndex picks. */
  lemma SecondLargestUnique(cs: seq<Contour>, j: nat)
    requires |cs| >= 2 && j < |cs| && j != FirstLargestIndex(cs)
    requires forall l :: 0 <= l < |cs| && l != FirstLargestIndex(cs) ==> cs[l].area <= cs[j].area
    requires forall l :: 0 <= l < j && l != FirstLargestIndex(cs) ==> cs[l].area < cs[j].area
    ensures j == SecondLargestIndex(cs)
  {
  }

  /**
   * With two or more contours the car aims at the midpoint of the centres of
   * the first two contours of a stable sort by decreasing area: i is the
   * first contour of greatest area, j the first of greatest area among the
   * rest.
   */
  lemma SteerTwoLargest(cs: seq<Contour>, speed: real, width: real, i: nat, j: nat)
    requires |cs| >= 2 && width != 0.0
    requires i < |cs| && j < |cs| && i != j
    requires forall l :: 0 <= l < |cs| ==> cs[l].area <= cs[i].area
    requires forall l :: 0 <= l < i ==> cs[l].area < cs[i].area
    requires forall l :: 0 <= l < |cs| && l != i ==> cs[l].area <= cs[j].area
    requires forall l :: 0 <= l < j && l != i ==> cs[l].area < cs[j].area
    ensures Steer(cs, speed, width) == Command(speed, RemapRange((cs[i].col + cs[j].col) / 2.0, 0.0, width, -1.0, 1.0, false))
  {
    FirstLargestUnique(cs, i);
    SecondLargestUnique(cs, j);
  }

  /** With a single contour the car turns away from it by a fixed 0.75: left when it is right of centre, else right. */
  lemma SteerOneLane(cs: seq<Contour>, speed: real, width: real)
    requires |cs| == 1 && width != 0.0
    ensures Steer(cs, speed, width).angle == (if cs[0].col > width / 2.0 then -ONE_LANE_TURN_ANGLE else ONE_LANE_TURN_ANGLE)
  {
  }

  /** With every centre inside the image the lane angle is within [-1, 1]. */
  lemma SteerBounded(cs: seq<Contour>, speed: real, width: real)
    requires |cs| > 0 && width > 0.0
    requires forall j :: 0 <= j < |cs| ==> 0.0 <= cs[j].col <= width
    ensures -1.0 <= Steer(cs, speed, width).angle <= 1.0
  {
    if |cs| >= 2 {
      var i, j := FirstLargestIndex(cs), SecondLargestIndex(cs);
      RemapWithin((cs[i].col + cs[j].col) / 2.0, 0.0, width, -1.0, 1.0, false);
    }
  }

  /** The lane-follow globals, updated in place by start() and check_ar(). */
  class LaneFollower {
    var driving: bool
    var primary: ColorRange
    var secondary: ColorRange

    function State(): Lanes
      reads this
    {
      Lanes(driving, primary, secondary)
    }

    /** start(): not driving, orange primary, purple secondary. */
    method Start()
      modifies this
      ensures State() == INITIAL && Valid(State())
    {
      driving := false;
      primary := ORANGE;
      secondary := PURPLE;
    }

    /** check_ar(): markers is what the detector reports this frame, colours classified against orange and purple. */
    method CheckAr(markers: seq<Marker>)
      requires Valid(State())
      modifies this
      ensures State() == CheckedAr(old(State()), markers)
      ensures Valid(State())
    {
      CheckedArValid(State(), markers);
      var i := 0;
      while i < |markers|
        invariant 0 <= i <= |markers|
        invariant State() == CheckedAr(old(State()), markers[..i])
      {
        var marker := markers[i];
        if marker.id == AR_MARKER_ID {
          if !driving {
            driving := true;
          }
          if marker.color != primary.name {
            var temp := primary;
            primary := secondary;
            secondary := temp;
          }
        }
        assert markers[..i + 1][..i] == markers[..i];
        i := i + 1;
      }
      assert markers[..i] == markers;
    }

    /**
     * update(): markers for check_ar, imageAvailable whether the camera
     * returned a colour image, contoursOf the contours of each colour in
     * the cropped floor image, width the image width.
     */
    method Update(markers: seq<Marker>, imageAvailable: bool,
                  contoursOf: ColorRange -> seq<Contour>, width: real)
      returns (d: Drive)
      requires Valid(State()) && width != 0.0
      modifies this
      ensures State() == CheckedAr(old(State()), markers) && Valid(State())
      ensures d == LaneDrive(State(), imageAvailable, contoursOf, width)
    {
      CheckAr(markers);

      if !driving || !imageAvailable {
        // No AR marker seen yet, or no image: stop
        d := Stop;
      } else {
        d := Move(LaneCommand(State(), contoursOf, width));
      }
    }
  }
}
