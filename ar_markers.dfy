/*
 * AR-marker mission (labSolutions/lab5_solution.py).
 *
 * An integer stage advances by one each time the first detected marker has
 * an id different from the last recorded one.  Stage 1 (marker_id) and
 * stage 2 (orientation) follow a wall on the side the marker indicates;
 * stage 3 (color) follows a coloured line, falling back to the wall.  The
 * stage has no upper bound: a fourth new marker leaves every branch of the
 * dispatch and the car is commanded (0, 0).
 */
module ArMarkers {
  import opened RacecarUtils

  // Stage values (class Stage(enum.IntEnum))
  const NONE: int := 0
  const MARKER_ID: int := 1
  const ORIENTATION: int := 2
  const COLOR: int := 3

  const RED: ColorRange := ColorRange(Hsv(170, 50, 50), Hsv(10, 255, 255), "red")
  const BLUE: ColorRange := ColorRange(Hsv(100, 150, 150), Hsv(120, 255, 255), "blue")
  const GREEN: ColorRange := ColorRange(Hsv(40, 50, 50), Hsv(80, 255, 255), "green")

  // Wall follow
  const SIDE_ANGLE: int := 90
  const SPREAD_ANGLE: int := 45
  const WINDOW_ANGLE: int := 5
  const WALL_DISTANCE: real := 35.0
  const MAX_DIF: real := 10.0
  const DISTANCE_COEFFICIENT: real := 0.5

  // Line follow
  const MIN_CONTOUR_AREA: real := 30.0

  const EXPLORE_SPEED: real := 0.4
  const WALL_FOLLOW_SPEED: real := 0.5
  const LINE_FOLLOW_SPEED: real := 0.7

  /**
   * The mission globals: the stage, the id of the most recent marker, the
   * wall side (-1 left, 1 right, 0 before any marker) and the line colour.
   */
  datatype Mission = Mission(stage: int, markerId: int, direction: int, color: Option<ColorRange>)

  /** The state start() sets up (the same values the globals start with). */
  const INITIAL: Mission := Mission(NONE, -1, 0, None)

  /** What holds of every state reachable from start(). */
  predicate Valid(m: Mission)
  {
    && m.stage >= NONE
    && (m.stage == NONE ==> m.markerId == -1 && m.direction == 0)
    && (m.stage >= MARKER_ID ==> m.direction == 1 || m.direction == -1)
    && (m.stage < COLOR <==> m.color == None)
  }

  /** change_stage: the state after new marker mk has been seen. */
  function Changed(m: Mission, mk: Marker): Mission
  {
    var stage := m.stage + 1;
    var next := m.(stage := stage, markerId := mk.id);
    if stage == MARKER_ID then
      next.(direction := if mk.id == 1 then 1 else -1)
    else if stage == ORIENTATION then
      next.(direction := if mk.orientation == Right then 1 else -1)
    else if stage == COLOR then
      next.(color := Some(if mk.color == "red" then RED else BLUE))
    else
      next
  }

  /** The test at the top of update(): change stage only on a new first marker. */
  function Observed(m: Mission, markers: seq<Marker>): Mission
  {
    if |markers| > 0 && markers[0].id != m.markerId then Changed(m, markers[0]) else m
  }

  /** The mission state after a run of frames, each with its detected markers. */
  function Run(m: Mission, frames: seq<seq<Marker>>): Mission
    decreases |frames|
  {
    if |frames| == 0 then m else Run(Observed(m, frames[0]), frames[1..])
  }

  /** How one stage change moves the state: stage + 1, the marker recorded, and direction or colour set by the stage entered. */
  lemma ChangedEffect(m: Mission, mk: Marker)
    ensures var n := Changed(m, mk);
      && n.stage == m.stage + 1 && n.markerId == mk.id
      && (n.stage == MARKER_ID ==> (n.direction == 1 <==> mk.id == 1) && (n.direction == 1 || n.direction == -1))
      && (n.stage == ORIENTATION ==> (n.direction == 1 <==> mk.orientation == Right) && (n.direction == 1 || n.direction == -1))
      && (n.stage != MARKER_ID && n.stage != ORIENTATION ==> n.direction == m.direction)
      && (n.stage == COLOR ==> n.color == Some(if mk.color == "red" then RED else BLUE))
      && (n.stage != COLOR ==> n.color == m.color)
  {
  }

  /** A stage change happens exactly when a marker is seen whose id differs from the recorded one; otherwise nothing changes. */
  lemma ObservedChangesOnlyOnNewId(m: Mission, markers: seq<Marker>)
    ensures Observed(m, markers).stage == m.stage + 1 <==> |markers| > 0 && markers[0].id != m.markerId
    ensures !(|markers| > 0 && markers[0].id != m.markerId) ==> Observed(m, markers) == m
  {
  }

  /** Seeing the same markers again changes nothing. */
  lemma ObservedIdempotent(m: Mission, markers: seq<Marker>)
    ensures Observed(Observed(m, markers), markers) == Observed(m, markers)
  {
  }

  /** The reachable-state invariant survives every frame. */
  lemma ObservedKeepsValid(m: Mission, markers: seq<Marker>)
    requires Valid(m)
    ensures Valid(Observed(m, markers))
  {
  }

  lemma InitialValid()
    ensures Valid(INITIAL)
  {
  }

  /** Over any run the stage never decreases and rises by at most one per frame. */
  lemma {:induction false} RunStageBounds(m: Mission, frames: seq<seq<Marker>>)
    ensures m.stage <= Run(m, frames).stage <= m.stage + |frames|
    decreases |frames|
  {
    if |frames| > 0 {
      RunStageBounds(Observed(m, frames[0]), frames[1..]);
    }
  }

  /** Frames whose first markers all carry the same id cause at most one stage change in total. */
  lemma {:induction false} RunRepeatedId(m: Mission, frames: seq<seq<Marker>>, id: int)
    requires forall i :: 0 <= i < |frames| ==> |frames[i]| > 0 && frames[i][0].id == id
    ensures Run(m, frames).stage == m.stage + (if |frames| > 0 && id != m.markerId then 1 else 0)
    decreases |frames|
  {
    if |frames| > 0 {
      var n := Observed(m, frames[0]);
      assert n.markerId == id;
      RunRepeatedId(n, frames[1..], id);
      if id != m.markerId {
        assert n.stage == m.stage + 1;
      }
    }
  }

  /** Frames whose first markers are each new (different from the one before) raise the stage once per frame. */
  lemma {:induction false} RunNovelIds(m: Mission, frames: seq<seq<Marker>>)
    requires forall i :: 0 <= i < |frames| ==> |frames[i]| > 0
    requires |frames| > 0 ==> frames[0][0].id != m.markerId
    requires forall i :: 0 < i < |frames| ==> frames[i][0].id != frames[i - 1][0].id
    ensures Run(m, frames).stage == m.stage + |frames|
    ensures |frames| > 0 ==> Run(m, frames).markerId == frames[|frames| - 1][0].id
    decreases |frames|
  {
    if |frames| > 0 {
      var n := Observed(m, frames[0]);
      var rest := frames[1..];
      assert forall i :: 0 <= i < |rest| ==> rest[i] == frames[i + 1];
      RunNovelIds(n, rest);
    }
  }

  /**
   * From start(), three frames with new markers a, b, c reach the colour
   * stage: the direction comes from b's orientation and the colour from c.
   */
  lemma ThreeMarkersReachColor(a: Marker, b: Marker, c: Marker)
    requires a.id != -1 && b.id != a.id && c.id != b.id
    ensures var m := Run(INITIAL, [[a], [b], [c]]);
      && m.stage == COLOR && m.markerId == c.id
      && m.direction == (if b.orientation == Right then 1 else -1)
      && m.color == Some(if c.color == "red" then RED else BLUE)
  {
    var m1 := Observed(INITIAL, [a]);
    var m2 := Observed(m1, [b]);
    var m3 := Observed(m2, [c]);
    assert Run(m3, []) == m3;
    assert Run(m2, [[c]]) == m3 by { assert [[c]][1..] == []; }
    assert Run(m1, [[b], [c]]) == m3 by { assert [[b], [c]][1..] == [[c]]; }
    assert Run(INITIAL, [[a], [b], [c]]) == m3 by { assert [[a], [b], [c]][1..] == [[b], [c]]; }
  }

  /**
   * wall_follow on three averaged LIDAR samples: an alignment term from
   * front - back and a distance term from WALL_DISTANCE - side, each
   * saturated to [-1, 1], combined, clamped and signed by the wall side.
   */
  function WallSteer(direction: int, side: real, front: real, back: real): real
  {
    var difComponent := RemapRange(front - back, -MAX_DIF, MAX_DIF, -1.0, 1.0, true);
    var distanceComponent := RemapRange(WALL_DISTANCE - side, -MAX_DIF, MAX_DIF, 1.0, -1.0, true);
    var angle := difComponent + distanceComponent * DISTANCE_COEFFICIENT;
    (direction as real) * Clamp(angle, -1.0, 1.0)
  }

  /** wall_follow: sample the scan at the side, side-front and side-back windows of the direction's wall. */
  function WallFollow(direction: int, lidarAverage: (int, int) -> real): real
  {
    var side := lidarAverage(SIDE_ANGLE * direction, WINDOW_ANGLE);
    var front := lidarAverage((SIDE_ANGLE - SPREAD_ANGLE) * direction, WINDOW_ANGLE);
    var back := lidarAverage((SIDE_ANGLE + SPREAD_ANGLE) * direction, WINDOW_ANGLE);
    WallSteer(direction, side, front, back)
  }

  /** For a direction in {-1, 0, 1} the steering angle is within [-1, 1]. */
  lemma WallSteerBounded(direction: int, side: real, front: real, back: real)
    requires -1 <= direction <= 1
    ensures -1.0 <= WallSteer(direction, side, front, back) <= 1.0
  {
    var difComponent := RemapRange(front - back, -MAX_DIF, MAX_DIF, -1.0, 1.0, true);
    var distanceComponent := RemapRange(WALL_DISTANCE - side, -MAX_DIF, MAX_DIF, 1.0, -1.0, true);
    var c := Clamp(difComponent + distanceComponent * DISTANCE_COEFFICIENT, -1.0, 1.0);
    assert direction == -1 || direction == 0 || direction == 1;
    assert (direction as real) * c == if direction == -1 then -c else if direction == 0 then 0.0 else c;
  }

  /** Parallel to the wall at the target distance, the car goes straight. */
  lemma WallSteerAligned(direction: int, side: real, front: real, back: real)
    requires front == back && side == WALL_DISTANCE
    ensures WallSteer(direction, side, front, back) == 0.0
  {
  }

  /**
   * Parallel to the wall, the car turns away from it when nearer than the
   * target distance and toward it when farther (a positive angle is toward
   * the side direction points to).
   */
  lemma WallSteerCorrectsDistance(direction: int, side: real, front: real, back: real)
    requires direction == 1 || direction == -1
    requires front == back
    ensures side < WALL_DISTANCE ==> (direction as real) * WallSteer(direction, side, front, back) < 0.0
    ensures side > WALL_DISTANCE ==> (direction as real) * WallSteer(direction, side, front, back) > 0.0
  {
    var distanceComponent := RemapRange(WALL_DISTANCE - side, -MAX_DIF, MAX_DIF, 1.0, -1.0, true);
    assert RemapRange(front - back, -MAX_DIF, MAX_DIF, -1.0, 1.0, true) == 0.0;
    assert (direction as real) * (direction as real) == 1.0;
  }

  /**
   * line_follow: for the first colour, in priority order, whose largest
   * contour is at least MIN_CONTOUR_AREA, the remapped column of that
   * contour's centre; none if no colour qualifies.
   */
  function LineFollow(colors: seq<ColorRange>, contoursOf: ColorRange -> seq<Contour>, width: real): Option<real>
    requires width != 0.0
  {
    if |colors| == 0 then None
    else match GetLargestContour(contoursOf(colors[0]), MIN_CONTOUR_AREA)
      case Some(contour) => Some(RemapRange(contour.col, 0.0, width, -1.0, 1.0, false))
      case None => LineFollow(colors[1..], contoursOf, width)
  }

  /** line_follow gives up exactly when no colour has a qualifying contour. */
  lemma {:induction false} LineFollowNone(colors: seq<ColorRange>, contoursOf: ColorRange -> seq<Contour>, width: real)
    requires width != 0.0
    ensures LineFollow(colors, contoursOf, width).None?
        <==> forall k :: 0 <= k < |colors| ==> GetLargestContour(contoursOf(colors[k]), MIN_CONTOUR_AREA).None?
  {
    if |colors| > 0 {
      LineFollowNone(colors[1..], contoursOf, width);
      assert forall k :: 1 <= k < |colors| ==> colors[k] == colors[1..][k - 1];
    }
  }

  /** The first qualifying colour decides the angle; later colours are ignored. */
  lemma {:induction false} LineFollowFirst(colors: seq<ColorRange>, contoursOf: ColorRange -> seq<Contour>,
                                           width: real, k: nat)
    requires width != 0.0
    requires k < |colors|
    requires GetLargestContour(contoursOf(colors[k]), MIN_CONTOUR_AREA).Some?
    requires forall j :: 0 <= j < k ==> GetLargestContour(contoursOf(colors[j]), MIN_CONTOUR_AREA).None?
    ensures LineFollow(colors, contoursOf, width)
         == Some(RemapRange(GetLargestContour(contoursOf(colors[k]), MIN_CONTOUR_AREA).value.col,
                            0.0, width, -1.0, 1.0, false))
  {
    if k > 0 {
      assert forall j :: 0 <= j < k - 1 ==> colors[1..][j] == colors[j + 1];
      LineFollowFirst(colors[1..], contoursOf, width, k - 1);
    }
  }

  /** With every contour centre inside the image, the line angle is within [-1, 1]. */
  lemma {:induction false} LineFollowBounded(colors: seq<ColorRange>, contoursOf: ColorRange -> seq<Contour>, width: real)
    requires width > 0.0
    requires forall k, j :: 0 <= k < |colors| && 0 <= j < |contoursOf(colors[k])|
               ==> 0.0 <= contoursOf(colors[k])[j].col <= width
    ensures LineFollow(colors, contoursOf, width).Some?
        ==> -1.0 <= LineFollow(colors, contoursOf, width).value <= 1.0
  {
    if |colors| > 0 {
      var g := GetLargestContour(contoursOf(colors[0]), MIN_CONTOUR_AREA);
      if g.Some? {
        var cs := contoursOf(colors[0]);
        var j :| 0 <= j < |cs| && cs[j] == g.value;
        RemapWithin(g.value.col, 0.0, width, -1.0, 1.0, false);
      } else {
        assert forall k :: 0 <= k < |colors| - 1 ==> colors[1..][k] == colors[k + 1];
        LineFollowBounded(colors[1..], contoursOf, width);
      }
    }
  }

  /**
   * The (speed, angle) command update() issues for a stage: explore before
   * the first marker, follow the wall in stages 1 and 2, follow the line
   * (or else the wall) in stage 3, and (0, 0) for any other stage value.
   */
  function StageCommand(m: Mission, lidarAverage: (int, int) -> real,
                        contoursOf: ColorRange -> seq<Contour>, width: real): Command
    requires width != 0.0
    requires m.stage == COLOR ==> m.color.Some?
  {
    if m.stage == NONE then Command(EXPLORE_SPEED, 0.0)
    else if m.stage == MARKER_ID || m.stage == ORIENTATION then
      Command(WALL_FOLLOW_SPEED, WallFollow(m.direction, lidarAverage))
    else if m.stage == COLOR then
      match LineFollow([m.color.value, GREEN], contoursOf, width)
      case Some(angle) => Command(LINE_FOLLOW_SPEED, angle)
      case None => Command(LINE_FOLLOW_SPEED, WallFollow(m.direction, lidarAverage))
    else Command(0.0, 0.0)
  }

  /** Every reachable stage gets a command within [-1, 1] x [-1, 1] when contour centres lie inside the image. */
  lemma StageCommandBounded(m: Mission, lidarAverage: (int, int) -> real,
                            contoursOf: ColorRange -> seq<Contour>, width: real)
    requires Valid(m) && width > 0.0
    requires forall c, j :: 0 <= j < |contoursOf(c)| ==> 0.0 <= contoursOf(c)[j].col <= width
    ensures var cmd := StageCommand(m, lidarAverage, contoursOf, width);
            -1.0 <= cmd.speed <= 1.0 && -1.0 <= cmd.angle <= 1.0
  {
    var dir := m.direction;
    var side := lidarAverage(SIDE_ANGLE * dir, WINDOW_ANGLE);
    var front := lidarAverage((SIDE_ANGLE - SPREAD_ANGLE) * dir, WINDOW_ANGLE);
    var back := lidarAverage((SIDE_ANGLE + SPREAD_ANGLE) * dir, WINDOW_ANGLE);
    WallSteerBounded(dir, side, front, back);
    if m.stage == COLOR {
      LineFollowBounded([m.color.value, GREEN], contoursOf, width);
    }
  }

  /** A fourth new marker after the colour stage leaves every branch of the dispatch: the car gets (0, 0). */
  lemma FourthMarkerStops(m: Mission, markers: seq<Marker>, lidarAverage: (int, int) -> real,
                          contoursOf: ColorRange -> seq<Contour>, width: real)
    requires Valid(m) && m.stage == COLOR && width != 0.0
    requires |markers| > 0 && markers[0].id != m.markerId
    ensures Observed(m, markers).stage == 4
    ensures StageCommand(Observed(m, markers), lidarAverage, contoursOf, width) == Command(0.0, 0.0)
  {
  }

  /** The mission globals of the lab, updated in place by start() and update(). */
  class MarkerMission {
    var stage: int
    var markerId: int
    var direction: int
    var color: Option<ColorRange>

    function State(): Mission
      reads this
    {
      Mission(stage, markerId, direction, color)
    }

    /** start(): back to stage none with no marker, no direction and no colour. */
    method Start()
      modifies this
      ensures State() == INITIAL && Valid(State())
    {
      stage := NONE;
      markerId := -1;
      direction := 0;
      color := None;
    }

    /** change_stage(new_marker): move to the next stage and set what it selects. */
    method ChangeStage(newMarker: Marker)
      modifies this
      ensures State() == Changed(old(State()), newMarker)
    {
      stage := stage + 1;
      markerId := newMarker.id;

      if stage == MARKER_ID {
        direction := if markerId == 1 then 1 else -1;
      } else if stage == ORIENTATION {
        direction := if newMarker.orientation == Right then 1 else -1;
      } else if stage == COLOR {
        color := Some(if newMarker.color == "red" then RED else BLUE);
      }
    }

    /**
     * update(): markers is what the detector sees this frame, lidarAverage
     * the scan's windowed average distance, contoursOf the contours of each
     * colour in the cropped floor image, width the image width.
     */
    method Update(markers: seq<Marker>, lidarAverage: (int, int) -> real,
                  contoursOf: ColorRange -> seq<Contour>, width: real)
      returns (cmd: Command)
      requires Valid(State()) && width != 0.0
      modifies this
      ensures State() == Observed(old(State()), markers) && Valid(State())
      ensures cmd == StageCommand(State(), lidarAverage, contoursOf, width)
    {
      ObservedKeepsValid(State(), markers);
      if |markers| > 0 && markers[0].id != markerId {
        ChangeStage(markers[0]);
      }

      var speed, angle := 0.0, 0.0;
      if stage == NONE {
        speed, angle := EXPLORE_SPEED, 0.0;
      } else if stage == MARKER_ID || stage == ORIENTATION {
        speed := WALL_FOLLOW_SPEED;
        angle := WallFollow(direction, lidarAverage);
      } else if stage == COLOR {
        speed := LINE_FOLLOW_SPEED;
        var line := LineFollow([color.value, GREEN], contoursOf, width);
        angle := if line.Some? then line.value else WallFollow(direction, lidarAverage);
      }
      cmd := Command(speed, angle);
    }
  }
}
