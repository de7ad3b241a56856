/*
 * Depth-camera safety stop (labSolutions/lab3a_solution.py).
 *
 * Every frame the controller turns two successive forward distances into a
 * smoothed speed estimate, derives a stop distance (quadratic in that
 * estimate, clamped to [20, 80] cm) and a slow distance 1.5 times larger, and
 * overrides the driver's trigger speed when an obstacle is within them.
 */
module SafetyStop {
  import opened RacecarUtils

  const MIN_STOP_DISTANCE: real := 20.0
  const MAX_STOP_DISTANCE: real := 80.0
  const ALPHA: real := 0.2
  const STOP_DISTANCE_SCALE: real := 40.0 / 10000.0
  const SLOW_DISTANCE_RATIO: real := 1.5

  /**
   * The speed estimate after a frame in which the distance went from
   * prevDistance to distance in dt seconds: the old estimate moved a fraction
   * ALPHA of the way toward the speed measured over this frame.
   */
  function NextSpeed(curSpeed: real, prevDistance: real, distance: real, dt: real): (r: real)
    requires dt > 0.0
    ensures FrameSpeed(prevDistance, distance, dt) - r == (1.0 - ALPHA) * (FrameSpeed(prevDistance, distance, dt) - curSpeed)
  {
    curSpeed + ALPHA * (FrameSpeed(prevDistance, distance, dt) - curSpeed)
  }

  /** The speed measured over one frame; positive when closing on the obstacle. */
  function FrameSpeed(prevDistance: real, distance: real, dt: real): real
    requires dt > 0.0
  {
    (prevDistance - distance) / dt
  }

  /** The new estimate lies between the old estimate and the frame speed. */
  lemma NextSpeedBetween(curSpeed: real, prevDistance: real, distance: real, dt: real)
    requires dt > 0.0
    ensures Min(curSpeed, FrameSpeed(prevDistance, distance, dt))
         <= NextSpeed(curSpeed, prevDistance, distance, dt)
         <= Max(curSpeed, FrameSpeed(prevDistance, distance, dt))
  {
  }

  /** With no change in distance the estimate decays to 0.8 of its value. */
  lemma NoMotionDecays(curSpeed: real, distance: real, dt: real)
    requires dt > 0.0
    ensures NextSpeed(curSpeed, distance, distance, dt) == 0.8 * curSpeed
  {
  }

  /** The stop distance for a speed estimate: 20 cm plus a term in speed * |speed|, clamped to [20, 80]. */
  function StopDistance(curSpeed: real): (r: real)
    ensures MIN_STOP_DISTANCE <= r <= MAX_STOP_DISTANCE
  {
    Clamp(MIN_STOP_DISTANCE + SignedSquare(curSpeed) * STOP_DISTANCE_SCALE,
          MIN_STOP_DISTANCE, MAX_STOP_DISTANCE)
  }

  /** speed * abs(speed) */
  function SignedSquare(s: real): real
  {
    s * (if s < 0.0 then -s else s)
  }

  lemma SignedSquareMonotone(s1: real, s2: real)
    requires s1 <= s2
    ensures SignedSquare(s1) <= SignedSquare(s2)
  {
    if 0.0 <= s1 {
      MulNonNegative(s2 - s1, s2 + s1);
      assert s2 * s2 - s1 * s1 == (s2 - s1) * (s2 + s1);
    } else if s2 <= 0.0 {
      MulNonNegative(s2 - s1, -s2 - s1);
      assert s1 * s1 - s2 * s2 == (s2 - s1) * (-s2 - s1);
    } else {
      MulNonNegative(-s1, -s1);
      assert SignedSquare(s1) == -((-s1) * (-s1));
      MulNonNegative(s2, s2);
    }
  }

  /** The stop distance never shrinks as the speed estimate grows. */
  lemma StopDistanceMonotone(s1: real, s2: real)
    requires s1 <= s2
    ensures StopDistance(s1) <= StopDistance(s2)
  {
    SignedSquareMonotone(s1, s2);
    ClampMonotone(MIN_STOP_DISTANCE + SignedSquare(s1) * STOP_DISTANCE_SCALE,
                  MIN_STOP_DISTANCE + SignedSquare(s2) * STOP_DISTANCE_SCALE,
                  MIN_STOP_DISTANCE, MAX_STOP_DISTANCE);
  }

  /** At rest or in reverse the stop distance is the minimum, 20 cm. */
  lemma StopDistanceAtRest(s: real)
    requires s <= 0.0
    ensures StopDistance(s) == MIN_STOP_DISTANCE
  {
    MulNonNegative(-s, -s);
    assert SignedSquare(s) == -((-s) * (-s));
  }

  /** The slow distance: a fixed ratio 1.5 beyond the stop distance. */
  function SlowDistance(stopDistance: real): (r: real)
    requires stopDistance > 0.0
    ensures r > stopDistance
  {
    stopDistance * SLOW_DISTANCE_RATIO
  }

  /** The speed the slow zone allows: 0 at the stop distance, rising to 0.5 at the slow distance. */
  function SlowSpeed(distance: real, stopDistance: real, slowDistance: real): real
    requires stopDistance != slowDistance
  {
    RemapRange(distance, stopDistance, slowDistance, 0.0, 0.5, false)
  }

  /** The reverse speed the brake zone commands, from -4 at distance 0 toward -0.2 at the stop distance, limited to [-1, -0.2]. */
  function BrakeSpeed(distance: real, stopDistance: real): (r: real)
    requires stopDistance != 0.0
    ensures -1.0 <= r <= -0.2
  {
    Clamp(RemapRange(distance, 0.0, stopDistance, -4.0, -0.2, true), -1.0, -0.2)
  }

  /**
   * The speed sent to the drive, given the requested trigger speed, whether
   * RB (the override) is held, the updated speed estimate and the current
   * distance: the two zone checks run one after the other, as in the source.
   */
  function SafeSpeed(requested: real, rbDown: bool, curSpeed: real, distance: real): real
  {
    var stop := StopDistance(curSpeed);
    var slow := SlowDistance(stop);
    if !rbDown && curSpeed > 0.0 then
      var afterSlow := if stop < distance < slow then Min(requested, SlowSpeed(distance, stop, slow))
                       else requested;
      if 0.0 < distance < stop then BrakeSpeed(distance, stop) else afterSlow
    else requested
  }

  /** RB held, or an estimate that is not moving forward, leaves the request untouched. */
  lemma OverrideOrNotForward(requested: real, rbDown: bool, curSpeed: real, distance: real)
    requires rbDown || curSpeed <= 0.0
    ensures SafeSpeed(requested, rbDown, curSpeed, distance) == requested
  {
  }

  /** In the slow zone the speed is the request capped by the graduated limit, so below 0.5 and never above the request. */
  lemma SlowZone(requested: real, curSpeed: real, distance: real)
    requires curSpeed > 0.0
    requires StopDistance(curSpeed) < distance < SlowDistance(StopDistance(curSpeed))
    ensures var stop := StopDistance(curSpeed);
            SafeSpeed(requested, false, curSpeed, distance)
              == Min(requested, SlowSpeed(distance, stop, SlowDistance(stop)))
    ensures SafeSpeed(requested, false, curSpeed, distance) <= requested
    ensures SafeSpeed(requested, false, curSpeed, distance) < 0.5
    ensures requested > 0.0 ==> SafeSpeed(requested, false, curSpeed, distance) > 0.0
  {
    var stop := StopDistance(curSpeed);
    var slow := SlowDistance(stop);
    var x := SlowSpeed(distance, stop, slow);
    assert 0.0 < x < 0.5 by {
      var t := (distance - stop) / (slow - stop);
      assert t * (slow - stop) == distance - stop;
      FractionWithin(distance, stop, slow);
      assert t != 0.0 && t != 1.0;
      assert x == 0.5 * t;
    }
  }

  /** In the brake zone the car reverses at a speed in [-1, -0.2] whatever was requested. */
  lemma BrakeZone(requested: real, curSpeed: real, distance: real)
    requires curSpeed > 0.0
    requires 0.0 < distance < StopDistance(curSpeed)
    ensures SafeSpeed(requested, false, curSpeed, distance) == BrakeSpeed(distance, StopDistance(curSpeed))
    ensures -1.0 <= SafeSpeed(requested, false, curSpeed, distance) <= -0.2
  {
  }

  /** The closer the obstacle inside the stop distance, the harder the reverse. */
  lemma BrakeHarderWhenCloser(d1: real, d2: real, stopDistance: real)
    requires 0.0 < d1 <= d2 < stopDistance
    ensures BrakeSpeed(d1, stopDistance) <= BrakeSpeed(d2, stopDistance)
  {
    RemapMonotone(d1, d2, 0.0, stopDistance, -4.0, -0.2, true);
    ClampMonotone(RemapRange(d1, 0.0, stopDistance, -4.0, -0.2, true),
                  RemapRange(d2, 0.0, stopDistance, -4.0, -0.2, true), -1.0, -0.2);
  }

  /** No reading (0), a reading exactly at the stop distance, or one at or beyond the slow distance passes the request through. */
  lemma OutsideZones(requested: real, rbDown: bool, curSpeed: real, distance: real)
    requires var stop := StopDistance(curSpeed);
             distance <= 0.0 || distance == stop || distance >= SlowDistance(stop)
    ensures SafeSpeed(requested, rbDown, curSpeed, distance) == requested
  {
  }

  /**
   * The module state of the controller: the speed estimate in cm/s and the
   * distance seen on the previous frame.
   */
  class SafetyStopController {
    var curSpeed: real
    var prevDistance: real

    /** start(): the estimate restarts at 0, the previous distance is the centre distance of the depth image. */
    method Start(centerDistance: real)
      modifies this
      ensures curSpeed == 0.0 && prevDistance == centerDistance
    {
      curSpeed := 0.0;
      prevDistance := centerDistance;
    }

    /**
     * update(): rt and lt are the trigger positions, rbDown the override
     * button, joystickX the steering request, distance the closest distance
     * in front of the car and dt the frame time.
     */
    method Update(rt: real, lt: real, rbDown: bool, joystickX: real, distance: real, dt: real)
      returns (cmd: Command)
      requires dt > 0.0
      modifies this
      ensures curSpeed == NextSpeed(old(curSpeed), old(prevDistance), distance, dt)
      ensures prevDistance == distance
      ensures cmd == Command(SafeSpeed(rt - lt, rbDown, curSpeed, distance), joystickX)
    {
      var speed := rt - lt;

      var frameSpeed := (prevDistance - distance) / dt;
      curSpeed := curSpeed + ALPHA * (frameSpeed - curSpeed);
      prevDistance := distance;

      var stopDistance := Clamp(MIN_STOP_DISTANCE + SignedSquare(curSpeed) * STOP_DISTANCE_SCALE,
                                MIN_STOP_DISTANCE, MAX_STOP_DISTANCE);
      var slowDistance := stopDistance * SLOW_DISTANCE_RATIO;

      if !rbDown && curSpeed > 0.0 {
        if stopDistance < distance < slowDistance {
          speed := Min(speed, RemapRange(distance, stopDistance, slowDistance, 0.0, 0.5, false));
        }
        if 0.0 < distance < stopDistance {
          speed := RemapRange(distance, 0.0, stopDistance, -4.0, -0.2, true);
          speed := Clamp(speed, -1.0, -0.2);
        }
      }

      cmd := Command(speed, joystickX);
    }
  }
}
