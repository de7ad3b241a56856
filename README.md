# RACECAR lab controllers in Dafny

This project models the per-frame control logic of three RACECAR lab
solutions and proves properties of it.

- **Safety stop** (`labSolutions/lab3a_solution.py`, `safety_stop.dfy`).
  The controller keeps a smoothed forward-speed estimate from successive
  depth readings. From that estimate it derives a stop distance, quadratic
  in the speed and clamped to [20, 80] cm, and a slow distance 1.5 times
  larger. Inside the slow zone it caps the driver's trigger speed; inside
  the stop zone it reverses. Holding RB overrides both zones.
- **AR-marker mission** (`labSolutions/lab5_solution.py`, `ar_markers.dfy`).
  An integer stage advances each time the first detected marker has a new
  id. Stages 1 and 2 follow a wall on the side the marker chose; stage 3
  follows a coloured line and falls back to the wall. Any later stage gets
  (0, 0).
- **Lane following** (`labSolutions/lane_following_solution.py`,
  `lane_following.dfy`). The car waits for AR marker 1, whose colour becomes
  the primary (fast) lane colour. Each frame it steers by the qualifying
  contours of the secondary colour, or failing those the primary colour. It
  aims at the midpoint of the two largest contours, or turns away from a
  single lane.
- **Shared helpers** (`racecar_utils.dfy`). The records the vision code
  produces and the helpers the labs call: `clamp`, `remap_range` and
  `get_largest_contour`.

Each lab's module globals are a `class` whose fields its methods update in
place:

- `start()` is a `Start` method;
- `update()` is an `Update` method;
- `change_stage` and `check_ar` are methods too.

Each method is proved against a pure Dafny function of the old state and
the inputs. The lemmas are stated about those functions.

The library `racecar_utils` is not part of this model's sources. Its
helpers are modelled from their documented behaviour:

- `clamp(v, lo, hi)` returns `lo` below the interval, `hi` above it, else
  `v`.
- `remap_range` is `outMin + (outMax - outMin) * ((v - inMin) / (inMax - inMin))`.
  With saturation, the result is clamped to the interval spanned by `outMin`
  and `outMax` in whichever order they come. (The wall-distance term maps
  onto [1, -1].)
- `get_largest_contour(cs, minArea)` gives none for an empty list. Otherwise
  it takes the first contour of greatest area (as Python's `max` does) and
  gives none if that contour's area is below `minArea`.

Inputs that come from hardware or image processing become parameters:

- trigger and button states, and the joystick's x position;
- the closest forward distance and the frame time;
- the detected markers, as (id, orientation, classified colour);
- whether a colour image was returned;
- a function from a colour to the contours found for it in the cropped
  image, each as (area, centre column);
- a function giving the LIDAR average distance at an angle and window;
- the image width.

## Model

| member | source | states |
|---|---|---|
| RacecarUtils.Clamp | labSolutions/lab3a_solution.py:110-114 | result within [lo, hi] when lo <= hi; the value itself inside; lo below; hi above |
| RacecarUtils.ClampMonotone | labSolutions/lab3a_solution.py:110-114 | clamping to a fixed interval preserves order |
| RacecarUtils.RemapRange | labSolutions/lab3a_solution.py:130 | with saturate the result lies in the interval spanned by outMin and outMax, in either order |
| RacecarUtils.Lerp | labSolutions/lab5_solution.py:206-208 | with saturate the interpolated point lies between the two output ends, whichever is larger |
| RacecarUtils.RemapLinear | labSolutions/lab3a_solution.py:123 | unsaturated, the result lies on the line through (inMin, outMin) and (inMax, outMax) |
| RacecarUtils.RemapWithin | labSolutions/lab5_solution.py:234 | a value inside the input interval lands inside the output interval |
| RacecarUtils.FractionMonotone | labSolutions/lab3a_solution.py:130 | the relative position in an increasing input interval grows with the value |
| RacecarUtils.LerpMonotone | labSolutions/lab3a_solution.py:130 | interpolation toward a larger end, saturated or not, is non-decreasing |
| RacecarUtils.RemapMonotone | labSolutions/lab3a_solution.py:130 | remapping onto an increasing output interval is non-decreasing, saturated or not |
| RacecarUtils.FirstLargestIndex | labSolutions/lab5_solution.py:229 | an index of greatest area such that every earlier contour is strictly smaller (Python max) |
| RacecarUtils.GetLargestContour | labSolutions/lab5_solution.py:229 | none exactly when every area is below minArea; otherwise a contour of greatest area, at least minArea, and the first such in the list (every earlier one strictly smaller) |
| SafetyStop.FrameSpeed | labSolutions/lab3a_solution.py:105 | the speed over one frame, (previous distance - distance) / dt; its use in the estimate is stated by NextSpeed and NextSpeedBetween |
| SafetyStop.NextSpeed | labSolutions/lab3a_solution.py:105-106 | the estimate's gap to the frame speed shrinks to 0.8 of the old gap |
| SafetyStop.NextSpeedBetween | labSolutions/lab3a_solution.py:105-106 | the new estimate lies between the old estimate and the frame speed |
| SafetyStop.NoMotionDecays | labSolutions/lab3a_solution.py:105-106 | with no change in distance the estimate becomes 0.8 of its value |
| SafetyStop.StopDistance | labSolutions/lab3a_solution.py:110-114 | the stop distance is within [20, 80] cm |
| SafetyStop.SignedSquareMonotone | labSolutions/lab3a_solution.py:111 | speed * abs(speed) is non-decreasing in speed |
| SafetyStop.StopDistanceMonotone | labSolutions/lab3a_solution.py:110-114 | a faster estimate never gives a shorter stop distance |
| SafetyStop.StopDistanceAtRest | labSolutions/lab3a_solution.py:110-114 | at rest or in reverse the stop distance is the minimum 20 cm |
| SafetyStop.SlowDistance | labSolutions/lab3a_solution.py:115 | the slow distance lies beyond the stop distance |
| SafetyStop.BrakeSpeed | labSolutions/lab3a_solution.py:130-131 | the braking command is a reverse speed within [-1, -0.2] |
| SafetyStop.SafeSpeed | labSolutions/lab3a_solution.py:117-131 | the speed sent to the drive after the two zone checks; its cases are stated by OverrideOrNotForward, SlowZone, BrakeZone and OutsideZones |
| SafetyStop.SlowSpeed | labSolutions/lab3a_solution.py:123 | the graduated slow-zone limit, remapping [stop, slow] onto [0, 0.5]; stated in the slow zone by SlowZone |
| SafetyStop.OverrideOrNotForward | labSolutions/lab3a_solution.py:117 | with RB held, or an estimate that is not moving forward, the requested speed passes through |
| SafetyStop.SlowZone | labSolutions/lab3a_solution.py:120-124 | in the slow zone the speed is min(request, graduated limit): never above the request, below 0.5, positive for a positive request |
| SafetyStop.BrakeZone | labSolutions/lab3a_solution.py:129-131 | inside the stop distance the car reverses at a speed in [-1, -0.2], whatever was requested |
| SafetyStop.BrakeHarderWhenCloser | labSolutions/lab3a_solution.py:129-131 | a closer obstacle inside the stop distance never gives a gentler reverse |
| SafetyStop.OutsideZones | labSolutions/lab3a_solution.py:117-131 | no reading, a reading exactly at the stop distance, or one at or past the slow distance passes the request through |
| SafetyStop.SafetyStopController.Start | labSolutions/lab3a_solution.py:53-66 | the estimate is 0 and the previous distance is the centre distance |
| SafetyStop.SafetyStopController.Update | labSolutions/lab3a_solution.py:82-137 | new estimate per NextSpeed, previous distance set to this frame's reading, command (SafeSpeed, joystick x) |
| ArMarkers.Changed | labSolutions/lab5_solution.py:166-177 | change_stage as a function of the state and the new marker; its effect is stated by ChangedEffect and ThreeMarkersReachColor |
| ArMarkers.Observed | labSolutions/lab5_solution.py:126-127 | the stage-change test at the top of update(); stated by ObservedChangesOnlyOnNewId, ObservedIdempotent and ObservedKeepsValid |
| ArMarkers.Run | labSolutions/lab5_solution.py:126-127 | the state after a sequence of frames; stated by RunStageBounds, RunRepeatedId and RunNovelIds |
| ArMarkers.ChangedEffect | labSolutions/lab5_solution.py:166-177 | stage + 1 and marker recorded; stage 1 takes the side from the id, stage 2 from the orientation, stage 3 the colour; nothing else changes |
| ArMarkers.ObservedChangesOnlyOnNewId | labSolutions/lab5_solution.py:126-127 | the stage advances exactly when a first marker with a new id is seen; otherwise the state is unchanged |
| ArMarkers.ObservedIdempotent | labSolutions/lab5_solution.py:126-127 | seeing the same markers twice in a row changes the state once at most |
| ArMarkers.InitialValid | labSolutions/lab5_solution.py:106-109 | the start state satisfies the reachable-state invariant |
| ArMarkers.ObservedKeepsValid | labSolutions/lab5_solution.py:126-127 | each frame preserves the invariant: stage >= 0, side ±1 after the first marker, colour set exactly from stage 3 |
| ArMarkers.RunStageBounds | labSolutions/lab5_solution.py:126-127 | over any run the stage never decreases and rises at most once per frame |
| ArMarkers.RunRepeatedId | labSolutions/lab5_solution.py:126-127 | frames all showing the same id cause one stage change in total, or none if that id is already recorded |
| ArMarkers.RunNovelIds | labSolutions/lab5_solution.py:126-127 | frames each showing a new id raise the stage once per frame and record the last id |
| ArMarkers.ThreeMarkersReachColor | labSolutions/lab5_solution.py:166-177 | from start, three new markers reach the colour stage with the side from the second marker's orientation and the colour from the third |
| ArMarkers.WallSteer | labSolutions/lab5_solution.py:200-212 | the wall-follow angle from the three samples; stated by WallSteerBounded, WallSteerAligned and WallSteerCorrectsDistance |
| ArMarkers.WallFollow | labSolutions/lab5_solution.py:189-198 | samples the scan at the side, side-front and side-back angles of the chosen wall and steers by WallSteer; bounded by StageCommandBounded |
| ArMarkers.WallSteerBounded | labSolutions/lab5_solution.py:200-212 | for a side in {-1, 0, 1} the wall-follow angle is within [-1, 1] |
| ArMarkers.WallSteerAligned | labSolutions/lab5_solution.py:200-212 | parallel to the wall at 35 cm the angle is 0 |
| ArMarkers.WallSteerCorrectsDistance | labSolutions/lab5_solution.py:206-212 | parallel to the wall, too near turns away from it and too far turns toward it |
| ArMarkers.LineFollow | labSolutions/lab5_solution.py:226-237 | line_follow over colours in priority order; stated by LineFollowNone, LineFollowFirst and LineFollowBounded |
| ArMarkers.LineFollowNone | labSolutions/lab5_solution.py:226-237 | no angle exactly when no colour has a largest contour of at least 30 |
| ArMarkers.LineFollowFirst | labSolutions/lab5_solution.py:226-234 | the first qualifying colour in priority order decides the angle, from its largest contour's column |
| ArMarkers.LineFollowBounded | labSolutions/lab5_solution.py:232-234 | with centres inside the image the line angle is within [-1, 1] |
| ArMarkers.StageCommand | labSolutions/lab5_solution.py:129-146 | the stage dispatch of update(); stated by StageCommandBounded and FourthMarkerStops, and used by MarkerMission.Update |
| ArMarkers.StageCommandBounded | labSolutions/lab5_solution.py:129-148 | every reachable stage gets speed and angle within [-1, 1] |
| ArMarkers.FourthMarkerStops | labSolutions/lab5_solution.py:129-148 | a new marker in the colour stage moves to stage 4, which commands (0, 0) |
| ArMarkers.MarkerMission.Start | labSolutions/lab5_solution.py:90-109 | the state is stage none, marker id -1, no side, no colour, and it is valid |
| ArMarkers.MarkerMission.ChangeStage | labSolutions/lab5_solution.py:157-177 | the new state is Changed of the old state and the marker |
| ArMarkers.MarkerMission.Update | labSolutions/lab5_solution.py:112-148 | the new state is Observed of the old one and stays valid; the command is the stage's command for the new state |
| LaneFollowing.InitialValid | labSolutions/lane_following_solution.py:100-103 | the start state is valid and not driving |
| LaneFollowing.SeeMarker | labSolutions/lane_following_solution.py:79-88 | one iteration of check_ar; stated by SeeMarkerEffect |
| LaneFollowing.CheckedAr | labSolutions/lane_following_solution.py:78-88 | check_ar as a function of the state and the markers in order; stated by CheckedArValid, CheckedArDriving, CheckedArIgnoresOthers, CheckedArUpToLast and LastMarkerSetsPrimary, and by LaneFollower.CheckAr |
| LaneFollowing.SeeMarkerEffect | labSolutions/lane_following_solution.py:78-88 | marker 1 sets driving and swaps the colours unless its colour already names the primary; other markers change nothing |
| LaneFollowing.CheckedArValid | labSolutions/lane_following_solution.py:78-88 | the two lane colours stay orange and purple, one each |
| LaneFollowing.CheckedArDriving | labSolutions/lane_following_solution.py:78-82 | afterwards driving holds exactly when it held before or some marker had id 1 |
| LaneFollowing.CheckedArIgnoresOthers | labSolutions/lane_following_solution.py:78-79 | markers none of which has id 1 leave the state unchanged |
| LaneFollowing.CheckedArUpToLast | labSolutions/lane_following_solution.py:78-88 | markers after the last id-1 marker do not matter |
| LaneFollowing.LastMarkerSetsPrimary | labSolutions/lane_following_solution.py:84-88 | when the last id-1 marker is classified orange or purple, that colour is the primary afterwards |
| LaneFollowing.Qualifying | labSolutions/lane_following_solution.py:140-146 | exactly the contours with area above 500 are kept, and the list does not grow |
| LaneFollowing.QualifyingMultiset | labSolutions/lane_following_solution.py:140-146 | each contour of area above 500 is kept as often as it occurs, and no other contour is kept |
| LaneFollowing.QualifyingInOrder | labSolutions/lane_following_solution.py:150-156 | the kept contours are those at the positions of area above 500, all of them, in increasing order of position |
| LaneFollowing.QualifyingEmpty | labSolutions/lane_following_solution.py:148-161 | no contour qualifies exactly when every area is at most 500 |
| LaneFollowing.SecondLargestIndex | labSolutions/lane_following_solution.py:169-174 | an index other than the largest's, of greatest area among the rest, earlier ones strictly smaller |
| LaneFollowing.FirstLargestUnique | labSolutions/lane_following_solution.py:170-173 | an index of greatest area with every earlier contour strictly smaller is unique: it is the one FirstLargestIndex gives |
| LaneFollowing.SecondLargestUnique | labSolutions/lane_following_solution.py:170-174 | an index, other than FirstLargestIndex, of greatest area among the rest with every earlier one of the rest strictly smaller is unique: it is the one SecondLargestIndex gives |
| LaneFollowing.Steer | labSolutions/lane_following_solution.py:166-196 | the steering for one colour's qualifying contours; stated by SteerTwoLargest, SteerOneLane and SteerBounded |
| LaneFollowing.LaneCommand | labSolutions/lane_following_solution.py:139-196 | the lane decision for a driving car with an image; stated by NoLanesStraight and FastOnlyOnPrimary |
| LaneFollowing.LaneDrive | labSolutions/lane_following_solution.py:125-134 | stop before marker 1 or without an image, else the lane decision; stated by NotDrivingStops, and by LaneFollower.Update |
| LaneFollowing.NotDrivingStops | labSolutions/lane_following_solution.py:125-128 | before marker 1 is seen the car is stopped |
| LaneFollowing.NoLanesStraight | labSolutions/lane_following_solution.py:157-161 | with no qualifying contour of either colour the car goes straight at 0.5 |
| LaneFollowing.FastOnlyOnPrimary | labSolutions/lane_following_solution.py:139-164 | speed is 1.0 exactly when no secondary contour qualifies and a primary one does; otherwise 0.5 |
| LaneFollowing.SteerTwoLargest | labSolutions/lane_following_solution.py:168-178 | with two or more contours the angle is the remapped midpoint of the first two contours of a stable descending sort by area |
| LaneFollowing.SteerOneLane | labSolutions/lane_following_solution.py:186-196 | with one contour the car turns -0.75 when it is right of centre and 0.75 otherwise |
| LaneFollowing.SteerBounded | labSolutions/lane_following_solution.py:166-196 | with centres inside the image the lane angle is within [-1, 1] |
| LaneFollowing.LaneFollower.Start | labSolutions/lane_following_solution.py:92-103 | not driving, orange primary, purple secondary, a valid state |
| LaneFollowing.LaneFollower.CheckAr | labSolutions/lane_following_solution.py:66-88 | the loop leaves the state CheckedAr of the old state and the markers, and the lane colours stay orange and purple, one each |
| LaneFollowing.LaneFollower.Update | labSolutions/lane_following_solution.py:115-205 | the state after check_ar, still valid, then Stop or the lane command, per LaneDrive |

## Left out

- The library `racecar_utils` (`clamp`, `remap_range`, `get_largest_contour`, `get_lidar_average_distance`, `find_contours`, `get_ar_markers`, `detect_colors`, `crop`, `get_contour_center`) is not part of this model's sources. The first three are modelled from their documented behaviour. The others become inputs.
- Camera, LIDAR and controller access, `rc.drive.stop`, `set_speed_angle`, `set_max_speed`, drawing, `show_color_image` and every `print` are I/O. The model returns the command or `Stop` instead of driving.
- Floating point is modelled as exact reals. Rounding in the speed estimate and in the remaps is not captured.
- In lab 3A the estimator divides by `rc.get_delta_time()`. The model takes the frame time as a parameter and requires it to be positive. The source relies on the runtime for this.
- In lab 5, `cur_marker` is kept only as its id, the one field read after `change_stage`. The marker colour is the one `detect_colors([RED, BLUE])` would assign, given as part of the marker.
- The LIDAR scan is a function from (angle, window) to the average distance.
- Contour images become (area, centre column) pairs. The image crops only change which contours are found, so they are folded into the contour input.
- `LaneFollowing.Steer`: the in-place `contours.sort(key=area, reverse=True)` is modelled by its first two elements only, the only ones read. They are taken as the first contour of greatest area, then the first of greatest area among the rest, as a stable sort leaves them. The reordering of the rest of the list is not modelled.
- The lane-decision part of lane following's `update()` (lines 136-205) is a pure function, `LaneCommand`, called from the `Update` method. The reassignments of the local `speed`, `angle` and `contours` are not mirrored step by step.
- Lab 5's stage is an unbounded integer. The colour stage is described as the last one, but the code increments `cur_stage` without a bound, so a fourth new marker gives stage 4 and (0, 0). The model follows the code.
- Lab 5's `update()` calls `line_follow` and `wall_follow`, which read the image and scan. In the model these are pure functions of the inputs above.
- `MarkerMission.Update`, `LaneFollower.CheckAr` and `LaneFollower.Update` require the invariant that `Start` establishes and every update keeps. The module-level initial values of the globals equal what `start()` sets, so the classes have no separate constructor.
