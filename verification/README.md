# Verified models of ros2_controllers

This project models the parts of ros2_controllers where many steps, much state or awkward arithmetic meet, and
proves what they keep:

- **Trajectory sampling** (`Powers`, `Splines`, `RestToRest`, `TrajectoryPoints`, `TrajectorySampling`,
  `CachedSearch`, `HistoryFree`, `Waypoints`, `NextWaypoint`, `LazyDeduction`, `Integration`). The joint trajectory
  controller's `Trajectory` is a class that searches from a cached index, fills in missing positions and velocities in
  the shared message, and evaluates linear, cubic and quintic segments. Each method is tied to a function of the state
  before the call; the theorems speak about every run of calls.
- **Goal, replacement and stop protocol** (`Validation`, `MessageOrder`, `StopRamp`, `StopOvershoot`, `GoalProtocol`,
  `ProtocolRuns`, `GoalVerdicts`, `HoldingRules`, `LookAhead`, `TrajectoryController`). Topic messages, goals,
  cancellations and updates are atomic steps of a state machine with a log of what was seen to happen; the class
  `JointTrajectoryController` makes exactly these steps.
- **Limiters and the motion-primitive queue** (`RateLimits`, `LimitsInNumbers`, `TricycleLimiters`,
  `MotionPrimitives`, `MotionRuns`, `ForwardController`).
- **Kinematics** (`Steering`, `SteeringOdometry`, `MecanumKinematics`, `MecanumController`, `RigidBody`): commands and
  odometry as inverses of each other, and both against a body that moves without slip.

Numbers of type `double` are real numbers, times are whole nanoseconds, and a value that may be NaN or unreadable is
an `Option`. A specification function says what a method leaves behind; the lemmas say what that means.

Three words recur in the theorems. A run of sampling calls is *ordered* if no call is earlier than a monotone call
before it, and none is earlier than the end once a look-ahead has passed the end; it *skips nothing* if it enters the
lead-in and every segment before the next. A run of the goal protocol is *calm* if no topic message arrives while a
goal is active, an update lies between a cancellation and the next acceptance, no update's time lies behind the clock
reading of the latest acceptance, and the command timeout is off.

## Where the code does not do what one would expect

Each of these has a lemma with the exact condition under which the expectation is met and one with an input that fails.

- A look-ahead call past the last point moves the cached index although the documentation of the flag says
  otherwise (`CachedSearch.LookAheadPastTheEndMovesTheCache`); the cache agrees with a full search exactly when it
  reaches (`CachedSearch.CacheAgreesExactly`).
- Two points that carry accelerations but no velocities are interpolated by no branch and give zeros; waypoints that are
  not before the recorded state are reproduced in all other cases (`Waypoints.WaypointExact`, with a message in
  `Validation.AccelerationsWithoutVelocitiesGiveZero`).
- A segment that is entered without positions at its start either reads entries that are not there or succeeds with an
  output of no joints (`LazyDeduction.SkippingReadsMissingPositions`, with an input in
  `LazyDeduction.SkippedLeadInGivesNoJoints`).
- With the speed scaled down the controller's own look-ahead reaches the end before its samples do, and the next sample
  jumps there (`CachedSearch.ControllerCallsOrdered`, `CachedSearch.SlowedControllerJumpsToTheEnd`).
- With a repeated joint name a field leaks entries of an earlier message or grows past the joints
  (`MessageOrder.PreparedExactlyForDistinctNames`, with a message in `Validation.RepeatedNamesAreAccepted`).
- Effort entries of any number are accepted by a controller with an effort interface (`Validation.AcceptedIsComplete`,
  `Validation.WrongEffortIsAccepted`).
- A topic message, a command timeout, an update behind the acceptance clock, or a cancellation that no update has
  seen can each make the controller report a goal succeeded wrongly (`GoalVerdicts.TopicMessageStealsTheGoal` and its
  three neighbours). `GoalVerdicts.WronglySucceedsExactly` says when it happens, for every state;
  `GoalVerdicts.VerdictsAreRight` that it does not on calm runs.
- A hold that was written while a message was deferred is installed again one update after that message has fired, if
  and only if the controller is still holding then (`GoalVerdicts.HoldComesBackExactly`,
  `GoalVerdicts.TopicTrajectoryRunsForOneUpdate`).
- A tricycle that reverses to a higher speed is slowed down at the acceleration limit
  (`RateLimits.SlowingKeepsTheDecelerationLimitExactly`, `RateLimits.ReversalStopsTooFast`).
- A robot that is stopped from outside, or still shows STOPPED when a goal is accepted, has that goal reported canceled
  while its remaining primitives are still issued, unless a cancellation was waiting
  (`MotionRuns.CancelReportEmptiesTheQueueExactly`, `MotionRuns.CanceledGoalIsIssued`,
  `MotionRuns.StaleStopCancelsAndIssues`).
- Without a reference the mecanum controller writes zero to one wheel only, because the writes are joined by a
  short-circuit "or" (`MecanumController.MissingReferenceStopsOneWheel`, `MecanumController.MovingRobotKeepsMoving`).
- A turn on the spot commands the wheels to rest, and for small steering angles all wheels are commanded as if the
  vehicle had no track; the odometry then disagrees with the command (`Steering.BicycleOdometryInvertsExactly`,
  `Steering.TricycleOdometryInvertsExactly`, `Steering.AckermannOdometryInvertsExactly`, with inputs in
  `Steering.TurningOnTheSpotIsLost` and `Steering.ShortcutMissesTheCommand`).
- In closed loop the shortcut for small angles looks at the measured angle, so an Ackermann vehicle whose steering
  stands straight ahead is told one angle for both wheels, however far it is to turn
  (`RigidBody.ClosedLoopSteersAtOnce`).
- A joint that needs too small a part of a period for the rest of its braking is carried past its hold position before
  the next ramp point (`StopOvershoot.PassesHoldExactly`, `StopOvershoot.LateStopPassesHold`).
- A goal of one primitive is refused unless three places of the queue are free, although it travels without markers
  (`MotionRuns.AcceptedExactly`).
- A goal can be reported succeeded before any of it is issued, on the execution of another goal's leftovers
  (`MotionRuns.SuccessIsEarlyExactly`, `MotionRuns.LeftoverCountsAsExecution`).
- A message with more velocities than names makes validation throw instead of rejecting it (`Validation.ThrowsExactly`,
  `Validation.TooManyVelocitiesThrow`).
- Positions and velocities that are deduced while sampling give a point a velocity that the samples before it did not
  have (`LazyDeduction.SettlesExactly`, `LazyDeduction.UnsettledIsNotIntegrated`).

## Model

| member | source | states |
|---|---|---|
| `Splines.CubicFit` | joint_trajectory_controller/src/trajectory.cpp:334-363 | for every duration above zero a polynomial of degree 3 meets the four end conditions if and only if it is the one the code computes |
| `Splines.QuinticFit` | joint_trajectory_controller/src/trajectory.cpp:365-406 | the same for degree 5 and all six end conditions |
| `Splines.LinearFit` | joint_trajectory_controller/src/trajectory.cpp:309-333 | the same for the straight line through two positions |
| `Splines.CubicReproduces` | joint_trajectory_controller/src/trajectory.cpp:334-363 | interpolating the end states of any polynomial of degree 3 or less gives its position, velocity and acceleration at every sample time |
| `Splines.QuinticReproduces` | joint_trajectory_controller/src/trajectory.cpp:365-406 | the same for any polynomial of degree 5 or less |
| `Splines.PositionExpansion` | joint_trajectory_controller/src/trajectory.cpp:358-361 | the velocity output is the derivative of the position output: the first-order remainder is the square of the step times a polynomial |
| `Splines.VelocityExpansion` | joint_trajectory_controller/src/trajectory.cpp:360-362 | the acceleration output is the derivative of the velocity output |
| `RestToRest.RestToRest` | joint_trajectory_controller/src/trajectory.cpp:334-406 | a cubic or quintic between two rests is monotone, stays between its end positions, and never exceeds 1.5 or 1.875 times the average speed |
| `RestToRest.PeakAttained` | joint_trajectory_controller/src/trajectory.cpp:334-406 | the two speed bounds are attained half-way |
| `TrajectorySampling.NoSampleIsClamped` | joint_trajectory_controller/src/trajectory.cpp:147-206 | called from sample, whatever fields the message lacks and wherever the search begins, the interpolation takes neither clamp: the output is the unclamped state of the message as the call leaves it |
| `TrajectoryPoints.EffortIsBlend` | joint_trajectory_controller/src/trajectory.cpp:296-314 | interpolated effort is the mean of the two ends weighted by elapsed and remaining time, and zero if an end has none |
| `TrajectoryPoints.GeneratePowers` | joint_trajectory_controller/src/trajectory.cpp:270-277 | entry i of the filled buffer is the i-th power |
| `TrajectoryPoints.InterpolateJoints` | joint_trajectory_controller/src/trajectory.cpp:309-406 | the loop writes for every joint the state on the curve of the chosen degree, computed from power tables |
| `TrajectoryPoints.InterpolateBetweenPoints` | joint_trajectory_controller/src/trajectory.cpp:256-407 | the output is the clamped state on the segment, effort included |
| `TrajectoryPoints.ClampedOutside` | joint_trajectory_controller/src/trajectory.cpp:282-333 | outside a segment every joint stands at the end nearer in time, with the velocity of the straight line and no acceleration; a segment without duration stays at its start |
| `TrajectoryPoints.DeduceFromDerivatives` | joint_trajectory_controller/src/trajectory.cpp:409-450 | the in-place filling leaves the two points that the trapezoidal specification says |
| `TrajectoryPoints.DeductionOnlyAdds` | joint_trajectory_controller/src/trajectory.cpp:409-450 | deduction never overwrites a supplied entry, keeps sizes, gives the later point positions, and a second deduction changes nothing |
| `Integration.DeductionTakesMeanRates` | joint_trajectory_controller/src/trajectory.cpp:409-450 | a point without positions gets those of the point before it plus the mean of both velocities times the duration; missing velocities follow from the accelerations alike |
| `Integration.DeductionFillsExactly` | joint_trajectory_controller/src/trajectory.cpp:409-450 | the earlier point gets zeros for exactly the rates that are read and missing, and nothing else changes but a missing effort |
| `TrajectorySampling.Trajectory.Update` | joint_trajectory_controller/src/trajectory.cpp:101-107 | installing a message takes its stamp as start time and clears the latch and the cached index |
| `TrajectorySampling.Trajectory.SetPointBeforeTrajectoryMsg` | joint_trajectory_controller/src/trajectory.cpp:50-76 | the state before the message is the given one, with zeros for derivatives that only the first point carries |
| `Waypoints.StartsAsSmoothAsAsked` | joint_trajectory_controller/src/trajectory.cpp:60-75 | what is recorded is kept, and the way to the first point gets the degree that this point's own fields ask for |
| `TrajectorySampling.Trajectory.Search` | joint_trajectory_controller/src/trajectory.cpp:171-182 | the loop finds the first segment from the cached index on that holds the time |
| `TrajectorySampling.Trajectory.Sample` | joint_trajectory_controller/src/trajectory.cpp:109-254 | outcome, message, state before it, latch and cached index after a call are exactly those of the region the call works in |
| `NextWaypoint.NextWaypointSampled` | joint_trajectory_controller/src/trajectory.cpp:147-206 | with interpolation off a call returns the first point that is still due and the segment that leads to it, the recorded state before the first point, and nothing before the recorded state; the message stays as it is |
| `NextWaypoint.LastWaypointSampled` | joint_trajectory_controller/src/trajectory.cpp:208-253 | from the end on it returns the last point with zeros for what it lacks, or fails if neither it nor the point before it has positions |
| `NextWaypoint.CallRecords` | joint_trajectory_controller/src/trajectory.cpp:119-212 | what a call leaves behind besides the message: start time, mark and, before the first point, the cached index |
| `NextWaypoint.CacheFollows` | joint_trajectory_controller/src/trajectory.cpp:171-212 | a monotone call moves the cached index to the segment it worked in, a look-ahead does not, and every call at the end moves it to the last point |
| `TrajectorySampling.SampleOnlyAdds` | joint_trajectory_controller/src/trajectory.cpp:147-231 | a call only adds missing entries to the message and keeps it valid |
| `CachedSearch.CacheAgreesExactly` | joint_trajectory_controller/src/trajectory.cpp:171-182 | a call from the cached index returns what a call from index 0 returns if and only if it falls before the first point or not before the cached point |
| `CachedSearch.CachedRunEqualsFullRun` | joint_trajectory_controller/src/trajectory.cpp:109-254 | over every ordered run on a strictly increasing message all outcomes and the final message are those of full searches, look-ahead calls included |
| `CachedSearch.LookAheadPastTheEndMovesTheCache` | joint_trajectory_controller/src/trajectory.cpp:208-212 | a concrete run whose look-ahead past the end makes a later call differ from a full search |
| `CachedSearch.EndExactlyAtLastPoint` | joint_trajectory_controller/src/trajectory.cpp:171-212 | a call lands behind the last segment exactly when its time is not before the last point |
| `CachedSearch.ControllerCallsOrdered` | joint_trajectory_controller/src/joint_trajectory_controller.cpp:365-386 | the controller's calls, a sample and a look-ahead per update, are an ordered run if and only if the next sample has reached the end whenever a look-ahead has |
| `CachedSearch.ControllerRunEqualsFullRun` | joint_trajectory_controller/src/joint_trajectory_controller.cpp:365-386 | such a run returns what full searches return; at full speed or faster the condition always holds |
| `CachedSearch.SampleAfterLookAheadAgreesExactly` | joint_trajectory_controller/src/trajectory.cpp:171-212 | after a look-ahead that reached the end the next sample agrees with a full search if and only if it is before the first point or not before the last |
| `CachedSearch.SlowedControllerJumpsToTheEnd` | joint_trajectory_controller/src/joint_trajectory_controller.cpp:365-386 | a run with scaled-down speed that jumps to the end of its trajectory one update early |
| `HistoryFree.RunIsHistoryFree` | joint_trajectory_controller/src/trajectory.cpp:109-254 | on a message with all positions every outcome of every ordered run is a function of the message and the call's time |
| `HistoryFree.LookAheadLeavesNoTrace` | joint_trajectory_controller/src/joint_trajectory_controller.cpp:372-386 | two ordered runs agree wherever their times agree, whatever look-ahead calls one of them makes; only an unstamped message that was not sampled before needs them to start together |
| `Waypoints.WaypointExact` | joint_trajectory_controller/src/trajectory.cpp:171-253 | sampling exactly at a waypoint before the recorded state leaves the output untouched; at any other waypoint it returns the positions if and only if the segment that begins there does not carry accelerations without velocities at both ends, or the positions are zeros anyway |
| `Validation.AccelerationsWithoutVelocitiesGiveZero` | joint_trajectory_controller/src/trajectory.cpp:279-365 | a message with positions and accelerations that the strictest controller accepts and that gives zero at its first waypoint |
| `Waypoints.SampleOnArrival` | joint_trajectory_controller/src/trajectory.cpp:147-206 | from the recorded state on, wherever in the message it lies, sampling returns the arrival curve of the next waypoint until that is reached, unclamped |
| `Waypoints.SampleAfterEnd` | joint_trajectory_controller/src/trajectory.cpp:208-253 | from the last point on, and not before the recorded state, the last point's state is returned for good |
| `Waypoints.EffortSampled` | joint_trajectory_controller/src/trajectory.cpp:147-206 | for any fields and any start of the search the sampled effort is the mean of the efforts at both ends of the segment, weighted by the time left to each; inside the message the output takes the time of the point that the motion is on its way to |
| `Waypoints.ContinuousAtWaypoint` | joint_trajectory_controller/src/trajectory.cpp:147-206 | at every waypoint that is not before the recorded state and takes time to reach, the arriving motion ends in the position that is sampled there; the velocity too if all points carry velocities, the acceleration if all carry both |
| `LazyDeduction.EagerIsDefined` | joint_trajectory_controller/src/trajectory.cpp:409-450 | one eager pass over the message is defined and does every step |
| `LazyDeduction.LazyRunIsEager` | joint_trajectory_controller/src/trajectory.cpp:147-231 | every run that skips no segment leaves the message as one eager trapezoidal pass up to the segment it reached |
| `LazyDeduction.LazyOutcomesAreIntegrated` | joint_trajectory_controller/src/trajectory.cpp:147-231 | every outcome of such a run over a settling message is a sample of the eagerly integrated trajectory; a message settles if no step fills a field of the point before it |
| `LazyDeduction.CachedRunIntegrates` | joint_trajectory_controller/src/trajectory.cpp:109-254 | the same for the controller's own calls from the cached index; the message left is the eager one whether it settles or not |
| `LazyDeduction.SettlesExactly` | joint_trajectory_controller/src/trajectory.cpp:409-450 | every point has its final value as soon as its own step is done if and only if the message settles |
| `LazyDeduction.UnsettledIsNotIntegrated` | joint_trajectory_controller/src/trajectory.cpp:147-231 | a message that does not settle and whose first sample is on a straight line where the integrated message is on a cubic |
| `LazyDeduction.SkippingReadsMissingPositions` | joint_trajectory_controller/src/trajectory.cpp:184-205 | a call inside a segment reads no missing entry and gives one position per joint if and only if the segment starts from positions; otherwise it reads missing entries exactly when the end lacks positions too |
| `LazyDeduction.SkippedLeadInGivesNoJoints` | joint_trajectory_controller/src/trajectory.cpp:151-205 | an input whose first call succeeds without any joint: the first point gives a velocity and is due at once, the second gives a position |
| `LazyDeduction.VelocitiesIntegrated` | joint_trajectory_controller/src/trajectory.cpp:442-448 | for velocity-only messages the positions are the sum of the trapezoids of the velocities from the state before the message |
| `LazyDeduction.AccelerationsIntegrated` | joint_trajectory_controller/src/trajectory.cpp:428-448 | for acceleration-only messages the velocities, and from them the positions, are such sums |
| `Integration.NeighboursTakeMeanRates` | joint_trajectory_controller/src/trajectory.cpp:409-450 | the same between all neighbouring points of the integrated message, the recorded state included |
| `Integration.GivenVelocitiesAreExact` | joint_trajectory_controller/src/trajectory.cpp:442-448 | velocities that are linear in time give exactly the positions of constant acceleration, however the points are spaced |
| `Integration.ConstantAccelerationIsExact` | joint_trajectory_controller/src/trajectory.cpp:428-448 | constant accelerations give exactly linear velocities and quadratic positions |
| `StopRamp.Decelerator.PlanStop` | joint_trajectory_controller/src/joint_trajectory_controller.cpp:1912-1934 | the first loop computes stop time, direction and hold position of every joint, and the longest stop time |
| `StopRamp.Decelerator.DecelerateToHoldPosition` | joint_trajectory_controller/src/joint_trajectory_controller.cpp:1909-1995 | the reserved message is extended when too short and overwritten by the ramp |
| `StopRamp.RampEntryExactly` | joint_trajectory_controller/src/joint_trajectory_controller.cpp:1912-1980 | in numbers: a joint faster than 2^-23 that t seconds of braking do not bring to rest has at t the position, velocity and acceleration of constant deceleration; any other joint is at rest where the square of the first velocity is twice the deceleration times the distance |
| `StopRamp.RampLengthExactly` | joint_trajectory_controller/src/joint_trajectory_controller.cpp:1936-1954 | the time of the last ramp point stops every joint, and if the ramp is longer than what was reserved, that of the point before it does not |
| `StopRamp.RampKeeps` | joint_trajectory_controller/src/joint_trajectory_controller.cpp:1940-1985 | what the ramp leaves of the reserved points: the effort and the entries of joints that it does not stop |
| `StopRamp.GuardNeverFires` | joint_trajectory_controller/src/joint_trajectory_controller.cpp:1962-1972 | a joint that still brakes keeps its direction, so the guard against crossing zero changes nothing |
| `StopRamp.SpeedMatchesDistance` | joint_trajectory_controller/src/joint_trajectory_controller.cpp:1966-1975 | speed squared is twice the deceleration times the remaining distance |
| `StopRamp.RampIsSafe` | joint_trajectory_controller/src/joint_trajectory_controller.cpp:1954-1985 | for every joint and neighbouring ramp points: times strictly increase, a joint that moves brakes exactly and any other stays held, the position moves towards the hold position and never past it |
| `StopRamp.RampEndsAtRest` | joint_trajectory_controller/src/joint_trajectory_controller.cpp:1933-1985 | at the last point every joint rests at its hold position, however long the reserved buffer |
| `StopRamp.RampSampled` | joint_trajectory_controller/src/joint_trajectory_controller.cpp:1954-1995 | sampling the installed ramp at any time from the recorded state on gives constant deceleration on every segment at whose end the joint still moves, and the hold state on every segment at whose start it does not, both read off its speed, its limit and the elapsed time |
| `StopRamp.RampSampledAfterEnd` | joint_trajectory_controller/src/joint_trajectory_controller.cpp:1954-1995 | after the ramp every joint is held for good |
| `StopOvershoot.PassesHoldExactly` | joint_trajectory_controller/src/joint_trajectory_controller.cpp:1954-1985 | in the segment in which a joint stops, its motion passes the hold position somewhere if and only if braking takes less than two fifths of the period or less than the larger root of 10 x^2 - 8 x + 1 |
| `StopOvershoot.StopSampled` | joint_trajectory_controller/src/joint_trajectory_controller.cpp:1954-1995 | a sample of the installed ramp in that segment is past the hold position if and only if a quadratic in the braking share and the elapsed share is negative, and only where the condition of PassesHoldExactly is met |
| `StopOvershoot.PastHoldAtStop` | joint_trajectory_controller/src/joint_trajectory_controller.cpp:1954-1985 | at its stop time the joint is already past the hold position if and only if braking takes less than half of the period |
| `StopOvershoot.LateStopPassesHold` | joint_trajectory_controller/src/joint_trajectory_controller.cpp:1954-1985 | a joint that is past its hold position a quarter of a second before the ramp point that holds it |
| `MessageOrder.ComputeMapping` | joint_trajectory_controller/include/joint_trajectory_controller/trajectory.hpp:174-199 | the loop computes each name's first index, or nothing if a name is unknown |
| `MessageOrder.MappingIsPermutation` | joint_trajectory_controller/include/joint_trajectory_controller/trajectory.hpp:174-199 | for distinct names that cover the joints the mapping is a permutation |
| `MessageOrder.GoalPreparer.FillPartialGoal` | joint_trajectory_controller/src/joint_trajectory_controller.cpp:1580-1659 | names and every field of every point are completed in place as specified |
| `MessageOrder.GoalPreparer.SortToLocalJointOrder` | joint_trajectory_controller/src/joint_trajectory_controller.cpp:1661-1708 | every field is remapped through the shared buffer and the names stay as they are |
| `MessageOrder.PreparedPointIsMeant` | joint_trajectory_controller/src/joint_trajectory_controller.cpp:1580-1708 | after both, entry k of every field is what the message meant for controller joint k: its own value or the hold value |
| `MessageOrder.BufferLeaksExactlyOnDuplicates` | joint_trajectory_controller/src/joint_trajectory_controller.cpp:1664-1692 | for as many names as joints, reordering ignores the buffer's old content if and only if the names are distinct |
| `MessageOrder.PreparedExactlyForDistinctNames` | joint_trajectory_controller/src/joint_trajectory_controller.cpp:1580-1708 | for any number of names that are joints, a completed and reordered field has one entry per joint and nothing of an earlier message if and only if the names are distinct |
| `MessageOrder.PreparedLengthExactly` | joint_trajectory_controller/src/joint_trajectory_controller.cpp:1674-1679 | with distinct names a field comes out with one entry per joint if and only if it had one entry per name |
| `Validation.RepeatedNamesAreAccepted` | joint_trajectory_controller/src/joint_trajectory_controller.cpp:1734-1774 | a partial goal that names a joint twice is accepted and its field of two entries becomes four in message order |
| `MessageOrder.ReorderingTwiceIsWrong` | joint_trajectory_controller/src/joint_trajectory_controller.cpp:1693-1708 | two joints named the other way round are swapped back by a second reordering |
| `Validation.ValidateTrajectoryMsg` | joint_trajectory_controller/src/joint_trajectory_controller.cpp:1729-1874 | the verdict of all loops and early returns is that of the specification, the thrown exception included |
| `Validation.AcceptsExactly` | joint_trajectory_controller/src/joint_trajectory_controller.cpp:1729-1874 | a message is accepted if and only if its names, times, fields, final velocities and stamp meet the listed conditions |
| `Validation.ThrowsExactly` | joint_trajectory_controller/src/joint_trajectory_controller.cpp:1774-1789 | validation throws instead of rejecting if and only if the last point has more velocities than names, the named joints end at rest and a later velocity does not |
| `Validation.TooManyVelocitiesThrow` | joint_trajectory_controller/src/joint_trajectory_controller.cpp:1774-1789 | a message that makes validation throw |
| `Validation.AcceptedIncreases` | joint_trajectory_controller/src/joint_trajectory_controller.cpp:1801-1816 | an accepted message has strictly increasing point times |
| `Validation.AcceptedIsComplete` | joint_trajectory_controller/src/joint_trajectory_controller.cpp:1729-1874 | an accepted message has one entry per name in every field if and only if its effort entries fit, which validation does not look at |
| `Validation.AcceptedCanBeSampled` | joint_trajectory_controller/src/joint_trajectory_controller.cpp:1729-1874 | an accepted message with distinct names, completed, reordered and installed, has one entry per joint in every field if and only if its effort entries fitted its names, and then meets what the sampling theorems ask for |
| `Validation.WrongEffortIsAccepted` | joint_trajectory_controller/src/joint_trajectory_controller.cpp:1862-1870 | a controller with an effort interface accepts a message with an effort entry too many |
| `ProtocolRuns.StepIsGood` | joint_trajectory_controller/src/joint_trajectory_controller.cpp:281-334 | every callback and every update obeys the event rules and keeps the invariant of messages and goals |
| `ProtocolRuns.OneReportPerGoal` | joint_trajectory_controller/src/joint_trajectory_controller.cpp:1473-1550 | on every run a goal gets at most one terminal report, after its acceptance |
| `ProtocolRuns.GoalsAreAccountedFor` | joint_trajectory_controller/src/joint_trajectory_controller.cpp:1507-1550 | on every run the accepted goals are the reported ones and the active one, and a goal is pending exactly while it is active |
| `ProtocolRuns.PreparedOnceThenInstalled` | joint_trajectory_controller/src/joint_trajectory_controller.cpp:287-334 | on every run an external message is completed and reordered at most once, always before it is installed, and installed at most once |
| `ProtocolRuns.DeferredWaitsForItsStamp` | joint_trajectory_controller/src/joint_trajectory_controller.cpp:299-328 | on every run a deferred message is never installed before its stamp, and never after another external message was deferred or installed |
| `ProtocolRuns.HoldingExactlyOnHold` | joint_trajectory_controller/src/joint_trajectory_controller.cpp:1897-2009 | on every run the holding flag is set exactly while the latest message is the hold or stop message |
| `ProtocolRuns.NewMessageIsTaken` | joint_trajectory_controller/src/joint_trajectory_controller.cpp:287-319 | the next update installs a new external message, or defers it exactly when blending is on, something is installed and the stamp lies ahead |
| `ProtocolRuns.WaitingGoalBlocks` | joint_trajectory_controller/src/joint_trajectory_controller.cpp:290-295 | while a goal is pending that is not active yet, an update looks at a new message as little as if there were none |
| `ProtocolRuns.DeferredFiresWhenDue` | joint_trajectory_controller/src/joint_trajectory_controller.cpp:321-334 | a deferred message that nothing external followed is installed exactly by an update not earlier than its stamp, unless a cancellation came in |
| `ProtocolRuns.CancellationTakesEffect` | joint_trajectory_controller/src/joint_trajectory_controller.cpp:274-334 | the update after a cancellation drops the deferred message, installs nothing external and leaves the hold installed |
| `GoalVerdicts.ActiveGoalIsPursued` | joint_trajectory_controller/src/joint_trajectory_controller.cpp:281-334 | on every calm run an active goal is pending, the controller is not holding, and the latest message is the goal's own, installed, deferred or next |
| `GoalVerdicts.VerdictsAreRight` | joint_trajectory_controller/src/joint_trajectory_controller.cpp:398-596 | on every calm run an update reports success if and only if the goal's own trajectory is installed, the look-ahead is at or past its end, every joint is within goal tolerance and the path is not left, which the first sample checks at the end too, and abortion if and only if the path was left or the goal time ran out |
| `HoldingRules.UpdateHoldsExactly` | joint_trajectory_controller/src/joint_trajectory_controller.cpp:398-625 | for every state, from times, errors and tolerances alone: when an update starts to hold, which goal it reports how, and which message it leaves as the latest, c.hold after a success and the stop message otherwise |
| `HoldingRules.WithoutGoalHoldsExactly` | joint_trajectory_controller/src/joint_trajectory_controller.cpp:398-625 | without a goal the controller holds after an update if and only if it did before, or the timeout ran out, the path was left or the goal time ran out |
| `HoldingRules.CallbacksHoldExactly` | joint_trajectory_controller/src/joint_trajectory_controller.cpp:1435-1550 | what a topic message, an acceptance and a cancellation leave as the latest message, holding flag, goal and tolerances |
| `HoldingRules.NothingJudged` | joint_trajectory_controller/src/joint_trajectory_controller.cpp:239-400 | an update that reads no scaling, has nothing installed or gets no valid sample judges nothing |
| `LookAhead.LookAheadAgrees` | joint_trajectory_controller/src/joint_trajectory_controller.cpp:380-400 | the look-ahead sample of the installed trajectory lands behind its last segment exactly when the protocol says that the last point is reached |
| `LookAhead.RunAgrees` | joint_trajectory_controller/src/joint_trajectory_controller.cpp:365-400 | on every run of updates that installs nothing, at full speed or faster, the two agree at every update; the relation between trajectory and protocol is kept by every sample and look-ahead |
| `LookAhead.InstallationStartsTheRun` | joint_trajectory_controller/src/joint_trajectory_controller.cpp:300-334 | a message that has just been installed starts such a run, whatever its stamp |
| `GoalVerdicts.WronglySucceedsExactly` | joint_trajectory_controller/src/joint_trajectory_controller.cpp:398-560 | with no premise on the run, an update reports success for a goal whose trajectory is not installed or whose joints are outside if and only if the goal is active and unmarked, what is installed has ended, and either no tolerance is looked at or the tolerances hold for another trajectory |
| `GoalVerdicts.TopicMessageStealsTheGoal` | joint_trajectory_controller/src/joint_trajectory_controller.cpp:1435-1449 | a run in which a topic message during a goal leads to a wrong success |
| `GoalVerdicts.TimeoutCountsAsSuccess` | joint_trajectory_controller/src/joint_trajectory_controller.cpp:404-421 | a run in which the command timeout leads to a wrong success |
| `GoalVerdicts.LateClockCountsAsSuccess` | joint_trajectory_controller/src/joint_trajectory_controller.cpp:1522-1527 | a run in which an update behind the acceptance clock leads to a wrong success |
| `GoalVerdicts.UnseenCancellationCountsAsSuccess` | joint_trajectory_controller/src/joint_trajectory_controller.cpp:274-279 | a run in which a cancellation that no update saw leads to a wrong success |
| `GoalVerdicts.HoldComesBackExactly` | joint_trajectory_controller/src/joint_trajectory_controller.cpp:287-328 | after a deferred message has fired, the next update installs a hold if and only if the controller is holding after the update in which it fired |
| `GoalVerdicts.TopicTrajectoryRunsForOneUpdate` | joint_trajectory_controller/src/joint_trajectory_controller.cpp:287-328 | a session in which a topic trajectory with a future stamp is installed and replaced by the hold one update later |
| `TrajectoryController.JointTrajectoryController.TopicCallback` | joint_trajectory_controller/src/joint_trajectory_controller.cpp:1435-1449 | state and log after a topic message |
| `TrajectoryController.JointTrajectoryController.GoalAcceptedCallback` | joint_trajectory_controller/src/joint_trajectory_controller.cpp:1507-1550 | state and log after an acceptance, the preempted goal's report included |
| `TrajectoryController.JointTrajectoryController.GoalCancelledCallback` | joint_trajectory_controller/src/joint_trajectory_controller.cpp:1473-1505 | state and log after a cancellation |
| `TrajectoryController.JointTrajectoryController.ReplaceTrajectory` | joint_trajectory_controller/src/joint_trajectory_controller.cpp:274-334 | the clear, choose, fire and install blocks together |
| `TrajectoryController.JointTrajectoryController.CheckTolerances` | joint_trajectory_controller/src/joint_trajectory_controller.cpp:423-464 | the loop over the joints sets its three flags to the quantified conditions |
| `TrajectoryController.JointTrajectoryController.Update` | joint_trajectory_controller/src/joint_trajectory_controller.cpp:239-628 | one update is exactly the protocol step on which the theorems are proved |
| `RateLimits.ThreeClamps` | tricycle_controller/src/traction_limiter.cpp:97-107 | three clamps in a row end in all three windows if and only if the windows meet pairwise |
| `RateLimits.TractionEndsInEveryWindow` | tricycle_controller/src/traction_limiter.cpp:97-159 | the limited speed lies in the jerk, rate and velocity windows at once if and only if these meet pairwise |
| `RateLimits.SteeringEndsInEveryWindow` | tricycle_controller/src/steering_limiter.cpp:63-114 | the same for the steering acceleration, velocity and position windows |
| `RateLimits.SpeedsAreAllowed` | tricycle_controller/src/tricycle_controller.cpp:203-219 | on every run through the two-command history each speed respects the limit and each step the larger of the two rates, jerk limiting or not |
| `RateLimits.AnglesAreAllowed` | tricycle_controller/src/tricycle_controller.cpp:203-219 | on every run each angle respects the position limits and each step the steering velocity |
| `RateLimits.SlowingKeepsTheDecelerationLimitExactly` | tricycle_controller/src/traction_limiter.cpp:97-159 | with any jerk and speed limits a step keeps the limit named for what it does if and only if the request, its jerk limited, does not reverse to at least the same speed with an acceleration limit above the deceleration limit and below twice the speed |
| `RateLimits.ReversalStopsTooFast` | tricycle_controller/src/traction_limiter.cpp:119-140 | a command that is slowed down five times as fast as the deceleration limit allows |
| `RateLimits.TargetIsApproached` | tricycle_controller/src/traction_limiter.cpp:97-140 | without jerk limiting a constant target within the limit is approached from one side, by at least the smaller rate, and never passed |
| `RateLimits.TargetIsReached` | tricycle_controller/src/traction_limiter.cpp:97-140 | it is reached after a finite number of periods, which is given, and kept |
| `LimitsInNumbers.JerkInNumbers` | tricycle_controller/src/traction_limiter.cpp:142-159 | the speed is brought to within the jerk limits, times twice the square of the period, of where the last change would take it, on the side of the request; with any minimum limits |
| `LimitsInNumbers.AccelerationInNumbers` | tricycle_controller/src/traction_limiter.cpp:119-140 | the change is brought between the acceleration limits times the period, or the deceleration limits if the request is slower |
| `LimitsInNumbers.SteeringAccelerationInNumbers` | tricycle_controller/src/steering_limiter.cpp:96-114 | the same for the change of the steering angle's change |
| `TricycleLimiters.AcceptedLimitsStartAtZero` | tricycle_controller/src/traction_limiter.cpp:40-94 | limits without minimums are accepted exactly when they are those the window theorems ask for; the steering constructor leaves the order of the position limits to the caller |
| `TricycleLimiters.TractionLimiter.constructor` | tricycle_controller/src/traction_limiter.cpp:27-53 | missing partners are put in |
| `LimitsInNumbers.PatchedInNumbers` | tricycle_controller/src/traction_limiter.cpp:40-53 | a given limit is kept, a missing maximum beside a minimum becomes 1000 and a missing minimum beside a maximum zero |
| `TricycleLimiters.TractionLimiter.Validate` | tricycle_controller/src/traction_limiter.cpp:55-94 | the first fault in the order of the comparisons |
| `LimitsInNumbers.RefusedExactly` | tricycle_controller/src/traction_limiter.cpp:55-94 | limits are refused if and only if one is negative or a minimum lies above its maximum, and the first such pair is named |
| `TricycleLimiters.TractionLimiter.Limit` | tricycle_controller/src/traction_limiter.cpp:97-107 | the stages in sequence, and the factor that takes the request to the result |
| `TricycleLimiters.SteeringLimiter.Limit` | tricycle_controller/src/steering_limiter.cpp:63-73 | the same for the steering |
| `TricycleLimiters.TricycleController.OnConfigure` | tricycle_controller/src/tricycle_controller.cpp:263-300 | faulty limits refuse configuration; otherwise the queue holds two commands at rest |
| `TricycleLimiters.TricycleController.LimitCommand` | tricycle_controller/src/tricycle_controller.cpp:203-219 | the new command is limited against the last two and takes the place of the older one |
| `MotionRuns.AcceptedFits` | motion_primitives_controllers/src/motion_primitives_forward_controller.cpp:260-278 | the frame of an accepted goal fits the queue |
| `MotionRuns.AcceptedExactly` | motion_primitives_controllers/src/motion_primitives_forward_controller.cpp:226-376 | a goal is accepted if and only if the controller runs, has no goal and is not stopping, and the goal has complete primitives that leave the queue within 1024 together with both markers; a refused goal changes nothing |
| `MotionRuns.CancellationIsConsumed` | motion_primitives_controllers/src/motion_primitives_forward_controller.cpp:78-89 | an update consumes a cancellation, before anything else, if and only if one came in since the last |
| `MotionRuns.StepIsGood` | motion_primitives_controllers/src/motion_primitives_forward_controller.cpp:75-224 | every callback and update obeys the event rules and keeps the invariant |
| `MotionRuns.HardwareGetsTheFramesInOrder` | motion_primitives_controllers/src/motion_primitives_forward_controller.cpp:338-376 | on every run what was issued since the last consumed cancellation, followed by the queue, is the concatenation of the accepted frames |
| `MotionRuns.ReadyUpdatesIssueTheQueue` | motion_primitives_controllers/src/motion_primitives_forward_controller.cpp:192-216 | without a cancellation as many ready updates as primitives wait issue exactly the queue, in order |
| `MotionRuns.FramesAreUnambiguous` | motion_primitives_controllers/src/motion_primitives_forward_controller.cpp:354-376 | the goals can be read back from the framed stream |
| `MotionRuns.NothingMovesWhileStopping` | motion_primitives_controllers/src/motion_primitives_forward_controller.cpp:78-173 | on every run, from a consumed cancellation until STOPPED is observed, no primitive is issued, no goal accepted and no reset sent |
| `MotionRuns.StopIsHeld` | motion_primitives_controllers/src/motion_primitives_forward_controller.cpp:78-89 | all that time the motion type holds STOP_MOTION and the queue is empty |
| `MotionRuns.StopEndsWithOneReset` | motion_primitives_controllers/src/motion_primitives_forward_controller.cpp:136-164 | the first STOPPED after a consumed cancellation is answered by RESET_STOP before anything else but reports |
| `MotionRuns.OneResetPerStop` | motion_primitives_controllers/src/motion_primitives_forward_controller.cpp:152-162 | between two resets a cancellation was consumed |
| `MotionRuns.InterfacesTell` | motion_primitives_controllers/src/motion_primitives_forward_controller.cpp:75-224 | on every run: after an update that issues a primitive the interfaces hold it entry by entry, after a reset or a stop nothing but RESET_STOP or STOP_MOTION, and otherwise what they held; goals and cancellations write nothing |
| `MotionRuns.UpdateTells` | motion_primitives_controllers/src/motion_primitives_forward_controller.cpp:75-224 | and exactly when an update does each of these |
| `MotionRuns.ExecutionIsNoted` | motion_primitives_controllers/src/motion_primitives_forward_controller.cpp:99-173 | how the status codes change the record of execution, the stop request and the active goal |
| `MotionRuns.SuccessNeedsExecution` | motion_primitives_controllers/src/motion_primitives_forward_controller.cpp:99-173 | on every run success is reported only if EXECUTING was observed after the last success report, stop or error |
| `MotionRuns.SuccessIsEarlyExactly` | motion_primitives_controllers/src/motion_primitives_forward_controller.cpp:75-216 | an update reports success and leaves primitives to be issued if and only if SUCCESS is observed for an active goal after some execution while primitives wait and no cancellation does |
| `MotionRuns.QueueEndsWithTheGoal` | motion_primitives_controllers/src/motion_primitives_forward_controller.cpp:338-376 | on every run what waits at the end of the queue is the end of the latest accepted goal's frame, unless a cancellation was consumed since |
| `MotionRuns.LeftoverCountsAsExecution` | motion_primitives_controllers/src/motion_primitives_forward_controller.cpp:99-151 | a session that reports a goal succeeded before any of it is issued, because primitives of a canceled goal were executed |
| `MotionRuns.OneReportPerGoal` | motion_primitives_controllers/src/motion_primitives_forward_controller.cpp:111-151 | on every run a goal gets at most one report |
| `MotionRuns.StopFromOutsideCancels` | motion_primitives_controllers/src/motion_primitives_forward_controller.cpp:136-151 | canceled is reported exactly for an active goal when STOPPED is observed and the handle is free, whoever stopped the robot |
| `MotionRuns.CancelReportEmptiesTheQueueExactly` | motion_primitives_controllers/src/motion_primitives_forward_controller.cpp:78-151 | an update that reports a goal canceled leaves nothing to be issued if and only if a cancellation was waiting or the queue was empty |
| `MotionRuns.CanceledGoalIsIssued` | motion_primitives_controllers/src/motion_primitives_forward_controller.cpp:136-216 | what such an update leaves is really issued by it and the ready updates after it: the whole queue, or nothing if a cancellation was waiting |
| `MotionRuns.StaleStopCancelsAndIssues` | motion_primitives_controllers/src/motion_primitives_forward_controller.cpp:136-216 | a session whose only goal is reported canceled and issued one update later |
| `ForwardController.MotionPrimitivesForwardController.GoalReceivedCallback` | motion_primitives_controllers/src/motion_primitives_forward_controller.cpp:226-328 | the chain of rejections accepts exactly the acceptable goals |
| `ForwardController.MotionPrimitivesForwardController.GoalAcceptedCallback` | motion_primitives_controllers/src/motion_primitives_forward_controller.cpp:338-393 | all pushes succeed and the queue grows by the frame |
| `ForwardController.MotionPrimitivesForwardController.SetCommandInterfaces` | motion_primitives_controllers/src/motion_primitives_base_controller.cpp:131-201 | the oldest primitive is popped and every interface holds what the primitive says of it, the last argument of a name winning, or what it held before |
| `MotionRuns.WrittenShows` | motion_primitives_controllers/src/motion_primitives_base_controller.cpp:131-201 | interface by interface: type, joints, goal pose, pose on the way, blend radius and the last argument of each name |
| `ForwardController.MotionPrimitivesForwardController.Update` | motion_primitives_controllers/src/motion_primitives_forward_controller.cpp:75-224 | one update is exactly the step on which the theorems are proved |
| `Steering.BicycleOdometryInvertsExactly` | steering_controllers_library/src/steering_kinematics.cpp:124-132 | the bicycle's odometry recovers the commanded velocities from its own commands if and only if they are not a turn on the spot |
| `Steering.TricycleOdometryInvertsExactly` | steering_controllers_library/src/steering_kinematics.cpp:134-166 | the same for a tricycle, whose traction axle has two wheels, if and only if the command is not a turn on the spot and its angle is zero or outside the shortcut, or the axle has no track |
| `Steering.AckermannOdometryInvertsExactly` | steering_controllers_library/src/steering_kinematics.cpp:168-186 | for an Ackermann vehicle both commanded wheel speeds and both steering angles give back the commanded velocities and angle if and only if the command is not a turn on the spot and its angle is zero or outside the shortcut, or the vehicle has no track at all |
| `Steering.TurningOnTheSpotIsLost` | steering_controllers_library/src/steering_kinematics.cpp:228-255 | a bicycle that is told to turn on the spot: the wheel is commanded to rest and the odometry sees no turning |
| `Steering.RestIsRecovered` | steering_controllers_library/src/steering_kinematics.cpp:228-233 | standing still is recovered although the angle is not defined by a quotient |
| `RigidBody.TractionFollowsTheBody` | steering_controllers_library/src/steering_kinematics.cpp:283-325 | each traction wheel is commanded the speed over ground that the twist gives its place |
| `RigidBody.SteeringFollowsTheBody` | steering_controllers_library/src/steering_kinematics.cpp:303-325 | each steered wheel is commanded to point where the twist moves its place |
| `RigidBody.SpotSteersSideways` | steering_controllers_library/src/steering_kinematics.cpp:228-325 | told to turn on the spot, the wheels stand still and the steering goes to a right angle on the side of the turn |
| `Steering.ClosedLoopAgreesWhenReached` | steering_controllers_library/src/steering_kinematics.cpp:254-282 | once the measured steering angle is the wanted one, closed loop commands what open loop does, reduced speed included |
| `RigidBody.ClosedLoopFollowsTheMeasuredAngle` | steering_controllers_library/src/steering_kinematics.cpp:254-325 | in closed loop the traction wheels roll with a body that moves at the slowed speed on the curve of the measured steering angle |
| `RigidBody.ClosedLoopSteersAtOnce` | steering_controllers_library/src/steering_kinematics.cpp:283-325 | the steering is told the wanted angle at once; while an Ackermann vehicle's steering stands straight ahead both wheels are told one angle and show the wanted one if and only if they have no track |
| `RigidBody.ReductionInNumbers` | steering_controllers_library/src/steering_kinematics.cpp:262-280 | the factor of the slowed speed |
| `Steering.TricycleShortcut` | steering_controllers_library/src/steering_kinematics.cpp:293-297 | for a tricycle inside the shortcut for small angles the linear velocity is recovered if and only if the traction axle has no track |
| `Steering.AckermannShortcut` | steering_controllers_library/src/steering_kinematics.cpp:168-186 | for an Ackermann vehicle inside the shortcut both wheels are steered alike; the linear velocity is recovered if and only if the traction axle has no track, the angle if and only if the steered axle has none |
| `Steering.ShortcutMissesTheCommand` | steering_controllers_library/src/steering_kinematics.cpp:293-297 | a slowly turning tricycle and Ackermann vehicle of which one metre per second is commanded and not given back |
| `SteeringOdometry.CentreStays` | steering_controllers_library/src/steering_kinematics.cpp:376-384 | the exact integration turns the vehicle about a point that stays where it is |
| `RigidBody.PoseMoves` | steering_controllers_library/src/steering_kinematics.cpp:356-387 | the heading turns by angular velocity times period, and the position moves along the half-way heading or about a centre that stays |
| `RigidBody.AxleTakesTheMean` | steering_controllers_library/src/steering_kinematics.cpp:134-153 | for any readings the linear velocity is the mean of what both wheels show on their own |
| `SteeringOdometry.SteeringKinematics.UpdateFromFourWheels` | steering_controllers_library/src/steering_kinematics.cpp:168-186 | steering position, integrated pose and the velocities handed on are those of the specification; too short a period hands nothing on |
| `SteeringOdometry.SteeringKinematics.UpdateFromAxle` | steering_controllers_library/src/steering_kinematics.cpp:155-166 | the same for one steering angle |
| `MecanumKinematics.OdometryInvertsCommands` | mecanum_drive_controller/src/odometry.cpp:69-96 | the twist estimated from the commanded wheel speeds is the commanded one, for every offset and rotation of the base frame |
| `RigidBody.WheelsRoll` | mecanum_drive_controller/src/mecanum_drive_controller.cpp:640-668 | the four commanded speeds in the order of the interfaces, from the twist of the centre |
| `RigidBody.BaseMovesWithTheCentre` | mecanum_drive_controller/src/mecanum_drive_controller.cpp:621-638 | the centre moves with the body on which the base frame lies at its offset and angle |
| `MecanumKinematics.ProjectionRemovesSlip` | mecanum_drive_controller/src/mecanum_drive_controller.cpp:621-660 | commanding the estimated twist subtracts the slip from two wheels and adds it to the others, and changes nothing else |
| `MecanumKinematics.ProjectionIsIdempotent` | mecanum_drive_controller/src/mecanum_drive_controller.cpp:621-660 | forward then inverse is idempotent, and the identity if and only if there is no slip |
| `MecanumController.Odometry.Update` | mecanum_drive_controller/src/odometry.cpp:54-100 | too short a period changes nothing; otherwise the twist is the estimate, and orientation and position are integrated |
| `MecanumController.MecanumDriveController.UpdateAndWriteCommands` | mecanum_drive_controller/src/mecanum_drive_controller.cpp:587-682 | command history and the four interfaces after an update, with interfaces that may refuse a value |
| `MecanumController.MissingReferenceStopsOneWheel` | mecanum_drive_controller/src/mecanum_drive_controller.cpp:671-682 | without a reference all wheels end at zero if and only if every wheel but the first that accepts was at zero before |
| `MecanumController.WheelStopsOnlyAsFirstToAccept` | mecanum_drive_controller/src/mecanum_drive_controller.cpp:671-682 | over any number of updates without a reference a wheel ends at zero if and only if it was there or was once the first whose interface accepts |
| `MecanumController.MovingRobotKeepsMoving` | mecanum_drive_controller/src/mecanum_drive_controller.cpp:671-682 | four turning wheels of which an update without a reference stops one |

## Left out

- Node lifecycle, parameters, publishers, subscriptions, logging, URDF and TF: they are inputs or constants here.
- PID control, filters, kinematics plugins and the control_toolbox rate limiter of the mecanum and diff-drive controllers: the limited mecanum command is a parameter.
- `RealtimeBuffer`, the thread-safe boxes and the lock-free queue are an atomic cell and a bounded queue; a lock that may be taken is an input.
- Interleavings of threads inside one callback or update: each is one atomic step.
- Rounding of floating-point numbers and of durations to nanoseconds, overflow and infinities. Where an infinite radius is the code's straight line, the model branches on a zero tangent.
- `wraparound_joint` and `angles::shortest_angular_distance`: no joint wraps around here.
- `query_state_service`: it samples at arbitrary times with the monotone flag set.
- Of the stop-ramp segment in which a joint stops, the velocity between the two ramp points. Speeds up to the single-precision epsilon count as rest in the code and are excluded from the sampling theorem.
- The stop ramp is stated for controllers that command all joints, and completion and reordering for readable hold values.
- A trajectory message that is not there, or has no points when it is installed with a state before it: the code reads its first point unguarded.
- `LookAhead.LookAheadAgrees` and `LookAhead.RunAgrees` justify reading "the look-ahead is before the last point" off the times; the verdicts of an update do not change what they are about.
- The hold message and the stop message are mutable objects used again and again; the protocol tracks their identity and takes the stop message's current end time as an input.
- The window and run theorems of the limiters ask for zero minimum limits, and for the steering that minimum does not exceed maximum; what `std::clamp` does with crossed bounds is undefined, and the model then applies the lower bound first. The initial steering angle zero has to lie within the position limits.
- The scaling of the tricycle's wheel speed by the steering error: it changes the request, not the limiting.
- More than 24 joint positions in one motion primitive would be written past the command interfaces; the code does not reject them and the model leaves them out. The numeric codes of the motion types come from control_msgs, which is not part of this model.
- Activation and deactivation of the motion-primitives controller during a session, and command interfaces there that refuse a value.
- AckermannOdometryInvertsExactly: the vehicle does not turn about one of its wheels, and no divisor of the odometry is zero; over the real numbers these divisions are undefined, where the code goes on with infinities.
- TricycleOdometryInvertsExactly: the same for the wheels of the traction axle.
- UpdateFromFourWheels: the rolling means that filter the velocities handed on are a library's and not part of this model; the pose is integrated.
- UpdateFromAxle: the same.
- UpdateAndWriteCommands: the limiter is a library's; its result is a parameter.
- SetPointBeforeTrajectoryMsg: the offsets of joints that wrap around are not modelled, because they rest on the angles library.
- Update: the controller's update takes the sample's validity and the joint errors as inputs, and neither writes command interfaces nor sends feedback.
- The closed-loop branch of `get_commands` is modelled; its commands are inverted once the steering has reached the wanted angle, since before that the wheel speeds belong to another angle than the one commanded.
- Sensor broadcasters, forward-command, GPIO, chained-filter and admittance controllers, the gripper, and the Python programs: pass-through or bound to libraries.
