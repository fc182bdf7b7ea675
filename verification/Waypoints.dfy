/** What sampling returns at the waypoints of a message, and that the motion is continuous there. */
module Waypoints {
  import opened Powers
  import opened Splines
  import opened TrajectoryPoints
  import opened TrajectorySampling
  import opened CachedSearch
  import opened HistoryFree

  lemma LowCoefficients(degree: Degree, a: Knot, b: Knot, T: real)
    ensures var f := SegmentPolynomial(degree, a, b, T);
            && f.c0 == (if degree == NoDegree then 0.0 else a.pos)
            && (degree == CubicDegree || degree == QuinticDegree ==> f.c1 == a.vel)
            && (degree == QuinticDegree ==> f.c2 == 0.5 * a.acc)
  {
  }

  lemma StartOf(f: Polynomial, start: Knot)
    ensures f.c0 == start.pos ==> Position(f, 0.0) == start.pos
    ensures f.c1 == start.vel ==> Velocity(f, 0.0) == start.vel
    ensures f.c2 == 0.5 * start.acc ==> Acceleration(f, 0.0) == start.acc
  {
    AtZero(f);
  }

  lemma Departs(degree: Degree, a: Knot, b: Knot, T: real)
    ensures var f := SegmentPolynomial(degree, a, b, T);
            && Position(f, 0.0) == (if degree == NoDegree then 0.0 else a.pos)
            && (degree == CubicDegree || degree == QuinticDegree ==> Velocity(f, 0.0) == a.vel)
            && (degree == QuinticDegree ==> Acceleration(f, 0.0) == a.acc)
  {
    LowCoefficients(degree, a, b, T);
    StartOf(SegmentPolynomial(degree, a, b, T), if degree == NoDegree then a.(pos := 0.0) else a);
  }

  lemma Arrives(degree: Degree, a: Knot, b: Knot, T: real)
    requires T > 0.0
    ensures var f := SegmentPolynomial(degree, a, b, T);
            && (degree != NoDegree ==> Position(f, T) == b.pos)
            && (degree == CubicDegree || degree == QuinticDegree ==> Velocity(f, T) == b.vel)
            && (degree == QuinticDegree ==> Acceleration(f, T) == b.acc)
  {
    LinearFit(Linear(a, b, T), a, b, T);
    CubicFit(Cubic(a, b, T), a, b, T);
    QuinticFit(Quintic(a, b, T), a, b, T);
  }

  /** An installed message that supplies every position, already being sampled. Its first points may lie
      before the recorded state: a stamped message can be installed after its stamp. */
  predicate Running(s: State) {
    Valid(s) && s.points != [] && PositionsGiven(s) && StrictlyIncreasing(s.points) && s.sampledAlready
  }

  lemma RegionOnArrival(s: State, i: nat, t: int)
    requires Running(s) && i < |s.points| && Arriving(s, i, t)
    ensures RegionOf(s, 0, t) == if i == 0 then LeadIn else Inside(i - 1)
  {
    if i > 0 {
      SearchSkips(s, 0, i - 1, t);
    }
  }

  // ----- Segments that lead to and from a waypoint -----------------------------------------------

  function ArrivalFrom(s: State, i: nat): TrajectoryPoint
    requires i < |s.points|
  {
    if i == 0 then s.before else s.points[i - 1]
  }

  function ArrivalTime(s: State, i: nat): int
    requires i < |s.points|
  {
    if i == 0 then s.timeBefore else PointTime(s, i - 1)
  }

  /** Sampling at time t shows the motion towards waypoint i: not before the recorded state either. */
  predicate Arriving(s: State, i: nat, t: int)
    requires i < |s.points|
  {
    s.timeBefore <= t && ArrivalTime(s, i) <= t < PointTime(s, i)
  }

  function ArrivalDegree(s: State, i: nat): Degree
    requires i < |s.points|
  {
    DegreeOf(ArrivalFrom(s, i), s.points[i])
  }

  /** The motion of joint j towards waypoint i. */
  function ArrivalCurve(s: State, i: nat, j: nat): Polynomial
    requires i < |s.points| && j < |ArrivalFrom(s, i).positions| && j < |s.points[i].positions|
  {
    Curve(ArrivalDegree(s, i), ArrivalFrom(s, i), s.points[i], j, ArrivalDuration(s, i))
  }

  function ArrivalDuration(s: State, i: nat): real
    requires i < |s.points|
  {
    Seconds(PointTime(s, i) - ArrivalTime(s, i))
  }

  predicate SameMotion(p: TrajectoryPoint, q: TrajectoryPoint) {
    p.positions == q.positions && p.velocities == q.velocities && p.accelerations == q.accelerations
  }

  lemma CurveIgnoresEffort(degree: Degree, a: TrajectoryPoint, b: TrajectoryPoint,
                           a': TrajectoryPoint, b': TrajectoryPoint, j: nat, T: real)
    requires SameMotion(a, a') && SameMotion(b, b') && j < |a.positions| && j < |b.positions|
    ensures DegreeOf(a, b) == DegreeOf(a', b') && Curve(degree, a, b, j, T) == Curve(degree, a', b', j, T)
  {
  }

  /** The output sampled on the way to waypoint i, before its time stamp is set. */
  lemma OutputOnArrival(s: State, i: nat, t: int)
    requires Running(s) && i < |s.points| && Arriving(s, i, t)
    ensures StateAt(s, t).Sampled?
    ensures var a, b := ArrivalFrom(Settled(s), i), Settled(s).points[i];
            && CanInterpolate(a, b)
            && SameMotion(StateAt(s, t).output,
                          Interpolate(ArrivalTime(s, i), a, PointTime(s, i), b, t))
  {
    hide Interpolate, CanInterpolate, FindSegment, Sized;
    var w, region := Settled(s), RegionOf(s, 0, t);
    RegionOnArrival(s, i, t);
    SettledCanReport(s, region);
    assert StateAt(s, t) == Report(w, region, t, VariableDegreeSpline);
    assert PointTime(w, i) == PointTime(s, i) && ArrivalTime(w, i) == ArrivalTime(s, i);
  }

  lemma SettledMotion(s: State, i: nat)
    requires i < |s.points|
    ensures SameMotion(ArrivalFrom(s, i), ArrivalFrom(Settled(s), i))
    ensures i < |Settled(s).points| && SameMotion(s.points[i], Settled(s).points[i])
  {
  }

  lemma JointOnSegment(degree: Degree, a: TrajectoryPoint, b: TrajectoryPoint, T: real, x: real, j: nat)
    requires CanInterpolate(a, b) && j < |a.positions|
    ensures var out := StateOnSegment(degree, a, b, T, x);
            Knot(out.positions[j], out.velocities[j], out.accelerations[j]) == KnotAt(Curve(degree, a, b, j, T), x)
  {
  }

  lemma JointBetweenPoints(a0: TrajectoryPoint, b0: TrajectoryPoint, timeA: int, a: TrajectoryPoint,
                           timeB: int, b: TrajectoryPoint, t: int, j: nat, out: TrajectoryPoint, x: real)
    requires SameMotion(a0, a) && SameMotion(b0, b) && CanInterpolate(a, b)
    requires timeA <= t <= timeB && j < |a.positions| && x == Seconds(t - timeA)
    requires SameMotion(out, Interpolate(timeA, a, timeB, b, t))
    ensures |out.positions| == |out.velocities| == |out.accelerations| == |a.positions|
    ensures Knot(out.positions[j], out.velocities[j], out.accelerations[j])
            == KnotAt(Curve(DegreeOf(a0, b0), a0, b0, j, Seconds(timeB - timeA)), x)
  {
    NoClampInside(timeA, a, timeB, b, t);
    JointOnSegment(DegreeOf(a, b), a, b, Seconds(timeB - timeA), Seconds(t - timeA), j);
    CurveIgnoresEffort(DegreeOf(a, b), a0, b0, a, b, j, Seconds(timeB - timeA));
  }

  /** Sampling succeeded, and this is what it says of joint j. */
  predicate Reports(r: Outcome, dim: nat, j: nat, joint: Knot) {
    && r.Sampled? && j < dim
    && |r.output.positions| == |r.output.velocities| == |r.output.accelerations| == dim
    && joint == Knot(r.output.positions[j], r.output.velocities[j], r.output.accelerations[j])
  }

  /** Until waypoint i is reached, sampling returns its arrival curve; no sample is clamped. */
  lemma SampleOnArrival(s: State, i: nat, t: int, j: nat, x: real)
    requires Running(s) && i < |s.points| && Arriving(s, i, t) && j < Dim(s)
    requires x == Seconds(t - ArrivalTime(s, i))
    ensures j < |ArrivalFrom(s, i).positions| && j < |s.points[i].positions|
    ensures Reports(StateAt(s, t), Dim(s), j, KnotAt(ArrivalCurve(s, i, j), x))
  {
    hide Interpolate, CanInterpolate, Settled, StateAt;
    OutputOnArrival(s, i, t);
    SettledMotion(s, i);
    ArrivalSized(s, i);
    JointBetweenPoints(ArrivalFrom(s, i), s.points[i], ArrivalTime(s, i), ArrivalFrom(Settled(s), i),
                       PointTime(s, i), Settled(s).points[i], t, j, StateAt(s, t).output, x);
  }

  lemma ArrivalSized(s: State, i: nat)
    requires Running(s) && i < |s.points|
    ensures |ArrivalFrom(s, i).positions| == |s.points[i].positions| == Dim(s)
  {
  }

  // ----- At a waypoint -------------------------------------------------------------------------

  function DepartureDegree(s: State, i: nat): Degree
    requires i + 1 < |s.points|
  {
    DegreeOf(s.points[i], s.points[i + 1])
  }

  /** The motion of joint j that sampling shows at waypoint i: its end state, or the beginning of the
      next segment. */
  function DepartureState(s: State, i: nat, j: nat): Knot
    requires i < |s.points| && forall k :: 0 <= k < |s.points| ==> j < |s.points[k].positions|
  {
    if i == Last(s) then KnotOf(s.points[i], j)
    else KnotAt(Curve(DepartureDegree(s, i), s.points[i], s.points[i + 1], j, SegmentDuration(s, i)), 0.0)
  }

  lemma JointsExist(s: State, j: nat)
    requires Running(s) && j < Dim(s)
    ensures forall k :: 0 <= k < |s.points| ==> j < |s.points[k].positions|
  {
  }

  lemma OnwardCurve(s: State, i: nat, j: nat)
    requires i + 1 < |s.points| && j < |s.points[i].positions| && j < |s.points[i + 1].positions|
    ensures ArrivalTime(s, i + 1) == PointTime(s, i)
    ensures ArrivalCurve(s, i + 1, j)
            == Curve(DepartureDegree(s, i), s.points[i], s.points[i + 1], j, SegmentDuration(s, i))
  {
  }

  lemma SampleAtWaypoint(s: State, i: nat, j: nat)
    requires Running(s) && i < |s.points| && j < Dim(s) && s.timeBefore <= PointTime(s, i)
    ensures forall k :: 0 <= k < |s.points| ==> j < |s.points[k].positions|
    ensures Reports(StateAt(s, PointTime(s, i)), Dim(s), j, DepartureState(s, i, j))
  {
    JointsExist(s, j);
    if i < Last(s) {
      OnwardCurve(s, i, j);
      SampleOnArrival(s, i + 1, PointTime(s, i), j, 0.0);
    } else {
      SampleAfterEnd(s, PointTime(s, i), j);
    }
  }

  /** From the last waypoint on, its state is returned for good, unless the recorded state is later still. */
  lemma SampleAfterEnd(s: State, t: int, j: nat)
    requires Running(s) && s.timeBefore <= t && EndTime(s) <= t && j < Dim(s)
    ensures j < |s.points[Last(s)].positions|
    ensures Reports(StateAt(s, t), Dim(s), j, KnotOf(s.points[Last(s)], j))
  {
    hide Interpolate, CanInterpolate;
    SearchSkips(s, 0, Last(s), t);
    assert RegionOf(s, 0, t) == AtEnd;
    EndIgnoresEffort(s);
  }

  /** Sampling exactly at a waypoint's time returns the waypoint's positions, whatever the degrees of
      the segments around it, with two exceptions: before the recorded state the output is left alone, and
      at the start of a segment whose two ends carry accelerations but not velocities no branch of the
      interpolation runs and zeros are returned. */
  lemma WaypointExact(s: State, i: nat)
    requires Running(s) && i < |s.points|
    ensures var r := StateAt(s, PointTime(s, i));
      if PointTime(s, i) < s.timeBefore then r == Untouched
      else
        && r.Sampled?
        && (r.output.positions == s.points[i].positions
            <==> i == Last(s) || DepartureDegree(s, i) != NoDegree || s.points[i].positions == Zeros(Dim(s)))
  {
    hide StateAt;
    if PointTime(s, i) < s.timeBefore {
      UntouchedBefore(s, PointTime(s, i));
    } else {
      WaypointPosition(s, i, 0);
      forall j | 0 <= j < Dim(s)
        ensures StateAt(s, PointTime(s, i)).output.positions[j]
                == if i == Last(s) || DepartureDegree(s, i) != NoDegree then s.points[i].positions[j] else 0.0
      {
        WaypointPosition(s, i, j);
      }
    }
  }

  lemma UntouchedBefore(s: State, t: int)
    requires Running(s)
    ensures StateAt(s, t) == Untouched <==> t < s.timeBefore
  {
  }

  lemma WaypointPosition(s: State, i: nat, j: nat)
    requires Running(s) && i < |s.points| && j < Dim(s) && s.timeBefore <= PointTime(s, i)
    ensures var r := StateAt(s, PointTime(s, i));
            && r.Sampled? && |r.output.positions| == Dim(s) == |s.points[i].positions|
            && r.output.positions[j]
               == if i == Last(s) || DepartureDegree(s, i) != NoDegree then s.points[i].positions[j] else 0.0
  {
    SampleAtWaypoint(s, i, j);
    if i < Last(s) {
      Departs(DepartureDegree(s, i), KnotOf(s.points[i], j), KnotOf(s.points[i + 1], j), SegmentDuration(s, i));
    }
  }

  predicate CarriesVelocities(s: State) {
    s.before.velocities != [] && forall i :: 0 <= i < |s.points| ==> s.points[i].velocities != []
  }

  predicate CarriesAccelerations(s: State) {
    s.before.accelerations != [] && forall i :: 0 <= i < |s.points| ==> s.points[i].accelerations != []
  }

  /** The recorded state that sampling starts from: everything the controller recorded, and zeros for rates that only
      the first point gives, so that the way to the first point is as smooth as that point asks for. */
  lemma StartsAsSmoothAsAsked(current: TrajectoryPoint, first: TrajectoryPoint)
    ensures var p := StartingPoint(current, first);
      && p.positions == current.positions && p.effort == current.effort && p.timeFromStart == current.timeFromStart
      && (current.velocities != [] ==> p.velocities == current.velocities)
      && (current.velocities == [] ==> p.velocities == seq(|first.velocities|, _ => 0.0))
      && (current.accelerations != [] ==> p.accelerations == current.accelerations)
      && (current.accelerations == [] ==> p.accelerations == seq(|first.accelerations|, _ => 0.0))
      && DegreeOf(p, first) == (if first.velocities != [] then
                                  if first.accelerations != [] then QuinticDegree else CubicDegree
                                else if first.accelerations != [] then NoDegree else LinearDegree)
  {
    assert Zeros(|first.velocities|) == seq(|first.velocities|, _ => 0.0);
    assert Zeros(|first.accelerations|) == seq(|first.accelerations|, _ => 0.0);
  }

  /** No segment into or out of waypoint i falls between the interpolation's branches. */
  predicate DegreesDefined(s: State, i: nat)
    requires i < |s.points|
  {
    ArrivalDegree(s, i) != NoDegree && (i < Last(s) ==> DepartureDegree(s, i) != NoDegree)
  }

  /** At every waypoint that takes time to reach, the motion towards it ends where the sampled motion
      goes on: in position for any mix of degrees, in velocity when all points carry velocities, in
      acceleration when they carry both. Only a first point that is not later than the recorded state takes
      no time, and nothing is shown of waypoints before that state. */
  lemma ContinuousAtWaypoint(s: State, i: nat, j: nat)
    requires Running(s) && i < |s.points| && j < Dim(s)
    requires s.timeBefore <= PointTime(s, i) && ArrivalTime(s, i) < PointTime(s, i)
    ensures j < |ArrivalFrom(s, i).positions| && forall k :: 0 <= k < |s.points| ==> j < |s.points[k].positions|
    ensures Reports(StateAt(s, PointTime(s, i)), Dim(s), j, DepartureState(s, i, j))
    ensures var left, right := KnotAt(ArrivalCurve(s, i, j), ArrivalDuration(s, i)), DepartureState(s, i, j);
            && (DegreesDefined(s, i) ==> left.pos == right.pos == s.points[i].positions[j])
            && (CarriesVelocities(s) ==> left.pos == right.pos && left.vel == right.vel)
            && (CarriesVelocities(s) && CarriesAccelerations(s) ==> left == right)
  {
    SampleAtWaypoint(s, i, j);
    Arrives(ArrivalDegree(s, i), KnotOf(ArrivalFrom(s, i), j), KnotOf(s.points[i], j), ArrivalDuration(s, i));
    if i < Last(s) {
      Departs(DepartureDegree(s, i), KnotOf(s.points[i], j), KnotOf(s.points[i + 1], j), SegmentDuration(s, i));
    }
  }

  // ----- Effort ------------------------------------------------------------------------------------

  lemma EffortOnSegment(degree: Degree, a: TrajectoryPoint, b: TrajectoryPoint, T: real, x: real, left: real, j: nat)
    requires CanInterpolate(a, b) && T > 0.0 && j < |a.positions| && left == T - x
    ensures var p := StateOnSegment(degree, a, b, T, x);
      && p.timeFromStart == 0
      && if a.effort == [] || b.effort == [] then p.effort[j] == 0.0
         else |a.effort| > j && |b.effort| > j
              && Times(T, p.effort[j]) == Times(left, a.effort[j]) + Times(x, b.effort[j])
  {
    EffortIsBlend(a, b, j, T, x);
  }

  /** The value is the mean of both efforts of joint j, weighted by the time left to each. */
  predicate Blends(value: real, timeA: int, a: TrajectoryPoint, timeB: int, b: TrajectoryPoint, t: int, j: nat) {
    if a.effort == [] || b.effort == [] then value == 0.0
    else j < |a.effort| && j < |b.effort|
         && Times(Seconds(timeB - timeA), value)
            == Times(Seconds(timeB - t), a.effort[j]) + Times(Seconds(t - timeA), b.effort[j])
  }

  lemma LeadInBlends(w: State, t: int, j: nat)
    requires w.points != [] && CanInterpolate(w.before, w.points[0]) && w.timeBefore <= t < PointTime(w, 0)
    requires j < |UnclampedLeadIn(w, t).effort|
    ensures var p := UnclampedLeadIn(w, t);
      p.timeFromStart == 0 && Blends(p.effort[j], w.timeBefore, w.before, PointTime(w, 0), w.points[0], t, j)
  {
    var start, end := w.timeBefore, PointTime(w, 0);
    SecondsApart(start, t, end);
    EffortOnSegment(DegreeOf(w.before, w.points[0]), w.before, w.points[0], Seconds(end - start), Seconds(t - start),
                    Seconds(end - t), j);
  }

  lemma SegmentBlends(w: State, k: nat, t: int, j: nat)
    requires k + 1 < |w.points| && CanInterpolate(w.points[k], w.points[k + 1])
    requires PointTime(w, k) <= t < PointTime(w, k + 1) && j < |UnclampedSegment(w, k, t).effort|
    ensures Blends(UnclampedSegment(w, k, t).effort[j], PointTime(w, k), w.points[k], PointTime(w, k + 1),
                   w.points[k + 1], t, j)
  {
    var a, b := w.points[k], w.points[k + 1];
    var start, end := PointTime(w, k), PointTime(w, k + 1);
    SecondsApart(start, t, end);
    EffortOnSegment(DegreeOf(a, b), a, b, Seconds(end - start), Seconds(t - start), Seconds(end - t), j);
  }

  /** The effort between two points is the mean of theirs, weighted by the time left to each, and zero if one has none;
      inside the message the output takes the time of the point that the motion is on its way to. */
  lemma EffortSampled(s: State, index: nat, t: int, j: nat)
    requires Valid(s) && IndexOk(s, index) && Defined(s, RegionOf(s, index, t), t, VariableDegreeSpline)
    ensures var region := RegionOf(s, index, t);
            var w, r := After(s, region, t, VariableDegreeSpline), Result(s, region, t, VariableDegreeSpline);
            && (region.LeadIn? ==>
                  && r.Sampled? && w.points != [] && r.output.timeFromStart == 0
                  && (j < |r.output.effort| ==>
                        Blends(r.output.effort[j], w.timeBefore, w.before, PointTime(w, 0), w.points[0], t, j)))
            && (region.Inside? ==>
                  var k := region.segment;
                  && r.Sampled? && k + 1 < |w.points| && r.output.timeFromStart == w.points[k + 1].timeFromStart
                  && (j < |r.output.effort| ==>
                        Blends(r.output.effort[j], PointTime(w, k), w.points[k], PointTime(w, k + 1), w.points[k + 1],
                               t, j)))
  {
    var region := RegionOf(s, index, t);
    var w := After(s, region, t, VariableDegreeSpline);
    NoSampleIsClamped(s, index, t);
    SampleBetween(s, index, t);
    hide *;
    hide Blends, UnclampedLeadIn, UnclampedSegment;
    if region.LeadIn? && j < |UnclampedLeadIn(w, t).effort| {
      LeadInBlends(w, t, j);
    } else if region.Inside? && j < |UnclampedSegment(w, region.segment, t).effort| {
      SegmentBlends(w, region.segment, t, j);
    }
  }

  lemma SampleBetween(s: State, index: nat, t: int)
    requires Valid(s) && IndexOk(s, index) && Defined(s, RegionOf(s, index, t), t, VariableDegreeSpline)
    ensures var region := RegionOf(s, index, t); var w := After(s, region, t, VariableDegreeSpline);
      && (region.LeadIn? ==> w.points != [] && w.timeBefore <= t < PointTime(w, 0))
      && (region.Inside? ==> var k := region.segment;
            k + 1 < |w.points| && PointTime(w, k) <= t < PointTime(w, k + 1))
  {
    SampleLiesBetween(s, index, t);
    WorkKeepsTimes(s, index, t);
    hide CanInterpolate, CanDeduce, Sized, Worked, FindSegment;
  }

  lemma SecondsApart(a: int, t: int, b: int)
    ensures Seconds(b - t) == Seconds(b - a) - Seconds(t - a)
    ensures a < b ==> Seconds(b - a) > 0.0
  {
  }
}
