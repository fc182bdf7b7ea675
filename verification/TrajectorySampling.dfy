/** Sampling a trajectory message: the state machine behind `Trajectory::sample`, and the class that
    runs it in place on a shared message. */
module TrajectorySampling {
  import opened TrajectoryPoints

  datatype InterpolationMethod = NoInterpolation | VariableDegreeSpline

  /** Everything a call of sample reads or writes except the cached index. Times are absolute
      nanoseconds. */
  datatype State = State(
    points: seq<TrajectoryPoint>,
    startTime: int,
    timeBefore: int,
    before: TrajectoryPoint,
    sampledAlready: bool)

  /** What the caller sees. A segment is the pair of its point indices; |points| is the end iterator.
      Untouched leaves every output argument as it was; Unusable wrote an output without positions. */
  datatype Outcome =
    | NoPoints
    | Untouched
    | Unusable(output: TrajectoryPoint)
    | Sampled(output: TrajectoryPoint, startSegment: nat, endSegment: nat)
  {
    predicate Success() { Sampled? }
  }

  function PointTime(s: State, i: nat): int
    requires i < |s.points|
  {
    s.startTime + s.points[i].timeFromStart
  }

  function Last(s: State): nat
    requires s.points != []
  {
    |s.points| - 1
  }

  function EndTime(s: State): int
    requires s.points != []
  {
    PointTime(s, Last(s))
  }

  /** One entry per joint in every field that is present, at least one joint, and a state to start
      from. */
  predicate Valid(s: State) {
    && |s.before.positions| > 0
    && Sized(s.before, Dim(s))
    && (forall i :: 0 <= i < |s.points| ==> Sized(s.points[i], Dim(s)))
  }

  function Dim(s: State): nat { |s.before.positions| }

  predicate StrictlyIncreasing(points: seq<TrajectoryPoint>) {
    forall i, j :: 0 <= i < j < |points| ==> points[i].timeFromStart < points[j].timeFromStart
  }

  // ----- One call of sample --------------------------------------------------------------------

  /** The first call fixes the start time of a message that is to start at once. */
  function Begin(s: State, t: int): State {
    if s.sampledAlready then s
    else s.(startTime := if s.startTime == 0 then t else s.startTime, sampledAlready := true)
  }

  /** Linear search from index i for the segment holding t; the last index if there is none. */
  function FindSegment(s: State, i: nat, t: int): (k: nat)
    requires i < |s.points|
    ensures i <= k <= Last(s)
    ensures k < Last(s) ==> PointTime(s, k) <= t < PointTime(s, k + 1)
    ensures forall j :: i <= j < k ==> !(PointTime(s, j) <= t < PointTime(s, j + 1))
    decreases |s.points| - i
  {
    if i == Last(s) then i
    else if PointTime(s, i) <= t < PointTime(s, i + 1) then i
    else FindSegment(s, i + 1, t)
  }

  function LeadInDuration(s: State): real
    requires s.points != []
  {
    Seconds(PointTime(s, 0) - s.timeBefore)
  }

  function SegmentDuration(s: State, i: nat): real
    requires i + 1 < |s.points|
  {
    Seconds(PointTime(s, i + 1) - PointTime(s, i))
  }

  function DeduceLeadIn(s: State): State
    requires s.points != [] && CanDeduce(s.before, s.points[0], Dim(s))
  {
    s.(before := DeducedFirst(s.before, s.points[0], Dim(s)),
       points := s.points[0 := DeducedSecond(s.before, s.points[0], Dim(s), LeadInDuration(s))])
  }

  function DeduceSegment(s: State, i: nat): State
    requires i + 1 < |s.points| && CanDeduce(s.points[i], s.points[i + 1], Dim(s))
  {
    s.(points := s.points[i := DeducedFirst(s.points[i], s.points[i + 1], Dim(s))]
                         [i + 1 := DeducedSecond(s.points[i], s.points[i + 1], Dim(s), SegmentDuration(s, i))])
  }

  /** The last point alone can still get its positions after its segment was jumped over. */
  predicate RecoversLast(s: State)
    requires s.points != []
  {
    Last(s) > 0 && s.points[Last(s)].positions == [] && s.points[Last(s) - 1].positions != []
  }

  function Recovered(s: State): State
    requires s.points != []
    requires RecoversLast(s) ==> CanDeduce(s.points[Last(s) - 1], s.points[Last(s)], Dim(s))
  {
    if RecoversLast(s) then DeduceSegment(s, Last(s) - 1) else s
  }

  /** The part of the trajectory that a call works in. */
  datatype Region = Nothing | TooEarly | LeadIn | Inside(segment: nat) | AtEnd

  predicate IndexOk(s: State, index: nat) {
    s.points != [] ==> index < |s.points|
  }

  /** The part that a call at time t works in when it searches from the given index. */
  function RegionOf(s: State, index: nat, t: int): (r: Region)
    requires IndexOk(s, index)
    ensures Fits(r, Begin(s, t))
    ensures r.Nothing? <==> s.points == []
  {
    if s.points == [] then Nothing
    else
      var b := Begin(s, t);
      if t < b.timeBefore then TooEarly
      else if t < PointTime(b, 0) then LeadIn
      else
        var k := FindSegment(b, index, t);
        if k < Last(b) then Inside(k) else AtEnd
  }

  /** The region names points that exist. */
  predicate Fits(region: Region, b: State) {
    match region
    case Nothing => true
    case TooEarly => true
    case LeadIn => b.points != []
    case Inside(k) => k + 1 < |b.points|
    case AtEnd => b.points != []
  }

  /** The only reads that nothing guards are those of deduction. */
  predicate CanWork(b: State, region: Region, m: InterpolationMethod)
    requires Fits(region, b)
  {
    match region
    case Nothing => true
    case TooEarly => true
    case LeadIn => m == VariableDegreeSpline ==> CanDeduce(b.before, b.points[0], Dim(b))
    case Inside(k) => m == VariableDegreeSpline ==> CanDeduce(b.points[k], b.points[k + 1], Dim(b))
    case AtEnd => RecoversLast(b) ==> CanDeduce(b.points[Last(b) - 1], b.points[Last(b)], Dim(b))
  }

  /** What working in a region leaves in the message and in the state before it. */
  function Worked(b: State, region: Region, m: InterpolationMethod): State
    requires Fits(region, b) && CanWork(b, region, m)
  {
    match region
    case Nothing => b
    case TooEarly => b
    case LeadIn => if m == VariableDegreeSpline then DeduceLeadIn(b) else b
    case Inside(k) => if m == VariableDegreeSpline then DeduceSegment(b, k) else b
    case AtEnd => Recovered(b)
  }

  /** The cached index after a call: moved by a monotone call inside the message, and by every call at
      the end, monotone or not. */
  function NextIndex(s: State, index: nat, region: Region, monotone: bool): nat
    requires Fits(region, s)
  {
    match region
    case Inside(k) => if monotone then k else index
    case AtEnd => Last(s)
    case _ => index
  }

  /** A call that works in the given region reads no entry that is not there. */
  predicate Defined(s: State, region: Region, t: int, m: InterpolationMethod)
    requires Fits(region, Begin(s, t))
  {
    CanWork(Begin(s, t), region, m)
  }

  /** The message and the state before it after such a call. */
  function After(s: State, region: Region, t: int, m: InterpolationMethod): State
    requires Fits(region, Begin(s, t)) && Defined(s, region, t, m)
  {
    if region == Nothing then s else Worked(Begin(s, t), region, m)
  }

  /** The state at time t on the lead-in to the first point. */
  function OnLeadIn(s: State, t: int): TrajectoryPoint
    requires s.points != [] && CanInterpolate(s.before, s.points[0])
  {
    Interpolate(s.timeBefore, s.before, PointTime(s, 0), s.points[0], t)
  }

  function OnSegment(s: State, k: nat, t: int): TrajectoryPoint
    requires k + 1 < |s.points| && CanInterpolate(s.points[k], s.points[k + 1])
  {
    Interpolate(PointTime(s, k), s.points[k], PointTime(s, k + 1), s.points[k + 1], t)
      .(timeFromStart := s.points[k + 1].timeFromStart)
  }

  /** The last point with its missing derivatives and effort as zeros. */
  function AtRestAfter(p: TrajectoryPoint): TrajectoryPoint {
    var n := |p.positions|;
    p.(velocities := Filled(p.velocities, n), accelerations := Filled(p.accelerations, n),
       effort := Filled(p.effort, n))
  }

  lemma DeducedCanInterpolate(first: TrajectoryPoint, second: TrajectoryPoint, dim: nat, dt: real)
    requires dim > 0 && Sized(first, dim) && Sized(second, dim) && CanDeduce(first, second, dim)
    ensures CanInterpolate(DeducedFirst(first, second, dim), DeducedSecond(first, second, dim, dt))
  {
  }

  /** What is returned from a region, once the message has been worked on. */
  function Report(w: State, region: Region, t: int, m: InterpolationMethod): Outcome
    requires Fits(region, w)
    requires m == VariableDegreeSpline && region.LeadIn? ==> CanInterpolate(w.before, w.points[0])
    requires m == VariableDegreeSpline && region.Inside? ==>
               CanInterpolate(w.points[region.segment], w.points[region.segment + 1])
  {
    match region
    case Nothing => NoPoints
    case TooEarly => Untouched
    case LeadIn => Sampled(if m == NoInterpolation then w.before else OnLeadIn(w, t), 0, 0)
    case Inside(k) =>
      var output := if m == NoInterpolation then w.points[k + 1] else OnSegment(w, k, t);
      Sampled(output, k, k + 1)
    case AtEnd => EndOutcome(w.points)
  }

  function EndOutcome(points: seq<TrajectoryPoint>): Outcome
    requires points != []
  {
    var p := points[|points| - 1];
    if p.positions == [] then Unusable(p) else Sampled(AtRestAfter(p), |points| - 1, |points|)
  }

  lemma LeadInCanInterpolate(b: State)
    requires Valid(b) && b.points != [] && CanDeduce(b.before, b.points[0], Dim(b))
    ensures CanInterpolate(DeduceLeadIn(b).before, DeduceLeadIn(b).points[0])
  {
    DeducedCanInterpolate(b.before, b.points[0], Dim(b), LeadInDuration(b));
  }

  lemma SegmentCanInterpolate(b: State, k: nat)
    requires Valid(b) && k + 1 < |b.points| && CanDeduce(b.points[k], b.points[k + 1], Dim(b))
    ensures CanInterpolate(DeduceSegment(b, k).points[k], DeduceSegment(b, k).points[k + 1])
  {
    DeducedCanInterpolate(b.points[k], b.points[k + 1], Dim(b), SegmentDuration(b, k));
  }

  lemma WorkedFits(b: State, region: Region, m: InterpolationMethod)
    requires Fits(region, b) && CanWork(b, region, m)
    ensures Fits(region, Worked(b, region, m)) && |Worked(b, region, m).points| == |b.points|
  {
  }

  lemma WorkedCanReport(b: State, region: Region)
    requires Valid(b) && Fits(region, b) && CanWork(b, region, VariableDegreeSpline)
    ensures var w := Worked(b, region, VariableDegreeSpline);
            && (region.LeadIn? ==> CanInterpolate(w.before, w.points[0]))
            && (region.Inside? ==> CanInterpolate(w.points[region.segment], w.points[region.segment + 1]))
  {
    if region.LeadIn? {
      LeadInCanInterpolate(b);
    } else if region.Inside? {
      SegmentCanInterpolate(b, region.segment);
    }
  }

  /** What a call that works in the given region returns. */
  function Result(s: State, region: Region, t: int, m: InterpolationMethod): Outcome
    requires Valid(s) && Fits(region, Begin(s, t)) && Defined(s, region, t, m)
  {
    var b := Begin(s, t);
    WorkedFits(b, region, m);
    if m == NoInterpolation then Report(Worked(b, region, m), region, t, m)
    else
      WorkedCanReport(b, region);
      Report(Worked(b, region, m), region, t, m)
  }

  /** s' is s with some missing entries filled in and nothing else of the message changed. */
  predicate OnlyAdds(s': State, s: State) {
    && Extends(s'.before, s.before) && Dim(s') == Dim(s)
    && |s'.points| == |s.points|
    && (forall i :: 0 <= i < |s.points| ==> Extends(s'.points[i], s.points[i]))
    && s'.timeBefore == s.timeBefore
  }

  lemma DeduceSegmentAdds(s: State, i: nat)
    requires Valid(s) && i + 1 < |s.points| && CanDeduce(s.points[i], s.points[i + 1], Dim(s))
    ensures Valid(DeduceSegment(s, i)) && OnlyAdds(DeduceSegment(s, i), s)
  {
    DeductionOnlyAdds(s.points[i], s.points[i + 1], Dim(s), SegmentDuration(s, i));
  }

  lemma DeduceLeadInAdds(s: State)
    requires Valid(s) && s.points != [] && CanDeduce(s.before, s.points[0], Dim(s))
    ensures Valid(DeduceLeadIn(s)) && OnlyAdds(DeduceLeadIn(s), s)
  {
    DeductionOnlyAdds(s.before, s.points[0], Dim(s), LeadInDuration(s));
  }

  lemma RecoveredAdds(s: State)
    requires Valid(s) && s.points != []
    requires RecoversLast(s) ==> CanDeduce(s.points[Last(s) - 1], s.points[Last(s)], Dim(s))
    ensures Valid(Recovered(s)) && OnlyAdds(Recovered(s), s)
  {
    if RecoversLast(s) {
      DeduceSegmentAdds(s, Last(s) - 1);
    } else {
      OnlyAddsItself(s);
    }
  }

  lemma OnlyAddsItself(s: State)
    ensures OnlyAdds(s, s)
  {
  }

  lemma WorkedAdds(b: State, region: Region, m: InterpolationMethod)
    requires Valid(b) && Fits(region, b) && CanWork(b, region, m)
    ensures Valid(Worked(b, region, m)) && OnlyAdds(Worked(b, region, m), b)
  {
    OnlyAddsItself(b);
    match region
    case Nothing =>
    case TooEarly =>
    case LeadIn =>
      if m == VariableDegreeSpline {
        DeduceLeadInAdds(b);
      }
    case Inside(k) =>
      if m == VariableDegreeSpline {
        DeduceSegmentAdds(b, k);
      }
    case AtEnd => RecoveredAdds(b);
  }

  /** A call only adds missing entries to the message: nothing supplied is overwritten, and the point
      times never change. */
  lemma SampleOnlyAdds(s: State, region: Region, t: int, m: InterpolationMethod)
    requires Valid(s) && Fits(region, Begin(s, t)) && Defined(s, region, t, m)
    ensures Valid(After(s, region, t, m)) && OnlyAdds(After(s, region, t, m), s)
    ensures region != Nothing ==>
              && After(s, region, t, m).startTime == Begin(s, t).startTime
              && After(s, region, t, m).sampledAlready
  {
    WorkedAdds(Begin(s, t), region, m);
  }

  /** Once the start time is fixed, fixing it again changes nothing. */
  lemma BeginOnce(s: State, index: nat, t: int)
    requires IndexOk(s, index)
    ensures Begin(Begin(s, t), t) == Begin(s, t)
    ensures s.points != [] ==> RegionOf(Begin(s, t), index, t) == RegionOf(s, index, t)
  {
  }

  // ----- No sample is clamped ------------------------------------------------------------------

  /** A call works where its time lies between two ends, whatever fields are missing and wherever the search
      began. */
  lemma SampleLiesBetween(s: State, index: nat, t: int)
    requires IndexOk(s, index)
    ensures var b, region := Begin(s, t), RegionOf(s, index, t);
            && (region.LeadIn? ==> b.timeBefore <= t < PointTime(b, 0))
            && (region.Inside? ==> PointTime(b, region.segment) <= t < PointTime(b, region.segment + 1))
  {
  }

  /** What interpolation gives without its clamps, on the lead-in and on segment k. */
  function UnclampedLeadIn(w: State, t: int): TrajectoryPoint
    requires w.points != [] && CanInterpolate(w.before, w.points[0])
  {
    StateOnSegment(DegreeOf(w.before, w.points[0]), w.before, w.points[0],
                   Seconds(PointTime(w, 0) - w.timeBefore), Seconds(t - w.timeBefore))
  }

  function UnclampedSegment(w: State, k: nat, t: int): TrajectoryPoint
    requires k + 1 < |w.points| && CanInterpolate(w.points[k], w.points[k + 1])
  {
    StateOnSegment(DegreeOf(w.points[k], w.points[k + 1]), w.points[k], w.points[k + 1],
                   Seconds(PointTime(w, k + 1) - PointTime(w, k)), Seconds(t - PointTime(w, k)))
      .(timeFromStart := w.points[k + 1].timeFromStart)
  }

  lemma LeadInUnclamped(w: State, t: int)
    requires w.points != [] && CanInterpolate(w.before, w.points[0]) && w.timeBefore <= t <= PointTime(w, 0)
    ensures OnLeadIn(w, t) == UnclampedLeadIn(w, t)
  {
    NoClampInside(w.timeBefore, w.before, PointTime(w, 0), w.points[0], t);
  }

  lemma SegmentUnclamped(w: State, k: nat, t: int)
    requires k + 1 < |w.points| && CanInterpolate(w.points[k], w.points[k + 1])
    requires PointTime(w, k) <= t <= PointTime(w, k + 1)
    ensures OnSegment(w, k, t) == UnclampedSegment(w, k, t)
  {
    NoClampInside(PointTime(w, k), w.points[k], PointTime(w, k + 1), w.points[k + 1], t);
  }

  lemma WorkKeepsTimes(s: State, index: nat, t: int)
    requires Valid(s) && IndexOk(s, index) && Defined(s, RegionOf(s, index, t), t, VariableDegreeSpline)
    ensures var region, b := RegionOf(s, index, t), Begin(s, t);
            var w := Worked(b, region, VariableDegreeSpline);
            && |w.points| == |b.points| && w.timeBefore == b.timeBefore
            && forall i :: 0 <= i < |b.points| ==> PointTime(w, i) == PointTime(b, i)
  {
    WorkedAdds(Begin(s, t), RegionOf(s, index, t), VariableDegreeSpline);
  }

  /** Called from sample, the interpolation never takes a clamp: the output is the unclamped state of the message
      as the call leaves it. */
  lemma NoSampleIsClamped(s: State, index: nat, t: int)
    requires Valid(s) && IndexOk(s, index) && Defined(s, RegionOf(s, index, t), t, VariableDegreeSpline)
    ensures var region := RegionOf(s, index, t);
            var w, r := After(s, region, t, VariableDegreeSpline), Result(s, region, t, VariableDegreeSpline);
            && (region.LeadIn? ==> w.points != [] && CanInterpolate(w.before, w.points[0])
                                   && r == Sampled(UnclampedLeadIn(w, t), 0, 0))
            && (region.Inside? ==> var k := region.segment;
                                   && k + 1 < |w.points| && CanInterpolate(w.points[k], w.points[k + 1])
                                   && r == Sampled(UnclampedSegment(w, k, t), k, k + 1))
  {
    hide CanInterpolate, CanDeduce, Sized, Interpolate, StateOnSegment, Worked, FindSegment;
    hide DeduceSegment, DeduceLeadIn, Recovered;
    var b, region := Begin(s, t), RegionOf(s, index, t);
    SampleLiesBetween(s, index, t);
    WorkedFits(b, region, VariableDegreeSpline);
    WorkedCanReport(b, region);
    WorkKeepsTimes(s, index, t);
    var w := Worked(b, region, VariableDegreeSpline);
    if region.LeadIn? {
      LeadInUnclamped(w, t);
    } else if region.Inside? {
      SegmentUnclamped(w, region.segment, t);
    }
  }

  // ----- The class -----------------------------------------------------------------------------

  /** A trajectory message, shared between the caller and the trajectory that samples it. */
  class JointTrajectory {
    const stamp: int
    var jointNames: seq<string>
    var points: seq<TrajectoryPoint>

    constructor (stamp: int, jointNames: seq<string>, points: seq<TrajectoryPoint>)
      ensures this.stamp == stamp && this.jointNames == jointNames && this.points == points
    {
      this.stamp, this.jointNames, this.points := stamp, jointNames, points;
    }
  }

  class Trajectory {
    var message: JointTrajectory?
    var startTime: int
    var timeBefore: int
    var before: TrajectoryPoint
    var sampledAlready: bool
    var lastIndex: nat

    ghost function Model(): State
      reads this, message
    {
      State(if message == null then [] else message.points, startTime, timeBefore, before, sampledAlready)
    }

    constructor ()
      ensures message == null && !sampledAlready && lastIndex == 0 && timeBefore == 0 && before == BLANK
    {
      message, startTime, timeBefore, before, sampledAlready, lastIndex := null, 0, 0, BLANK, false, 0;
    }

    method Update(joint_trajectory: JointTrajectory)
      modifies this
      ensures message == joint_trajectory
      ensures Model() == old(Model()).(points := joint_trajectory.points, startTime := joint_trajectory.stamp,
                                       sampledAlready := false)
      ensures lastIndex == 0
    {
      message := joint_trajectory;
      startTime := joint_trajectory.stamp;
      sampledAlready := false;
      lastIndex := 0;
    }

    /** Records the state to start from; derivatives that only the message has start at zero. */
    method SetPointBeforeTrajectoryMsg(currentTime: int, currentPoint: TrajectoryPoint)
      requires message != null && message.points != []
      modifies this`timeBefore, this`before
      ensures Model() == old(Model()).(timeBefore := currentTime,
                                       before := StartingPoint(currentPoint, message.points[0]))
    {
      timeBefore := currentTime;
      before := currentPoint;
      if currentPoint.velocities == [] && message.points[0].velocities != [] {
        before := before.(velocities := Zeros(|message.points[0].velocities|));
      }
      if currentPoint.accelerations == [] && message.points[0].accelerations != [] {
        before := before.(accelerations := Zeros(|message.points[0].accelerations|));
      }
    }

    /** Deduction of the state before the message and its first point, in place. */
    method DeduceBeforeMessage(firstTime: int)
      requires message != null && message.points != []
      requires firstTime == startTime + message.points[0].timeFromStart
      requires CanDeduce(before, message.points[0], |before.positions|)
      modifies this`before, message
      ensures Model() == DeduceLeadIn(old(Model())) && |message.points| == |old(message.points)|
      ensures message.points[0].timeFromStart == old(message.points[0].timeFromStart)
    {
      var first, second :=
        DeduceFromDerivatives(before, message.points[0], |before.positions|, Seconds(firstTime - timeBefore));
      before := first;
      message.points := message.points[0 := second];
    }

    /** Deduction of two neighbouring points of the message, in place. */
    method DeduceInMessage(i: nat)
      requires message != null && i + 1 < |message.points|
      requires CanDeduce(message.points[i], message.points[i + 1], |before.positions|)
      modifies message
      ensures Model() == DeduceSegment(old(Model()), i) && |message.points| == |old(message.points)|
    {
      var t0, t1 := startTime + message.points[i].timeFromStart, startTime + message.points[i + 1].timeFromStart;
      var first, second :=
        DeduceFromDerivatives(message.points[i], message.points[i + 1], |before.positions|, Seconds(t1 - t0));
      message.points := message.points[i := first][i + 1 := second];
    }

    /** The search loop: the first segment from the cached index on that holds t. */
    method Search(t: int) returns (k: nat)
      requires message != null && lastIndex < |message.points|
      ensures k == FindSegment(Model(), lastIndex, t)
    {
      var last := |message.points| - 1;
      k := lastIndex;
      while k < last
        invariant lastIndex <= k <= last
        invariant FindSegment(Model(), lastIndex, t) == FindSegment(Model(), k, t)
      {
        if startTime + message.points[k].timeFromStart <= t < startTime + message.points[k + 1].timeFromStart {
          return;
        }
        k := k + 1;
      }
    }

    method LatchStart(t: int)
      modifies this`startTime, this`sampledAlready
      ensures Model() == Begin(old(Model()), t)
    {
      if !sampledAlready {
        if startTime == 0 {
          startTime := t;
        }
        sampledAlready := true;
      }
    }

    /** Where the call works, once the start time is fixed. */
    method Locate(t: int) returns (region: Region)
      requires message != null && message.points != [] && sampledAlready && lastIndex < |message.points|
      ensures region == RegionOf(Model(), lastIndex, t)
    {
      hide FindSegment;
      if t < timeBefore {
        return TooEarly;
      }
      if t < startTime + message.points[0].timeFromStart {
        return LeadIn;
      }
      var k := Search(t);
      region := if k < |message.points| - 1 then Inside(k) else AtEnd;
    }

    method Perform(region: Region, t: int, m: InterpolationMethod) returns (r: Outcome)
      requires message != null && message.points != [] && region != Nothing
      requires Valid(Model()) && Fits(region, Model()) && CanWork(Model(), region, m)
      modifies this`before, message
      ensures Model() == Worked(old(Model()), region, m)
      ensures Fits(region, Model()) && |message.points| == old(|message.points|)
      ensures m == VariableDegreeSpline && region.LeadIn? ==> CanInterpolate(before, message.points[0])
      ensures m == VariableDegreeSpline && region.Inside? ==>
                CanInterpolate(message.points[region.segment], message.points[region.segment + 1])
      ensures r == Report(Model(), region, t, m)
    {
      hide CanInterpolate, Sized, DeduceSegment, DeduceLeadIn, OnLeadIn, OnSegment;
      WorkedFits(Model(), region, m);
      match region {
        case TooEarly => r := Untouched;
        case LeadIn => r := SampleLeadIn(t, m);
        case Inside(k) => r := SampleSegment(t, m, k);
        case AtEnd => r := SampleEnd();
      }
    }

    method Sample(t: int, m: InterpolationMethod, monotone: bool) returns (r: Outcome)
      requires message != null && Valid(Model()) && IndexOk(Model(), lastIndex)
      requires Defined(Model(), RegionOf(Model(), lastIndex, t), t, m)
      modifies this, message
      ensures message == old(message)
      ensures var region := old(RegionOf(Model(), lastIndex, t));
              && r == Result(old(Model()), region, t, m)
              && Model() == After(old(Model()), region, t, m)
              && lastIndex == NextIndex(old(Model()), old(lastIndex), region, monotone)
    {
      hide CanInterpolate, Sized, DeduceSegment, DeduceLeadIn, OnLeadIn, OnSegment, FindSegment, Recovered, EndOutcome;
      if message.points == [] {
        return NoPoints;
      }
      BeginOnce(Model(), lastIndex, t);
      LatchStart(t);
      var region := Locate(t);
      r := Perform(region, t, m);
      MoveIndex(region, monotone);
    }

    method MoveIndex(region: Region, monotone: bool)
      requires message != null && Fits(region, Model())
      modifies this`lastIndex
      ensures lastIndex == NextIndex(Model(), old(lastIndex), region, monotone)
    {
      if region.Inside? && monotone {
        lastIndex := region.segment;
      } else if region.AtEnd? {
        lastIndex := |message.points| - 1;
      }
    }

    method SampleLeadIn(t: int, m: InterpolationMethod) returns (r: Outcome)
      requires message != null && Valid(Model()) && message.points != []
      requires CanWork(Model(), LeadIn, m)
      modifies this`before, message
      ensures Model() == Worked(old(Model()), LeadIn, m)
      ensures m == VariableDegreeSpline ==> CanInterpolate(before, message.points[0])
      ensures r == Report(Model(), LeadIn, t, m)
    {
      hide DeduceLeadIn, Interpolate, CanDeduce, CanInterpolate, Sized, Valid;
      var output := before;
      if m == VariableDegreeSpline {
        LeadInCanInterpolate(Model());
        var firstTime := startTime + message.points[0].timeFromStart;
        DeduceBeforeMessage(firstTime);
        output := InterpolateBetweenPoints(timeBefore, before, firstTime, message.points[0], t);
      }
      r := Sampled(output, 0, 0);
    }

    method SampleSegment(t: int, m: InterpolationMethod, k: nat) returns (r: Outcome)
      requires message != null && Valid(Model()) && k + 1 < |message.points|
      requires CanWork(Model(), Inside(k), m)
      modifies message
      ensures Model() == Worked(old(Model()), Inside(k), m)
      ensures m == VariableDegreeSpline ==> CanInterpolate(message.points[k], message.points[k + 1])
      ensures r == Report(Model(), Inside(k), t, m)
    {
      hide DeduceSegment, Interpolate, CanDeduce, CanInterpolate, Sized, Valid;
      var output := message.points[k + 1];
      if m == VariableDegreeSpline {
        SegmentCanInterpolate(Model(), k);
        DeduceInMessage(k);
        var t0, t1 := startTime + message.points[k].timeFromStart, startTime + message.points[k + 1].timeFromStart;
        output := InterpolateBetweenPoints(t0, message.points[k], t1, message.points[k + 1], t);
        output := output.(timeFromStart := message.points[k + 1].timeFromStart);
      }
      r := Sampled(output, k, k + 1);
    }

    method SampleEnd() returns (r: Outcome)
      requires message != null && message.points != []
      requires CanWork(Model(), AtEnd, NoInterpolation)
      modifies message
      ensures Model() == Recovered(old(Model()))
      ensures r == EndOutcome(message.points)
    {
      var last := |message.points| - 1;
      if message.points[last].positions == [] && last > 0 {
        if message.points[last - 1].positions != [] {
          DeduceInMessage(last - 1);
        }
      }
      var output := message.points[last];
      if output.positions == [] {
        return Unusable(output);
      }
      if output.velocities == [] {
        output := output.(velocities := Zeros(|output.positions|));
      }
      if output.accelerations == [] {
        output := output.(accelerations := Zeros(|output.positions|));
      }
      if output.effort == [] {
        output := output.(effort := Zeros(|output.positions|));
      }
      r := Sampled(output, last, last + 1);
    }
  }

  /** The state before the message, completed with the derivatives its first point carries. */
  function StartingPoint(current: TrajectoryPoint, first: TrajectoryPoint): TrajectoryPoint {
    current.(
      velocities := if current.velocities == [] && first.velocities != [] then Zeros(|first.velocities|)
                    else current.velocities,
      accelerations := if current.accelerations == [] && first.accelerations != [] then Zeros(|first.accelerations|)
                       else current.accelerations)
  }
}
