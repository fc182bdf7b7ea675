/** Sampling with interpolation off: the output is the waypoint that the motion is on its way to. */
module NextWaypoint {
  import opened TrajectoryPoints
  import opened TrajectorySampling
  import opened CachedSearch

  /** When point i is due, once a message that is to start at once has been sampled at time t. */
  function Due(s: State, t: int, i: nat): int
    requires i < |s.points|
  {
    s.points[i].timeFromStart + (if s.startTime == 0 && !s.sampledAlready then t else s.startTime)
  }

  /** Point i is the first one that is due after time t. */
  predicate FirstDueAfter(s: State, t: int, i: nat)
    requires i < |s.points|
  {
    t < Due(s, t, i) && forall j :: 0 <= j < i ==> Due(s, t, j) <= t
  }

  lemma SegmentBeforeDue(s: State, t: int, i: nat)
    requires 0 < i < |s.points| && StrictlyIncreasing(s.points) && FirstDueAfter(s, t, i) && s.timeBefore <= t
    ensures RegionOf(s, 0, t) == Inside(i - 1)
  {
    var b := Begin(s, t);
    assert Due(s, t, 0) <= t && Due(s, t, i - 1) <= t;
    assert PointTime(b, i - 1) == Due(s, t, i - 1) && PointTime(b, i) == Due(s, t, i);
    SearchSkips(b, 0, i - 1, t);
  }

  lemma AllDue(s: State, t: int)
    requires s.points != [] && StrictlyIncreasing(s.points) && s.timeBefore <= t && Due(s, t, |s.points| - 1) <= t
    ensures RegionOf(s, 0, t) == AtEnd
  {
    FullSearchEnds(s, t);
  }

  lemma NoneDue(s: State, t: int)
    requires s.points != [] && s.timeBefore <= t < Due(s, t, 0)
    ensures RegionOf(s, 0, t) == LeadIn
  {
  }

  /** A field, or zeros for every position if it is missing. */
  function OrZeros(field: seq<real>, positions: seq<real>): seq<real> {
    if field == [] then seq(|positions|, _ => 0.0) else field
  }

  /** With interpolation off a call before the recorded state leaves the output alone, a call before the first point
      returns the recorded state, and a later one the first point that is still due, with the segment that leads to it.
      Neither the message nor the recorded state is changed. */
  lemma NextWaypointSampled(s: State, t: int, i: nat)
    requires Valid(s) && i < |s.points| && StrictlyIncreasing(s.points) && FirstDueAfter(s, t, i)
    ensures var region := RegionOf(s, 0, t);
      && Defined(s, region, t, NoInterpolation)
      && Result(s, region, t, NoInterpolation)
         == (if t < s.timeBefore then Untouched
             else if i == 0 then Sampled(s.before, 0, 0)
             else Sampled(s.points[i], i - 1, i))
      && After(s, region, t, NoInterpolation).points == s.points
      && After(s, region, t, NoInterpolation).before == s.before
  {
    if s.timeBefore <= t {
      if i == 0 {
        NoneDue(s, t);
      } else {
        SegmentBeforeDue(s, t, i);
      }
    }
  }

  lemma LastGiven(s: State, t: int)
    requires Valid(s) && s.points != [] && s.points[|s.points| - 1].positions != []
    ensures var n := |s.points|; var p := s.points[n - 1];
      && Defined(s, AtEnd, t, NoInterpolation)
      && After(s, AtEnd, t, NoInterpolation).points == s.points && |p.positions| == Dim(s)
      && Result(s, AtEnd, t, NoInterpolation)
         == Sampled(TrajectoryPoint(p.positions, OrZeros(p.velocities, p.positions),
                                    OrZeros(p.accelerations, p.positions), OrZeros(p.effort, p.positions),
                                    p.timeFromStart), n - 1, n)
  {
    var p := s.points[|s.points| - 1];
    assert Sized(p, Dim(s));
    assert Zeros(|p.positions|) == seq(|p.positions|, _ => 0.0);
  }

  lemma LastRecovered(s: State, t: int)
    requires Valid(s) && s.points != [] && s.points[|s.points| - 1].positions == []
    requires Defined(s, AtEnd, t, NoInterpolation)
    ensures var n := |s.points|; var p, r := s.points[n - 1], Result(s, AtEnd, t, NoInterpolation);
      if n > 1 && s.points[n - 2].positions != [] then
        r.Sampled? && r.startSegment == n - 1 && r.endSegment == n && |r.output.positions| == Dim(s)
      else r == Unusable(p)
  {
    var b := Begin(s, t);
    if RecoversLast(b) {
      SegmentCanInterpolate(b, Last(b) - 1);
      assert Sized(s.points[Last(b) - 1], Dim(s)) && Sized(s.points[Last(b)], Dim(s));
    }
  }

  /** From the last point on that point is returned, with zeros for what it lacks; a last point without positions gets
      them from the point before it, and the call fails if that has none either. */
  lemma LastWaypointSampled(s: State, t: int)
    requires Valid(s) && s.points != [] && StrictlyIncreasing(s.points)
    requires s.timeBefore <= t && Due(s, t, |s.points| - 1) <= t && Defined(s, AtEnd, t, NoInterpolation)
    ensures var n := |s.points|; var p, r := s.points[n - 1], Result(s, AtEnd, t, NoInterpolation);
      && RegionOf(s, 0, t) == AtEnd
      && (r.Sampled? <==> p.positions != [] || (n > 1 && s.points[n - 2].positions != []))
      && (r.Sampled? ==> r.startSegment == n - 1 && r.endSegment == n && |r.output.positions| == Dim(s))
      && (p.positions != [] ==>
            && After(s, AtEnd, t, NoInterpolation).points == s.points
            && r.output == TrajectoryPoint(p.positions, OrZeros(p.velocities, p.positions),
                                           OrZeros(p.accelerations, p.positions), OrZeros(p.effort, p.positions),
                                           p.timeFromStart))
      && (!r.Sampled? ==> r == Unusable(p))
  {
    AllDue(s, t);
    if s.points[|s.points| - 1].positions != [] {
      LastGiven(s, t);
    } else {
      LastRecovered(s, t);
    }
  }

  /** What a call leaves behind besides the message: the start time, the mark that the message was sampled, and the
      cached index, which no call before the first point moves. */
  lemma CallRecords(s: State, index: nat, t: int, m: InterpolationMethod, monotone: bool)
    requires IndexOk(s, index) && Defined(s, RegionOf(s, index, t), t, m)
    ensures var region := RegionOf(s, index, t);
      var s', index' := After(s, region, t, m), NextIndex(s, index, region, monotone);
      && s'.timeBefore == s.timeBefore
      && (s.points == [] ==> s' == s && index' == index)
      && (s.points != [] ==>
            && s'.sampledAlready
            && s'.startTime == if s.startTime == 0 && !s.sampledAlready then t else s.startTime)
      && (s.points != [] && (t < s.timeBefore || t < Due(s, t, 0)) ==> index' == index)
  {
  }

  /** A monotone call moves the cached index to the segment it worked in, and every call at the end to the last
      point. */
  lemma CacheFollows(s: State, index: nat, t: int, monotone: bool, i: nat)
    requires index < |s.points| && StrictlyIncreasing(s.points) && s.timeBefore <= t && Due(s, t, index) <= t
    ensures 0 < i < |s.points| && FirstDueAfter(s, t, i) ==>
              NextIndex(s, index, RegionOf(s, index, t), monotone) == if monotone then i - 1 else index
    ensures Due(s, t, |s.points| - 1) <= t ==>
              NextIndex(s, index, RegionOf(s, index, t), monotone) == |s.points| - 1
  {
    RegionSkips(s, index, t);
    if 0 < i < |s.points| && FirstDueAfter(s, t, i) {
      SegmentBeforeDue(s, t, i);
    } else if Due(s, t, |s.points| - 1) <= t {
      AllDue(s, t);
    }
  }
}
