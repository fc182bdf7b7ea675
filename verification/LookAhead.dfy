/** The protocol reads off the times whether the look-ahead sample falls before the last point; sampling the
    trajectory says the same. */
module LookAhead {
  import opened Options
  import P = GoalProtocol
  import T = TrajectorySampling
  import CachedSearch
  import HistoryFree

  /** The trajectory object holds the message that the protocol has installed. */
  predicate Holds(c: P.Config, s: P.State, tick: P.Tick, trajectory: T.State)
    requires s.current.Some?
  {
    && trajectory.points != [] && T.StrictlyIncreasing(trajectory.points)
    && trajectory.startTime == s.startTime && trajectory.sampledAlready == s.sampled
    && trajectory.points[|trajectory.points| - 1].timeFromStart
       == (if P.IsInternalHold(c, s.current.value) then tick.internalLastTime else s.current.value.lastTime)
  }

  /** The first sample of an update fixes start time and latch as the protocol's clock does. */
  lemma ClockLatchesAsSamplingDoes(c: P.Config, s: P.State, tick: P.Tick, trajectory: T.State)
    requires s.current.Some? && Holds(c, s, tick, trajectory)
    ensures var q := P.Clock(s, tick);
      var b := T.Begin(trajectory, q.trajTime);
      b.startTime == q.startTime && b.sampledAlready && q.sampled && T.EndTime(b) == P.EndOf(c, q, tick)
  {
  }

  /** After that sample the look-ahead lands behind the last segment exactly when the protocol says that it is
      not before the last point. */
  lemma LookAheadAgrees(c: P.Config, s: P.State, tick: P.Tick, trajectory: T.State, index: nat)
    requires s.current.Some? && Holds(c, s, tick, trajectory) && index < |trajectory.points|
    requires var q := P.Clock(s, tick);
      var b := T.Begin(trajectory, q.trajTime);
      && CachedSearch.CacheReaches(b, index, q.trajTime + c.period)
      && b.timeBefore <= q.trajTime + c.period
    ensures var q := P.Clock(s, tick);
      var b := T.Begin(trajectory, q.trajTime);
      T.RegionOf(b, index, q.trajTime + c.period).AtEnd? <==> !P.BeforeLast(c, q, tick)
  {
    ClockLatchesAsSamplingDoes(c, s, tick, trajectory);
    var q := P.Clock(s, tick);
    var b := T.Begin(trajectory, q.trajTime);
    CachedSearch.EndExactlyAtLastPoint(b, index, q.trajTime + c.period);
  }

  // ----- Along a run --------------------------------------------------------------------------------------

  /** What the protocol and the trajectory object hold between two updates that install nothing. */
  datatype Pair = Pair(s: P.State, trajectory: T.State, index: nat)

  /** A message that supplies every position, being sampled, with the cached index not ahead of the time t. */
  predicate Sampled(b: T.State, index: nat, t: int) {
    && T.Valid(b) && HistoryFree.PositionsGiven(b) && b.points != [] && T.StrictlyIncreasing(b.points)
    && b.sampledAlready && index < |b.points| && b.timeBefore <= t
    && (index == 0 || T.PointTime(b, index) <= t)
  }

  predicate SameTimes(a: T.State, b: T.State) {
    && |a.points| == |b.points| && a.startTime == b.startTime && a.timeBefore == b.timeBefore
    && forall i :: 0 <= i < |a.points| ==> a.points[i].timeFromStart == b.points[i].timeFromStart
  }

  lemma CallIsDefined(b: T.State, region: T.Region, t: int)
    requires T.Valid(b) && HistoryFree.PositionsGiven(b) && T.StrictlyIncreasing(b.points) && b.sampledAlready
    requires T.Fits(region, b) && region != T.Nothing
    ensures T.Defined(b, region, t, T.VariableDegreeSpline)
    ensures var f := T.After(b, region, t, T.VariableDegreeSpline);
      && SameTimes(f, b) && T.Valid(f) && HistoryFree.PositionsGiven(f) && f.sampledAlready
      && T.StrictlyIncreasing(f.points)
  {
    HistoryFree.WorkOnlySettles(b, region);
    T.SampleOnlyAdds(b, region, t, T.VariableDegreeSpline);
  }

  lemma IndexNotAhead(b: T.State, index: nat, t: int, monotone: bool)
    requires Sampled(b, index, t) && (T.RegionOf(b, index, t).AtEnd? ==> t >= T.EndTime(b))
    ensures var i := T.NextIndex(b, index, T.RegionOf(b, index, t), monotone);
      i < |b.points| && (i == 0 || T.PointTime(b, i) <= t)
  {
  }

  /** A sample or a look-ahead is defined, keeps the times, leaves the index not ahead, and lands at the end exactly
      when its time has reached the last point. */
  lemma CallKeepsTrack(b: T.State, index: nat, t: int, monotone: bool)
    requires Sampled(b, index, t)
    ensures var region := T.RegionOf(b, index, t);
      && T.Defined(b, region, t, T.VariableDegreeSpline)
      && var f := T.After(b, region, t, T.VariableDegreeSpline);
      SameTimes(f, b) && Sampled(f, T.NextIndex(b, index, region, monotone), t)
    ensures T.RegionOf(b, index, t).AtEnd? <==> t >= T.EndTime(b)
  {
    var region := T.RegionOf(b, index, t);
    CallIsDefined(b, region, t);
    CachedSearch.EndExactlyAtLastPoint(b, index, t);
    IndexNotAhead(b, index, t, monotone);
  }

  /** The clock moves, the trajectory is sampled at its time, and one period ahead. */
  function Begun(x: Pair, tick: P.Tick): T.State
    requires x.s.current.Some?
  {
    T.Begin(x.trajectory, P.Clock(x.s, tick).trajTime)
  }

  predicate Tracks(c: P.Config, x: Pair, tick: P.Tick) {
    && x.s.current.Some? && Holds(c, x.s, tick, x.trajectory)
    && Sampled(Begun(x, tick), x.index, P.Clock(x.s, tick).trajTime)
  }

  function AfterSample(c: P.Config, x: Pair, tick: P.Tick): (r: (T.State, nat))
    requires Tracks(c, x, tick)
    ensures SameTimes(r.0, Begun(x, tick)) && Sampled(r.0, r.1, P.Clock(x.s, tick).trajTime)
  {
    var b, t := Begun(x, tick), P.Clock(x.s, tick).trajTime;
    CallKeepsTrack(b, x.index, t, true);
    var region := T.RegionOf(b, x.index, t);
    (T.After(b, region, t, T.VariableDegreeSpline), T.NextIndex(b, x.index, region, true))
  }

  function AfterUpdate(c: P.Config, x: Pair, tick: P.Tick): (r: Pair)
    requires Tracks(c, x, tick) && c.period >= 0
    ensures r.s == P.Clock(x.s, tick) && SameTimes(r.trajectory, Begun(x, tick))
    ensures Sampled(r.trajectory, r.index, r.s.trajTime + c.period)
  {
    var q := P.Clock(x.s, tick);
    var (b, index) := AfterSample(c, x, tick);
    var t := q.trajTime + c.period;
    CallKeepsTrack(b, index, t, false);
    var region := T.RegionOf(b, index, t);
    Pair(q, T.After(b, region, t, T.VariableDegreeSpline), T.NextIndex(b, index, region, false))
  }

  /** The look-ahead of an update lands at the end exactly when the protocol says that the last point is reached. */
  predicate Agrees(c: P.Config, x: Pair, tick: P.Tick)
    requires Tracks(c, x, tick)
  {
    var q := P.Clock(x.s, tick);
    var (b, index) := AfterSample(c, x, tick);
    T.RegionOf(b, index, q.trajTime + c.period).AtEnd? <==> !P.BeforeLast(c, q, tick)
  }

  lemma SameEnd(a: T.State, b: T.State)
    requires SameTimes(a, b) && b.points != []
    ensures T.EndTime(a) == T.EndTime(b)
    ensures a.points[|a.points| - 1].timeFromStart == b.points[|b.points| - 1].timeFromStart
  {
  }

  lemma UpdateAgrees(c: P.Config, x: Pair, tick: P.Tick)
    requires Tracks(c, x, tick) && c.period >= 0
    ensures Agrees(c, x, tick)
  {
    hide AfterSample, SameTimes, Holds, T.RegionOf, T.After, T.NextIndex, T.Begin, T.EndTime;
    var q := P.Clock(x.s, tick);
    var (b, index) := AfterSample(c, x, tick);
    ClockLatchesAsSamplingDoes(c, x.s, tick, x.trajectory);
    SameEnd(b, Begun(x, tick));
    CallKeepsTrack(b, index, q.trajTime + c.period, false);
  }

  /** The trajectory time moves at least one period, and an internal message ends where it did. */
  predicate Onward(c: P.Config, a: P.Tick, b: P.Tick) {
    b.advance >= c.period && a.internalLastTime == b.internalLastTime
  }

  lemma SampledLater(b: T.State, index: nat, t: int, later: int)
    requires Sampled(b, index, t) && t <= later
    ensures Sampled(b, index, later) && T.Begin(b, later) == b
  {
  }

  lemma HeldOnward(c: P.Config, x: Pair, y: Pair, tick: P.Tick, next: P.Tick)
    requires x.s.current.Some? && Holds(c, x.s, tick, x.trajectory) && Onward(c, tick, next)
    requires y.s == P.Clock(x.s, tick) && SameTimes(y.trajectory, Begun(x, tick)) && y.trajectory.sampledAlready
    requires T.StrictlyIncreasing(y.trajectory.points)
    ensures Holds(c, y.s, next, y.trajectory)
  {
    hide T.StrictlyIncreasing;
    SameEnd(y.trajectory, Begun(x, tick));
  }

  lemma UpdateKeepsTrack(c: P.Config, x: Pair, tick: P.Tick, next: P.Tick)
    requires Tracks(c, x, tick) && c.period >= 0 && Onward(c, tick, next)
    ensures Tracks(c, AfterUpdate(c, x, tick), next)
  {
    hide AfterUpdate, SameTimes, Holds, T.StrictlyIncreasing, T.Valid, T.Begin;
    var y := AfterUpdate(c, x, tick);
    HeldOnward(c, x, y, tick, next);
    var t := P.Clock(y.s, next).trajTime;
    assert t >= y.s.trajTime + c.period by {
      assert y.s.sampled;
    }
    SampledLater(y.trajectory, y.index, y.s.trajTime + c.period, t);
  }

  predicate AgreesThroughout(c: P.Config, x: Pair, ticks: seq<P.Tick>)
    requires c.period >= 0
    decreases |ticks|
  {
    ticks == [] || (&& Tracks(c, x, ticks[0]) && Agrees(c, x, ticks[0])
                    && AgreesThroughout(c, AfterUpdate(c, x, ticks[0]), ticks[1..]))
  }

  /** On every run of updates that installs nothing, at full speed or faster, sampling and the protocol agree about the
      last point at every update. */
  lemma {:induction false} RunAgrees(c: P.Config, x: Pair, ticks: seq<P.Tick>)
    requires c.period >= 0 && (ticks != [] ==> Tracks(c, x, ticks[0]))
    requires forall i :: 0 < i < |ticks| ==> Onward(c, ticks[i - 1], ticks[i])
    ensures AgreesThroughout(c, x, ticks)
    decreases |ticks|
  {
    if ticks != [] {
      UpdateAgrees(c, x, ticks[0]);
      if |ticks| > 1 {
        assert Onward(c, ticks[0], ticks[1]);
        UpdateKeepsTrack(c, x, ticks[0], ticks[1]);
      }
      forall i | 0 < i < |ticks[1..]|
        ensures Onward(c, ticks[1..][i - 1], ticks[1..][i])
      {
        assert Onward(c, ticks[i + 1 - 1], ticks[i + 1]);
      }
      RunAgrees(c, AfterUpdate(c, x, ticks[0]), ticks[1..]);
    }
  }

  /** A message that has just been installed, whatever its stamp: the run starts here. */
  lemma InstallationStartsTheRun(c: P.Config, s: P.State, m: P.Msg, time: int, tick: P.Tick, trajectory: T.State)
    requires T.Valid(trajectory) && HistoryFree.PositionsGiven(trajectory) && trajectory.points != []
    requires T.StrictlyIncreasing(trajectory.points)
    requires trajectory.startTime == m.stamp && !trajectory.sampledAlready && trajectory.timeBefore <= tick.time
    requires T.PointTime(trajectory, T.Last(trajectory))
          == m.stamp + (if P.IsInternalHold(c, m) then tick.internalLastTime else m.lastTime)
    ensures Tracks(c, Pair(P.InstallPhase(s, Some(m), time).0, trajectory, 0), tick)
  {
  }
}
