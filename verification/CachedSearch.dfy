/** The cached segment index: when a search from it agrees with a search of the whole trajectory, and
    that on an ordered run of calls it always does. */
module CachedSearch {
  import opened TrajectoryPoints
  import opened TrajectorySampling

  // ----- One search ----------------------------------------------------------------------------

  lemma {:induction false} SearchSkips(s: State, j: nat, i: nat, t: int)
    requires StrictlyIncreasing(s.points) && j <= i < |s.points| && PointTime(s, i) <= t
    ensures FindSegment(s, j, t) == FindSegment(s, i, t)
    decreases i - j
  {
    if j < i {
      assert PointTime(s, j + 1) <= PointTime(s, i);
      SearchSkips(s, j + 1, i, t);
    }
  }

  lemma {:induction false} SearchStops(s: State, j: nat, i: nat, t: int)
    requires j < i < |s.points| && PointTime(s, j) <= t < PointTime(s, i)
    ensures FindSegment(s, j, t) < i
    decreases i - j
  {
    if PointTime(s, j + 1) <= t {
      SearchStops(s, j + 1, i, t);
    }
  }

  lemma {:induction false} SearchOvershoots(s: State, i: nat, t: int)
    requires StrictlyIncreasing(s.points) && i < |s.points| && t < PointTime(s, i)
    ensures FindSegment(s, i, t) == Last(s)
    decreases |s.points| - i
  {
    if i < Last(s) {
      SearchOvershoots(s, i + 1, t);
    }
  }

  predicate SameTiming(s: State, s': State) {
    && |s.points| == |s'.points| && s.startTime == s'.startTime && s.timeBefore == s'.timeBefore
    && s.sampledAlready == s'.sampledAlready
    && forall j :: 0 <= j < |s.points| ==> s.points[j].timeFromStart == s'.points[j].timeFromStart
  }

  /** The search looks at nothing but times. */
  lemma {:induction false} SameSearch(s: State, s': State, i: nat, t: int)
    requires SameTiming(s, s') && i < |s.points|
    ensures FindSegment(s, i, t) == FindSegment(s', i, t)
    decreases |s.points| - i
  {
    if i < Last(s) {
      assert PointTime(s, i) == PointTime(s', i) && PointTime(s, i + 1) == PointTime(s', i + 1);
      SameSearch(s, s', i + 1, t);
    }
  }

  lemma SameRegion(s: State, s': State, t: int)
    requires SameTiming(s, s')
    ensures RegionOf(s, 0, t) == RegionOf(s', 0, t)
  {
    if s.points != [] {
      SameSearch(Begin(s, t), Begin(s', t), 0, t);
    }
  }

  /** The caller can tell from the times alone that the cache will not miss: the call is before the
      first point, or not before the point the cache stands at. */
  predicate CacheReaches(s: State, index: nat, t: int)
    requires index < |s.points|
  {
    var b := Begin(s, t);
    t < b.timeBefore || t < PointTime(b, 0) || PointTime(b, index) <= t
  }

  lemma RegionSkips(s: State, index: nat, t: int)
    requires index < |s.points| && StrictlyIncreasing(s.points) && PointTime(Begin(s, t), index) <= t
    ensures RegionOf(s, index, t) == RegionOf(s, 0, t)
  {
    hide FindSegment, StrictlyIncreasing;
    FirstIsEarliest(Begin(s, t), index);
    SearchSkips(Begin(s, t), 0, index, t);
  }

  lemma FirstIsEarliest(s: State, index: nat)
    requires index < |s.points| && StrictlyIncreasing(s.points)
    ensures PointTime(s, 0) <= PointTime(s, index)
  {
  }

  lemma RegionOvershoots(s: State, index: nat, t: int)
    requires index < |s.points| && StrictlyIncreasing(s.points) && !CacheReaches(s, index, t)
    ensures RegionOf(s, index, t) == AtEnd && RegionOf(s, 0, t).Inside?
  {
    hide FindSegment, StrictlyIncreasing;
    SearchOvershoots(Begin(s, t), index, t);
    SearchStops(Begin(s, t), 0, index, t);
  }

  lemma RegionFromCache(s: State, index: nat, t: int)
    requires index < |s.points| && StrictlyIncreasing(s.points)
    ensures CacheReaches(s, index, t) ==> RegionOf(s, index, t) == RegionOf(s, 0, t)
    ensures !CacheReaches(s, index, t) ==> RegionOf(s, index, t) == AtEnd && RegionOf(s, 0, t).Inside?
  {
    if !CacheReaches(s, index, t) {
      RegionOvershoots(s, index, t);
    } else if PointTime(Begin(s, t), index) <= t {
      RegionSkips(s, index, t);
    }
  }

  lemma ResultShape(s: State, region: Region, t: int, m: InterpolationMethod)
    requires Valid(s) && Fits(region, Begin(s, t)) && Defined(s, region, t, m)
    ensures region.Inside? ==> Result(s, region, t, m).Sampled?
                               && Result(s, region, t, m).startSegment == region.segment
                               && Result(s, region, t, m).endSegment == region.segment + 1
    ensures region.LeadIn? ==> Result(s, region, t, m).Sampled?
                               && Result(s, region, t, m).startSegment == Result(s, region, t, m).endSegment == 0
    ensures region.AtEnd? && Result(s, region, t, m).Sampled? ==>
              && Result(s, region, t, m).startSegment == Last(s)
              && Result(s, region, t, m).endSegment == |s.points|
  {
    WorkedAdds(Begin(s, t), region, m);
  }

  /** The cached search gives the same answer as a full search exactly when the cache reaches. */
  lemma CacheAgreesExactly(s: State, index: nat, t: int, m: InterpolationMethod)
    requires Valid(s) && index < |s.points| && StrictlyIncreasing(s.points)
    requires Defined(s, RegionOf(s, index, t), t, m) && Defined(s, RegionOf(s, 0, t), t, m)
    ensures Result(s, RegionOf(s, index, t), t, m) == Result(s, RegionOf(s, 0, t), t, m)
            <==> CacheReaches(s, index, t)
  {
    RegionFromCache(s, index, t);
    ResultShape(s, RegionOf(s, index, t), t, m);
    ResultShape(s, RegionOf(s, 0, t), t, m);
  }

  lemma FullSearchEnds(s: State, t: int)
    requires s.points != [] && StrictlyIncreasing(s.points) && t >= Begin(s, t).timeBefore
    ensures RegionOf(s, 0, t).AtEnd? <==> t >= EndTime(Begin(s, t))
  {
    var b := Begin(s, t);
    if PointTime(b, 0) <= t < EndTime(b) {
      SearchStops(b, 0, Last(b), t);
    }
  }

  /** A call whose cache reaches works past the last point exactly when its time is not before it. */
  lemma EndExactlyAtLastPoint(s: State, index: nat, t: int)
    requires index < |s.points| && StrictlyIncreasing(s.points) && CacheReaches(s, index, t)
    requires t >= Begin(s, t).timeBefore
    ensures RegionOf(s, index, t).AtEnd? <==> t >= EndTime(Begin(s, t))
  {
    FullSearchEnds(s, t);
    RegionFromCache(s, index, t);
  }

  // ----- Runs ----------------------------------------------------------------------------------

  datatype Call = Call(t: int, m: InterpolationMethod, monotone: bool)

  /** Every call of the run, made one after the other from the cached index, is defined. */
  predicate RunDefined(s: State, index: nat, calls: seq<Call>)
    requires Valid(s) && IndexOk(s, index)
    decreases |calls|
  {
    calls == [] ||
    var region := RegionOf(s, index, calls[0].t);
    && Defined(s, region, calls[0].t, calls[0].m)
    && (SampleOnlyAdds(s, region, calls[0].t, calls[0].m);
        var index' := NextIndex(s, index, region, calls[0].monotone);
        RunDefined(After(s, region, calls[0].t, calls[0].m), index', calls[1..]))
  }

  function Outcomes(s: State, index: nat, calls: seq<Call>): (r: seq<Outcome>)
    requires Valid(s) && IndexOk(s, index) && RunDefined(s, index, calls)
    ensures |r| == |calls|
    decreases |calls|
  {
    if calls == [] then []
    else
      var region := RegionOf(s, index, calls[0].t);
      SampleOnlyAdds(s, region, calls[0].t, calls[0].m);
      [Result(s, region, calls[0].t, calls[0].m)]
      + Outcomes(After(s, region, calls[0].t, calls[0].m), NextIndex(s, index, region, calls[0].monotone), calls[1..])
  }

  /** The same run with every search starting over from the first point. */
  predicate FullRunDefined(s: State, calls: seq<Call>)
    requires Valid(s)
    decreases |calls|
  {
    calls == [] ||
    var region := RegionOf(s, 0, calls[0].t);
    && Defined(s, region, calls[0].t, calls[0].m)
    && (SampleOnlyAdds(s, region, calls[0].t, calls[0].m);
        FullRunDefined(After(s, region, calls[0].t, calls[0].m), calls[1..]))
  }

  function FullOutcomes(s: State, calls: seq<Call>): (r: seq<Outcome>)
    requires Valid(s) && FullRunDefined(s, calls)
    ensures |r| == |calls|
    decreases |calls|
  {
    if calls == [] then []
    else
      var region := RegionOf(s, 0, calls[0].t);
      SampleOnlyAdds(s, region, calls[0].t, calls[0].m);
      [Result(s, region, calls[0].t, calls[0].m)] + FullOutcomes(After(s, region, calls[0].t, calls[0].m), calls[1..])
  }

  /** The message after a run. */
  function RunEnd(s: State, index: nat, calls: seq<Call>): State
    requires Valid(s) && IndexOk(s, index) && RunDefined(s, index, calls)
    decreases |calls|
  {
    if calls == [] then s
    else
      var region := RegionOf(s, index, calls[0].t);
      SampleOnlyAdds(s, region, calls[0].t, calls[0].m);
      RunEnd(After(s, region, calls[0].t, calls[0].m), NextIndex(s, index, region, calls[0].monotone), calls[1..])
  }

  function FullRunEnd(s: State, calls: seq<Call>): State
    requires Valid(s) && FullRunDefined(s, calls)
    decreases |calls|
  {
    if calls == [] then s
    else
      var region := RegionOf(s, 0, calls[0].t);
      SampleOnlyAdds(s, region, calls[0].t, calls[0].m);
      FullRunEnd(After(s, region, calls[0].t, calls[0].m), calls[1..])
  }

  /** No call is earlier than a monotone call before it. A call that is not monotone may look ahead as
      far as it likes inside the trajectory; once one has looked past the end, no later call may be
      earlier than the end. */
  predicate Ordered(calls: seq<Call>, end: int) {
    forall j, k :: 0 <= j < k < |calls| ==>
      && (calls[j].monotone ==> calls[j].t <= calls[k].t)
      && (!calls[j].monotone && end <= calls[j].t ==> end <= calls[k].t)
  }

  predicate NoneBehind(s: State, index: nat, calls: seq<Call>)
    requires index < |s.points|
  {
    index == 0 || forall k :: 0 <= k < |calls| ==> PointTime(s, index) <= calls[k].t
  }

  lemma CacheStaysAhead(s: State, index: nat, calls: seq<Call>)
    requires Valid(s) && s.sampledAlready && index < |s.points| && StrictlyIncreasing(s.points)
    requires calls != [] && Ordered(calls, EndTime(s)) && NoneBehind(s, index, calls)
    ensures CacheReaches(s, index, calls[0].t)
    ensures var region := RegionOf(s, index, calls[0].t);
            NoneBehind(s, NextIndex(s, index, region, calls[0].monotone), calls[1..])
  {
    var c, region := calls[0], RegionOf(s, index, calls[0].t);
    RegionFromCache(s, index, c.t);
    if region.AtEnd? {
      var k := FindSegment(s, 0, c.t);
      if c.t < EndTime(s) {
        SearchStops(s, 0, Last(s), c.t);
      }
      assert EndTime(s) <= c.t;
    }
    forall k | 0 <= k < |calls| - 1
      ensures calls[1..][k] == calls[k + 1]
      ensures c.monotone ==> c.t <= calls[k + 1].t
      ensures !c.monotone && EndTime(s) <= c.t ==> EndTime(s) <= calls[k + 1].t
    {
    }
  }

  lemma OrderedTail(calls: seq<Call>, end: int)
    requires calls != [] && Ordered(calls, end)
    ensures Ordered(calls[1..], end)
  {
    forall j, k | 0 <= j < k < |calls[1..]|
      ensures calls[1..][j] == calls[j + 1] && calls[1..][k] == calls[k + 1]
    {
    }
  }

  /** Point times survive a call, so an index that no later call is behind stays one. */
  lemma CallKeepsTimes(s: State, region: Region, c: Call, index: nat, rest: seq<Call>)
    requires Valid(s) && s.sampledAlready && s.points != [] && region != Nothing
    requires Fits(region, s) && Defined(s, region, c.t, c.m)
    ensures var s' := After(s, region, c.t, c.m);
            && Valid(s') && s'.sampledAlready && |s'.points| == |s.points|
            && (StrictlyIncreasing(s.points) ==> StrictlyIncreasing(s'.points))
            && EndTime(s') == EndTime(s)
            && (index < |s.points| && NoneBehind(s, index, rest) ==> NoneBehind(s', index, rest))
  {
    SampleOnlyAdds(s, region, c.t, c.m);
  }

  /** A run is its first call, which leaves f, and the run of the others from f. */
  lemma FullRunUnfolds(s: State, calls: seq<Call>, f: State)
    requires Valid(s) && calls != []
    requires var c := calls[0];
             && Defined(s, RegionOf(s, 0, c.t), c.t, c.m) && After(s, RegionOf(s, 0, c.t), c.t, c.m) == f
    ensures Valid(f) && (FullRunDefined(s, calls) <==> FullRunDefined(f, calls[1..]))
    ensures FullRunDefined(s, calls) ==>
              && FullRunEnd(s, calls) == FullRunEnd(f, calls[1..])
              && FullOutcomes(s, calls)
                 == [Result(s, RegionOf(s, 0, calls[0].t), calls[0].t, calls[0].m)] + FullOutcomes(f, calls[1..])
  {
    SampleOnlyAdds(s, RegionOf(s, 0, calls[0].t), calls[0].t, calls[0].m);
  }

  lemma RunUnfolds(s: State, index: nat, calls: seq<Call>, f: State, index': nat)
    requires Valid(s) && IndexOk(s, index) && calls != []
    requires var c := calls[0];
             && Defined(s, RegionOf(s, index, c.t), c.t, c.m) && After(s, RegionOf(s, index, c.t), c.t, c.m) == f
             && NextIndex(s, index, RegionOf(s, index, c.t), c.monotone) == index'
    ensures Valid(f) && IndexOk(f, index') && (RunDefined(s, index, calls) <==> RunDefined(f, index', calls[1..]))
    ensures RunDefined(s, index, calls) ==>
              && RunEnd(s, index, calls) == RunEnd(f, index', calls[1..])
              && Outcomes(s, index, calls)
                 == [Result(s, RegionOf(s, index, calls[0].t), calls[0].t, calls[0].m)]
                    + Outcomes(f, index', calls[1..])
  {
    SampleOnlyAdds(s, RegionOf(s, index, calls[0].t), calls[0].t, calls[0].m);
  }

  lemma {:induction false} CachedRunFrom(s: State, index: nat, calls: seq<Call>)
    requires Valid(s) && s.sampledAlready && index < |s.points| && StrictlyIncreasing(s.points)
    requires Ordered(calls, EndTime(s)) && NoneBehind(s, index, calls)
    ensures RunDefined(s, index, calls) <==> FullRunDefined(s, calls)
    ensures RunDefined(s, index, calls) ==>
              && Outcomes(s, index, calls) == FullOutcomes(s, calls)
              && RunEnd(s, index, calls) == FullRunEnd(s, calls)
    decreases |calls|
  {
    if calls != [] {
      var c, rest := calls[0], calls[1..];
      var region := RegionOf(s, index, c.t);
      CacheStaysAhead(s, index, calls);
      RegionFromCache(s, index, c.t);
      if Defined(s, region, c.t, c.m) {
        var index', f := NextIndex(s, index, region, c.monotone), After(s, region, c.t, c.m);
        CallKeepsTimes(s, region, c, index', rest);
        OrderedTail(calls, EndTime(s));
        CachedRunFrom(f, index', rest);
        FullRunUnfolds(s, calls, f);
        RunUnfolds(s, index, calls, f, index');
      }
    }
  }

  /** The first call fixes the start time; fixing it beforehand changes nothing. */
  lemma BegunCall(s: State, index: nat, t: int, m: InterpolationMethod)
    requires Valid(s) && s.points != [] && index < |s.points|
    ensures var b, region := Begin(s, t), RegionOf(s, index, t);
            && Valid(b) && Begin(b, t) == b && RegionOf(b, index, t) == region
            && (Defined(s, region, t, m) <==> Defined(b, region, t, m))
            && (Defined(s, region, t, m) ==>
                  && After(s, region, t, m) == After(b, region, t, m)
                  && Result(s, region, t, m) == Result(b, region, t, m))
  {
    BeginOnce(s, index, t);
  }

  lemma BegunFullRun(s: State, calls: seq<Call>)
    requires Valid(s) && s.points != [] && calls != []
    ensures var b := Begin(s, calls[0].t);
            && Valid(b) && (FullRunDefined(s, calls) <==> FullRunDefined(b, calls))
            && (FullRunDefined(s, calls) ==>
                  FullOutcomes(s, calls) == FullOutcomes(b, calls) && FullRunEnd(s, calls) == FullRunEnd(b, calls))
  {
    var c, region, b := calls[0], RegionOf(s, 0, calls[0].t), Begin(s, calls[0].t);
    BegunCall(s, 0, c.t, c.m);
    if Defined(s, region, c.t, c.m) {
      FullRunUnfolds(s, calls, After(s, region, c.t, c.m));
      FullRunUnfolds(b, calls, After(s, region, c.t, c.m));
    }
  }

  lemma BegunRun(s: State, calls: seq<Call>)
    requires Valid(s) && s.points != [] && calls != []
    ensures var b := Begin(s, calls[0].t);
            && Valid(b) && (RunDefined(s, 0, calls) <==> RunDefined(b, 0, calls))
            && (RunDefined(s, 0, calls) ==>
                  Outcomes(s, 0, calls) == Outcomes(b, 0, calls) && RunEnd(s, 0, calls) == RunEnd(b, 0, calls))
  {
    var c, region, b := calls[0], RegionOf(s, 0, calls[0].t), Begin(s, calls[0].t);
    BegunCall(s, 0, c.t, c.m);
    if Defined(s, region, c.t, c.m) {
      var f, index := After(s, region, c.t, c.m), NextIndex(s, 0, region, c.monotone);
      RunUnfolds(s, 0, calls, f, index);
      RunUnfolds(b, 0, calls, f, index);
    }
  }

  /** Over any ordered run on a freshly installed message with strictly increasing point times,
      sampling from the cached index returns exactly what searching the whole trajectory returns, and
      leaves the same message. */
  lemma CachedRunEqualsFullRun(s: State, calls: seq<Call>)
    requires Valid(s) && s.points != [] && StrictlyIncreasing(s.points)
    requires calls != [] ==> Ordered(calls, EndTime(Begin(s, calls[0].t)))
    ensures RunDefined(s, 0, calls) <==> FullRunDefined(s, calls)
    ensures RunDefined(s, 0, calls) ==>
              && Outcomes(s, 0, calls) == FullOutcomes(s, calls)
              && RunEnd(s, 0, calls) == FullRunEnd(s, calls)
  {
    if calls != [] {
      BegunRun(s, calls);
      BegunFullRun(s, calls);
      CachedRunFrom(Begin(s, calls[0].t), 0, calls);
    }
  }

  // ----- The trap ------------------------------------------------------------------------------

  /** Two points one second apart. */
  function TwoPoints(): State {
    var p := TrajectoryPoint([0.0], [], [], [0.0], 0);
    State([p, p.(positions := [1.0], timeFromStart := 1000000000)], 5000000000, 5000000000, p, true)
  }

  /** The order on look-ahead calls is needed: a call that is not monotone still moves the cached index
      once it passes the end, and an earlier call after it jumps to the end of the trajectory. */
  lemma LookAheadPastTheEndMovesTheCache()
    ensures var s := TwoPoints();
            && Valid(s) && StrictlyIncreasing(s.points)
            && RegionOf(s, 0, 6000000000) == AtEnd
            && NextIndex(s, 0, AtEnd, false) == 1
            && RegionOf(s, 1, 5500000000) == AtEnd
            && RegionOf(s, 0, 5500000000) == Inside(0)
  {
    var s := TwoPoints();
    assert PointTime(s, 0) == 5000000000 && PointTime(s, 1) == 6000000000;
  }

  // ----- The controller's own calls ------------------------------------------------------------

  /** Every update samples at the trajectory time and looks one period ahead; between updates the trajectory time
      advances by the scaled period. */
  function ControllerCalls(t: int, advances: seq<int>, period: int, m: InterpolationMethod): seq<Call>
    decreases |advances|
  {
    [Call(t, m, true), Call(t + period, m, false)]
    + (if advances == [] then [] else ControllerCalls(t + advances[0], advances[1..], period, m))
  }

  /** Once a look-ahead has reached the end, the next sample has reached it too. */
  predicate KeepsUp(t: int, advances: seq<int>, period: int, end: int)
    decreases |advances|
  {
    || advances == []
    || (&& (end <= t + period ==> end <= t + advances[0])
        && KeepsUp(t + advances[0], advances[1..], period, end))
  }

  lemma {:induction false} NoCallBefore(t: int, advances: seq<int>, period: int, m: InterpolationMethod)
    requires period >= 0 && forall i :: 0 <= i < |advances| ==> advances[i] >= 0
    ensures var calls := ControllerCalls(t, advances, period, m);
            && |calls| >= 2 && calls[0] == Call(t, m, true)
            && forall k :: 0 <= k < |calls| ==> t <= calls[k].t
    decreases |advances|
  {
    if advances != [] {
      NoCallBefore(t + advances[0], advances[1..], period, m);
    }
  }

  lemma OrderedRest(a: Call, b: Call, rest: seq<Call>, end: int)
    requires Ordered([a, b] + rest, end)
    ensures Ordered(rest, end) && (rest != [] && !b.monotone && end <= b.t ==> end <= rest[0].t)
  {
    OrderedTail([a, b] + rest, end);
    assert ([a, b] + rest)[1..] == [b] + rest;
    OrderedTail([b] + rest, end);
    assert ([b] + rest)[1..] == rest;
    assert ([b] + rest)[0] == b && (rest != [] ==> ([b] + rest)[1] == rest[0]);
  }

  lemma OrderedMore(a: Call, b: Call, rest: seq<Call>, end: int)
    requires a.monotone && !b.monotone && a.t <= b.t && Ordered(rest, end)
    requires forall k :: 0 <= k < |rest| ==> a.t <= rest[k].t && (end <= b.t ==> end <= rest[k].t)
    ensures Ordered([a, b] + rest, end)
  {
    var calls := [a, b] + rest;
    forall j, k | 0 <= j < k < |calls|
      ensures calls[j].monotone ==> calls[j].t <= calls[k].t
      ensures !calls[j].monotone && end <= calls[j].t ==> end <= calls[k].t
    {
      if j >= 2 {
        assert calls[j] == rest[j - 2] && calls[k] == rest[k - 2];
      } else if k >= 2 {
        assert calls[k] == rest[k - 2];
      }
    }
  }

  lemma OrderedWithTwoMore(a: Call, b: Call, rest: seq<Call>, end: int)
    requires a.monotone && !b.monotone && a.t <= b.t && rest != []
    requires a.t <= rest[0].t && forall k :: 0 <= k < |rest| ==> rest[0].t <= rest[k].t
    ensures Ordered([a, b] + rest, end) <==> (end <= b.t ==> end <= rest[0].t) && Ordered(rest, end)
  {
    hide Ordered;
    if Ordered([a, b] + rest, end) {
      OrderedRest(a, b, rest, end);
    }
    if (end <= b.t ==> end <= rest[0].t) && Ordered(rest, end) {
      OrderedMore(a, b, rest, end);
    }
  }

  lemma ControllerCallsUnfold(t: int, advances: seq<int>, period: int, m: InterpolationMethod, end: int)
    ensures var a, b := Call(t, m, true), Call(t + period, m, false);
            if advances == [] then
              ControllerCalls(t, advances, period, m) == [a, b] && KeepsUp(t, advances, period, end)
            else
              var t' := t + advances[0];
              && ControllerCalls(t, advances, period, m) == [a, b] + ControllerCalls(t', advances[1..], period, m)
              && (KeepsUp(t, advances, period, end)
                  <==> (end <= t + period ==> end <= t') && KeepsUp(t', advances[1..], period, end))
  {
  }

  lemma OrderedPair(a: Call, b: Call, end: int)
    requires a.monotone && a.t <= b.t
    ensures Ordered([a, b], end)
  {
  }

  /** The controller's calls are ordered exactly when its samples keep up with its look-ahead at the end. */
  lemma {:induction false} ControllerCallsOrdered(
    t: int, advances: seq<int>, period: int, m: InterpolationMethod, end: int)
    requires period >= 0 && forall i :: 0 <= i < |advances| ==> advances[i] >= 0
    ensures Ordered(ControllerCalls(t, advances, period, m), end) <==> KeepsUp(t, advances, period, end)
    decreases |advances|
  {
    hide *;
    var a, b := Call(t, m, true), Call(t + period, m, false);
    ControllerCallsUnfold(t, advances, period, m, end);
    if advances == [] {
      OrderedPair(a, b, end);
    } else {
      var t', later := t + advances[0], advances[1..];
      NoCallBefore(t', later, period, m);
      ControllerCallsOrdered(t', later, period, m, end);
      OrderedWithTwoMore(a, b, ControllerCalls(t', later, period, m), end);
    }
  }

  /** At full speed or faster the samples always keep up. */
  lemma {:induction false} FullSpeedKeepsUp(t: int, advances: seq<int>, period: int, end: int)
    requires forall i :: 0 <= i < |advances| ==> advances[i] >= period
    ensures KeepsUp(t, advances, period, end)
    decreases |advances|
  {
    if advances != [] {
      FullSpeedKeepsUp(t + advances[0], advances[1..], period, end);
    }
  }

  /** The controller's own run returns what full searches return, provided its samples keep up; at full speed
      they do. */
  lemma ControllerRunEqualsFullRun(s: State, t: int, advances: seq<int>, period: int, m: InterpolationMethod)
    requires Valid(s) && s.points != [] && StrictlyIncreasing(s.points)
    requires period >= 0 && forall i :: 0 <= i < |advances| ==> advances[i] >= 0
    requires KeepsUp(t, advances, period, EndTime(Begin(s, t)))
    ensures var calls := ControllerCalls(t, advances, period, m);
            && (RunDefined(s, 0, calls) <==> FullRunDefined(s, calls))
            && (RunDefined(s, 0, calls) ==> Outcomes(s, 0, calls) == FullOutcomes(s, calls))
  {
    var calls := ControllerCalls(t, advances, period, m);
    NoCallBefore(t, advances, period, m);
    ControllerCallsOrdered(t, advances, period, m, EndTime(Begin(s, t)));
    CachedRunEqualsFullRun(s, calls);
  }

  /** Where the samples do not keep up: after a look-ahead that reached the end, the next sample agrees with a full
      search exactly when it is before the first point or not before the last. */
  lemma SampleAfterLookAheadAgreesExactly(s: State, ahead: int, t: int, m: InterpolationMethod)
    requires Valid(s) && s.points != [] && StrictlyIncreasing(s.points) && s.sampledAlready
    requires RegionOf(s, 0, ahead) == AtEnd
    requires var index := NextIndex(s, 0, AtEnd, false); Defined(s, RegionOf(s, index, t), t, m)
    requires Defined(s, RegionOf(s, 0, t), t, m)
    ensures var index := NextIndex(s, 0, AtEnd, false);
            Result(s, RegionOf(s, index, t), t, m) == Result(s, RegionOf(s, 0, t), t, m)
            <==> t < s.timeBefore || t < PointTime(s, 0) || EndTime(s) <= t
  {
    CacheAgreesExactly(s, NextIndex(s, 0, AtEnd, false), t, m);
  }

  /** With the speed scaled down it happens: sampling at 5.9 s, looking ahead to 6 s and sampling at 5.95 s jumps
      to the end of a trajectory that has 0.05 s to go. */
  lemma SlowedControllerJumpsToTheEnd()
    ensures var s, calls := TwoPoints(), ControllerCalls(5900000000, [50000000], 100000000, VariableDegreeSpline);
            && calls[0].t == 5900000000 && calls[1].t == 6000000000 && calls[2].t == 5950000000
            && !KeepsUp(5900000000, [50000000], 100000000, EndTime(s))
            && RegionOf(s, 0, calls[0].t) == Inside(0) && NextIndex(s, 0, Inside(0), true) == 0
            && RegionOf(s, 0, calls[1].t) == AtEnd && NextIndex(s, 0, AtEnd, false) == 1
            && RegionOf(s, 1, calls[2].t) == AtEnd && RegionOf(s, 0, calls[2].t) == Inside(0)
  {
    var s := TwoPoints();
    assert PointTime(s, 0) == 5000000000 && PointTime(s, 1) == 6000000000;
    var rest := ControllerCalls(5950000000, [], 100000000, VariableDegreeSpline);
    assert [50000000][1..] == [];
    assert ControllerCalls(5900000000, [50000000], 100000000, VariableDegreeSpline)
        == [Call(5900000000, VariableDegreeSpline, true), Call(6000000000, VariableDegreeSpline, false)] + rest;
  }
}
