/** On a message that supplies every position, what a call returns depends on its time alone: not on
    which calls came before it, so look-ahead calls leave no trace. */
module HistoryFree {
  import opened TrajectoryPoints
  import opened TrajectorySampling
  import opened CachedSearch

  predicate PositionsGiven(s: State) {
    forall i :: 0 <= i < |s.points| ==> s.points[i].positions != []
  }

  /** The message with every missing effort as zeros: all that sampling can ever add to it. */
  function Settled(s: State): State {
    s.(before := FillEffort(s.before, Dim(s)),
       points := seq(|s.points|, i requires 0 <= i < |s.points| => FillEffort(s.points[i], Dim(s))))
  }

  lemma LeadInSettles(b: State)
    requires Valid(b) && PositionsGiven(b) && b.points != []
    ensures CanDeduce(b.before, b.points[0], Dim(b))
    ensures var w := DeduceLeadIn(b);
            && w == b.(before := Settled(b).before, points := b.points[0 := Settled(b).points[0]])
            && Settled(w) == Settled(b)
  {
    var w := DeduceLeadIn(b);
    assert w.before == Settled(b).before && w.points[0] == Settled(b).points[0];
    assert Settled(w).points == Settled(b).points;
  }

  lemma SegmentSettles(b: State, k: nat)
    requires Valid(b) && PositionsGiven(b) && k + 1 < |b.points|
    ensures CanDeduce(b.points[k], b.points[k + 1], Dim(b))
    ensures var w := DeduceSegment(b, k);
            && w == b.(points := b.points[k := Settled(b).points[k]][k + 1 := Settled(b).points[k + 1]])
            && Settled(w) == Settled(b)
  {
    var w := DeduceSegment(b, k);
    assert w.points[k] == Settled(b).points[k] && w.points[k + 1] == Settled(b).points[k + 1];
    assert Settled(w).points == Settled(b).points;
  }

  lemma WorkOnlySettles(b: State, region: Region)
    requires Valid(b) && PositionsGiven(b) && Fits(region, b)
    ensures CanWork(b, region, VariableDegreeSpline)
    ensures var w := Worked(b, region, VariableDegreeSpline);
            && Settled(w) == Settled(b) && PositionsGiven(w)
            && (region.LeadIn? ==> w.before == Settled(b).before && w.points[0] == Settled(b).points[0])
            && (region.Inside? ==> w.points[region.segment] == Settled(b).points[region.segment]
                                   && w.points[region.segment + 1] == Settled(b).points[region.segment + 1])
  {
    if region.LeadIn? {
      LeadInSettles(b);
    } else if region.Inside? {
      SegmentSettles(b, region.segment);
    }
  }

  lemma SettledCanReport(b: State, region: Region)
    requires Valid(b) && PositionsGiven(b) && Fits(region, b)
    ensures var w := Settled(b);
            && Fits(region, w)
            && (region.LeadIn? ==> CanInterpolate(w.before, w.points[0]))
            && (region.Inside? ==> CanInterpolate(w.points[region.segment], w.points[region.segment + 1]))
  {
    WorkOnlySettles(b, region);
    WorkedCanReport(b, region);
  }

  /** The state of the trajectory at time t: a function of the installed message and t only. */
  function StateAt(s: State, t: int): Outcome
    requires Valid(s) && PositionsGiven(s)
  {
    var b, region := Begin(s, t), RegionOf(s, 0, t);
    SettledCanReport(b, region);
    Report(Settled(b), region, t, VariableDegreeSpline)
  }

  lemma ResultIsStateAt(s: State, t: int)
    requires Valid(s) && PositionsGiven(s)
    ensures Defined(s, RegionOf(s, 0, t), t, VariableDegreeSpline)
    ensures Result(s, RegionOf(s, 0, t), t, VariableDegreeSpline) == StateAt(s, t)
  {
    var b, region := Begin(s, t), RegionOf(s, 0, t);
    WorkOnlySettles(b, region);
    WorkedFits(b, region, VariableDegreeSpline);
    WorkedCanReport(b, region);
    SettledCanReport(b, region);
    ReportSettles(b, region, t);
  }

  lemma ReportSettles(b: State, region: Region, t: int)
    requires Valid(b) && PositionsGiven(b) && Fits(region, b) && CanWork(b, region, VariableDegreeSpline)
    requires var w := Worked(b, region, VariableDegreeSpline);
             && Fits(region, w) && Fits(region, Settled(b))
             && (region.LeadIn? ==> CanInterpolate(w.before, w.points[0]))
             && (region.Inside? ==> CanInterpolate(w.points[region.segment], w.points[region.segment + 1]))
             && (region.LeadIn? ==> CanInterpolate(Settled(b).before, Settled(b).points[0]))
             && (region.Inside? ==> CanInterpolate(Settled(b).points[region.segment],
                                                   Settled(b).points[region.segment + 1]))
    ensures Report(Worked(b, region, VariableDegreeSpline), region, t, VariableDegreeSpline)
            == Report(Settled(b), region, t, VariableDegreeSpline)
  {
    var w := Worked(b, region, VariableDegreeSpline);
    WorkOnlySettles(b, region);
    match region
    case Nothing =>
    case TooEarly =>
    case LeadIn => assert OnLeadIn(w, t) == OnLeadIn(Settled(b), t);
    case Inside(k) =>
      assert PointTime(w, k) == PointTime(Settled(b), k) && PointTime(w, k + 1) == PointTime(Settled(b), k + 1);
      assert OnSegment(w, k, t) == OnSegment(Settled(b), k, t);
    case AtEnd =>
      assert w == b;
      EndIgnoresEffort(b);
  }

  lemma EndIgnoresEffort(b: State)
    requires Valid(b) && PositionsGiven(b) && b.points != []
    ensures EndOutcome(b.points) == EndOutcome(Settled(b).points)
  {
  }

  lemma StateAtSettled(s: State, s': State, t: int)
    requires Valid(s) && PositionsGiven(s) && Valid(s') && PositionsGiven(s')
    requires s.sampledAlready && s'.sampledAlready && Settled(s) == Settled(s')
    ensures StateAt(s, t) == StateAt(s', t)
  {
    SameTimes(s, s', t);
  }

  lemma SameTimes(s: State, s': State, t: int)
    requires Settled(s) == Settled(s') && s.sampledAlready && s'.sampledAlready
    ensures RegionOf(s, 0, t) == RegionOf(s', 0, t)
  {
    assert |s.points| == |Settled(s).points| == |s'.points|;
    forall i | 0 <= i < |s.points|
      ensures s.points[i].timeFromStart == s'.points[i].timeFromStart
    {
      assert Settled(s).points[i] == Settled(s').points[i];
    }
    SameRegion(s, s', t);
  }

  lemma CallSettles(s: State, t: int)
    requires Valid(s) && PositionsGiven(s) && s.sampledAlready && s.points != []
    requires Defined(s, RegionOf(s, 0, t), t, VariableDegreeSpline)
    ensures var s' := After(s, RegionOf(s, 0, t), t, VariableDegreeSpline);
            && Valid(s') && PositionsGiven(s') && s'.sampledAlready && s'.points != [] && Settled(s') == Settled(s)
  {
    SampleOnlyAdds(s, RegionOf(s, 0, t), t, VariableDegreeSpline);
    WorkOnlySettles(s, RegionOf(s, 0, t));
  }

  lemma {:induction false} FullRunIsStateAt(s: State, calls: seq<Call>, k: nat)
    requires Valid(s) && PositionsGiven(s) && s.sampledAlready && s.points != []
    requires forall j :: 0 <= j < |calls| ==> calls[j].m == VariableDegreeSpline
    ensures FullRunDefined(s, calls)
    ensures k < |calls| ==> FullOutcomes(s, calls)[k] == StateAt(s, calls[k].t)
    decreases |calls|
  {
    hide RegionOf, After, Result;
    if calls != [] {
      var t, region := calls[0].t, RegionOf(s, 0, calls[0].t);
      ResultIsStateAt(s, t);
      var s' := After(s, region, t, VariableDegreeSpline);
      CallSettles(s, t);
      FullRunIsStateAt(s', calls[1..], if k == 0 then 0 else k - 1);
      FullRunUnfolds(s, calls, s');
      if 0 < k < |calls| {
        StateAtSettled(s, s', calls[k].t);
      }
    }
  }

  /** On a message that supplies every position, every outcome of every ordered run is the state of the
      trajectory at the time of the call, whatever calls, looking ahead or not, were made before it. */
  lemma RunIsHistoryFree(s: State, calls: seq<Call>, k: nat)
    requires Valid(s) && PositionsGiven(s) && s.points != [] && StrictlyIncreasing(s.points)
    requires k < |calls| && Ordered(calls, EndTime(Begin(s, calls[0].t)))
    requires forall j :: 0 <= j < |calls| ==> calls[j].m == VariableDegreeSpline
    ensures RunDefined(s, 0, calls)
    ensures Outcomes(s, 0, calls)[k] == StateAt(Begin(s, calls[0].t), calls[k].t)
  {
    var b := Begin(s, calls[0].t);
    FullRunIsStateAt(b, calls, k);
    BegunFullRun(s, calls);
    CachedRunEqualsFullRun(s, calls);
  }

  /** So look-ahead calls change nothing: two ordered runs return the same outcome for the same time. Only a message
      that is to start at once depends on when it is sampled first. */
  lemma LookAheadLeavesNoTrace(s: State, calls: seq<Call>, others: seq<Call>, i: nat, j: nat)
    requires Valid(s) && PositionsGiven(s) && s.points != [] && StrictlyIncreasing(s.points)
    requires i < |calls| && j < |others| && calls[i].t == others[j].t
    requires calls[0].t == others[0].t || s.startTime != 0 || s.sampledAlready
    requires Ordered(calls, EndTime(Begin(s, calls[0].t))) && Ordered(others, EndTime(Begin(s, others[0].t)))
    requires forall k :: 0 <= k < |calls| ==> calls[k].m == VariableDegreeSpline
    requires forall k :: 0 <= k < |others| ==> others[k].m == VariableDegreeSpline
    ensures RunDefined(s, 0, calls) && RunDefined(s, 0, others)
    ensures Outcomes(s, 0, calls)[i] == Outcomes(s, 0, others)[j]
  {
    RunIsHistoryFree(s, calls, i);
    RunIsHistoryFree(s, others, j);
  }
}
