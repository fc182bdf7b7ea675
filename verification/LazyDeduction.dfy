/** Missing positions and velocities are deduced one segment at a time, when sampling gets there. Along
    a run that skips nothing, that is the same as integrating the whole trajectory beforehand. */
module LazyDeduction {
  import opened Powers
  import opened TrajectoryPoints
  import opened TrajectorySampling
  import opened CachedSearch

  /** Every point gives at least one of positions, velocities and accelerations, which is what
      validation asks for when integration is allowed. */
  predicate Integrable(s: State) {
    && Valid(s) && s.points != []
    && forall i :: 0 <= i < |s.points| ==> SomeField(s.points[i])
  }

  predicate SomeField(p: TrajectoryPoint) {
    p.positions != [] || p.velocities != [] || p.accelerations != []
  }

  // ----- Steps and the eager integration ---------------------------------------------------------

  /** Step 0 deduces the lead-in, step i the segment from point i - 1 to point i. */
  function StepFirst(s: State, i: nat): TrajectoryPoint
    requires i < |s.points|
  {
    if i == 0 then s.before else s.points[i - 1]
  }

  function StepDuration(s: State, i: nat): real
    requires i < |s.points|
  {
    if i == 0 then LeadInDuration(s) else SegmentDuration(s, i - 1)
  }

  predicate CanStep(s: State, i: nat)
    requires i < |s.points|
  {
    CanDeduce(StepFirst(s, i), s.points[i], Dim(s))
  }

  function Step(s: State, i: nat): State
    requires i < |s.points| && CanStep(s, i)
  {
    if i == 0 then DeduceLeadIn(s) else DeduceSegment(s, i - 1)
  }

  /** Nothing is left for step i to do. */
  predicate Done(s: State, i: nat)
    requires i < |s.points|
  {
    StepFirst(s, i).effort != [] && s.points[i].effort != [] && s.points[i].positions != []
  }

  lemma ExtensionKeepsFields(q: TrajectoryPoint, p: TrajectoryPoint)
    requires Extends(q, p) && SomeField(p)
    ensures SomeField(q)
  {
  }

  lemma OnlyAddsKeepsIntegrable(s': State, s: State)
    requires Integrable(s) && Valid(s') && OnlyAdds(s', s)
    ensures Integrable(s')
  {
    forall k | 0 <= k < |s.points|
      ensures SomeField(s'.points[k])
    {
      ExtensionKeepsFields(s'.points[k], s.points[k]);
    }
  }

  lemma OnlyAddsTransitive(a: State, b: State, c: State)
    requires OnlyAdds(a, b) && OnlyAdds(b, c)
    ensures OnlyAdds(a, c)
  {
  }

  lemma CanStepAhead(s: State, i: nat)
    requires Integrable(s) && i < |s.points| && StepFirst(s, i).positions != []
    ensures CanStep(s, i)
  {
    assert SomeField(s.points[i]) && Sized(s.points[i], Dim(s)) && Sized(StepFirst(s, i), Dim(s));
  }

  lemma StepAdds(s: State, i: nat)
    requires Valid(s) && i < |s.points| && CanStep(s, i)
    ensures Valid(Step(s, i)) && OnlyAdds(Step(s, i), s)
    ensures Step(s, i).startTime == s.startTime && Step(s, i).sampledAlready == s.sampledAlready
  {
    if i == 0 {
      DeduceLeadInAdds(s);
    } else {
      DeduceSegmentAdds(s, i - 1);
    }
  }

  lemma StepDoes(s: State, i: nat)
    requires Valid(s) && i < |s.points| && CanStep(s, i)
    ensures Done(Step(s, i), i)
  {
  }

  lemma DoneStepChangesNothing(s: State, i: nat)
    requires Valid(s) && i < |s.points| && Done(s, i)
    ensures CanStep(s, i) && Step(s, i) == s
  {
    if i > 0 {
      assert s.points == s.points[i - 1 := s.points[i - 1]][i := s.points[i]];
    } else {
      assert s.points == s.points[0 := s.points[0]];
    }
  }

  lemma DoneStays(s': State, s: State, i: nat)
    requires OnlyAdds(s', s) && i < |s.points| && Done(s, i)
    ensures Done(s', i)
  {
  }

  /** e is s after its first n steps: only missing entries were added, the n steps are done, and the points that
      no step has reached are as the message gave them. */
  predicate DoneUpTo(e: State, s: State, n: nat)
    requires n <= |s.points|
  {
    && Integrable(e) && OnlyAdds(e, s)
    && e.startTime == s.startTime && e.sampledAlready == s.sampledAlready
    && (forall i :: 0 <= i < n ==> Done(e, i))
    && forall i :: n <= i < |s.points| ==> e.points[i] == s.points[i]
  }

  lemma NothingDone(s: State)
    requires Integrable(s)
    ensures DoneUpTo(s, s, 0)
  {
    OnlyAddsItself(s);
  }

  /** What one pass over the first n steps leaves, made before any sampling. EagerIsDefined shows that
      no step is ever passed over. */
  function Eager(s: State, n: nat): (e: State)
    requires n <= |s.points|
    ensures |e.points| == |s.points|
    decreases n
  {
    if n == 0 then s
    else
      var e := Eager(s, n - 1);
      if CanStep(e, n - 1) then Step(e, n - 1) else e
  }

  lemma {:induction false} EagerIsDefined(s: State, n: nat)
    requires Integrable(s) && n <= |s.points|
    ensures DoneUpTo(Eager(s, n), s, n)
    ensures n < |s.points| ==> CanStep(Eager(s, n), n)
  {
    hide DoneUpTo, Integrable;
    if n == 0 {
      NothingDone(s);
    } else {
      EagerIsDefined(s, n - 1);
      EagerStep(s, Eager(s, n - 1), n);
      EagerUnfolds(s, n);
    }
    NextStep(s, Eager(s, n), n);
  }

  lemma EagerUnfolds(s: State, n: nat)
    requires 0 < n <= |s.points| && CanStep(Eager(s, n - 1), n - 1)
    ensures Eager(s, n) == Step(Eager(s, n - 1), n - 1)
  {
  }

  lemma NextStep(s: State, e: State, n: nat)
    requires Integrable(s) && n <= |s.points| && DoneUpTo(e, s, n)
    ensures n < |e.points| ==> CanStep(e, n)
  {
    if n < |e.points| {
      if n > 0 {
        assert Done(e, n - 1);
      }
      CanStepAhead(e, n);
    }
  }

  lemma StepLeaves(e: State, f: State, i: nat, k: nat)
    requires i < |e.points| && CanStep(e, i) && f == Step(e, i) && i < k < |e.points|
    ensures k < |f.points| && f.points[k] == e.points[k]
  {
  }

  lemma EagerStep(s: State, e: State, n: nat)
    requires Integrable(s) && 0 < n <= |s.points| && DoneUpTo(e, s, n - 1)
    ensures n <= |e.points| && CanStep(e, n - 1)
    ensures DoneUpTo(Step(e, n - 1), s, n)
  {
    var i := n - 1;
    NextStep(s, e, i);
    StepAdds(e, i);
    StepDoes(e, i);
    OnlyAddsTransitive(Step(e, i), e, s);
    OnlyAddsKeepsIntegrable(Step(e, i), e);
    forall k | 0 <= k < i
      ensures Done(Step(e, i), k)
    {
      DoneStays(Step(e, i), e, k);
    }
    forall k | n <= k < |s.points|
      ensures Step(e, i).points[k] == s.points[k]
    {
      StepLeaves(e, Step(e, i), i, k);
    }
  }

  // ----- Lazy runs -----------------------------------------------------------------------------

  /** The step a call performs: the lead-in, a segment, or none. */
  datatype Work = NoWork | Performs(step: nat)

  function WorkOf(region: Region): Work {
    match region
    case LeadIn => Performs(0)
    case Inside(k) => Performs(k + 1)
    case _ => NoWork
  }

  /** How many steps are done after a call in the given region, if n were before. */
  function Progress(n: nat, region: Region): nat {
    match WorkOf(region)
    case NoWork => n
    case Performs(i) => if i < n then n else i + 1
  }

  /** The call does not get ahead of the steps already done: it repeats one or takes the next, and the
      end is reached only after all of them. */
  predicate SkipsNothing(s: State, n: nat, region: Region) {
    && (region.AtEnd? ==> n == |s.points|)
    && match WorkOf(region)
       case NoWork => true
       case Performs(i) => i <= n && i < |s.points|
  }

  lemma RepeatedStep(s: State, e: State, n: nat, i: nat)
    requires i < n <= |s.points| && DoneUpTo(e, s, n)
    ensures i < |e.points| && CanStep(e, i) && Step(e, i) == e
  {
    assert Done(e, i);
    DoneStepChangesNothing(e, i);
  }

  lemma LazyStep(s: State, n: nat, i: nat)
    requires Integrable(s) && n <= |s.points| && i <= n && i < |s.points|
    ensures |Eager(s, n).points| == |s.points| && CanStep(Eager(s, n), i)
    ensures Step(Eager(s, n), i) == Eager(s, if i < n then n else i + 1)
  {
    hide *;
    EagerIsDefined(s, n);
    if i < n {
      RepeatedStep(s, Eager(s, n), n, i);
    } else {
      EagerUnfolds(s, i + 1);
    }
  }

  lemma LazyEnd(s: State)
    requires Integrable(s)
    ensures !RecoversLast(Eager(s, |s.points|))
  {
    EagerIsDefined(s, |s.points|);
    assert Done(Eager(s, |s.points|), |s.points| - 1);
  }

  lemma WorkIsStep(e: State, region: Region, t: int, i: nat)
    requires e.sampledAlready && i < |e.points| && CanStep(e, i) && WorkOf(region) == Performs(i)
    ensures Begin(e, t) == e && Fits(region, e) && CanWork(e, region, VariableDegreeSpline)
    ensures Worked(e, region, VariableDegreeSpline) == Step(e, i)
  {
  }

  lemma NoWorkIsNoStep(e: State, region: Region, t: int)
    requires e.sampledAlready && e.points != [] && region != Nothing && WorkOf(region) == NoWork
    requires region.AtEnd? ==> !RecoversLast(e)
    ensures Begin(e, t) == e && Fits(region, e) && CanWork(e, region, VariableDegreeSpline)
    ensures Worked(e, region, VariableDegreeSpline) == e
  {
  }

  lemma EagerStarted(s: State, n: nat)
    requires Integrable(s) && s.sampledAlready && n <= |s.points|
    ensures Eager(s, n).sampledAlready && |Eager(s, n).points| == |s.points|
  {
    EagerIsDefined(s, n);
    hide Eager, Done;
  }

  lemma LazyWork(s: State, n: nat, region: Region, t: int, i: nat, after: nat)
    requires Integrable(s) && s.sampledAlready && i <= n <= |s.points| && i < |s.points|
    requires WorkOf(region) == Performs(i) && after == if i < n then n else i + 1
    ensures var e := Eager(s, n);
      && Begin(e, t) == e && Fits(region, e) && CanWork(e, region, VariableDegreeSpline)
      && Worked(e, region, VariableDegreeSpline) == Eager(s, after)
  {
    hide *;
    LazyStep(s, n, i);
    EagerStarted(s, n);
    WorkIsStep(Eager(s, n), region, t, i);
  }

  lemma LazyRest(s: State, n: nat, region: Region, t: int)
    requires Integrable(s) && s.sampledAlready && s.points != [] && n <= |s.points|
    requires region != Nothing && WorkOf(region) == NoWork && (region.AtEnd? ==> n == |s.points|)
    ensures var e := Eager(s, n);
      && Begin(e, t) == e && Fits(region, e) && CanWork(e, region, VariableDegreeSpline)
      && Worked(e, region, VariableDegreeSpline) == e
  {
    hide *;
    EagerStarted(s, n);
    if region.AtEnd? {
      LazyEnd(s);
    }
    NoWorkIsNoStep(Eager(s, n), region, t);
  }

  /** One call on a message that is integrated up to step n leaves it integrated up to the step the call
      performs. */
  lemma LazyCall(s: State, n: nat, region: Region, t: int)
    requires Integrable(s) && s.sampledAlready && n <= |s.points| && Fits(region, s) && SkipsNothing(s, n, region)
    requires region != Nothing
    ensures var e := Eager(s, n);
            && Begin(e, t) == e && Fits(region, e) && CanWork(e, region, VariableDegreeSpline)
            && Worked(e, region, VariableDegreeSpline) == Eager(s, Progress(n, region))
  {
    var after := Progress(n, region);
    HasPoints(s);
    hide Integrable, Eager, CanWork;
    if WorkOf(region).Performs? {
      LazyWork(s, n, region, t, WorkOf(region).step, after);
    } else {
      LazyRest(s, n, region, t);
    }
  }

  lemma HasPoints(s: State)
    requires Integrable(s)
    ensures s.points != []
  {
  }

  /** The steps of the run, from the times of its calls alone. */
  predicate RunSkipsNothing(s: State, n: nat, calls: seq<Call>)
    requires s.points != []
    decreases |calls|
  {
    calls == [] ||
    var region := RegionOf(s, 0, calls[0].t);
    SkipsNothing(s, n, region) && RunSkipsNothing(s, Progress(n, region), calls[1..])
  }

  function RunProgress(s: State, n: nat, calls: seq<Call>): nat
    requires s.points != []
    decreases |calls|
  {
    if calls == [] then n else RunProgress(s, Progress(n, RegionOf(s, 0, calls[0].t)), calls[1..])
  }

  lemma OtherCallsSkipNothing(s: State, n: nat, calls: seq<Call>)
    requires s.points != [] && n <= |s.points| && calls != [] && RunSkipsNothing(s, n, calls)
    ensures var region := RegionOf(s, 0, calls[0].t);
            && SkipsNothing(s, n, region) && Progress(n, region) <= |s.points|
            && RunSkipsNothing(s, Progress(n, region), calls[1..])
            && (AllSplines(calls) ==> AllSplines(calls[1..]))
  {
  }

  lemma EagerKeepsTiming(s: State, n: nat)
    requires Integrable(s) && n <= |s.points|
    ensures SameTiming(s, Eager(s, n))
  {
    EagerIsDefined(s, n);
    var e := Eager(s, n);
    forall j | 0 <= j < |s.points|
      ensures s.points[j].timeFromStart == e.points[j].timeFromStart
    {
      assert Extends(e.points[j], s.points[j]);
    }
  }

  predicate AllSplines(calls: seq<Call>) {
    forall k :: 0 <= k < |calls| ==> calls[k].m == VariableDegreeSpline
  }

  /** A lazy run that skips nothing is defined throughout, and leaves the message as one eager pass over
      the same steps does. */
  lemma {:induction false} LazyRunIsEager(s: State, n: nat, calls: seq<Call>)
    requires Integrable(s) && s.sampledAlready && n <= |s.points| && AllSplines(calls)
    requires RunSkipsNothing(s, n, calls)
    ensures Valid(Eager(s, n)) && FullRunDefined(Eager(s, n), calls)
    ensures RunProgress(s, n, calls) <= |s.points|
    ensures FullRunEnd(Eager(s, n), calls) == Eager(s, RunProgress(s, n, calls))
    decreases |calls|
  {
    EagerIsDefined(s, n);
    if calls != [] {
      var t, region := calls[0].t, RegionOf(s, 0, calls[0].t);
      EagerKeepsTiming(s, n);
      SameRegion(s, Eager(s, n), t);
      LazyCall(s, n, region, t);
      LazyRunIsEager(s, Progress(n, region), calls[1..]);
      FullRunUnfolds(Eager(s, n), calls, Eager(s, Progress(n, region)));
    }
  }

  // ----- Outcomes of a lazy run ------------------------------------------------------------------

  /** A point is settled once its own step is done: the step after it fills in none of its fields. */
  predicate SettledBefore(p: TrajectoryPoint, next: TrajectoryPoint) {
    next.positions != [] ||
    (&& (p.velocities != [] || p.positions == [])
     && (next.velocities != [] || p.accelerations != []))
  }

  predicate Settling(s: State) {
    forall i :: 0 <= i && i + 1 < |s.points| ==> SettledBefore(s.points[i], s.points[i + 1])
  }

  predicate VelocitiesOnly(s: State) {
    forall i :: 0 <= i < |s.points| ==> s.points[i].positions == [] && s.points[i].velocities != []
  }

  predicate AccelerationsOnly(s: State) {
    forall i :: 0 <= i < |s.points| ==>
      s.points[i].positions == [] && s.points[i].velocities == [] && s.points[i].accelerations != []
  }

  lemma UniformMessagesSettle(s: State)
    requires VelocitiesOnly(s) || AccelerationsOnly(s)
    ensures Settling(s)
  {
  }

  /** A step changes its two points and no other. */
  lemma StepTouches(e: State, i: nat)
    requires i < |e.points| && CanStep(e, i)
    ensures var f, first := Step(e, i), StepFirst(e, i);
            && |f.points| == |e.points|
            && f.points[i] == DeducedSecond(first, e.points[i], Dim(e), StepDuration(e, i))
            && StepFirst(f, i) == DeducedFirst(first, e.points[i], Dim(e))
            && (i > 0 ==> f.before == e.before)
            && forall k :: 0 <= k < |e.points| && k != i && k != i - 1 ==> f.points[k] == e.points[k]
  {
  }

  lemma Untouched(s: State, n: nat, i: nat)
    requires Integrable(s) && n <= i < |s.points|
    ensures Eager(s, n).points[i] == s.points[i]
  {
    EagerIsDefined(s, n);
  }

  lemma EagerTiming(s: State, n: nat)
    requires Integrable(s) && n < |s.points|
    ensures StepDuration(Eager(s, n), n) == StepDuration(s, n) && Dim(Eager(s, n)) == Dim(s)
  {
    EagerKeepsTiming(s, n);
    EagerIsDefined(s, n);
  }

  /** Step n of the eager pass, from the message's own point n. */
  lemma StepShape(s: State, n: nat)
    requires Integrable(s) && n < |s.points|
    ensures var e, e' := Eager(s, n), Eager(s, n + 1);
            && CanDeduce(StepFirst(e, n), s.points[n], Dim(s))
            && e'.points[n] == DeducedSecond(StepFirst(e, n), s.points[n], Dim(s), StepDuration(s, n))
            && StepFirst(e', n) == DeducedFirst(StepFirst(e, n), s.points[n], Dim(s))
            && (n > 0 ==> e'.before == e.before)
            && forall k :: 0 <= k < |s.points| && k != n && k != n - 1 ==> e'.points[k] == e.points[k]
  {
    hide Eager, Step, DeducedFirst, DeducedSecond, CanDeduce, Integrable;
    EagerIsDefined(s, n);
    Untouched(s, n, n);
    EagerTiming(s, n);
    EagerUnfolds(s, n + 1);
    StepTouches(Eager(s, n), n);
  }

  lemma DeducedVelocity(first: TrajectoryPoint, second: TrajectoryPoint, dim: nat, dt: real)
    requires dim > 0 && CanDeduce(first, second, dim)
    ensures second.velocities != [] || second.positions == [] ==> DeducedSecond(first, second, dim, dt).velocities != []
  {
  }

  lemma SettledStays(p: TrajectoryPoint, q: TrajectoryPoint, dim: nat)
    requires p.effort != []
    requires q.positions == [] ==> p.velocities != [] && (q.velocities != [] || p.accelerations != [])
    ensures DeducedFirst(p, q, dim) == p
  {
  }

  lemma StepKeepsSettled(s: State, n: nat)
    requires Integrable(s) && Settling(s) && 0 < n < |s.points|
    ensures Eager(s, n + 1).points[n - 1] == Eager(s, n).points[n - 1]
  {
    hide Eager;
    StepKeepsExactly(s, n);
    assert SettledBefore(s.points[n - 1], s.points[n - 1 + 1]);
  }

  lemma UnsettledChanges(p: TrajectoryPoint, q: TrajectoryPoint, dim: nat)
    requires dim > 0 && q.positions == []
    requires p.velocities == [] || (q.velocities == [] && p.accelerations == [])
    ensures DeducedFirst(p, q, dim) != p
  {
  }

  lemma DeducedFields(first: TrajectoryPoint, second: TrajectoryPoint, dim: nat, dt: real)
    requires dim > 0 && CanDeduce(first, second, dim)
    ensures var q := DeducedSecond(first, second, dim, dt);
      && q.accelerations == second.accelerations
      && (second.velocities == [] && second.positions != [] ==> q.velocities == [])
  {
  }

  lemma StepKeepsExactly(s: State, n: nat)
    requires Integrable(s) && 0 < n < |s.points|
    ensures Eager(s, n + 1).points[n - 1] == Eager(s, n).points[n - 1]
            <==> SettledBefore(s.points[n - 1], s.points[n])
  {
    hide Eager, Step, CanStep, DeducedSecond, DeducedFirst;
    var p := Eager(s, n).points[n - 1];
    StepShape(s, n - 1);
    StepShape(s, n);
    DeducedVelocity(StepFirst(Eager(s, n - 1), n - 1), s.points[n - 1], Dim(s), StepDuration(s, n - 1));
    DeducedFields(StepFirst(Eager(s, n - 1), n - 1), s.points[n - 1], Dim(s), StepDuration(s, n - 1));
    PointExtends(s, n, n - 1);
    if SettledBefore(s.points[n - 1], s.points[n]) {
      SettledStays(p, s.points[n], Dim(s));
    } else {
      UnsettledChanges(p, s.points[n], Dim(s));
    }
  }

  /** After n steps point i has the value that the whole pass leaves it. */
  predicate FinalAfter(s: State, n: nat, i: nat)
    requires i < n <= |s.points|
  {
    Eager(s, n).points[i] == Eager(s, |s.points|).points[i]
  }

  /** Every point has its final value once its own step is done exactly when the message settles. */
  lemma SettlesExactly(s: State)
    requires Integrable(s)
    ensures Settling(s) <==> forall i, n :: 0 <= i < n <= |s.points| ==> FinalAfter(s, n, i)
  {
    hide Eager, SettledBefore;
    if Settling(s) {
      forall i, n | 0 <= i < n <= |s.points|
        ensures FinalAfter(s, n, i)
      {
        PointFinal(s, n, |s.points|, i);
      }
    } else {
      var i :| 0 <= i && i + 1 < |s.points| && !SettledBefore(s.points[i], s.points[i + 1]);
      StepKeepsExactly(s, i + 1);
      assert !(FinalAfter(s, i + 1, i) && FinalAfter(s, i + 2, i));
    }
  }

  lemma PointExtends(s: State, n: nat, i: nat)
    requires Integrable(s) && i < n <= |s.points|
    ensures Extends(Eager(s, n).points[i], s.points[i]) && Eager(s, n).points[i].effort != []
  {
    EagerIsDefined(s, n);
    assert Done(Eager(s, n), i);
  }

  lemma PointKept(s: State, n: nat, i: nat)
    requires Integrable(s) && Settling(s) && i < n < |s.points|
    ensures Eager(s, n + 1).points[i] == Eager(s, n).points[i] && Eager(s, n + 1).before == Eager(s, n).before
  {
    StepShape(s, n);
    if i == n - 1 {
      StepKeepsSettled(s, n);
    }
  }

  /** In a settling message, a point whose step is done already has its final value. */
  lemma {:induction false} PointFinal(s: State, n: nat, m: nat, i: nat)
    requires Integrable(s) && Settling(s) && i < n <= m <= |s.points|
    ensures Eager(s, n).points[i] == Eager(s, m).points[i] && Eager(s, n).before == Eager(s, m).before
    decreases m - n
  {
    if n < m {
      PointKept(s, n, i);
      PointFinal(s, n + 1, m, i);
    }
  }

  /** The state at time t of the eagerly integrated trajectory. */
  function IntegratedAt(s: State, t: int): Outcome
    requires Integrable(s) && s.sampledAlready
  {
    var e, region := Eager(s, |s.points|), RegionOf(s, 0, t);
    IntegratedCanReport(s, region);
    Report(e, region, t, VariableDegreeSpline)
  }

  lemma IntegratedCanReport(s: State, region: Region)
    requires Integrable(s) && s.sampledAlready && Fits(region, s)
    ensures var e := Eager(s, |s.points|);
            && Valid(e) && Fits(region, e)
            && (region.LeadIn? ==> CanInterpolate(e.before, e.points[0]))
            && (region.Inside? ==> CanInterpolate(e.points[region.segment], e.points[region.segment + 1]))
  {
    var e := Eager(s, |s.points|);
    EagerIsDefined(s, |s.points|);
    if region.LeadIn? {
      LazyStep(s, |s.points|, 0);
      LeadInCanInterpolate(e);
    } else if region.Inside? {
      LazyStep(s, |s.points|, region.segment + 1);
      SegmentCanInterpolate(e, region.segment);
    }
  }

  lemma LazyOutcome(s: State, n: nat, t: int)
    requires Integrable(s) && Settling(s) && s.sampledAlready && n <= |s.points|
    requires SkipsNothing(s, n, RegionOf(s, 0, t))
    requires var e, region := Eager(s, n), RegionOf(s, 0, t);
             && Valid(e) && Begin(e, t) == e && Fits(region, e) && CanWork(e, region, VariableDegreeSpline)
             && Worked(e, region, VariableDegreeSpline) == Eager(s, Progress(n, region))
    ensures Result(Eager(s, n), RegionOf(s, 0, t), t, VariableDegreeSpline) == IntegratedAt(s, t)
  {
    var e, region := Eager(s, n), RegionOf(s, 0, t);
    WorkedCanReport(e, region);
    IntegratedCanReport(s, region);
    LazyReport(s, Progress(n, region), region, t);
  }

  lemma LazyReport(s: State, n: nat, region: Region, t: int)
    requires Integrable(s) && Settling(s) && s.sampledAlready && n <= |s.points| && Fits(region, s)
    requires region.LeadIn? ==> n > 0
    requires region.Inside? ==> n > region.segment + 1
    requires region.AtEnd? ==> n == |s.points|
    requires var e, f := Eager(s, n), Eager(s, |s.points|);
             && (region.LeadIn? ==> CanInterpolate(e.before, e.points[0]) && CanInterpolate(f.before, f.points[0]))
             && (region.Inside? ==> && CanInterpolate(e.points[region.segment], e.points[region.segment + 1])
                                    && CanInterpolate(f.points[region.segment], f.points[region.segment + 1]))
    ensures Report(Eager(s, n), region, t, VariableDegreeSpline)
            == Report(Eager(s, |s.points|), region, t, VariableDegreeSpline)
  {
    hide Eager, OnLeadIn, OnSegment, CanInterpolate, Settling, SomeField, Valid;
    var e, f := Eager(s, n), Eager(s, |s.points|);
    EagerKeepsTiming(s, n);
    EagerKeepsTiming(s, |s.points|);
    if region.LeadIn? {
      PointFinal(s, n, |s.points|, 0);
      SameLeadIn(e, f, t);
    } else if region.Inside? {
      PointFinal(s, n, |s.points|, region.segment);
      PointFinal(s, n, |s.points|, region.segment + 1);
      SameSegment(e, f, region.segment, t);
    }
  }

  lemma SameLeadIn(e: State, f: State, t: int)
    requires e.points != [] && f.points != [] && e.points[0] == f.points[0] && e.before == f.before
    requires e.startTime == f.startTime && e.timeBefore == f.timeBefore && CanInterpolate(e.before, e.points[0])
    ensures OnLeadIn(e, t) == OnLeadIn(f, t)
  {
  }

  lemma SameSegment(e: State, f: State, k: nat, t: int)
    requires k + 1 < |e.points| == |f.points| && e.points[k] == f.points[k] && e.points[k + 1] == f.points[k + 1]
    requires e.startTime == f.startTime && CanInterpolate(e.points[k], e.points[k + 1])
    ensures OnSegment(e, k, t) == OnSegment(f, k, t)
  {
  }

  /** Every outcome of a lazy run over a settling message is that of the eagerly integrated message. */
  lemma {:induction false} LazyOutcomesAreIntegrated(s: State, n: nat, calls: seq<Call>, k: nat)
    requires Integrable(s) && Settling(s) && s.sampledAlready && n <= |s.points| && AllSplines(calls)
    requires RunSkipsNothing(s, n, calls) && k < |calls|
    ensures Valid(Eager(s, n)) && FullRunDefined(Eager(s, n), calls)
    ensures FullOutcomes(Eager(s, n), calls)[k] == IntegratedAt(s, calls[k].t)
    decreases |calls|
  {
    hide Eager, FullOutcomes, FullRunDefined, IntegratedAt, RunSkipsNothing, SkipsNothing, RegionOf, Settling, Valid;
    LazyRunIsEager(s, n, calls);
    LazyCallUnfolds(s, n, calls);
    OtherCallsSkipNothing(s, n, calls);
    var t, region := calls[0].t, RegionOf(s, 0, calls[0].t);
    if k > 0 {
      LazyOutcomesAreIntegrated(s, Progress(n, region), calls[1..], k - 1);
    }
  }

  /** The first call of a lazy run returns the integrated state and leaves the next eager message. */
  lemma LazyCallUnfolds(s: State, n: nat, calls: seq<Call>)
    requires Integrable(s) && Settling(s) && s.sampledAlready && n <= |s.points| && AllSplines(calls)
    requires calls != [] && RunSkipsNothing(s, n, calls)
    requires Valid(Eager(s, n)) && FullRunDefined(Eager(s, n), calls)
    ensures var t, region := calls[0].t, RegionOf(s, 0, calls[0].t);
            var f := Eager(s, Progress(n, region));
            && Valid(f) && FullRunDefined(f, calls[1..])
            && FullOutcomes(Eager(s, n), calls) == [IntegratedAt(s, t)] + FullOutcomes(f, calls[1..])
  {
    var e, t, region := Eager(s, n), calls[0].t, RegionOf(s, 0, calls[0].t);
    EagerKeepsTiming(s, n);
    SameRegion(s, e, t);
    LazyCall(s, n, region, t);
    LazyOutcome(s, n, t);
    FullRunUnfolds(e, calls, Eager(s, Progress(n, region)));
  }

  /** The same for the controller's own calls, which search from the cached index: an ordered run that
      skips nothing integrates the message, and when the message settles, every outcome is that of the
      message integrated beforehand. */
  lemma CachedRunIntegrates(s: State, calls: seq<Call>, k: nat)
    requires Integrable(s) && s.sampledAlready && StrictlyIncreasing(s.points) && AllSplines(calls)
    requires Ordered(calls, EndTime(s)) && RunSkipsNothing(s, 0, calls)
    ensures RunDefined(s, 0, calls) && RunProgress(s, 0, calls) <= |s.points|
    ensures RunEnd(s, 0, calls) == Eager(s, RunProgress(s, 0, calls))
    ensures Settling(s) && k < |calls| ==> Outcomes(s, 0, calls)[k] == IntegratedAt(s, calls[k].t)
  {
    LazyRunIsEager(s, 0, calls);
    CachedRunFrom(s, 0, calls);
    if Settling(s) && k < |calls| {
      LazyOutcomesAreIntegrated(s, 0, calls, k);
    }
  }

  /** A first point with a position only, and a second one with a velocity only: the step to the second point gives
      the first one a velocity. */
  function Unsettled(): State {
    var before := TrajectoryPoint([0.0], [0.0], [], [0.0], 0);
    State([TrajectoryPoint([1.0], [], [], [0.0], 1000000000), TrajectoryPoint([], [0.0], [], [0.0], 2000000000)],
          5000000000, 5000000000, before, true)
  }

  lemma UnsettledEnd()
    ensures var s, e := Unsettled(), Eager(Unsettled(), 2);
      && e.before == s.before && e.points[0] == s.points[0].(velocities := [0.0])
      && e.startTime == s.startTime && e.timeBefore == s.timeBefore
  {
    var s := Unsettled();
    assert CanStep(s, 0) && Step(s, 0) == s;
    assert Eager(s, 1) == s by {
      assert Eager(s, 0) == s;
    }
    assert CanStep(s, 1);
    EagerUnfolds(s, 2);
  }

  lemma QuarterOfTheWay(before: TrajectoryPoint, p: TrajectoryPoint, degree: Degree)
    requires |before.positions| == |p.positions| == 1 && before.positions[0] == 0.0 && p.positions[0] == 1.0
    requires degree == DegreeOf(before, p) && CanInterpolate(before, p)
    requires |before.velocities| == 1 && before.velocities[0] == 0.0 && (p.velocities == [] || p.velocities == [0.0])
    requires degree == LinearDegree || degree == CubicDegree
    ensures var out := Interpolate(5000000000, before, 6000000000, p, 5250000000);
      out.positions == [if degree == LinearDegree then 0.25 else 0.15625]
  {
    assert Seconds(1000000000) == 1.0 && Seconds(250000000) == 0.25;
  }

  /** The premise that the message settles is needed: a quarter of the way to the first point this one is sampled on a
      straight line, while the message integrated beforehand is on a cubic. */
  lemma UnsettledIsNotIntegrated()
    ensures var s, t := Unsettled(), 5250000000;
      && Integrable(s) && StrictlyIncreasing(s.points) && !Settling(s) && RegionOf(s, 0, t) == LeadIn
      && Defined(s, LeadIn, t, VariableDegreeSpline)
      && Result(s, LeadIn, t, VariableDegreeSpline).Sampled? && IntegratedAt(s, t).Sampled?
      && Result(s, LeadIn, t, VariableDegreeSpline).output.positions == [0.25]
      && IntegratedAt(s, t).output.positions == [0.15625]
  {
    hide Interpolate, Eager;
    var s, t := Unsettled(), 5250000000;
    assert PointTime(s, 0) == 6000000000;
    assert !SettledBefore(s.points[0], s.points[0 + 1]);
    assert Worked(s, LeadIn, VariableDegreeSpline) == s;
    QuarterOfTheWay(s.before, s.points[0], LinearDegree);
    UnsettledEnd();
    QuarterOfTheWay(s.before, s.points[0].(velocities := [0.0]), CubicDegree);
  }

  /** The call reads no entry that is not there and succeeds with one position per joint. */
  predicate Usable(s: State, region: Region, t: int)
    requires Valid(s) && Fits(region, Begin(s, t))
  {
    && Defined(s, region, t, VariableDegreeSpline)
    && var r := Result(s, region, t, VariableDegreeSpline);
    r.Success() && |r.output.positions| == Dim(s)
  }

  lemma FromPositions(s: State, k: nat, t: int)
    requires Integrable(s) && k + 1 < |s.points| && s.points[k].positions != []
    ensures Usable(s, Inside(k), t)
  {
    CanStepAhead(s, k + 1);
    OutputSize(s, k, t);
  }

  lemma WithoutPositions(s: State, k: nat, t: int)
    requires Integrable(s) && k + 1 < |s.points| && s.points[k].positions == []
    ensures Defined(s, Inside(k), t, VariableDegreeSpline) <==> s.points[k + 1].positions != []
    ensures !Usable(s, Inside(k), t)
  {
    if Defined(s, Inside(k), t, VariableDegreeSpline) {
      OutputSize(s, k, t);
    }
  }

  /** Interpolation runs over as many joints as the start of the segment has positions. */
  lemma OutputSize(s: State, k: nat, t: int)
    requires Valid(s) && k + 1 < |s.points| && Defined(s, Inside(k), t, VariableDegreeSpline)
    ensures var r := Result(s, Inside(k), t, VariableDegreeSpline);
      r.Success() && |r.output.positions| == |s.points[k].positions|
  {
    hide CanInterpolate, CanDeduce, Sized, Interpolate;
    WorkedCanReport(Begin(s, t), Inside(k));
    OutputOfSegment(Worked(Begin(s, t), Inside(k), VariableDegreeSpline), k, t);
  }

  lemma OutputOfSegment(w: State, k: nat, t: int)
    requires k + 1 < |w.points| && CanInterpolate(w.points[k], w.points[k + 1])
    ensures |OnSegment(w, k, t).positions| == |w.points[k].positions|
  {
  }

  /** Skipping is not harmless. A call inside a segment is usable exactly when the segment starts from positions:
      otherwise it reads entries that are not there if the end lacks positions too, and succeeds with an output
      of no joints if the end has them. */
  lemma SkippingReadsMissingPositions(s: State, k: nat, t: int)
    requires Integrable(s) && k + 1 < |s.points|
    ensures Usable(s, Inside(k), t) <==> s.points[k].positions != []
    ensures s.points[k].positions == [] ==>
              (Defined(s, Inside(k), t, VariableDegreeSpline) <==> s.points[k + 1].positions != [])
  {
    if s.points[k].positions != [] {
      FromPositions(s, k, t);
    } else {
      WithoutPositions(s, k, t);
    }
  }

  /** The first point gives a velocity and is due at once, the second one a position. */
  function SkippedLeadIn(): State {
    var before := TrajectoryPoint([0.0], [], [], [], 0);
    State([TrajectoryPoint([], [1.0], [], [], 0), TrajectoryPoint([1.0], [], [], [], 1000000000)],
          5000000000, 5000000000, before, true)
  }

  /** An input for the second failure: the very first call lands in the first segment, succeeds, and gives no
      joint a position. */
  lemma SkippedLeadInGivesNoJoints()
    ensures var s, t := SkippedLeadIn(), 5000000000;
      && Integrable(s) && StrictlyIncreasing(s.points) && RegionOf(s, 0, t) == Inside(0)
      && Defined(s, Inside(0), t, VariableDegreeSpline)
      && var r := Result(s, Inside(0), t, VariableDegreeSpline);
      r.Success() && r.output.positions == [] && Dim(s) == 1
  {
    hide Result, Defined, Usable;
    var s, t := SkippedLeadIn(), 5000000000;
    assert PointTime(s, 0) == 5000000000 && PointTime(s, 1) == 6000000000;
    SkippingReadsMissingPositions(s, 0, t);
    OutputSize(s, 0, t);
  }

  // ----- The integrals -------------------------------------------------------------------------

  /** start plus the first n trapezoids under a rate sampled at unevenly spaced times. */
  ghost function Trapezoids(start: real, rate: nat -> real, duration: nat -> real, n: nat): real {
    if n == 0 then start
    else Trapezoids(start, rate, duration, n - 1) + TrapezoidArea(rate(n - 1), rate(n), duration(n - 1))
  }

  /** Durations of the steps: the lead-in, then the segments. */
  ghost function Durations(s: State): nat -> real
    requires s.points != []
  {
    (i: nat) => if i < |s.points| then StepDuration(s, i) else 0.0
  }

  /** A field of joint j along the message: its value before the message, then at each point. */
  ghost function Along(start: real, field: nat -> seq<real>, j: nat): nat -> real {
    (i: nat) => if i == 0 then start else if j < |field(i - 1)| then field(i - 1)[j] else 0.0
  }

  ghost function VelocityAlong(s: State, j: nat): nat -> real
    requires Valid(s) && j < Dim(s)
  {
    Along(Filled(s.before.velocities, Dim(s))[j],
          (i: nat) => if i < |s.points| then s.points[i].velocities else [], j)
  }

  ghost function AccelerationAlong(s: State, j: nat): nat -> real
    requires Valid(s) && j < Dim(s)
  {
    Along(Filled(s.before.accelerations, Dim(s))[j],
          (i: nat) => if i < |s.points| then s.points[i].accelerations else [], j)
  }

  lemma VelocityDeduced(first: TrajectoryPoint, second: TrajectoryPoint, dim: nat, dt: real, j: nat)
    requires CanDeduce(first, second, dim) && Sized(first, dim) && Sized(second, dim) && j < dim
    requires second.positions == [] && second.velocities != []
    ensures var q := DeducedSecond(first, second, dim, dt);
            && |q.positions| == dim && q.velocities == second.velocities
            && q.positions[j] == first.positions[j]
                                 + TrapezoidArea(Filled(first.velocities, dim)[j], second.velocities[j], dt)
  {
  }

  /** p holds the integral of the message's velocities over its first n steps. */
  ghost predicate VelocityIntegral(p: TrajectoryPoint, s: State, n: nat, j: nat)
    requires Integrable(s) && j < Dim(s)
  {
    && |p.positions| == Dim(s) && Sized(p, Dim(s))
    && Filled(p.velocities, Dim(s))[j] == VelocityAlong(s, j)(n)
    && p.positions[j] == Trapezoids(s.before.positions[j], VelocityAlong(s, j), Durations(s), n)
  }

  lemma VelocityAdvance(first: TrajectoryPoint, s: State, n: nat, j: nat)
    requires Integrable(s) && VelocitiesOnly(s) && n < |s.points| && j < Dim(s)
    requires VelocityIntegral(first, s, n, j) && CanDeduce(first, s.points[n], Dim(s))
    ensures var q := DeducedSecond(first, s.points[n], Dim(s), StepDuration(s, n));
            q.velocities == s.points[n].velocities && VelocityIntegral(q, s, n + 1, j)
  {
    VelocityDeduced(first, s.points[n], Dim(s), StepDuration(s, n), j);
    assert VelocityAlong(s, j)(n + 1) == s.points[n].velocities[j];
    assert Durations(s)(n) == StepDuration(s, n);
  }

  lemma {:induction false} VelocityStep(s: State, n: nat, j: nat)
    requires Integrable(s) && VelocitiesOnly(s) && n < |s.points| && j < Dim(s)
    ensures Eager(s, n + 1).points[n].velocities == s.points[n].velocities
    ensures VelocityIntegral(Eager(s, n + 1).points[n], s, n + 1, j)
    decreases n, 1
  {
    hide *;
    VelocityFirst(s, n, j);
    StepShape(s, n);
    VelocityAdvance(StepFirst(Eager(s, n), n), s, n, j);
  }

  lemma {:induction false} VelocityFirst(s: State, n: nat, j: nat)
    requires Integrable(s) && VelocitiesOnly(s) && n < |s.points| && j < Dim(s)
    ensures VelocityIntegral(StepFirst(Eager(s, n), n), s, n, j)
    decreases n, 0
  {
    hide *;
    FirstOfStep(s, n);
    if n == 0 {
      VelocityAtStart(s, j);
    } else {
      VelocityStep(s, n - 1, j);
    }
  }

  lemma VelocityAtStart(s: State, j: nat)
    requires Integrable(s) && j < Dim(s)
    ensures VelocityIntegral(s.before, s, 0, j)
  {
  }

  /** A step starts from the point that the step before it left. */
  lemma FirstOfStep(s: State, n: nat)
    requires n < |s.points|
    ensures StepFirst(Eager(s, n), n) == if n == 0 then s.before else Eager(s, n).points[n - 1]
  {
  }

  /** For a message of velocities, the positions left at every point are the trapezoidal integral of the
      velocities from the state before the message. */
  lemma VelocitiesIntegrated(s: State, i: nat, j: nat)
    requires Integrable(s) && VelocitiesOnly(s) && i < |s.points| && j < Dim(s)
    ensures var p := Eager(s, |s.points|).points[i];
            p.velocities == s.points[i].velocities && VelocityIntegral(p, s, i + 1, j)
  {
    hide *;
    UniformMessagesSettle(s);
    VelocityStep(s, i, j);
    PointFinal(s, i + 1, |s.points|, i);
  }

  lemma AccelerationDeduced(first: TrajectoryPoint, second: TrajectoryPoint, dim: nat, dt: real, j: nat)
    requires CanDeduce(first, second, dim) && Sized(first, dim) && Sized(second, dim) && j < dim
    requires second.positions == [] && second.velocities == []
    ensures var q, v0 := DeducedSecond(first, second, dim, dt), Filled(first.velocities, dim)[j];
            && |q.positions| == |q.velocities| == dim && q.accelerations == second.accelerations && Sized(q, dim)
            && q.velocities[j] == v0 + TrapezoidArea(Filled(first.accelerations, dim)[j], second.accelerations[j], dt)
            && q.positions[j] == first.positions[j] + TrapezoidArea(v0, q.velocities[j], dt)
  {
  }

  /** Velocity of joint j after the first n steps of a message of accelerations. */
  ghost function VelocityFromAccelerations(s: State, j: nat): nat -> real
    requires Integrable(s) && j < Dim(s)
  {
    (n: nat) => Trapezoids(Filled(s.before.velocities, Dim(s))[j], AccelerationAlong(s, j), Durations(s), n)
  }

  /** p holds the integrals of the message's accelerations over its first n steps. */
  ghost predicate AccelerationIntegrals(p: TrajectoryPoint, s: State, n: nat, j: nat)
    requires Integrable(s) && j < Dim(s)
  {
    var velocity := VelocityFromAccelerations(s, j);
    && |p.positions| == Dim(s) && Sized(p, Dim(s))
    && Filled(p.accelerations, Dim(s))[j] == AccelerationAlong(s, j)(n)
    && Filled(p.velocities, Dim(s))[j] == velocity(n)
    && p.positions[j] == Trapezoids(s.before.positions[j], velocity, Durations(s), n)
  }

  lemma AccelerationAdvance(first: TrajectoryPoint, s: State, n: nat, j: nat)
    requires Integrable(s) && AccelerationsOnly(s) && n < |s.points| && j < Dim(s)
    requires AccelerationIntegrals(first, s, n, j) && CanDeduce(first, s.points[n], Dim(s))
    ensures var q := DeducedSecond(first, s.points[n], Dim(s), StepDuration(s, n));
            q.velocities != [] && AccelerationIntegrals(q, s, n + 1, j)
  {
    hide DeducedSecond, CanDeduce, StepDuration, SomeField;
    var velocity := VelocityFromAccelerations(s, j);
    AccelerationDeduced(first, s.points[n], Dim(s), StepDuration(s, n), j);
    assert AccelerationAlong(s, j)(n + 1) == s.points[n].accelerations[j];
    assert Durations(s)(n) == StepDuration(s, n);
    assert velocity(n + 1) == velocity(n)
             + TrapezoidArea(AccelerationAlong(s, j)(n), AccelerationAlong(s, j)(n + 1), Durations(s)(n));
  }

  lemma {:induction false} AccelerationStep(s: State, n: nat, j: nat)
    requires Integrable(s) && AccelerationsOnly(s) && n < |s.points| && j < Dim(s)
    ensures Eager(s, n + 1).points[n].velocities != []
    ensures AccelerationIntegrals(Eager(s, n + 1).points[n], s, n + 1, j)
    decreases n, 1
  {
    hide *;
    AccelerationFirst(s, n, j);
    StepShape(s, n);
    AccelerationAdvance(StepFirst(Eager(s, n), n), s, n, j);
  }

  lemma {:induction false} AccelerationFirst(s: State, n: nat, j: nat)
    requires Integrable(s) && AccelerationsOnly(s) && n < |s.points| && j < Dim(s)
    ensures AccelerationIntegrals(StepFirst(Eager(s, n), n), s, n, j)
    decreases n, 0
  {
    hide *;
    FirstOfStep(s, n);
    if n == 0 {
      AccelerationAtStart(s, j);
    } else {
      AccelerationStep(s, n - 1, j);
    }
  }

  lemma AccelerationAtStart(s: State, j: nat)
    requires Integrable(s) && j < Dim(s)
    ensures AccelerationIntegrals(s.before, s, 0, j)
  {
  }

  /** For a message of accelerations, velocities are integrated first and positions from them. */
  lemma AccelerationsIntegrated(s: State, i: nat, j: nat)
    requires Integrable(s) && AccelerationsOnly(s) && i < |s.points| && j < Dim(s)
    ensures Eager(s, |s.points|).points[i].velocities != []
    ensures AccelerationIntegrals(Eager(s, |s.points|).points[i], s, i + 1, j)
  {
    hide *;
    AccelerationStep(s, i, j);
    assert Settling(s) by {
      UniformMessagesSettle(s);
    }
    PointFinal(s, i + 1, |s.points|, i);
  }
}
