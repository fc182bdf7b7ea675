/** What deduction makes of velocities and accelerations, in numbers: mean rate times duration, which is exact for
    rates that are linear in time. */
module Integration {
  import opened Powers
  import opened TrajectoryPoints
  import opened TrajectorySampling
  import opened CachedSearch
  import opened LazyDeduction

  // ----- One deduction -------------------------------------------------------------------------------------

  /** The entry of joint j, zero where the field is missing. */
  function Entry(field: seq<real>, j: nat): real {
    if j < |field| then field[j] else 0.0
  }

  /** The mean of the two rates for the duration. */
  predicate MeanRate(before: real, after: real, rateBefore: real, rateAfter: real, duration: real) {
    2.0 * (after - before) == (rateBefore + rateAfter) * duration
  }

  /** Deduction changes nothing where positions are given; otherwise the velocities, if missing, follow from the
      accelerations, and the positions from the velocities, by the mean of the rates at both ends. */
  lemma DeductionTakesMeanRates(first: TrajectoryPoint, second: TrajectoryPoint, dim: nat, dt: real, j: nat)
    requires CanDeduce(first, second, dim) && Sized(first, dim) && Sized(second, dim) && j < dim
    ensures var q := DeducedSecond(first, second, dim, dt);
      if second.positions != [] then q.positions == second.positions && q.velocities == second.velocities
      else
        && |first.positions| == |q.positions| == |q.velocities| == dim
        && MeanRate(first.positions[j], q.positions[j], Entry(first.velocities, j), q.velocities[j], dt)
        && (second.velocities != [] ==> q.velocities == second.velocities)
        && (second.velocities == [] ==>
              MeanRate(Entry(first.velocities, j), q.velocities[j], Entry(first.accelerations, j),
                       Entry(second.accelerations, j), dt))
  {
  }

  /** What deduction leaves in the earlier point: zeros for a rate that it had to read and did not find. */
  lemma DeductionFillsExactly(first: TrajectoryPoint, second: TrajectoryPoint, dim: nat)
    requires dim > 0
    ensures var p := DeducedFirst(first, second, dim);
      && p.positions == first.positions && p.timeFromStart == first.timeFromStart
      && p.effort == (if first.effort == [] then seq(dim, _ => 0.0) else first.effort)
      && (p.velocities != first.velocities <==> second.positions == [] && first.velocities == [])
      && (p.accelerations != first.accelerations
          <==> second.positions == [] && second.velocities == [] && first.accelerations == [])
      && (p.velocities != first.velocities ==> p.velocities == seq(dim, _ => 0.0))
      && (p.accelerations != first.accelerations ==> p.accelerations == seq(dim, _ => 0.0))
  {
    assert Zeros(dim) == seq(dim, _ => 0.0);
  }

  // ----- The integrated message ------------------------------------------------------------------------------

  /** The message integrated beforehand. */
  function Integrated(s: State): State { Eager(s, |s.points|) }

  /** The point, or recorded state, before point i. */
  function Earlier(s: State, i: nat): TrajectoryPoint
    requires i <= |s.points|
  {
    if i == 0 then s.before else s.points[i - 1]
  }

  /** Seconds from the recorded state to the point, or recorded state, before point i. */
  function Elapsed(s: State, i: nat): real
    requires i <= |s.points|
  {
    if i == 0 then 0.0 else Seconds(s.startTime + s.points[i - 1].timeFromStart - s.timeBefore)
  }

  lemma StepTakes(s: State, i: nat)
    requires i < |s.points|
    ensures StepDuration(s, i) == Elapsed(s, i + 1) - Elapsed(s, i)
  {
  }

  lemma FinalNeighbours(s: State, i: nat)
    requires Integrable(s) && Settling(s) && i < |s.points|
    ensures var e, first := Integrated(s), StepFirst(Eager(s, i), i);
      && |e.points| == |s.points| && Sized(first, Dim(s)) && Sized(s.points[i], Dim(s)) && Dim(s) > 0
      && CanDeduce(first, s.points[i], Dim(s))
      && Earlier(e, i) == DeducedFirst(first, s.points[i], Dim(s))
      && e.points[i] == DeducedSecond(first, s.points[i], Dim(s), Elapsed(s, i + 1) - Elapsed(s, i))
  {
    hide Eager, Settling, DeducedFirst, DeducedSecond, CanDeduce, StepDuration, Integrable, Extends, Elapsed;
    StepShape(s, i);
    StepTakes(s, i);
    StepSized(s, i);
    FinalPair(s, i);
  }

  lemma StepSized(s: State, i: nat)
    requires Integrable(s) && i < |s.points|
    ensures Sized(StepFirst(Eager(s, i), i), Dim(s)) && Sized(s.points[i], Dim(s)) && Dim(s) > 0
  {
    hide Eager;
    EagerIsDefined(s, i);
  }

  /** Step i leaves both its points as they stay. */
  lemma FinalPair(s: State, i: nat)
    requires Integrable(s) && Settling(s) && i < |s.points|
    ensures Earlier(Integrated(s), i) == StepFirst(Eager(s, i + 1), i)
    ensures Integrated(s).points[i] == Eager(s, i + 1).points[i]
  {
    hide Eager, Settling, Integrable;
    PointFinal(s, i + 1, |s.points|, i);
    if i > 0 {
      PointFinal(s, i + 1, |s.points|, i - 1);
    }
  }

  /** In the integrated message a point that gave no positions has those of the point before it plus the mean of both
      velocities for the time between them; velocities that it did not give come from the accelerations alike. */
  lemma NeighboursTakeMeanRates(s: State, i: nat, j: nat)
    requires Integrable(s) && Settling(s) && i < |s.points| && j < Dim(s) && s.points[i].positions == []
    ensures var e := Integrated(s);
      && |e.points| == |s.points|
      && var a, b, dt := Earlier(e, i), e.points[i], Elapsed(s, i + 1) - Elapsed(s, i);
      && j < |a.positions| && j < |b.positions|
      && MeanRate(a.positions[j], b.positions[j], Entry(a.velocities, j), Entry(b.velocities, j), dt)
      && (s.points[i].velocities != [] ==> b.velocities == s.points[i].velocities)
      && (s.points[i].velocities == [] ==>
            MeanRate(Entry(a.velocities, j), Entry(b.velocities, j), Entry(a.accelerations, j),
                     Entry(s.points[i].accelerations, j), dt))
  {
    hide Eager, Settling, Integrable, Extends;
    var first, dt := StepFirst(Eager(s, i), i), Elapsed(s, i + 1) - Elapsed(s, i);
    FinalNeighbours(s, i);
    DeductionTakesMeanRates(first, s.points[i], Dim(s), dt, j);
  }

  lemma EarlierExtends(s: State, i: nat)
    requires Integrable(s) && i <= |s.points|
    ensures var e := Integrated(s);
      && |e.points| == |s.points| && Extends(Earlier(e, i), Earlier(s, i))
      && Sized(Earlier(e, i), Dim(s)) && |Earlier(e, i).positions| == Dim(s) == |s.before.positions|
      && Sized(Earlier(s, i), Dim(s))
  {
    EagerIsDefined(s, |s.points|);
    if i > 0 {
      PointExtends(s, |s.points|, i - 1);
      assert Done(Integrated(s), i - 1);
    }
  }

  /** Velocity of joint j in the recorded state. */
  function FirstVelocity(s: State, j: nat): real { Entry(s.before.velocities, j) }

  /** The velocities of the integrated message are linear in time. */
  predicate LinearAt(s: State, i: nat, j: nat, a: real)
    requires i <= |s.points|
  {
    Entry(Earlier(Integrated(s), i).velocities, j) == FirstVelocity(s, j) + a * Elapsed(s, i)
  }

  predicate QuadraticAt(s: State, i: nat, j: nat, a: real)
    requires i <= |s.points|
  {
    var T := Elapsed(s, i);
    && j < |s.before.positions| && j < |Earlier(Integrated(s), i).positions|
    && Earlier(Integrated(s), i).positions[j]
       == s.before.positions[j] + FirstVelocity(s, j) * T + 0.5 * a * (T * T)
  }

  lemma MeanOfLinear(p: real, q: real, v: real, w: real, p0: real, v0: real, a: real, t: real, u: real)
    requires MeanRate(p, q, v, w, u - t) && v == v0 + a * t && w == v0 + a * u
    requires p == p0 + v0 * t + 0.5 * a * (t * t)
    ensures q == p0 + v0 * u + 0.5 * a * (u * u)
  {
    assert (v + w) * (u - t) == 2.0 * v0 * (u - t) + a * (u * u) - a * (t * t);
  }

  lemma StartsQuadratic(s: State, j: nat, a: real)
    requires Integrable(s) && j < Dim(s)
    ensures QuadraticAt(s, 0, j, a)
  {
    EarlierExtends(s, 0);
    assert 0.0 * a == 0.0;
  }

  /** Velocities that are linear in time give exactly the positions of constant acceleration, however the points are
      spaced. */
  lemma {:induction false} LinearVelocitiesAreExact(s: State, i: nat, j: nat, a: real)
    requires Integrable(s) && Settling(s) && i <= |s.points| && j < Dim(s)
    requires forall k :: 0 <= k < |s.points| ==> s.points[k].positions == []
    requires forall k :: 0 <= k <= |s.points| ==> LinearAt(s, k, j, a)
    ensures QuadraticAt(s, i, j, a)
  {
    hide Integrable, Settling, Integrated, Entry, Elapsed;
    if i == 0 {
      StartsQuadratic(s, j, a);
    } else {
      LinearVelocitiesAreExact(s, i - 1, j, a);
      NeighboursTakeMeanRates(s, i - 1, j);
      assert LinearAt(s, i - 1, j, a) && LinearAt(s, i, j, a);
      var e := Integrated(s);
      MeanOfLinear(Earlier(e, i - 1).positions[j], Earlier(e, i).positions[j], Entry(Earlier(e, i - 1).velocities, j),
                   Entry(Earlier(e, i).velocities, j), s.before.positions[j], FirstVelocity(s, j), a,
                   Elapsed(s, i - 1), Elapsed(s, i));
    }
  }

  /** For a message of velocities, which it keeps: given velocities that are linear in time are enough. */
  lemma GivenVelocitiesAreExact(s: State, i: nat, j: nat, a: real)
    requires Integrable(s) && VelocitiesOnly(s) && i <= |s.points| && j < Dim(s)
    requires forall k :: 0 <= k < |s.points| ==>
               Entry(s.points[k].velocities, j) == FirstVelocity(s, j) + a * Elapsed(s, k + 1)
    ensures QuadraticAt(s, i, j, a)
  {
    UniformMessagesSettle(s);
    forall k | 0 <= k <= |s.points|
      ensures LinearAt(s, k, j, a)
    {
      GivenVelocityKept(s, k, j, a);
    }
    LinearVelocitiesAreExact(s, i, j, a);
  }

  lemma GivenVelocityKept(s: State, k: nat, j: nat, a: real)
    requires Integrable(s) && VelocitiesOnly(s) && k <= |s.points| && j < Dim(s)
    requires k > 0 ==> Entry(s.points[k - 1].velocities, j) == FirstVelocity(s, j) + a * Elapsed(s, k)
    ensures LinearAt(s, k, j, a)
  {
    EarlierExtends(s, k);
    UniformMessagesSettle(s);
    if k == 0 {
      RecordedVelocityKept(s, j);
      assert a * 0.0 == 0.0;
    }
  }

  /** A velocity that the recorded state lacks is filled in as zero. */
  lemma RecordedVelocityKept(s: State, j: nat)
    requires Integrable(s) && Settling(s) && j < Dim(s)
    ensures Entry(Integrated(s).before.velocities, j) == FirstVelocity(s, j)
  {
    FinalNeighbours(s, 0);
  }

  /** Constant acceleration throughout: velocities are linear, and positions quadratic, in time. */
  lemma {:induction false} ConstantAccelerationIsExact(s: State, i: nat, j: nat, a: real)
    requires Integrable(s) && AccelerationsOnly(s) && i <= |s.points| && j < Dim(s)
    requires forall k :: 0 <= k <= |s.points| ==>
               Earlier(s, k).accelerations != [] && Entry(Earlier(s, k).accelerations, j) == a
    ensures LinearAt(s, i, j, a) && QuadraticAt(s, i, j, a)
  {
    UniformMessagesSettle(s);
    forall k | 0 <= k <= |s.points|
      ensures LinearAt(s, k, j, a)
    {
      ConstantGivesLinear(s, k, j, a);
    }
    LinearVelocitiesAreExact(s, i, j, a);
  }

  lemma {:induction false} ConstantGivesLinear(s: State, i: nat, j: nat, a: real)
    requires Integrable(s) && AccelerationsOnly(s) && i <= |s.points| && j < Dim(s)
    requires forall k :: 0 <= k <= |s.points| ==>
               Earlier(s, k).accelerations != [] && Entry(Earlier(s, k).accelerations, j) == a
    ensures LinearAt(s, i, j, a)
  {
    hide Integrable, Settling, Integrated, Entry, Elapsed;
    UniformMessagesSettle(s);
    if i == 0 {
      RecordedVelocityKept(s, j);
      NoTimeElapsed(s, a);
    } else {
      ConstantGivesLinear(s, i - 1, j, a);
      EarlierExtends(s, i - 1);
      assert Earlier(s, i).accelerations == s.points[i - 1].accelerations && Earlier(s, i - 1).accelerations != [];
      NeighboursTakeMeanRates(s, i - 1, j);
      assert a * (Elapsed(s, i) - Elapsed(s, i - 1)) == a * Elapsed(s, i) - a * Elapsed(s, i - 1);
    }
  }

  lemma NoTimeElapsed(s: State, a: real)
    ensures a * Elapsed(s, 0) == 0.0
  {
  }
}
