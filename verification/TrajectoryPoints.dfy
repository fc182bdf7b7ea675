/** Trajectory points, the interpolation between two of them, and the deduction of missing positions
    and velocities from their derivatives. */
module TrajectoryPoints {
  import opened Powers
  import opened Splines

  /** A field that a message leaves out is the empty sequence. */
  datatype TrajectoryPoint = TrajectoryPoint(
    positions: seq<real>,
    velocities: seq<real>,
    accelerations: seq<real>,
    effort: seq<real>,
    timeFromStart: int)

  const BLANK := TrajectoryPoint([], [], [], [], 0)

  /** Times and durations are whole nanoseconds. */
  const NANOSECONDS := 1000000000.0

  function Seconds(duration: int): real {
    duration as real / NANOSECONDS
  }

  function Zeros(n: nat): (z: seq<real>)
    ensures |z| == n && forall j :: 0 <= j < n ==> z[j] == 0.0
  {
    seq(n, _ => 0.0)
  }

  /** Every field that is present has one entry per joint. */
  predicate Sized(p: TrajectoryPoint, dim: nat) {
    && (p.positions == [] || |p.positions| == dim)
    && (p.velocities == [] || |p.velocities| == dim)
    && (p.accelerations == [] || |p.accelerations| == dim)
    && (p.effort == [] || |p.effort| == dim)
  }

  // ----- Interpolation -------------------------------------------------------------------------

  /** The degree is chosen from the derivatives that both ends carry. With accelerations but no
      velocities none of the three branches runs and the output keeps its initial zeros. */
  datatype Degree = LinearDegree | CubicDegree | QuinticDegree | NoDegree

  function HasVelocity(a: TrajectoryPoint, b: TrajectoryPoint): bool {
    a.velocities != [] && b.velocities != []
  }

  function HasAcceleration(a: TrajectoryPoint, b: TrajectoryPoint): bool {
    a.accelerations != [] && b.accelerations != []
  }

  function HasEffort(a: TrajectoryPoint, b: TrajectoryPoint): bool {
    a.effort != [] && b.effort != []
  }

  function ChooseDegree(hasVelocity: bool, hasAcceleration: bool): Degree {
    if !hasVelocity && !hasAcceleration then LinearDegree
    else if hasVelocity && !hasAcceleration then CubicDegree
    else if hasVelocity && hasAcceleration then QuinticDegree
    else NoDegree
  }

  function DegreeOf(a: TrajectoryPoint, b: TrajectoryPoint): Degree {
    ChooseDegree(HasVelocity(a, b), HasAcceleration(a, b))
  }

  /** The entries that interpolation reads exist. */
  predicate CanInterpolate(a: TrajectoryPoint, b: TrajectoryPoint) {
    var dim := |a.positions|;
    && dim <= |b.positions|
    && (HasVelocity(a, b) ==> dim <= |a.velocities| && dim <= |b.velocities|)
    && (HasAcceleration(a, b) ==> dim <= |a.accelerations| && dim <= |b.accelerations|)
    && (HasEffort(a, b) ==> dim <= |a.effort| && dim <= |b.effort|)
  }

  /** State of joint j at a point; an entry that is not there counts as zero. */
  function KnotOf(p: TrajectoryPoint, j: nat): Knot
    requires j < |p.positions|
  {
    Knot(p.positions[j],
         if j < |p.velocities| then p.velocities[j] else 0.0,
         if j < |p.accelerations| then p.accelerations[j] else 0.0)
  }

  function SegmentPolynomial(degree: Degree, a: Knot, b: Knot, T: real): Polynomial {
    match degree
    case LinearDegree => Linear(a, b, T)
    case CubicDegree => Cubic(a, b, T)
    case QuinticDegree => Quintic(a, b, T)
    case NoDegree => ZERO
  }

  /** The motion of joint j over the segment from a to b. */
  function Curve(degree: Degree, a: TrajectoryPoint, b: TrajectoryPoint, j: nat, T: real): Polynomial
    requires j < |a.positions| && j < |b.positions|
  {
    SegmentPolynomial(degree, KnotOf(a, j), KnotOf(b, j), T)
  }

  function EffortAt(a: TrajectoryPoint, b: TrajectoryPoint, j: nat, T: real, x: real): real
    requires HasEffort(a, b) ==> j < |a.effort| && j < |b.effort|
  {
    if HasEffort(a, b) then a.effort[j] + x * LinearSlope(a.effort[j], b.effort[j], T) else 0.0
  }

  /** Effort is the weighted mean of the two ends, with the elapsed time as the weight, and zero if an end has none. */
  lemma EffortIsBlend(a: TrajectoryPoint, b: TrajectoryPoint, j: nat, T: real, x: real)
    requires T > 0.0 && (a.effort != [] && b.effort != [] ==> j < |a.effort| && j < |b.effort|)
    ensures if a.effort != [] && b.effort != [] then
              Times(T, EffortAt(a, b, j, T, x)) == Times(T - x, a.effort[j]) + Times(x, b.effort[j])
            else EffortAt(a, b, j, T, x) == 0.0
  {
    if HasEffort(a, b) {
      EffortBetween(a, b, j, T, x);
    }
  }

  lemma EffortBetween(a: TrajectoryPoint, b: TrajectoryPoint, j: nat, T: real, x: real)
    requires T > 0.0 && HasEffort(a, b) && j < |a.effort| && j < |b.effort|
    ensures Times(T, EffortAt(a, b, j, T, x)) == Times(T - x, a.effort[j]) + Times(x, b.effort[j])
  {
    var start, end := a.effort[j], b.effort[j];
    var slope := LinearSlope(start, end, T);
    Divided(end - start, T);
    assert Times(T, slope) == end - start;
    assert Times(T, start + x * slope) == Times(T, start) + Times(x, Times(T, slope));
    assert Times(x, end - start) == Times(x, end) - Times(x, start);
    assert Times(T - x, start) == Times(T, start) - Times(x, start);
  }

  /** The state x seconds into a segment of T seconds. */
  function StateOnSegment(degree: Degree, a: TrajectoryPoint, b: TrajectoryPoint, T: real, x: real)
    : (p: TrajectoryPoint)
    requires CanInterpolate(a, b)
    ensures |p.positions| == |p.velocities| == |p.accelerations| == |p.effort| == |a.positions|
  {
    var dim := |a.positions|;
    TrajectoryPoint(
      seq(dim, j requires 0 <= j < dim => Position(Curve(degree, a, b, j, T), x)),
      seq(dim, j requires 0 <= j < dim => Velocity(Curve(degree, a, b, j, T), x)),
      seq(dim, j requires 0 <= j < dim => Acceleration(Curve(degree, a, b, j, T), x)),
      seq(dim, j requires 0 <= j < dim => EffortAt(a, b, j, T, x)),
      0)
  }

  /** What `interpolate_between_points` writes, with its two clamps. A clamped sample forgets the
      derivatives and falls back to a straight line. */
  function Interpolate(timeA: int, a: TrajectoryPoint, timeB: int, b: TrajectoryPoint, t: int): TrajectoryPoint
    requires CanInterpolate(a, b)
  {
    var soFar, between := Seconds(t - timeA), Seconds(timeB - timeA);
    if soFar < 0.0 && 0.0 > between then StateOnSegment(LinearDegree, a, b, between, between)
    else if soFar < 0.0 then StateOnSegment(LinearDegree, a, b, between, 0.0)
    else if soFar > between then StateOnSegment(LinearDegree, a, b, between, between)
    else StateOnSegment(DegreeOf(a, b), a, b, between, soFar)
  }

  /** Between its two ends no segment is clamped. */
  lemma NoClampInside(timeA: int, a: TrajectoryPoint, timeB: int, b: TrajectoryPoint, t: int)
    requires CanInterpolate(a, b) && timeA <= t <= timeB
    ensures Interpolate(timeA, a, timeB, b, t)
            == StateOnSegment(DegreeOf(a, b), a, b, Seconds(timeB - timeA), Seconds(t - timeA))
  {
  }

  lemma AtTheEnds(a: real, b: real, T: real)
    ensures a + 0.0 * LinearSlope(a, b, T) == a
    ensures a + T * LinearSlope(a, b, T) == if T == 0.0 then a else b
  {
    if T != 0.0 {
      Divided(b - a, T);
      assert Times(T, LinearSlope(a, b, T)) == b - a;
    }
  }

  lemma OnTheLine(a: TrajectoryPoint, b: TrajectoryPoint, T: real, x: real, j: nat)
    requires CanInterpolate(a, b) && j < |a.positions|
    requires x == 0.0 || x == T
    ensures var p := StateOnSegment(LinearDegree, a, b, T, x);
      && p.positions[j] == (if T == 0.0 || x == 0.0 then a.positions[j] else b.positions[j])
      && Times(T, p.velocities[j]) == (if T == 0.0 then 0.0 else b.positions[j] - a.positions[j])
      && (T == 0.0 ==> p.velocities[j] == 0.0) && p.accelerations[j] == 0.0
      && p.effort[j] == (if a.effort == [] || b.effort == [] then 0.0
                         else if T == 0.0 || x == 0.0 then a.effort[j] else b.effort[j])
  {
    AtTheEnds(a.positions[j], b.positions[j], T);
    if HasEffort(a, b) {
      AtTheEnds(a.effort[j], b.effort[j], T);
    }
  }

  /** Outside a segment a sample is clamped: every joint stands at the end that is nearer in time, with the velocity of
      the straight line and no acceleration. A segment without duration stays at its start. */
  lemma ClampedOutside(timeA: int, a: TrajectoryPoint, timeB: int, b: TrajectoryPoint, t: int, j: nat)
    requires CanInterpolate(a, b) && (t < timeA || timeB < t) && j < |a.positions|
    ensures var p := Interpolate(timeA, a, timeB, b, t); var atStart := timeA == timeB || t < timeA < timeB;
      && p.positions[j] == (if atStart then a.positions[j] else b.positions[j])
      && Times(Seconds(timeB - timeA), p.velocities[j])
         == (if timeA == timeB then 0.0 else b.positions[j] - a.positions[j])
      && (timeA == timeB ==> p.velocities[j] == 0.0) && p.accelerations[j] == 0.0
      && p.effort[j] == (if a.effort == [] || b.effort == [] then 0.0
                         else if atStart then a.effort[j] else b.effort[j])
  {
    var soFar, between := Seconds(t - timeA), Seconds(timeB - timeA);
    if soFar < 0.0 && !(0.0 > between) {
      OnTheLine(a, b, between, 0.0, j);
    } else {
      OnTheLine(a, b, between, between, j);
    }
  }

  function Power(x: real, n: nat): real {
    if n == 0 then 1.0 else Times(Power(x, n - 1), x)
  }

  /** The powers 1, x, ..., x^n, by repeated multiplication. */
  method GeneratePowers(n: nat, x: real) returns (powers: array<real>)
    ensures fresh(powers) && powers.Length == n + 1
    ensures forall k :: 0 <= k <= n ==> powers[k] == Power(x, k)
  {
    powers := new real[n + 1];
    powers[0] := 1.0;
    for i := 1 to n + 1
      invariant forall k :: 0 <= k < i ==> powers[k] == Power(x, k)
    {
      powers[i] := Times(powers[i - 1], x);
    }
  }

  lemma PowersUnfolded(x: real)
    ensures Power(x, 0) == 1.0 && Power(x, 1) == x && Power(x, 2) == x * x && Power(x, 3) == x * x * x
    ensures Power(x, 4) == x * x * x * x && Power(x, 5) == x * x * x * x * x
  {
    assert Power(x, 1) == Times(Power(x, 0), x);
    assert Power(x, 2) == Times(x, x);
    assert Power(x, 3) == Times(x * x, x);
    assert Power(x, 4) == Times(x * x * x, x);
    assert Power(x, 5) == Times(x * x * x * x, x);
  }

  lemma PowerTimes(x: real, c: real)
    ensures Times(Power(x, 0), c) == c && Times(Power(x, 1), c) == Times(x, c)
    ensures Times(Power(x, 2), c) == Times2(x, c) && Times(Power(x, 3), c) == Times3(x, c)
    ensures Times(Power(x, 4), c) == Times4(x, c) && Times(Power(x, 5), c) == Times5(x, c)
  {
    PowersUnfolded(x);
    assert Times(x * x, c) == Times2(x, c);
    assert Times(x * x * x, c) == Times3(x, c);
    assert Times(x * x * x * x, c) == Times4(x, c);
    assert Times(x * x * x * x * x, c) == Times5(x, c);
  }

  /** Value of a polynomial and its derivatives from the powers of the time, as the loops sum them. */
  function SumPosition(f: Polynomial, t: seq<real>): real
    requires |t| == 6
  {
    Times(t[0], f.c0) + Times(t[1], f.c1) + Times(t[2], f.c2) + Times(t[3], f.c3) + Times(t[4], f.c4)
    + Times(t[5], f.c5)
  }

  function SumVelocity(f: Polynomial, t: seq<real>): real
    requires |t| == 6
  {
    Times(t[0], f.c1) + 2.0 * Times(t[1], f.c2) + 3.0 * Times(t[2], f.c3) + 4.0 * Times(t[3], f.c4)
    + 5.0 * Times(t[4], f.c5)
  }

  function SumAcceleration(f: Polynomial, t: seq<real>): real
    requires |t| == 6
  {
    2.0 * Times(t[0], f.c2) + 6.0 * Times(t[1], f.c3) + 12.0 * Times(t[2], f.c4) + 20.0 * Times(t[3], f.c5)
  }

  lemma SumsAgree(f: Polynomial, t: seq<real>, x: real)
    requires |t| == 6 && forall k :: 0 <= k <= 5 ==> t[k] == Power(x, k)
    ensures KnotAt(f, x) == Knot(SumPosition(f, t), SumVelocity(f, t), SumAcceleration(f, t))
  {
    PowerTimes(x, f.c0);
    PowerTimes(x, f.c1);
    PowerTimes(x, f.c2);
    PowerTimes(x, f.c3);
    PowerTimes(x, f.c4);
    PowerTimes(x, f.c5);
    PositionInPowers(f, x);
    VelocityTerms(f, x);
    AccelerationTerms(f, x);
  }

  /** One joint's state from prepared coefficients and prepared powers of the time. */
  function Evaluate(f: Polynomial, t: seq<real>): Knot
    requires |t| == 6
  {
    Knot(SumPosition(f, t), SumVelocity(f, t), SumAcceleration(f, t))
  }

  /** The coefficients of one branch, from the powers of the duration. */
  function Coefficients(degree: Degree, a: Knot, b: Knot, T: seq<real>): Polynomial
    requires |T| == 6
    requires T[1] != 0.0 ==> T[2] != 0.0 && T[3] != 0.0 && T[4] != 0.0 && T[5] != 0.0
  {
    match degree
    case LinearDegree => Polynomial(a.pos, if T[1] != 0.0 then (b.pos - a.pos) / T[1] else 0.0, 0.0, 0.0, 0.0, 0.0)
    case CubicDegree =>
      if T[1] != 0.0 then
        Polynomial(a.pos, a.vel, CubicNumerator2(a, b, T[1]) / T[2], CubicNumerator3(a, b, T[1]) / T[3], 0.0, 0.0)
      else
        Polynomial(a.pos, a.vel, 0.0, 0.0, 0.0, 0.0)
    case QuinticDegree =>
      if T[1] != 0.0 then
        Polynomial(a.pos, a.vel, 0.5 * a.acc, QuinticNumerator3(a, b, T[1]) / (2.0 * T[3]),
                   QuinticNumerator4(a, b, T[1]) / (2.0 * T[4]), QuinticNumerator5(a, b, T[1]) / (2.0 * T[5]))
      else
        Polynomial(a.pos, a.vel, 0.5 * a.acc, 0.0, 0.0, 0.0)
    case NoDegree => ZERO
  }

  lemma PowersNonZero(x: real)
    ensures Power(x, 1) != 0.0 ==>
              Power(x, 2) != 0.0 && Power(x, 3) != 0.0 && Power(x, 4) != 0.0 && Power(x, 5) != 0.0
  {
    PowersUnfolded(x);
  }

  lemma CoefficientsAgree(degree: Degree, a: Knot, b: Knot, T: seq<real>, x: real)
    requires |T| == 6 && forall k :: 0 <= k <= 5 ==> T[k] == Power(x, k)
    requires T[1] != 0.0 ==> T[2] != 0.0 && T[3] != 0.0 && T[4] != 0.0 && T[5] != 0.0
    ensures Coefficients(degree, a, b, T) == SegmentPolynomial(degree, a, b, x)
  {
    PowersUnfolded(x);
  }

  lemma JointAgrees(degree: Degree, a: TrajectoryPoint, b: TrajectoryPoint, j: nat,
                    powers: seq<real>, t: seq<real>, T: real, x: real)
    requires j < |a.positions| && j < |b.positions|
    requires |powers| == |t| == 6
    requires forall k :: 0 <= k <= 5 ==> powers[k] == Power(T, k) && t[k] == Power(x, k)
    ensures powers[1] != 0.0 ==> powers[2] != 0.0 && powers[3] != 0.0 && powers[4] != 0.0 && powers[5] != 0.0
    ensures Evaluate(Coefficients(degree, KnotOf(a, j), KnotOf(b, j), powers), t)
            == KnotAt(Curve(degree, a, b, j, T), x)
  {
    PowersNonZero(T);
    CoefficientsAgree(degree, KnotOf(a, j), KnotOf(b, j), powers, T);
    SumsAgree(Curve(degree, a, b, j, T), t, x);
  }

  /** Writes the motion of every joint, one after the other. */
  method InterpolateJoints(degree: Degree, a: TrajectoryPoint, b: TrajectoryPoint, T: real, x: real)
    returns (positions: seq<real>, velocities: seq<real>, accelerations: seq<real>)
    requires CanInterpolate(a, b)
    ensures positions == StateOnSegment(degree, a, b, T, x).positions
    ensures velocities == StateOnSegment(degree, a, b, T, x).velocities
    ensures accelerations == StateOnSegment(degree, a, b, T, x).accelerations
  {
    var dim := |a.positions|;
    var timePowers := GeneratePowers(5, x);
    var durationPowers := GeneratePowers(5, T);
    var t, powers := timePowers[..], durationPowers[..];
    positions, velocities, accelerations := Zeros(dim), Zeros(dim), Zeros(dim);
    for i := 0 to dim
      invariant |positions| == |velocities| == |accelerations| == dim
      invariant forall k :: 0 <= k < i ==>
                  Knot(positions[k], velocities[k], accelerations[k]) == KnotAt(Curve(degree, a, b, k, T), x)
    {
      JointAgrees(degree, a, b, i, powers, t, T, x);
      var joint := Evaluate(Coefficients(degree, KnotOf(a, i), KnotOf(b, i), powers), t);
      positions := positions[i := joint.pos];
      velocities := velocities[i := joint.vel];
      accelerations := accelerations[i := joint.acc];
    }
  }

  /** Effort is interpolated linearly whatever the degree of the motion. */
  method InterpolateEffort(a: TrajectoryPoint, b: TrajectoryPoint, T: real, x: real) returns (effort: seq<real>)
    requires CanInterpolate(a, b)
    ensures effort == StateOnSegment(LinearDegree, a, b, T, x).effort
  {
    var dim := |a.positions|;
    effort := Zeros(dim);
    if HasEffort(a, b) {
      for i := 0 to dim
        invariant |effort| == dim
        invariant forall k :: 0 <= k < i ==> effort[k] == EffortAt(a, b, k, T, x)
      {
        var slope := if T != 0.0 then (b.effort[i] - a.effort[i]) / T else 0.0;
        effort := effort[i := a.effort[i] + x * slope];
      }
    }
  }

  /** `interpolate_between_points`. */
  method InterpolateBetweenPoints(timeA: int, a: TrajectoryPoint, timeB: int, b: TrajectoryPoint, t: int)
    returns (output: TrajectoryPoint)
    requires CanInterpolate(a, b)
    ensures output == Interpolate(timeA, a, timeB, b, t)
  {
    var soFar, between := Seconds(t - timeA), Seconds(timeB - timeA);
    var hasVelocity, hasAcceleration := HasVelocity(a, b), HasAcceleration(a, b);
    if soFar < 0.0 {
      soFar := 0.0;
      hasVelocity, hasAcceleration := false, false;
    }
    if soFar > between {
      soFar := between;
      hasVelocity, hasAcceleration := false, false;
    }
    var effort := InterpolateEffort(a, b, between, soFar);
    var degree := ChooseDegree(hasVelocity, hasAcceleration);
    var positions, velocities, accelerations := InterpolateJoints(degree, a, b, between, soFar);
    output := TrajectoryPoint(positions, velocities, accelerations, effort, 0);
  }

  // ----- Deduction -----------------------------------------------------------------------------

  /** The entries that deduction reads exist. */
  predicate CanDeduce(first: TrajectoryPoint, second: TrajectoryPoint, dim: nat) {
    second.positions == [] ==>
      && dim <= |first.positions|
      && (first.velocities == [] || dim <= |first.velocities|)
      && (if second.velocities != [] then dim <= |second.velocities|
          else dim <= |second.accelerations| && (first.accelerations == [] || dim <= |first.accelerations|))
  }

  function Filled(field: seq<real>, dim: nat): seq<real> {
    if field == [] then Zeros(dim) else field
  }

  function FillEffort(p: TrajectoryPoint, dim: nat): TrajectoryPoint {
    p.(effort := Filled(p.effort, dim))
  }

  function TrapezoidArea(a: real, b: real, dt: real): real { (a + b) * 0.5 * dt }

  /** One trapezoid per joint. */
  function Trapezoid(start: seq<real>, rateA: seq<real>, rateB: seq<real>, dt: real, dim: nat): (r: seq<real>)
    requires dim <= |start| && dim <= |rateA| && dim <= |rateB|
    ensures |r| == dim
  {
    seq(dim, j requires 0 <= j < dim => start[j] + TrapezoidArea(rateA[j], rateB[j], dt))
  }

  /** What deduction leaves in the earlier point. */
  function DeducedFirst(first: TrajectoryPoint, second: TrajectoryPoint, dim: nat): TrajectoryPoint {
    var effortFilled := FillEffort(first, dim);
    if second.positions != [] then effortFilled
    else if second.velocities != [] then effortFilled.(velocities := Filled(first.velocities, dim))
    else effortFilled.(velocities := Filled(first.velocities, dim),
                       accelerations := Filled(first.accelerations, dim))
  }

  /** What deduction leaves in the later point. */
  function DeducedSecond(first: TrajectoryPoint, second: TrajectoryPoint, dim: nat, dt: real): TrajectoryPoint
    requires CanDeduce(first, second, dim)
  {
    var effortFilled := FillEffort(second, dim);
    if second.positions != [] then effortFilled
    else
      var rateA := Filled(first.velocities, dim);
      var rateB := if second.velocities != [] then second.velocities
                   else Trapezoid(rateA, Filled(first.accelerations, dim), second.accelerations, dt, dim);
      effortFilled.(velocities := rateB, positions := Trapezoid(first.positions, rateA, rateB, dt, dim))
  }

  method IntegrateField(start: seq<real>, rateA: seq<real>, rateB: seq<real>, dt: real, dim: nat)
    returns (r: seq<real>)
    requires dim <= |start| && dim <= |rateA| && dim <= |rateB|
    ensures r == Trapezoid(start, rateA, rateB, dt, dim)
  {
    r := Zeros(dim);
    for i := 0 to dim
      invariant |r| == dim
      invariant forall k :: 0 <= k < i ==> r[k] == Trapezoid(start, rateA, rateB, dt, dim)[k]
    {
      r := r[i := start[i] + TrapezoidArea(rateA[i], rateB[i], dt)];
    }
  }

  /** `deduce_from_derivatives`: the two points are returned as they are left. */
  method DeduceFromDerivatives(first: TrajectoryPoint, second: TrajectoryPoint, dim: nat, dt: real)
    returns (first': TrajectoryPoint, second': TrajectoryPoint)
    requires CanDeduce(first, second, dim)
    ensures first' == DeducedFirst(first, second, dim)
    ensures second' == DeducedSecond(first, second, dim, dt)
  {
    first', second' := first, second;
    if first'.effort == [] {
      first' := first'.(effort := Zeros(dim));
    }
    if second'.effort == [] {
      second' := second'.(effort := Zeros(dim));
    }
    if second'.positions == [] {
      if first'.velocities == [] {
        first' := first'.(velocities := Zeros(dim));
      }
      if second'.velocities == [] {
        if first'.accelerations == [] {
          first' := first'.(accelerations := Zeros(dim));
        }
        var velocities := IntegrateField(first'.velocities, first'.accelerations, second'.accelerations, dt, dim);
        second' := second'.(velocities := velocities);
      }
      var positions := IntegrateField(first'.positions, first'.velocities, second'.velocities, dt, dim);
      second' := second'.(positions := positions);
    }
  }

  // ----- Deduction only adds -------------------------------------------------------------------

  /** q agrees with p on everything p supplies. */
  predicate Extends(q: TrajectoryPoint, p: TrajectoryPoint) {
    && q.timeFromStart == p.timeFromStart
    && (p.positions != [] ==> q.positions == p.positions)
    && (p.velocities != [] ==> q.velocities == p.velocities)
    && (p.accelerations != [] ==> q.accelerations == p.accelerations)
    && (p.effort != [] ==> q.effort == p.effort)
  }

  /** Deduction never overwrites a supplied entry, leaves sized points sized, and gives the later point
      positions. A second deduction of the same pair changes nothing. */
  lemma DeductionOnlyAdds(first: TrajectoryPoint, second: TrajectoryPoint, dim: nat, dt: real)
    requires dim > 0 && Sized(first, dim) && Sized(second, dim) && CanDeduce(first, second, dim)
    ensures var p, q := DeducedFirst(first, second, dim), DeducedSecond(first, second, dim, dt);
            && Extends(p, first) && Extends(q, second)
            && Sized(p, dim) && Sized(q, dim) && q.positions != []
            && CanDeduce(p, q, dim) && DeducedFirst(p, q, dim) == p && DeducedSecond(p, q, dim, dt) == q
  {
  }
}
