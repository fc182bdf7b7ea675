/** The limiters in plain numbers: what every stage does to a request, what the constructors put in and what they
    refuse, with any minimum limits. */
module LimitsInNumbers {
  import opened Options
  import opened Powers
  import opened RateLimits
  import opened TricycleLimiters

  /** How far x lies from the centre, on either side. */
  function Distance(x: real, centre: real): real {
    if x >= centre then x - centre else centre - x
  }

  /** r is on the side of the centre on which x is, as far away as x if that is between lo and hi, and otherwise as far
      as the limit that x does not keep. */
  predicate Brought(x: real, r: real, centre: real, lo: real, hi: real) {
    && (x >= centre ==> r >= centre) && (x < centre ==> r <= centre)
    && Distance(r, centre) == (if Distance(x, centre) < lo then lo
                               else if Distance(x, centre) > hi then hi
                               else Distance(x, centre))
  }

  /** Neither limit is negative and they are in order. */
  predicate Ordered(b: Bound) {
    Active(b) ==> 0.0 <= b.min.value <= b.max.value
  }

  lemma TowardBrings(x: real, centre: real, lo: real, hi: real)
    requires 0.0 <= lo <= hi
    ensures Brought(x, Toward(x, centre, lo, hi), centre, lo, hi)
  {
  }

  lemma OrderedTimes(b: Bound, k: real)
    requires Active(b) && Ordered(b) && k >= 0.0
    ensures 0.0 <= b.min.value * k <= b.max.value * k
  {
    NonNegative(b.min.value, k);
    NonNegative(b.max.value - b.min.value, k);
    assert Times(b.min.value, k) == b.min.value * k;
    assert Times(b.max.value - b.min.value, k) == b.max.value * k - b.min.value * k;
  }

  lemma TwiceSquare(dt: real)
    requires dt >= 0.0
    ensures 2.0 * dt * dt >= 0.0
  {
    NonNegative(dt, dt);
    assert 2.0 * dt * dt == 2.0 * Times(dt, dt);
  }

  lemma JerkBrings(l: TractionLimits, v: real, v0: real, v1: real, dt: real, centre: real, lo: real, hi: real)
    requires Active(l.jerk) && centre == v0 + (v0 - v1) && 0.0 <= lo <= hi
    requires lo == l.jerk.min.value * (2.0 * dt * dt) && hi == l.jerk.max.value * (2.0 * dt * dt)
    ensures Brought(v, JerkStage(l, v, v0, v1, dt), centre, lo, hi)
  {
    hide Brought, Toward;
    assert JerkReach(l.jerk, dt) == hi && JerkLeast(l.jerk, dt) == lo;
    TowardBrings(v, centre, lo, hi);
    assert JerkStage(l, v, v0, v1, dt) == Toward(v, centre, lo, hi);
  }

  /** The jerk limits are for the change of the change over two periods: they bound how far the speed is from where the
      last change would take it. */
  lemma JerkInNumbers(l: TractionLimits, v: real, v0: real, v1: real, dt: real, centre: real, lo: real, hi: real)
    requires Ordered(l.jerk) && dt >= 0.0 && centre == 2.0 * v0 - v1
    requires Active(l.jerk) ==>
               lo == l.jerk.min.value * (2.0 * dt * dt) && hi == l.jerk.max.value * (2.0 * dt * dt)
    ensures var r := JerkStage(l, v, v0, v1, dt);
      if l.jerk.min.Some? && l.jerk.max.Some? then Brought(v, r, centre, lo, hi) else r == v
  {
    hide Brought, Toward, Ordered;
    if Active(l.jerk) {
      TwiceSquare(dt);
      OrderedTimes(l.jerk, 2.0 * dt * dt);
      JerkBrings(l, v, v0, v1, dt, centre, lo, hi);
    }
  }

  lemma ChangeBrings(b: Bound, x: real, x0: real, dt: real, lo: real, hi: real)
    requires Active(b) && 0.0 <= lo <= hi && lo == b.min.value * dt && hi == b.max.value * dt
    ensures Brought(x, LimitedChange(b, x, x0, dt), x0, lo, hi)
  {
    hide Brought, Toward;
    assert Reach(b, dt) == hi && Least(b, dt) == lo;
    TowardBrings(x, x0, lo, hi);
    assert LimitedChange(b, x, x0, dt) == Toward(x, x0, lo, hi);
  }

  /** A request that is not slower than the last speed is bounded by the acceleration, a slower one by the
      deceleration; without acceleration limits neither is. */
  lemma AccelerationInNumbers(l: TractionLimits, v: real, v0: real, dt: real, b: Bound, lo: real, hi: real)
    requires Ordered(l.acceleration) && Ordered(l.deceleration) && dt >= 0.0
    requires b == if Distance(v, 0.0) >= Distance(v0, 0.0) then l.acceleration else l.deceleration
    requires Active(b) ==> lo == b.min.value * dt && hi == b.max.value * dt
    ensures var r := AccelerationStage(l, v, v0, dt);
      if l.acceleration.min.Some? && l.acceleration.max.Some? && b.min.Some? && b.max.Some? then
        Brought(v, r, v0, lo, hi)
      else r == v
  {
    assert RateBound(l, v, v0) == b;
    hide Brought, Toward, Ordered, Distance, RateBound;
    if Active(l.acceleration) && Active(b) {
      OrderedTimes(b, dt);
      ChangeBrings(b, v, v0, dt, lo, hi);
    }
  }

  lemma VelocityInNumbers(l: TractionLimits, v: real)
    requires Ordered(l.velocity)
    ensures var r := VelocityStage(l, v);
      if l.velocity.min.Some? && l.velocity.max.Some? then
        Brought(v, r, 0.0, l.velocity.min.value, l.velocity.max.value)
      else r == v
  {
  }

  /** First the jerk, then the acceleration, then the speed: each stage works on what the one before it left. */
  lemma TractionInOrder(l: TractionLimits, v: real, v0: real, v1: real, dt: real, j: real, a: real)
    requires j == JerkStage(l, v, v0, v1, dt) && a == AccelerationStage(l, j, v0, dt)
    ensures LimitTraction(l, v, v0, v1, dt) == VelocityStage(l, a)
  {
  }

  /** The steering's acceleration limits bound the change of the angle's change. */
  lemma SteeringAccelerationInNumbers(l: SteeringLimits, p: real, p0: real, p1: real, dt: real, centre: real, lo: real,
                                      hi: real)
    requires Ordered(l.acceleration) && dt >= 0.0 && centre == 2.0 * p0 - p1
    requires Active(l.acceleration) ==>
               lo == l.acceleration.min.value * (2.0 * dt * dt) && hi == l.acceleration.max.value * (2.0 * dt * dt)
    ensures var r := SteeringAccelerationStage(l, p, p0, p1, dt);
      if l.acceleration.min.Some? && l.acceleration.max.Some? then Brought(p, r, centre, lo, hi) else r == p
  {
    hide Brought, Toward, Ordered;
    if Active(l.acceleration) {
      TwiceSquare(dt);
      OrderedTimes(l.acceleration, 2.0 * dt * dt);
      assert JerkReach(l.acceleration, dt) == hi && JerkLeast(l.acceleration, dt) == lo;
      TowardBrings(p, centre, lo, hi);
      assert SteeringAccelerationStage(l, p, p0, p1, dt) == Toward(p, centre, lo, hi);
    }
  }

  lemma SteeringVelocityInNumbers(l: SteeringLimits, p: real, p0: real, dt: real, lo: real, hi: real)
    requires Ordered(l.velocity) && dt >= 0.0
    requires Active(l.velocity) ==> lo == l.velocity.min.value * dt && hi == l.velocity.max.value * dt
    ensures var r := SteeringVelocityStage(l, p, p0, dt);
      if l.velocity.min.Some? && l.velocity.max.Some? then Brought(p, r, p0, lo, hi) else r == p
  {
    hide Brought, Toward, Ordered;
    if Active(l.velocity) {
      OrderedTimes(l.velocity, dt);
      ChangeBrings(l.velocity, p, p0, dt, lo, hi);
    }
  }

  /** Acceleration, velocity, position, in this order; the position is cut off at its limits. */
  lemma SteeringInOrder(l: SteeringLimits, p: real, p0: real, p1: real, dt: real, a: real, v: real)
    requires a == SteeringAccelerationStage(l, p, p0, p1, dt) && v == SteeringVelocityStage(l, a, p0, dt)
    ensures LimitSteering(l, p, p0, p1, dt)
         == (if l.position.min.None? || l.position.max.None? then v
             else if v < l.position.min.value then l.position.min.value
             else if l.position.max.value < v then l.position.max.value
             else v)
  {
  }

  // ----- Construction ------------------------------------------------------------------------------------

  /** A given limit is kept; the one that is missing beside it becomes zero, or a thousand. */
  lemma PatchedInNumbers(b: Bound)
    ensures var r := Patched(b);
      && (b.min.Some? ==> r.min == b.min && r.max == if b.max.Some? then b.max else Some(1000.0))
      && (b.max.Some? ==> r.max == b.max && r.min == if b.min.Some? then b.min else Some(0.0))
      && (b.min.None? && b.max.None? ==> r == b)
  {
  }

  lemma MirroredInNumbers(b: Bound)
    ensures var r := Mirrored(b);
      && (b.min.Some? && b.max.Some? ==> r == b) && (b.min.None? && b.max.None? ==> r == b)
      && (b.min.Some? && b.max.None? ==> r.min == b.min && r.max.Some? && r.max.value + b.min.value == 0.0)
      && (b.max.Some? && b.min.None? ==> r.max == b.max && r.min.Some? && r.min.value + b.max.value == 0.0)
  {
  }

  /** No given limit is negative, and a minimum is not above its maximum. */
  predicate Sensible(b: Bound) {
    && (b.min.Some? ==> b.min.value >= 0.0) && (b.max.Some? ==> b.max.value >= 0.0)
    && (b.min.Some? && b.max.Some? ==> b.min.value <= b.max.value)
  }

  /** The traction limiter refuses exactly the limits of which one pair is not sensible, and names the first such pair
      in the order velocity, acceleration, deceleration, jerk. */
  lemma RefusedExactly(l: TractionLimits)
    ensures var f := TractionFault(l);
      match f
      case None => Sensible(l.velocity) && Sensible(l.acceleration) && Sensible(l.deceleration) && Sensible(l.jerk)
      case Some(fault) =>
        match fault.what
        case Velocity => !Sensible(l.velocity)
        case Acceleration => Sensible(l.velocity) && !Sensible(l.acceleration)
        case Deceleration => Sensible(l.velocity) && Sensible(l.acceleration) && !Sensible(l.deceleration)
        case Jerk =>
          Sensible(l.velocity) && Sensible(l.acceleration) && Sensible(l.deceleration) && !Sensible(l.jerk)
  {
  }

  /** A negative limit is complained of before crossed ones. */
  lemma NegativeFirst(b: Bound, what: Quantity)
    ensures Complaint(b, what) == Some(NegativeLimit(what))
            <==> (b.min.Some? && b.min.value < 0.0) || (b.max.Some? && b.max.value < 0.0)
    ensures Complaint(b, what) == Some(CrossedLimits(what))
            <==> b.min.Some? && b.max.Some? && b.max.value < b.min.value && 0.0 <= b.max.value
  {
  }

  /** The steering limiter looks for negative limits only, and not at the positions. */
  lemma SteeringRefusedExactly(l: SteeringLimits)
    ensures SteeringFault(l).None?
            <==> && (l.velocity.min.Some? ==> l.velocity.min.value >= 0.0)
                 && (l.velocity.max.Some? ==> l.velocity.max.value >= 0.0)
                 && (l.acceleration.min.Some? ==> l.acceleration.min.value >= 0.0)
                 && (l.acceleration.max.Some? ==> l.acceleration.max.value >= 0.0)
  {
  }
}
