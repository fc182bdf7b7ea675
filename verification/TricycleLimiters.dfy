/** The limiter objects and the part of the tricycle controller that owns them: construction with missing
    limits, the clamping stages that overwrite their argument, and the queue of the last two commands. */
module TricycleLimiters {
  import opened Options
  import opened Powers
  import opened RateLimits

  const BIG := 1000.0

  /** A missing partner is put in: an arbitrarily big maximum, a minimum of zero. */
  function Patched(b: Bound): Bound {
    Bound(if b.min.None? && b.max.Some? then Some(0.0) else b.min,
          if b.max.None? && b.min.Some? then Some(BIG) else b.max)
  }

  /** A missing position limit mirrors the other one. */
  function Mirrored(b: Bound): Bound {
    Bound(if b.min.None? && b.max.Some? then Some(-b.max.value) else b.min,
          if b.max.None? && b.min.Some? then Some(-b.min.value) else b.max)
  }

  function PatchedTraction(l: TractionLimits): TractionLimits {
    TractionLimits(Patched(l.velocity), Patched(l.acceleration), Patched(l.deceleration), Patched(l.jerk))
  }

  function PatchedSteering(l: SteeringLimits): SteeringLimits {
    SteeringLimits(Mirrored(l.position), Patched(l.velocity), Patched(l.acceleration))
  }

  predicate Negative(b: Bound) {
    (b.min.Some? && b.min.value < 0.0) || (b.max.Some? && b.max.value < 0.0)
  }

  predicate Crossed(b: Bound) {
    Active(b) && b.min.value > b.max.value
  }

  datatype Quantity = Velocity | Acceleration | Deceleration | Jerk

  datatype Fault = NegativeLimit(what: Quantity) | CrossedLimits(what: Quantity)

  function Complaint(b: Bound, what: Quantity): Option<Fault> {
    if Negative(b) then Some(NegativeLimit(what))
    else if Crossed(b) then Some(CrossedLimits(what))
    else None
  }

  function TractionFault(l: TractionLimits): Option<Fault> {
    var v, a := Complaint(l.velocity, Velocity), Complaint(l.acceleration, Acceleration);
    var d, j := Complaint(l.deceleration, Deceleration), Complaint(l.jerk, Jerk);
    if v.Some? then v else if a.Some? then a else if d.Some? then d else j
  }

  /** The steering limiter does not compare minimum and maximum. */
  function SteeringFault(l: SteeringLimits): Option<Fault> {
    if Negative(l.velocity) then Some(NegativeLimit(Velocity))
    else if Negative(l.acceleration) then Some(NegativeLimit(Acceleration))
    else None
  }

  predicate NothingBelow(b: Bound) {
    b.min.None? || b.min.value == 0.0
  }

  /** Accepted limits without minimums are the ones that the window and run theorems are about; for the
      steering the order of the position limits must be checked by the caller. */
  lemma AcceptedLimitsStartAtZero(t: TractionLimits, s: SteeringLimits)
    requires NothingBelow(t.velocity) && NothingBelow(t.acceleration)
    requires NothingBelow(t.deceleration) && NothingBelow(t.jerk)
    requires NothingBelow(s.velocity) && NothingBelow(s.acceleration)
    ensures TractionFault(PatchedTraction(t)).None? <==> TractionFromZero(PatchedTraction(t))
    ensures SteeringFault(PatchedSteering(s)).None? && !Crossed(Mirrored(s.position))
            <==> SteeringFromZero(PatchedSteering(s))
  {
  }

  /** The factor that takes the request to the limited value. */
  function Factor(limited: real, request: real): (f: real)
    ensures request != 0.0 ==> f * request == limited
    ensures request == 0.0 ==> f == 1.0
  {
    if request != 0.0 then limited / request else 1.0
  }

  /** Clamps the distance that a request has moved away from the centre and puts the sign back. */
  method ClampChange(request: real, centre: real, lo: real, hi: real) returns (limited: real)
    ensures limited == Toward(request, centre, lo, hi)
  {
    var change := Clamp(Abs(request - centre), lo, hi);
    if request - centre < 0.0 {
      change := -change;
    }
    limited := centre + change;
  }

  method LimitRate(bound: Bound, request: real, last: real, dt: real) returns (limited: real)
    ensures limited == LimitedChange(bound, request, last, dt)
  {
    limited := request;
    if Active(bound) {
      limited := ClampChange(request, last, bound.min.value * dt, bound.max.value * dt);
    }
  }

  class TractionLimiter {
    var velocity: Bound
    var acceleration: Bound
    var deceleration: Bound
    var jerk: Bound

    function Limits(): TractionLimits
      reads this
    {
      TractionLimits(velocity, acceleration, deceleration, jerk)
    }

    constructor (l: TractionLimits)
      ensures Limits() == PatchedTraction(l)
    {
      velocity, acceleration, deceleration, jerk := l.velocity, l.acceleration, l.deceleration, l.jerk;
      new;
      if velocity.min.Some? && velocity.max.None? { velocity := velocity.(max := Some(BIG)); }
      if velocity.max.Some? && velocity.min.None? { velocity := velocity.(min := Some(0.0)); }
      if acceleration.min.Some? && acceleration.max.None? { acceleration := acceleration.(max := Some(BIG)); }
      if acceleration.max.Some? && acceleration.min.None? { acceleration := acceleration.(min := Some(0.0)); }
      if deceleration.min.Some? && deceleration.max.None? { deceleration := deceleration.(max := Some(BIG)); }
      if deceleration.max.Some? && deceleration.min.None? { deceleration := deceleration.(min := Some(0.0)); }
      if jerk.min.Some? && jerk.max.None? { jerk := jerk.(max := Some(BIG)); }
      if jerk.max.Some? && jerk.min.None? { jerk := jerk.(min := Some(0.0)); }
    }

    /** What the constructor throws, if anything. */
    method Validate() returns (fault: Option<Fault>)
      ensures fault == TractionFault(Limits())
    {
      if Negative(velocity) { return Some(NegativeLimit(Velocity)); }
      if Crossed(velocity) { return Some(CrossedLimits(Velocity)); }
      if Negative(acceleration) { return Some(NegativeLimit(Acceleration)); }
      if Crossed(acceleration) { return Some(CrossedLimits(Acceleration)); }
      if Negative(deceleration) { return Some(NegativeLimit(Deceleration)); }
      if Crossed(deceleration) { return Some(CrossedLimits(Deceleration)); }
      if Negative(jerk) { return Some(NegativeLimit(Jerk)); }
      if Crossed(jerk) { return Some(CrossedLimits(Jerk)); }
      return None;
    }

    method LimitJerk(speed: real, v0: real, v1: real, dt: real) returns (v: real)
      requires Active(jerk)
      ensures v == JerkStage(Limits(), speed, v0, v1, dt)
    {
      var dv0 := v0 - v1;
      var dt2 := 2.0 * dt * dt;
      v := ClampChange(speed, v0 + dv0, jerk.min.value * dt2, jerk.max.value * dt2);
    }

    method LimitAcceleration(speed: real, v0: real, dt: real) returns (v: real)
      requires Active(acceleration)
      ensures v == AccelerationStage(Limits(), speed, v0, dt)
    {
      var bound := if Abs(speed) >= Abs(v0) then acceleration else deceleration;
      v := LimitRate(bound, speed, v0, dt);
    }

    method LimitVelocity(speed: real) returns (v: real)
      requires Active(velocity)
      ensures v == VelocityStage(Limits(), speed)
    {
      v := ClampChange(speed, 0.0, velocity.min.value, velocity.max.value);
    }

    /** The limited speed, and the factor by which the request was scaled. */
    method Limit(speed: real, v0: real, v1: real, dt: real) returns (v: real, factor: real)
      ensures v == LimitTraction(Limits(), speed, v0, v1, dt)
      ensures factor == Factor(v, speed)
    {
      v := speed;
      if Active(jerk) {
        v := LimitJerk(v, v0, v1, dt);
      }
      if Active(acceleration) {
        v := LimitAcceleration(v, v0, dt);
      }
      if Active(velocity) {
        v := LimitVelocity(v);
      }
      factor := Factor(v, speed);
    }
  }

  class SteeringLimiter {
    var position: Bound
    var velocity: Bound
    var acceleration: Bound

    function Limits(): SteeringLimits
      reads this
    {
      SteeringLimits(position, velocity, acceleration)
    }

    constructor (l: SteeringLimits)
      ensures Limits() == PatchedSteering(l)
    {
      position, velocity, acceleration := l.position, l.velocity, l.acceleration;
      new;
      if position.min.Some? && position.max.None? { position := position.(max := Some(-position.min.value)); }
      if position.max.Some? && position.min.None? { position := position.(min := Some(-position.max.value)); }
      if velocity.min.Some? && velocity.max.None? { velocity := velocity.(max := Some(BIG)); }
      if velocity.max.Some? && velocity.min.None? { velocity := velocity.(min := Some(0.0)); }
      if acceleration.min.Some? && acceleration.max.None? { acceleration := acceleration.(max := Some(BIG)); }
      if acceleration.max.Some? && acceleration.min.None? { acceleration := acceleration.(min := Some(0.0)); }
    }

    method Validate() returns (fault: Option<Fault>)
      ensures fault == SteeringFault(Limits())
    {
      if Negative(velocity) { return Some(NegativeLimit(Velocity)); }
      if Negative(acceleration) { return Some(NegativeLimit(Acceleration)); }
      return None;
    }

    method LimitAcceleration(angle: real, p0: real, p1: real, dt: real) returns (p: real)
      requires Active(acceleration)
      ensures p == SteeringAccelerationStage(Limits(), angle, p0, p1, dt)
    {
      var dp0 := p0 - p1;
      var dt2 := 2.0 * dt * dt;
      p := ClampChange(angle, p0 + dp0, acceleration.min.value * dt2, acceleration.max.value * dt2);
    }

    method LimitVelocity(angle: real, p0: real, dt: real) returns (p: real)
      requires Active(velocity)
      ensures p == SteeringVelocityStage(Limits(), angle, p0, dt)
    {
      p := LimitRate(velocity, angle, p0, dt);
    }

    method Limit(angle: real, p0: real, p1: real, dt: real) returns (p: real, factor: real)
      ensures p == LimitSteering(Limits(), angle, p0, p1, dt)
      ensures factor == Factor(p, angle)
    {
      p := angle;
      if Active(acceleration) {
        p := LimitAcceleration(p, p0, p1, dt);
      }
      if Active(velocity) {
        p := LimitVelocity(p, p0, dt);
      }
      if Active(position) {
        p := Clamp(p, position.min.value, position.max.value);
      }
      factor := Factor(p, angle);
    }
  }

  datatype AckermannDrive = AckermannDrive(speed: real, steeringAngle: real)

  class TricycleController {
    var limiterTraction: TractionLimiter
    var limiterSteering: SteeringLimiter
    var previousCommands: seq<AckermannDrive>

    predicate Valid()
      reads this
    {
      |previousCommands| == 2
    }

    /** Limiters without limits; the queue is empty until the controller is configured. */
    constructor ()
      ensures previousCommands == [] && fresh(limiterTraction) && fresh(limiterSteering)
    {
      limiterTraction := new TractionLimiter(TractionLimits(NO_BOUND, NO_BOUND, NO_BOUND, NO_BOUND));
      limiterSteering := new SteeringLimiter(SteeringLimits(NO_BOUND, NO_BOUND, NO_BOUND));
      previousCommands := [];
    }

    /** Builds the limiters and fills the queue with two commands at rest; faulty limits leave the
        controller unconfigured. */
    method OnConfigure(traction: TractionLimits, steering: SteeringLimits) returns (ok: bool)
      modifies this
      ensures ok <==> TractionFault(PatchedTraction(traction)).None? && SteeringFault(PatchedSteering(steering)).None?
      ensures ok ==>
        && limiterTraction.Limits() == PatchedTraction(traction)
        && limiterSteering.Limits() == PatchedSteering(steering)
        && Valid() && previousCommands == [AckermannDrive(0.0, 0.0), AckermannDrive(0.0, 0.0)]
    {
      var newTraction := new TractionLimiter(traction);
      var fault := newTraction.Validate();
      if fault.Some? {
        return false;
      }
      limiterTraction := newTraction;
      var newSteering := new SteeringLimiter(steering);
      fault := newSteering.Validate();
      if fault.Some? {
        return false;
      }
      limiterSteering := newSteering;
      Reset();
      var empty := AckermannDrive(0.0, 0.0);
      previousCommands := previousCommands + [empty];
      previousCommands := previousCommands + [empty];
      ok := true;
    }

    method Reset()
      modifies this`previousCommands
      ensures previousCommands == []
    {
      previousCommands := [];
    }

    /** Limits the wheel speed and the angle against the last two commands and pushes the result. */
    method LimitCommand(wheelSpeed: real, angle: real, period: real) returns (command: AckermannDrive)
      requires Valid()
      modifies this`previousCommands
      ensures Valid() && previousCommands == [old(previousCommands)[1], command]
      ensures var last, secondToLast := old(previousCommands)[1], old(previousCommands)[0];
        && command.speed
           == LimitTraction(limiterTraction.Limits(), wheelSpeed, last.speed, secondToLast.speed, period)
        && command.steeringAngle
           == LimitSteering(limiterSteering.Limits(), angle, last.steeringAngle, secondToLast.steeringAngle, period)
    {
      var last := previousCommands[|previousCommands| - 1];
      var secondToLast := previousCommands[0];
      var speed, _ := limiterTraction.Limit(wheelSpeed, last.speed, secondToLast.speed, period);
      var limited, _ := limiterSteering.Limit(angle, last.steeringAngle, secondToLast.steeringAngle, period);
      previousCommands := previousCommands[1..];
      command := AckermannDrive(speed, limited);
      previousCommands := previousCommands + [command];
    }
  }
}
