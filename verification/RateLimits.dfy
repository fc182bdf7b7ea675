/** The traction and steering limiters of the tricycle: three clamps in sequence, fed back through the two
    last commands. */
module RateLimits {
  import opened Options
  import opened Powers

  // ----- Limits and stages ------------------------------------------------------------------------------

  /** A pair of limits, each of which may be missing. */
  datatype Bound = Bound(min: Option<real>, max: Option<real>)

  const NO_BOUND := Bound(None, None)

  predicate Active(b: Bound) {
    b.min.Some? && b.max.Some?
  }

  function Clamp(x: real, lo: real, hi: real): real {
    if x < lo then lo else if hi < x then hi else x
  }

  /** Brings the distance to the centre between lo and hi and keeps the side. */
  function Toward(x: real, centre: real, lo: real, hi: real): real {
    var d := Clamp(Abs(x - centre), lo, hi);
    centre + (if x - centre >= 0.0 then d else -d)
  }

  datatype TractionLimits = TractionLimits(velocity: Bound, acceleration: Bound, deceleration: Bound, jerk: Bound)

  datatype SteeringLimits = SteeringLimits(position: Bound, velocity: Bound, acceleration: Bound)

  function JerkReach(b: Bound, dt: real): real
    requires Active(b)
  {
    b.max.value * (2.0 * dt * dt)
  }

  function JerkLeast(b: Bound, dt: real): real
    requires Active(b)
  {
    b.min.value * (2.0 * dt * dt)
  }

  function JerkStage(l: TractionLimits, v: real, v0: real, v1: real, dt: real): real {
    if Active(l.jerk) then Toward(v, v0 + (v0 - v1), JerkLeast(l.jerk, dt), JerkReach(l.jerk, dt)) else v
  }

  /** Speeding up is limited by the acceleration, slowing down by the deceleration. */
  function RateBound(l: TractionLimits, v: real, v0: real): Bound {
    if Abs(v) >= Abs(v0) then l.acceleration else l.deceleration
  }

  function Reach(b: Bound, dt: real): real
    requires Active(b)
  {
    b.max.value * dt
  }

  function Least(b: Bound, dt: real): real
    requires Active(b)
  {
    b.min.value * dt
  }

  /** Limits the change per period; a missing limit clamps nothing. */
  function LimitedChange(b: Bound, x: real, x0: real, dt: real): real {
    if Active(b) then Toward(x, x0, Least(b, dt), Reach(b, dt)) else x
  }

  /** Skipped without acceleration limits, whatever the deceleration limits. */
  function AccelerationStage(l: TractionLimits, v: real, v0: real, dt: real): real {
    if Active(l.acceleration) then LimitedChange(RateBound(l, v, v0), v, v0, dt) else v
  }

  function VelocityStage(l: TractionLimits, v: real): real {
    if Active(l.velocity) then Toward(v, 0.0, l.velocity.min.value, l.velocity.max.value) else v
  }

  function LimitTraction(l: TractionLimits, v: real, v0: real, v1: real, dt: real): real {
    VelocityStage(l, AccelerationStage(l, JerkStage(l, v, v0, v1, dt), v0, dt))
  }

  function SteeringAccelerationStage(l: SteeringLimits, p: real, p0: real, p1: real, dt: real): real {
    if Active(l.acceleration) then
      Toward(p, p0 + (p0 - p1), JerkLeast(l.acceleration, dt), JerkReach(l.acceleration, dt))
    else p
  }

  function SteeringVelocityStage(l: SteeringLimits, p: real, p0: real, dt: real): real {
    LimitedChange(l.velocity, p, p0, dt)
  }

  function PositionStage(l: SteeringLimits, p: real): real {
    if Active(l.position) then Clamp(p, l.position.min.value, l.position.max.value) else p
  }

  function LimitSteering(l: SteeringLimits, p: real, p0: real, p1: real, dt: real): real {
    PositionStage(l, SteeringVelocityStage(l, SteeringAccelerationStage(l, p, p0, p1, dt), p0, dt))
  }

  // ----- Three windows at once ---------------------------------------------------------------------------

  datatype Window = Window(lo: real, hi: real)

  /** A missing window excludes nothing. */
  predicate In(x: real, w: Option<Window>) {
    w.Some? ==> w.value.lo <= x <= w.value.hi
  }

  predicate Proper(w: Option<Window>) {
    w.Some? ==> w.value.lo <= w.value.hi
  }

  predicate Meet(a: Option<Window>, b: Option<Window>) {
    a.Some? && b.Some? ==> a.value.lo <= b.value.hi && b.value.lo <= a.value.hi
  }

  function Into(x: real, w: Option<Window>): real {
    if w.Some? then Clamp(x, w.value.lo, w.value.hi) else x
  }

  /** Three clamps in a row end in all three windows exactly when the windows meet pairwise. */
  lemma ThreeClamps(x: real, a: Option<Window>, b: Option<Window>, c: Option<Window>)
    requires Proper(a) && Proper(b) && Proper(c)
    ensures var r := Into(Into(Into(x, a), b), c);
      In(r, a) && In(r, b) && In(r, c) <==> Meet(a, b) && Meet(a, c) && Meet(b, c)
  {
  }

  function Around(centre: real, radius: real): Option<Window> {
    Some(Window(centre - radius, centre + radius))
  }

  lemma TowardIsClamp(x: real, centre: real, radius: real)
    requires radius >= 0.0
    ensures Toward(x, centre, 0.0, radius) == Into(x, Around(centre, radius))
  {
  }

  /** A bound whose lower limit is zero, as it is when it was not given. */
  predicate FromZero(b: Bound) {
    Active(b) ==> b.min.value == 0.0 && b.max.value >= 0.0
  }

  predicate TractionFromZero(l: TractionLimits) {
    FromZero(l.velocity) && FromZero(l.acceleration) && FromZero(l.deceleration) && FromZero(l.jerk)
  }

  predicate SteeringFromZero(l: SteeringLimits) {
    && FromZero(l.velocity) && FromZero(l.acceleration)
    && (Active(l.position) ==> l.position.min.value <= l.position.max.value)
  }

  function JerkWindow(l: TractionLimits, v0: real, v1: real, dt: real): Option<Window> {
    if Active(l.jerk) then Around(v0 + (v0 - v1), JerkReach(l.jerk, dt)) else None
  }

  predicate RateLimited(l: TractionLimits, v: real, v0: real) {
    Active(l.acceleration) && Active(RateBound(l, v, v0))
  }

  /** The window of the rate that the acceleration stage picks for v. */
  function RateWindow(l: TractionLimits, v: real, v0: real, dt: real): Option<Window> {
    if RateLimited(l, v, v0) then Around(v0, Reach(RateBound(l, v, v0), dt)) else None
  }

  function VelocityWindow(l: TractionLimits): Option<Window> {
    if Active(l.velocity) then Around(0.0, l.velocity.max.value) else None
  }

  lemma ReachIsNotNegative(b: Bound, dt: real)
    requires Active(b) && FromZero(b) && dt >= 0.0
    ensures Reach(b, dt) >= 0.0 && JerkReach(b, dt) >= 0.0
    ensures b.min.value * dt == 0.0 && b.min.value * (2.0 * dt * dt) == 0.0
  {
    NonNegative(b.max.value, dt);
    NonNegative(2.0 * dt, dt);
    NonNegative(b.max.value, 2.0 * dt * dt);
    assert Reach(b, dt) == Times(b.max.value, dt) && JerkReach(b, dt) == Times(b.max.value, 2.0 * dt * dt);
  }

  lemma TractionStagesClamp(l: TractionLimits, v: real, v0: real, v1: real, dt: real)
    requires TractionFromZero(l) && dt >= 0.0
    ensures Proper(JerkWindow(l, v0, v1, dt)) && Proper(RateWindow(l, v, v0, dt)) && Proper(VelocityWindow(l))
    ensures JerkStage(l, v, v0, v1, dt) == Into(v, JerkWindow(l, v0, v1, dt))
    ensures AccelerationStage(l, v, v0, dt) == Into(v, RateWindow(l, v, v0, dt))
    ensures VelocityStage(l, v) == Into(v, VelocityWindow(l))
  {
    if Active(l.jerk) {
      ReachIsNotNegative(l.jerk, dt);
      TowardIsClamp(v, v0 + (v0 - v1), JerkReach(l.jerk, dt));
    }
    if RateLimited(l, v, v0) {
      var b := RateBound(l, v, v0);
      ReachIsNotNegative(b, dt);
      TowardIsClamp(v, v0, Reach(b, dt));
    }
    if Active(l.velocity) {
      TowardIsClamp(v, 0.0, l.velocity.max.value);
    }
  }

  /** The limited speed is inside the jerk, rate and velocity windows at once exactly when they meet
      pairwise, although each later stage may undo an earlier one. */
  lemma TractionEndsInEveryWindow(l: TractionLimits, v: real, v0: real, v1: real, dt: real)
    requires TractionFromZero(l) && dt >= 0.0
    ensures var jerk, velocity := JerkWindow(l, v0, v1, dt), VelocityWindow(l);
      var rate := RateWindow(l, JerkStage(l, v, v0, v1, dt), v0, dt);
      var r := LimitTraction(l, v, v0, v1, dt);
      In(r, jerk) && In(r, rate) && In(r, velocity)
      <==> Meet(jerk, rate) && Meet(jerk, velocity) && Meet(rate, velocity)
  {
    var j := JerkStage(l, v, v0, v1, dt);
    TractionStagesClamp(l, v, v0, v1, dt);
    TractionStagesClamp(l, j, v0, v1, dt);
    TractionStagesClamp(l, AccelerationStage(l, j, v0, dt), v0, v1, dt);
    ThreeClamps(v, JerkWindow(l, v0, v1, dt), RateWindow(l, j, v0, dt), VelocityWindow(l));
  }

  function SteeringAccelerationWindow(l: SteeringLimits, p0: real, p1: real, dt: real): Option<Window> {
    if Active(l.acceleration) then Around(p0 + (p0 - p1), JerkReach(l.acceleration, dt)) else None
  }

  function SteeringVelocityWindow(l: SteeringLimits, p0: real, dt: real): Option<Window> {
    if Active(l.velocity) then Around(p0, Reach(l.velocity, dt)) else None
  }

  function PositionWindow(l: SteeringLimits): Option<Window> {
    if Active(l.position) then Some(Window(l.position.min.value, l.position.max.value)) else None
  }

  lemma SteeringStagesClamp(l: SteeringLimits, p: real, p0: real, p1: real, dt: real)
    requires SteeringFromZero(l) && dt >= 0.0
    ensures Proper(SteeringAccelerationWindow(l, p0, p1, dt)) && Proper(SteeringVelocityWindow(l, p0, dt))
    ensures SteeringAccelerationStage(l, p, p0, p1, dt) == Into(p, SteeringAccelerationWindow(l, p0, p1, dt))
    ensures SteeringVelocityStage(l, p, p0, dt) == Into(p, SteeringVelocityWindow(l, p0, dt))
    ensures PositionStage(l, p) == Into(p, PositionWindow(l)) && Proper(PositionWindow(l))
  {
    SteeringAccelerationClamps(l, p, p0, p1, dt);
    SteeringVelocityClamps(l, p, p0, dt);
  }

  lemma SteeringAccelerationClamps(l: SteeringLimits, p: real, p0: real, p1: real, dt: real)
    requires SteeringFromZero(l) && dt >= 0.0
    ensures Proper(SteeringAccelerationWindow(l, p0, p1, dt))
    ensures SteeringAccelerationStage(l, p, p0, p1, dt) == Into(p, SteeringAccelerationWindow(l, p0, p1, dt))
  {
    if Active(l.acceleration) {
      ReachIsNotNegative(l.acceleration, dt);
      TowardIsClamp(p, p0 + (p0 - p1), JerkReach(l.acceleration, dt));
    }
  }

  lemma SteeringVelocityClamps(l: SteeringLimits, p: real, p0: real, dt: real)
    requires SteeringFromZero(l) && dt >= 0.0
    ensures Proper(SteeringVelocityWindow(l, p0, dt))
    ensures SteeringVelocityStage(l, p, p0, dt) == Into(p, SteeringVelocityWindow(l, p0, dt))
  {
    if Active(l.velocity) {
      ReachIsNotNegative(l.velocity, dt);
      TowardIsClamp(p, p0, Reach(l.velocity, dt));
    }
  }

  /** The same for the steering angle and its acceleration, velocity and position windows. */
  lemma SteeringEndsInEveryWindow(l: SteeringLimits, p: real, p0: real, p1: real, dt: real)
    requires SteeringFromZero(l) && dt >= 0.0
    ensures var acceleration := SteeringAccelerationWindow(l, p0, p1, dt);
      var velocity, position := SteeringVelocityWindow(l, p0, dt), PositionWindow(l);
      var r := LimitSteering(l, p, p0, p1, dt);
      In(r, acceleration) && In(r, velocity) && In(r, position)
      <==> Meet(acceleration, velocity) && Meet(acceleration, position) && Meet(velocity, position)
  {
    var a := SteeringAccelerationStage(l, p, p0, p1, dt);
    SteeringStagesClamp(l, p, p0, p1, dt);
    SteeringStagesClamp(l, a, p0, p1, dt);
    SteeringStagesClamp(l, SteeringVelocityStage(l, a, p0, dt), p0, p1, dt);
    ThreeClamps(p, SteeringAccelerationWindow(l, p0, p1, dt), SteeringVelocityWindow(l, p0, dt), PositionWindow(l));
  }

  // ----- Runs through the history ---------------------------------------------------------------------

  datatype Request = Request(value: real, dt: real)

  predicate TimeMovesOn(requests: seq<Request>) {
    forall k :: 0 <= k < |requests| ==> requests[k].dt >= 0.0
  }

  /** Each output becomes the last command and pushes out the one before. */
  function Speeds(l: TractionLimits, v0: real, v1: real, requests: seq<Request>): (r: seq<real>)
    ensures |r| == |requests|
    decreases |requests|
  {
    if requests == [] then []
    else
      var v := LimitTraction(l, requests[0].value, v0, v1, requests[0].dt);
      [v] + Speeds(l, v, v0, requests[1..])
  }

  function Angles(l: SteeringLimits, p0: real, p1: real, requests: seq<Request>): (r: seq<real>)
    ensures |r| == |requests|
    decreases |requests|
  {
    if requests == [] then []
    else
      var p := LimitSteering(l, requests[0].value, p0, p1, requests[0].dt);
      [p] + Angles(l, p, p0, requests[1..])
  }

  function Previous(first: real, outputs: seq<real>, k: nat): real
    requires k < |outputs|
  {
    if k == 0 then first else outputs[k - 1]
  }

  function Max(a: real, b: real): real {
    if a >= b then a else b
  }

  /** Within the speed limit, and no further from the last command than the larger of the two rates allows. */
  predicate SpeedAllowed(l: TractionLimits, v: real, v0: real, dt: real) {
    && In(v, VelocityWindow(l))
    && (Active(l.acceleration) && Active(l.deceleration) ==>
          Abs(v - v0) <= Max(Reach(l.acceleration, dt), Reach(l.deceleration, dt)))
  }

  /** A window that holds the centre of another does not push a point out of it. */
  lemma CentreKept(a: real, centre: real, reach: real, w: Option<Window>)
    requires In(centre, w) && reach >= 0.0 && In(a, Around(centre, reach))
    ensures In(Into(a, w), w) && Abs(Into(a, w) - centre) <= reach
  {
  }

  lemma SpeedStepAllowed(l: TractionLimits, v: real, v0: real, v1: real, dt: real)
    requires TractionFromZero(l) && dt >= 0.0 && In(v0, VelocityWindow(l))
    ensures SpeedAllowed(l, LimitTraction(l, v, v0, v1, dt), v0, dt)
  {
    hide JerkStage, Reach;
    var j := JerkStage(l, v, v0, v1, dt);
    var a := AccelerationStage(l, j, v0, dt);
    TractionStagesClamp(l, j, v0, v1, dt);
    TractionStagesClamp(l, a, v0, v1, dt);
    if RateLimited(l, j, v0) {
      ReachIsNotNegative(RateBound(l, j, v0), dt);
      CentreKept(a, v0, Reach(RateBound(l, j, v0), dt), VelocityWindow(l));
    }
  }

  /** On every run each speed respects the limit and each step the larger rate, jerk limiting or not. */
  lemma {:induction false} SpeedsAreAllowed(l: TractionLimits, v0: real, v1: real, requests: seq<Request>, k: nat)
    requires TractionFromZero(l) && TimeMovesOn(requests) && In(v0, VelocityWindow(l))
    requires k < |requests|
    ensures var r := Speeds(l, v0, v1, requests); SpeedAllowed(l, r[k], Previous(v0, r, k), requests[k].dt)
    decreases |requests|
  {
    SpeedStepAllowed(l, requests[0].value, v0, v1, requests[0].dt);
    var v := LimitTraction(l, requests[0].value, v0, v1, requests[0].dt);
    if k > 0 {
      SpeedsAreAllowed(l, v, v0, requests[1..], k - 1);
    }
  }

  predicate AngleAllowed(l: SteeringLimits, p: real, p0: real, dt: real) {
    In(p, PositionWindow(l)) && (Active(l.velocity) ==> Abs(p - p0) <= Reach(l.velocity, dt))
  }

  /** On every run each angle respects its limits and each step the steering velocity. */
  lemma {:induction false} AnglesAreAllowed(l: SteeringLimits, p0: real, p1: real, requests: seq<Request>, k: nat)
    requires SteeringFromZero(l) && TimeMovesOn(requests) && In(p0, PositionWindow(l))
    requires k < |requests|
    ensures var r := Angles(l, p0, p1, requests); AngleAllowed(l, r[k], Previous(p0, r, k), requests[k].dt)
    decreases |requests|
  {
    var request := requests[0];
    var a := SteeringAccelerationStage(l, request.value, p0, p1, request.dt);
    SteeringStagesClamp(l, a, p0, p1, request.dt);
    SteeringStagesClamp(l, SteeringVelocityStage(l, a, p0, request.dt), p0, p1, request.dt);
    var p := LimitSteering(l, request.value, p0, p1, request.dt);
    assert AngleAllowed(l, p, p0, request.dt);
    if k > 0 {
      AnglesAreAllowed(l, p, p0, requests[1..], k - 1);
    }
  }

  // ----- Which limit a step keeps ---------------------------------------------------------------------

  /** The step keeps the limit named for what it does: the acceleration limit if the wheel turns no slower than
      before, the deceleration limit if it turns slower. */
  predicate KeepsNamedLimit(l: TractionLimits, v: real, v0: real, dt: real)
    requires Active(l.acceleration) && Active(l.deceleration)
  {
    Abs(v - v0) <= if Abs(v) >= Abs(v0) then Reach(l.acceleration, dt) else Reach(l.deceleration, dt)
  }

  /** A request that reverses to at least the same speed, but not within this period, and whose acceleration
      limit is above the deceleration limit. */
  predicate ReversesFast(j: real, v0: real, up: real, down: real) {
    (j < 0.0 < v0 || v0 < 0.0 < j) && Abs(j) >= Abs(v0) && down < up < 2.0 * Abs(v0)
  }

  lemma ReversalInReach(j: real, v0: real, up: real, down: real, w: Option<Window>)
    requires up >= 0.0 && down >= 0.0 && In(v0, w)
    requires w.Some? ==> w.value.lo == -w.value.hi
    ensures var a := Into(j, Around(v0, if Abs(j) >= Abs(v0) then up else down));
      var r := Into(a, w);
      Abs(r - v0) <= (if Abs(r) >= Abs(v0) then up else down) <==> !ReversesFast(j, v0, up, down)
  {
  }

  /** A step keeps the limit named for what it does, unless the request, once its jerk is limited, reverses to at
      least the same speed: that is treated as speeding up, so the wheel is slowed down at the acceleration
      limit. */
  lemma SlowingKeepsTheDecelerationLimitExactly(l: TractionLimits, v: real, v0: real, v1: real, dt: real)
    requires TractionFromZero(l) && dt >= 0.0 && In(v0, VelocityWindow(l))
    requires Active(l.acceleration) && Active(l.deceleration)
    ensures var j := JerkStage(l, v, v0, v1, dt);
      KeepsNamedLimit(l, LimitTraction(l, v, v0, v1, dt), v0, dt)
      <==> !ReversesFast(j, v0, Reach(l.acceleration, dt), Reach(l.deceleration, dt))
  {
    var j := JerkStage(l, v, v0, v1, dt);
    TractionStagesClamp(l, j, v0, v1, dt);
    TractionStagesClamp(l, AccelerationStage(l, j, v0, dt), v0, v1, dt);
    ReachIsNotNegative(l.acceleration, dt);
    ReachIsNotNegative(l.deceleration, dt);
    ReversalInReach(j, v0, Reach(l.acceleration, dt), Reach(l.deceleration, dt), VelocityWindow(l));
  }

  function UpTo(max: real): Bound {
    Bound(Some(0.0), Some(max))
  }

  /** A command for it, with every limit set: from 5 a request for -6 stops the wheel within one second, five
      times as fast as the deceleration limit allows. */
  lemma ReversalStopsTooFast()
    ensures var l := TractionLimits(UpTo(10.0), UpTo(5.0), UpTo(1.0), UpTo(100.0));
      LimitTraction(l, -6.0, 5.0, 5.0, 1.0) == 0.0 && !KeepsNamedLimit(l, 0.0, 5.0, 1.0)
  {
  }

  // ----- Approach ---------------------------------------------------------------------------------------

  predicate Between(a: real, x: real, b: real) {
    a <= x <= b || b <= x <= a
  }

  /** The smaller of the two rates. */
  function Rate(l: TractionLimits): real
    requires Active(l.acceleration) && Active(l.deceleration)
  {
    if l.acceleration.max.value <= l.deceleration.max.value then l.acceleration.max.value else l.deceleration.max.value
  }

  predicate Approachable(l: TractionLimits, target: real) {
    && TractionFromZero(l) && !Active(l.jerk) && Active(l.acceleration) && Active(l.deceleration)
    && Rate(l) > 0.0 && In(target, VelocityWindow(l))
  }

  /** The distance left once d has been covered. */
  function Left(distance: real, d: real): real {
    Max(0.0, distance - d)
  }

  lemma MovesCloser(target: real, v0: real, reach: real, d: real)
    requires 0.0 <= d <= reach
    ensures var a := Into(target, Around(v0, reach));
      Between(v0, a, target) && Abs(target - a) <= Left(Abs(target - v0), d)
  {
  }

  lemma StaysInside(v0: real, a: real, target: real, w: Option<Window>)
    requires Between(v0, a, target) && In(v0, w) && In(target, w)
    ensures In(a, w) && Into(a, w) == a
  {
  }

  lemma OneStepCloser(l: TractionLimits, target: real, v0: real, v1: real, dt: real)
    requires Approachable(l, target) && In(v0, VelocityWindow(l)) && dt >= 0.0
    ensures var v := LimitTraction(l, target, v0, v1, dt);
      && Between(v0, v, target) && In(v, VelocityWindow(l))
      && Abs(target - v) <= Left(Abs(target - v0), Times(Rate(l), dt))
  {
    TractionStagesClamp(l, target, v0, v1, dt);
    var b := RateBound(l, target, v0);
    Larger(dt, Rate(l), b.max.value);
    NonNegative(Rate(l), dt);
    RateTimes(l, b, dt);
    MovesCloser(target, v0, Reach(b, dt), Times(Rate(l), dt));
    var a := AccelerationStage(l, target, v0, dt);
    StaysInside(v0, a, target, VelocityWindow(l));
    TractionStagesClamp(l, a, v0, v1, dt);
  }

  lemma RateTimes(l: TractionLimits, b: Bound, dt: real)
    requires Active(l.acceleration) && Active(l.deceleration) && Active(b)
    requires Times(dt, Rate(l)) <= Times(dt, b.max.value)
    ensures Times(Rate(l), dt) <= Reach(b, dt)
  {
  }

  function Total(dts: seq<real>): real
    decreases |dts|
  {
    if dts == [] then 0.0 else dts[0] + Total(dts[1..])
  }

  /** The speed after the same target was requested once for every period. */
  function Settled(l: TractionLimits, target: real, v0: real, v1: real, dts: seq<real>): real
    decreases |dts|
  {
    if dts == [] then v0
    else Settled(l, target, LimitTraction(l, target, v0, v1, dts[0]), v0, dts[1..])
  }

  lemma CoveredInTwo(distance: real, closer: real, rate: real, dt: real, rest: real)
    requires 0.0 <= closer <= Left(distance, Times(rate, dt)) && rate >= 0.0 && dt >= 0.0 && rest >= 0.0
    ensures Left(closer, Times(rate, rest)) <= Left(distance, Times(rate, dt + rest))
  {
    NonNegative(rate, rest);
    assert Times(rate, dt + rest) == Times(rate, dt) + Times(rate, rest);
  }

  lemma {:induction false} TotalIsNotNegative(dts: seq<real>)
    requires forall k :: 0 <= k < |dts| ==> dts[k] >= 0.0
    ensures Total(dts) >= 0.0
    decreases |dts|
  {
    if dts != [] {
      TotalIsNotNegative(dts[1..]);
    }
  }

  /** With jerk limiting off a constant target within the speed limit is approached from one side, never
      passed, and each period brings the speed nearer by at least the smaller rate. */
  lemma {:induction false} TargetIsApproached(l: TractionLimits, target: real, v0: real, v1: real, dts: seq<real>)
    requires Approachable(l, target) && In(v0, VelocityWindow(l))
    requires forall k :: 0 <= k < |dts| ==> dts[k] >= 0.0
    ensures var v := Settled(l, target, v0, v1, dts);
      Between(v0, v, target) && Abs(target - v) <= Left(Abs(target - v0), Times(Rate(l), Total(dts)))
    decreases |dts|
  {
    if dts != [] {
      OneStepCloser(l, target, v0, v1, dts[0]);
      var v := LimitTraction(l, target, v0, v1, dts[0]);
      TotalIsNotNegative(dts[1..]);
      TargetIsApproached(l, target, v, v0, dts[1..]);
      CoveredInTwo(Abs(target - v0), Abs(target - v), Rate(l), dts[0], Total(dts[1..]));
    } else {
      assert Times(Rate(l), 0.0) == 0.0;
    }
  }

  /** How many periods of length dt the smaller rate needs to cover a distance. */
  function Periods(distance: real, rate: real, dt: real): nat
    requires distance >= 0.0 && rate > 0.0 && dt > 0.0
  {
    assert rate * dt > 0.0 by { Positive(rate, dt); assert Times(rate, dt) == rate * dt; }
    var n := (distance / (rate * dt)).Floor + 1;
    assert distance / (rate * dt) >= 0.0;
    n
  }

  lemma PeriodsSuffice(distance: real, rate: real, dt: real, n: nat)
    requires distance >= 0.0 && rate > 0.0 && dt > 0.0 && n >= Periods(distance, rate, dt)
    ensures Times(rate, Times(n as real, dt)) >= distance
  {
    Positive(rate, dt);
    var step := Times(rate, dt);
    assert step == rate * dt;
    Larger(step, distance / step, n as real);
    Divided(distance, step);
    assert Times(step, n as real) == Times(rate, Times(n as real, dt));
  }

  function Repeat(n: nat, dt: real): (r: seq<real>)
    ensures |r| == n && forall k :: 0 <= k < n ==> r[k] == dt
  {
    if n == 0 then [] else [dt] + Repeat(n - 1, dt)
  }

  lemma OneMorePeriod(n: real, dt: real)
    ensures Times(n + 1.0, dt) == dt + Times(n, dt)
  {
  }

  lemma {:induction false} TotalOfEqual(n: nat, dt: real)
    ensures Total(Repeat(n, dt)) == Times(n as real, dt)
  {
    if n == 0 {
      assert Times(0.0, dt) == 0.0;
    } else {
      TotalOfEqual(n - 1, dt);
      OneMorePeriod((n - 1) as real, dt);
      assert Repeat(n, dt)[1..] == Repeat(n - 1, dt);
    }
  }

  /** The target is reached after finitely many periods and kept from then on. */
  lemma TargetIsReached(l: TractionLimits, target: real, v0: real, v1: real, dt: real, n: nat)
    requires Approachable(l, target) && In(v0, VelocityWindow(l)) && dt > 0.0
    requires n >= Periods(Abs(target - v0), Rate(l), dt)
    ensures Settled(l, target, v0, v1, Repeat(n, dt)) == target
  {
    TargetIsApproached(l, target, v0, v1, Repeat(n, dt));
    TotalOfEqual(n, dt);
    PeriodsSuffice(Abs(target - v0), Rate(l), dt, n);
  }
}
