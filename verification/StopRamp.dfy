/** The ramp that brings every joint to rest when a goal is cancelled: its points, its safety, and what
    sampling it yields between the points. */
module StopRamp {
  import opened Powers
  import opened Splines
  import opened TrajectoryPoints
  import opened TrajectorySampling
  import opened CachedSearch
  import opened HistoryFree
  import opened Waypoints

  /** One joint at the moment of the stop: position, velocity and its deceleration limit. */
  datatype Braking = Braking(p0: real, v0: real, decel: real)

  predicate Brakes(b: Braking) { b.decel > 0.0 }

  function Direction(b: Braking): real { if b.v0 >= 0.0 then 1.0 else -1.0 }

  function StopTime(b: Braking): real
    requires Brakes(b)
  {
    Abs(b.v0) / b.decel
  }

  function StopDistance(b: Braking): real
    requires Brakes(b)
  {
    (b.v0 * b.v0) / (2.0 * b.decel)
  }

  function HoldPosition(b: Braking): real
    requires Brakes(b)
  {
    b.p0 + Direction(b) * StopDistance(b)
  }

  /** Constant deceleration t seconds into the stop. */
  function SpeedAfter(v0: real, direction: real, decel: real, t: real): real { v0 - direction * decel * t }

  function PositionAfter(p0: real, v0: real, direction: real, decel: real, t: real): real {
    p0 + v0 * t - 0.5 * direction * decel * t * t
  }

  function Signed(direction: real, decel: real): real { -direction * decel }

  /** The speed has crossed zero. */
  predicate Crossed(v: real, direction: real) { v * direction < 0.0 }

  function BrakingVelocity(b: Braking, t: real): real { SpeedAfter(b.v0, Direction(b), b.decel, t) }

  function BrakingPosition(b: Braking, t: real): real { PositionAfter(b.p0, b.v0, Direction(b), b.decel, t) }

  function BrakingState(b: Braking, t: real): Knot {
    Knot(BrakingPosition(b, t), BrakingVelocity(b, t), Signed(Direction(b), b.decel))
  }

  function Held(b: Braking): Knot
    requires Brakes(b)
  {
    Knot(HoldPosition(b), 0.0, 0.0)
  }

  /** Speeds up to the single-precision epsilon count as standing still. */
  predicate StillBraking(b: Braking, t: real)
    requires Brakes(b)
  {
    t < StopTime(b) && Abs(b.v0) > FLOAT_EPSILON
  }

  /** One joint's entry in a ramp point, with the guard against numerical sign crossing. */
  function RampKnot(b: Braking, t: real): Knot
    requires Brakes(b)
  {
    if StillBraking(b, t) then
      var v := BrakingVelocity(b, t);
      BrakingState(b, t).(vel := if Crossed(v, Direction(b)) then 0.0 else v)
    else
      Held(b)
  }

  // ----- One joint -----------------------------------------------------------------------------

  /** Distance still to go, along the direction of motion. */
  function Remaining(b: Braking, position: real): real
    requires Brakes(b)
  {
    Direction(b) * (HoldPosition(b) - position)
  }

  lemma StopDistanceSquare(b: Braking)
    requires Brakes(b)
    ensures 2.0 * Times(b.decel, StopDistance(b)) == Square(b.v0)
  {
    UndoDivision(b.v0 * b.v0, 2.0 * b.decel);
  }

  lemma UndoDivision(n: real, d: real)
    requires d > 0.0
    ensures d * (n / d) == n
  {
  }

  /** v^2 = 2 * a * (remaining distance), all the way down. */
  lemma SpeedMatchesDistance(b: Braking, t: real)
    requires Brakes(b)
    ensures Square(BrakingVelocity(b, t)) == 2.0 * Times(b.decel, Remaining(b, BrakingPosition(b, t)))
  {
    StopDistanceSquare(b);
    var h := StopDistance(b);
    if b.v0 >= 0.0 {
      BrakingForward(b.v0, b.decel, t, h);
      assert Remaining(b, BrakingPosition(b, t)) == h - (b.v0 * t - 0.5 * b.decel * t * t);
    } else {
      BrakingForward(-b.v0, b.decel, t, h);
    }
  }

  lemma BrakingForward(v: real, a: real, t: real, h: real)
    ensures Square(v - a * t) == Square(v) - 2.0 * Times(a, v * t - 0.5 * a * t * t)
    ensures Times(a, h - (v * t - 0.5 * a * t * t)) == Times(a, h) - Times(a, v * t - 0.5 * a * t * t)
  {
  }

  lemma BeforeStop(b: Braking, t: real)
    requires Brakes(b)
    ensures t < StopTime(b) <==> Times(b.decel, t) < Abs(b.v0)
  {
    UndoDivision(Abs(b.v0), b.decel);
    if t < StopTime(b) {
      LargerStrict(b.decel, t, StopTime(b));
    } else {
      Larger(b.decel, StopTime(b), t);
    }
  }

  lemma LargerStrict(c: real, x: real, y: real)
    requires c > 0.0 && x < y
    ensures Times(c, x) < Times(c, y)
  {
  }

  lemma DirectedSpeed(b: Braking, t: real)
    ensures BrakingVelocity(b, t) * Direction(b) == Abs(b.v0) - Times(b.decel, t)
  {
  }

  /** The guard never fires: a joint that still brakes still moves in its original direction. */
  lemma GuardNeverFires(b: Braking, t: real)
    requires Brakes(b) && StillBraking(b, t)
    ensures BrakingVelocity(b, t) * Direction(b) > 0.0
    ensures RampKnot(b, t) == BrakingState(b, t)
  {
    BeforeStop(b, t);
    DirectedSpeed(b, t);
  }

  lemma RemainingNonNegative(b: Braking, t: real)
    requires Brakes(b)
    ensures Remaining(b, BrakingPosition(b, t)) >= 0.0
  {
    SpeedMatchesDistance(b, t);
    var r := Remaining(b, BrakingPosition(b, t));
    if r < 0.0 {
      LargerStrict(b.decel, r, 0.0);
    }
  }

  lemma DirectedSquare(b: Braking, v: real)
    ensures Square(v * Direction(b)) == Square(v)
  {
    if b.v0 >= 0.0 {
      assert v * 1.0 == v;
    } else {
      assert v * -1.0 == -v && Square(-v) == Square(v);
    }
  }

  lemma SpeedShrinks(b: Braking, t: real, t': real)
    requires Brakes(b) && t <= t' < StopTime(b)
    ensures Square(BrakingVelocity(b, t')) <= Square(BrakingVelocity(b, t))
  {
    BeforeStop(b, t');
    Larger(b.decel, t, t');
    DirectedSpeed(b, t);
    DirectedSpeed(b, t');
    SquareOrder(BrakingVelocity(b, t') * Direction(b), BrakingVelocity(b, t) * Direction(b));
    DirectedSquare(b, BrakingVelocity(b, t));
    DirectedSquare(b, BrakingVelocity(b, t'));
  }

  lemma NotLarger(c: real, x: real, y: real)
    requires c > 0.0
    ensures Times(c, x) <= Times(c, y) ==> x <= y
  {
    if y < x {
      LargerStrict(c, y, x);
    }
  }

  lemma RemainingShrinks(b: Braking, t: real, t': real)
    requires Brakes(b) && t <= t' < StopTime(b)
    ensures Remaining(b, BrakingPosition(b, t')) <= Remaining(b, BrakingPosition(b, t))
  {
    hide BrakingPosition, BrakingVelocity, Remaining, Times, Square;
    SpeedMatchesDistance(b, t);
    SpeedMatchesDistance(b, t');
    SpeedShrinks(b, t, t');
    NotLarger(b.decel, Remaining(b, BrakingPosition(b, t')), Remaining(b, BrakingPosition(b, t)));
  }

  lemma SquareOrder(x: real, y: real)
    requires 0.0 <= x <= y
    ensures Square(x) <= Square(y)
  {
    Larger(x, x, y);
    Larger(y, x, y);
    assert Times(x, y) == Times(y, x);
  }

  /** Unclipped constant deceleration whose speed v and distance still to go d satisfy v^2 = 2ad. */
  ghost predicate BrakesExactly(b: Braking, entry: Knot, t: real)
    requires Brakes(b)
  {
    && entry == BrakingState(b, t)
    && Square(entry.vel) == 2.0 * Times(b.decel, Remaining(b, entry.pos))
  }

  /** The move from one position to the next is towards the hold position and not past it. */
  ghost predicate Approaches(b: Braking, position: real, next: real)
    requires Brakes(b)
  {
    0.0 <= Remaining(b, next) <= Remaining(b, position)
  }

  /** The ramp of one joint is safe: while it brakes it brakes exactly, it only ever approaches its hold
      position, and once it is held it stays. */
  lemma RampSafe(b: Braking, t: real, t': real)
    requires Brakes(b) && t <= t'
    ensures StillBraking(b, t) ==> BrakesExactly(b, RampKnot(b, t), t)
    ensures Approaches(b, RampKnot(b, t).pos, RampKnot(b, t').pos)
    ensures !StillBraking(b, t) ==> RampKnot(b, t') == RampKnot(b, t) == Held(b)
  {
    RemainingNonNegative(b, t);
    RemainingNonNegative(b, t');
    if StillBraking(b, t) {
      GuardNeverFires(b, t);
      SpeedMatchesDistance(b, t);
      if StillBraking(b, t') {
        GuardNeverFires(b, t');
        RemainingShrinks(b, t, t');
      }
    }
  }

  // ----- The ramp in numbers ------------------------------------------------------------------------

  /** A joint faster than the single-precision epsilon that t seconds of braking do not bring to rest. */
  predicate MovesAt(b: Braking, t: real) {
    (b.v0 > 1.0 / 8388608.0 || -b.v0 > 1.0 / 8388608.0) && b.decel * t < (if b.v0 < 0.0 then -b.v0 else b.v0)
  }

  lemma MovesWhileBraking(b: Braking, t: real)
    requires Brakes(b)
    ensures MovesAt(b, t) <==> StillBraking(b, t)
  {
    BeforeStop(b, t);
    assert Times(b.decel, t) == b.decel * t;
  }

  /** A joint that moves loses speed at its limit and has gone the distance that this takes; every other joint is at
      rest where braking from its first state ends, which is where v^2 = 2ad. */
  lemma RampEntryExactly(b: Braking, t: real)
    requires Brakes(b)
    ensures var a := if b.v0 < 0.0 then b.decel else -b.decel;
      && (MovesAt(b, t) ==> RampKnot(b, t) == Knot(b.p0 + b.v0 * t + 0.5 * a * t * t, b.v0 + a * t, a))
      && (!MovesAt(b, t) ==>
            var held := RampKnot(b, t);
            held.vel == 0.0 && held.acc == 0.0 && -2.0 * a * (held.pos - b.p0) == b.v0 * b.v0)
  {
    MovesWhileBraking(b, t);
    if MovesAt(b, t) {
      GuardNeverFires(b, t);
    } else {
      StopDistanceSquare(b);
      HeldDistance(b);
    }
  }

  lemma HeldDistance(b: Braking)
    requires Brakes(b)
    ensures var a := if b.v0 < 0.0 then b.decel else -b.decel;
      -2.0 * a * (HoldPosition(b) - b.p0) == 2.0 * Times(b.decel, StopDistance(b))
  {
    var h := StopDistance(b);
    assert 2.0 * b.decel * h == 2.0 * Times(b.decel, h);
    assert -2.0 * b.decel * -h == 2.0 * b.decel * h;
  }

  // ----- Between two ramp points -----------------------------------------------------------------

  /** Motion under constant deceleration, from t seconds into the stop. */
  function BrakingMotion(b: Braking, t: real): Polynomial {
    Polynomial(BrakingPosition(b, t), BrakingVelocity(b, t), -0.5 * Direction(b) * b.decel, 0.0, 0.0, 0.0)
  }

  lemma BrakingMotionAt(b: Braking, t: real, x: real)
    ensures KnotAt(BrakingMotion(b, t), x) == BrakingState(b, t + x)
  {
  }

  /** The quintic through two ramp points that both still brake is exactly the braking motion. */
  lemma BrakingSegment(b: Braking, t: real, T: real, x: real)
    requires Brakes(b) && T > 0.0 && StillBraking(b, t + T)
    ensures KnotAt(Quintic(RampKnot(b, t), RampKnot(b, t + T), T), x) == BrakingState(b, t + x)
  {
    var f := BrakingMotion(b, t);
    GuardNeverFires(b, t);
    GuardNeverFires(b, t + T);
    BrakingMotionAt(b, t, 0.0);
    BrakingMotionAt(b, t, T);
    BrakingMotionAt(b, t, x);
    QuinticFit(f, RampKnot(b, t), RampKnot(b, t + T), T);
  }

  lemma HeldSegment(b: Braking, T: real, x: real)
    requires Brakes(b) && T > 0.0
    ensures KnotAt(Quintic(Held(b), Held(b), T), x) == Held(b)
  {
    var f := Polynomial(HoldPosition(b), 0.0, 0.0, 0.0, 0.0, 0.0);
    ConstantMotion(HoldPosition(b), 0.0);
    ConstantMotion(HoldPosition(b), T);
    ConstantMotion(HoldPosition(b), x);
    QuinticFit(f, Held(b), Held(b), T);
  }

  lemma ConstantMotion(p: real, x: real)
    ensures KnotAt(Polynomial(p, 0.0, 0.0, 0.0, 0.0, 0.0), x) == Knot(p, 0.0, 0.0)
  {
  }

  // ----- The ramp message ------------------------------------------------------------------------

  /** Time of ramp point k. */
  function GridTime(period: int, k: nat): real { Seconds(k * period) }

  function Ceiling(x: real): int {
    if x == x.Floor as real then x.Floor else x.Floor + 1
  }

  predicate AllBrake(joints: seq<Braking>) {
    forall i :: 0 <= i < |joints| ==> Brakes(joints[i])
  }

  /** The longest stop time, zero without joints. */
  function MaxStopTime(joints: seq<Braking>): (t: real)
    requires AllBrake(joints)
    ensures t >= 0.0 && forall i :: 0 <= i < |joints| ==> StopTime(joints[i]) <= t
  {
    if joints == [] then 0.0
    else
      var rest := MaxStopTime(joints[..|joints| - 1]);
      var last := StopTime(joints[|joints| - 1]);
      if rest < last then last else rest
  }

  /** Points needed for every joint to come to rest, counting the one at time zero. */
  function PointsNeeded(joints: seq<Braking>, period: int): int
    requires AllBrake(joints) && period > 0
  {
    Ceiling(MaxStopTime(joints) / Seconds(period)) + 1
  }

  function ZeroPoint(dof: nat): TrajectoryPoint {
    TrajectoryPoint(Zeros(dof), Zeros(dof), Zeros(dof), [], 0)
  }

  /** The reserved points, extended when they are too few. */
  function Reserved(points: seq<TrajectoryPoint>, needed: int, dof: nat): seq<TrajectoryPoint> {
    if |points| < needed then points + seq(needed - |points|, _ => ZeroPoint(dof)) else points
  }

  function Overwritten(field: seq<real>, values: seq<real>): seq<real>
    requires |values| <= |field|
  {
    values + field[|values|..]
  }

  function RampState(joints: seq<Braking>, t: real): seq<Knot>
    requires AllBrake(joints)
  {
    seq(|joints|, i requires 0 <= i < |joints| => RampKnot(joints[i], t))
  }

  function Positions(knots: seq<Knot>): (r: seq<real>)
    ensures |r| == |knots|
  {
    seq(|knots|, i requires 0 <= i < |knots| => knots[i].pos)
  }

  function Velocities(knots: seq<Knot>): (r: seq<real>)
    ensures |r| == |knots|
  {
    seq(|knots|, i requires 0 <= i < |knots| => knots[i].vel)
  }

  function Accelerations(knots: seq<Knot>): (r: seq<real>)
    ensures |r| == |knots|
  {
    seq(|knots|, i requires 0 <= i < |knots| => knots[i].acc)
  }

  predicate HasRoom(p: TrajectoryPoint, joints: nat) {
    joints <= |p.positions| && joints <= |p.velocities| && joints <= |p.accelerations|
  }

  predicate AllHaveRoom(points: seq<TrajectoryPoint>, joints: nat) {
    forall k :: 0 <= k < |points| ==> HasRoom(points[k], joints)
  }

  function RampPoint(reserved: TrajectoryPoint, joints: seq<Braking>, period: int, k: nat): TrajectoryPoint
    requires AllBrake(joints) && HasRoom(reserved, |joints|)
  {
    var knots := RampState(joints, GridTime(period, k));
    TrajectoryPoint(Overwritten(reserved.positions, Positions(knots)),
                    Overwritten(reserved.velocities, Velocities(knots)),
                    Overwritten(reserved.accelerations, Accelerations(knots)), reserved.effort, k * period)
  }

  /** The whole stop trajectory, written over the reserved points. */
  function Ramp(points: seq<TrajectoryPoint>, joints: seq<Braking>, period: int, dof: nat): (r: seq<TrajectoryPoint>)
    requires AllBrake(joints) && period > 0 && |joints| <= dof && AllHaveRoom(points, |joints|)
    ensures |r| >= PointsNeeded(joints, period) && |r| >= |points|
  {
    var reserved := Reserved(points, PointsNeeded(joints, period), dof);
    seq(|reserved|, k requires 0 <= k < |reserved| => RampPoint(reserved[k], joints, period, k))
  }

  method PlanJoint(p0: real, v0: real, decel: real) returns (direction: real, stopTime: real, hold: real)
    requires decel > 0.0
    ensures var b := Braking(p0, v0, decel);
            direction == Direction(b) && stopTime == StopTime(b) && hold == HoldPosition(b)
  {
    direction := if v0 >= 0.0 then 1.0 else -1.0;
    stopTime := Abs(v0) / decel;
    var stopDistance := (v0 * v0) / (2.0 * decel);
    hold := p0 + direction * stopDistance;
  }

  method RampEntry(p0: real, v0: real, decel: real, direction: real, stopTime: real, hold: real, t: real)
    returns (entry: Knot)
    requires decel > 0.0
    requires var b := Braking(p0, v0, decel);
             direction == Direction(b) && stopTime == StopTime(b) && hold == HoldPosition(b)
    ensures entry == RampKnot(Braking(p0, v0, decel), t)
  {
    if t < stopTime && Abs(v0) > FLOAT_EPSILON {
      var v := SpeedAfter(v0, direction, decel, t);
      if Crossed(v, direction) {
        v := 0.0;
      }
      var p := PositionAfter(p0, v0, direction, decel, t);
      entry := Knot(p, v, Signed(direction, decel));
    } else {
      entry := Knot(hold, 0.0, 0.0);
    }
  }

  class Decelerator {
    const period: int
    const dof: nat
    const maxDecel: seq<real>
    const stopTime: array<real>
    const holdPosition: array<real>
    const stopDirection: array<real>
    const stopTrajectory: JointTrajectory
    var isHolding: bool

    ghost predicate Valid()
      reads this, stopTrajectory
    {
      && period > 0
      && (forall i :: 0 <= i < |maxDecel| ==> maxDecel[i] > 0.0)
      && |maxDecel| == stopTime.Length == holdPosition.Length == stopDirection.Length <= dof
      && stopTime != holdPosition && stopTime != stopDirection && holdPosition != stopDirection
      && AllHaveRoom(stopTrajectory.points, |maxDecel|)
    }

    constructor (period: int, dof: nat, maxDecel: seq<real>, points: nat)
      requires period > 0 && |maxDecel| <= dof && forall i :: 0 <= i < |maxDecel| ==> maxDecel[i] > 0.0
      ensures Valid() && this.period == period && this.dof == dof && this.maxDecel == maxDecel && !isHolding
      ensures fresh(stopTime) && fresh(holdPosition) && fresh(stopDirection) && fresh(stopTrajectory)
    {
      this.period, this.dof, this.maxDecel, isHolding := period, dof, maxDecel, false;
      stopTime, holdPosition, stopDirection := new real[|maxDecel|], new real[|maxDecel|], new real[|maxDecel|];
      stopTrajectory := new JointTrajectory(0, [], seq(points, _ => ZeroPoint(dof)));
    }

    function Joint(p0: seq<real>, v0: seq<real>, i: nat): Braking
      requires i < |maxDecel| && i < |p0| && i < |v0|
    {
      Braking(p0[i], v0[i], maxDecel[i])
    }

    function Joints(p0: seq<real>, v0: seq<real>): (r: seq<Braking>)
      requires |maxDecel| <= |p0| && |maxDecel| <= |v0|
      ensures |r| == |maxDecel|
      ensures (forall i :: 0 <= i < |maxDecel| ==> maxDecel[i] > 0.0) ==> AllBrake(r)
    {
      seq(|maxDecel|, i requires 0 <= i < |maxDecel| => Joint(p0, v0, i))
    }

    /** Stop time, direction and hold position of every joint; the longest stop time. */
    method PlanStop(p0: seq<real>, v0: seq<real>) returns (maxStop: real)
      requires Valid() && |maxDecel| <= |p0| && |maxDecel| <= |v0|
      modifies stopTime, holdPosition, stopDirection
      ensures maxStop == MaxStopTime(Joints(p0, v0))
      ensures forall i :: 0 <= i < |maxDecel| ==>
                && stopTime[i] == StopTime(Joint(p0, v0, i))
                && stopDirection[i] == Direction(Joint(p0, v0, i))
                && holdPosition[i] == HoldPosition(Joint(p0, v0, i))
    {
      var joints := Joints(p0, v0);
      maxStop := 0.0;
      for i := 0 to |maxDecel|
        invariant maxStop == MaxStopTime(joints[..i])
        invariant forall k :: 0 <= k < i ==>
                    && stopTime[k] == StopTime(Joint(p0, v0, k))
                    && stopDirection[k] == Direction(Joint(p0, v0, k))
                    && holdPosition[k] == HoldPosition(Joint(p0, v0, k))
      {
        stopDirection[i], stopTime[i], holdPosition[i] := PlanJoint(p0[i], v0[i], maxDecel[i]);
        if maxStop < stopTime[i] {
          maxStop := stopTime[i];
        }
        assert joints[..i + 1][..i] == joints[..i];
      }
      assert joints[..|maxDecel|] == joints;
    }

    /** Point k of the ramp, joint by joint, over the entries of the reserved point. */
    method WritePoint(pt: TrajectoryPoint, k: nat, p0: seq<real>, v0: seq<real>) returns (r: TrajectoryPoint)
      requires Valid() && |maxDecel| <= |p0| && |maxDecel| <= |v0| && HasRoom(pt, |maxDecel|)
      requires forall i :: 0 <= i < |maxDecel| ==>
                 && stopTime[i] == StopTime(Joint(p0, v0, i))
                 && stopDirection[i] == Direction(Joint(p0, v0, i))
                 && holdPosition[i] == HoldPosition(Joint(p0, v0, i))
      ensures r == RampPoint(pt, Joints(p0, v0), period, k)
    {
      hide RampKnot, StopTime, HoldPosition, Direction;
      var t := k as real * Seconds(period);
      assert t == GridTime(period, k);
      r := pt;
      ghost var knots := RampState(Joints(p0, v0), t);
      for i := 0 to |maxDecel|
        invariant r.effort == pt.effort
        invariant |r.positions| == |pt.positions| && |r.velocities| == |pt.velocities|
        invariant |r.accelerations| == |pt.accelerations|
        invariant forall j :: 0 <= j < i ==> Knot(r.positions[j], r.velocities[j], r.accelerations[j]) == knots[j]
        invariant r.positions[i..] == pt.positions[i..] && r.velocities[i..] == pt.velocities[i..]
        invariant r.accelerations[i..] == pt.accelerations[i..]
      {
        var entry := RampEntry(p0[i], v0[i], maxDecel[i], stopDirection[i], stopTime[i], holdPosition[i], t);
        r := r.(positions := r.positions[i := entry.pos], velocities := r.velocities[i := entry.vel],
                accelerations := r.accelerations[i := entry.acc]);
      }
      r := r.(timeFromStart := k * period);
    }

    /** Extends the reserved points when they do not reach the longest stop. */
    method Reserve(needed: int)
      requires Valid()
      modifies stopTrajectory`points
      ensures Valid() && stopTrajectory.points == Reserved(old(stopTrajectory.points), needed, dof)
    {
      if |stopTrajectory.points| < needed {
        stopTrajectory.points :=
          stopTrajectory.points + seq(needed - |stopTrajectory.points|, _ => ZeroPoint(dof));
      }
    }

    method WritePoints(p0: seq<real>, v0: seq<real>)
      requires Valid() && |maxDecel| <= |p0| && |maxDecel| <= |v0|
      requires forall i :: 0 <= i < |maxDecel| ==>
                 && stopTime[i] == StopTime(Joint(p0, v0, i))
                 && stopDirection[i] == Direction(Joint(p0, v0, i))
                 && holdPosition[i] == HoldPosition(Joint(p0, v0, i))
      modifies stopTrajectory`points
      ensures Valid() && |stopTrajectory.points| == |old(stopTrajectory.points)|
      ensures forall k :: 0 <= k < |stopTrajectory.points| ==>
                stopTrajectory.points[k] == RampPoint(old(stopTrajectory.points)[k], Joints(p0, v0), period, k)
    {
      ghost var reserved := stopTrajectory.points;
      for k := 0 to |stopTrajectory.points|
        invariant |stopTrajectory.points| == |reserved| && AllHaveRoom(reserved, |maxDecel|)
        invariant forall j :: 0 <= j < k ==>
          stopTrajectory.points[j] == RampPoint(reserved[j], Joints(p0, v0), period, j)
        invariant forall j :: k <= j < |reserved| ==> stopTrajectory.points[j] == reserved[j]
      {
        var pt := WritePoint(stopTrajectory.points[k], k, p0, v0);
        stopTrajectory.points := stopTrajectory.points[k := pt];
      }
    }

    /** `decelerate_to_hold_position`, from the current positions and velocities. */
    method DecelerateToHoldPosition(p0: seq<real>, v0: seq<real>) returns (r: JointTrajectory)
      requires Valid() && |maxDecel| <= |p0| && |maxDecel| <= |v0|
      modifies this`isHolding, stopTime, holdPosition, stopDirection, stopTrajectory`points
      ensures r == stopTrajectory && isHolding && Valid()
      ensures r.points == Ramp(old(stopTrajectory.points), Joints(p0, v0), period, dof)
    {
      var maxStop := PlanStop(p0, v0);
      Reserve(Ceiling(maxStop / Seconds(period)) + 1);
      WritePoints(p0, v0);
      isHolding := true;
      r := stopTrajectory;
    }
  }

  // ----- The ramp is safe ------------------------------------------------------------------------

  lemma GridSteps(period: int, k: nat)
    ensures GridTime(period, k + 1) == GridTime(period, k) + Seconds(period)
    ensures GridTime(period, k) == k as real * Seconds(period)
  {
  }

  lemma CeilingReaches(x: real, n: int)
    requires n >= Ceiling(x)
    ensures n as real >= x
  {
  }

  lemma GridReaches(m: real, period: int, last: nat)
    requires period > 0 && last >= Ceiling(m / Seconds(period))
    ensures m <= GridTime(period, last)
  {
    var dt := Seconds(period);
    CeilingReaches(m / dt, last);
    Larger(dt, m / dt, last as real);
    UndoDivision(m, dt);
    GridSteps(period, last);
  }

  lemma Stopped(b: Braking, t: real)
    requires Brakes(b) && StopTime(b) <= t
    ensures RampKnot(b, t) == Held(b)
  {
  }

  lemma RampEntryAt(points: seq<TrajectoryPoint>, joints: seq<Braking>, period: int, dof: nat, k: nat, i: nat)
    requires AllBrake(joints) && period > 0 && |joints| <= dof && AllHaveRoom(points, |joints|)
    requires k < |Ramp(points, joints, period, dof)| && i < |joints|
    ensures var p := Ramp(points, joints, period, dof)[k];
            && i < |p.positions| && KnotOf(p, i) == RampKnot(joints[i], GridTime(period, k))
            && p.timeFromStart == k * period
  {
  }

  /** For every joint and every pair of neighbouring ramp points: times strictly increase, the joint
      approaches its hold position and never passes it, and while it brakes it brakes exactly. */
  lemma RampIsSafe(points: seq<TrajectoryPoint>, joints: seq<Braking>, period: int, dof: nat, k: nat, i: nat)
    requires AllBrake(joints) && period > 0 && |joints| <= dof && AllHaveRoom(points, |joints|)
    requires k + 1 < |Ramp(points, joints, period, dof)| && i < |joints|
    ensures var p, q := Ramp(points, joints, period, dof)[k], Ramp(points, joints, period, dof)[k + 1];
            && i < |p.positions| && i < |q.positions|
            && p.timeFromStart < q.timeFromStart
            && Approaches(joints[i], p.positions[i], q.positions[i])
            && (MovesAt(joints[i], Seconds(k * period)) ==>
                  BrakesExactly(joints[i], KnotOf(p, i), Seconds(k * period)))
            && (!MovesAt(joints[i], Seconds(k * period)) ==>
                  KnotOf(p, i) == KnotOf(q, i) == Knot(HoldPosition(joints[i]), 0.0, 0.0))
  {
    MovesWhileBraking(joints[i], GridTime(period, k));
    RampEntryAt(points, joints, period, dof, k, i);
    RampEntryAt(points, joints, period, dof, k + 1, i);
    GridSteps(period, k);
    RampSafe(joints[i], GridTime(period, k), GridTime(period, k + 1));
  }

  /** At the last point every joint is at rest at its hold position, however long the reserved buffer. */
  lemma RampEndsAtRest(points: seq<TrajectoryPoint>, joints: seq<Braking>, period: int, dof: nat, i: nat)
    requires AllBrake(joints) && period > 0 && |joints| <= dof && AllHaveRoom(points, |joints|)
    requires i < |joints|
    ensures var r := Ramp(points, joints, period, dof);
            && r != [] && i < |r[|r| - 1].positions| && KnotOf(r[|r| - 1], i) == Held(joints[i])
  {
    NeedsAPoint(joints, period);
    var last := |Ramp(points, joints, period, dof)| - 1;
    GridReaches(MaxStopTime(joints), period, last);
    RampEntryAt(points, joints, period, dof, last, i);
    Stopped(joints[i], GridTime(period, last));
  }

  lemma NeedsAPoint(joints: seq<Braking>, period: int)
    requires AllBrake(joints) && period > 0
    ensures PointsNeeded(joints, period) >= 1
  {
    CeilingOfNonNegative(MaxStopTime(joints), Seconds(period));
  }

  lemma CeilingOfNonNegative(m: real, d: real)
    requires m >= 0.0 && d > 0.0
    ensures Ceiling(m / d) >= 0
  {
    assert m / d >= 0.0;
  }

  lemma CeilingIsTight(x: real)
    requires Ceiling(x) > 0
    ensures (Ceiling(x) - 1) as real < x
  {
  }

  lemma GridIsTight(m: real, period: int, last: nat)
    requires period > 0 && last == Ceiling(m / Seconds(period)) && last > 0
    ensures GridTime(period, last - 1) < m
  {
    var dt := Seconds(period);
    CeilingIsTight(m / dt);
    StrictlyLarger(dt, (last - 1) as real, m / dt);
    UndoDivision(m, dt);
    GridSteps(period, last - 1);
  }

  lemma StrictlyLarger(c: real, a: real, b: real)
    requires c > 0.0 && a < b
    ensures a * c < b * c
  {
  }

  lemma {:induction false} SlowestToStop(joints: seq<Braking>)
    requires AllBrake(joints) && MaxStopTime(joints) > 0.0
    ensures exists i :: 0 <= i < |joints| && StopTime(joints[i]) == MaxStopTime(joints)
  {
    var n := |joints| - 1;
    var rest := joints[..n];
    if MaxStopTime(rest) < StopTime(joints[n]) {
      assert StopTime(joints[n]) == MaxStopTime(joints);
    } else {
      SlowestToStop(rest);
      var i :| 0 <= i < |rest| && StopTime(rest[i]) == MaxStopTime(rest);
      assert rest[i] == joints[i];
    }
  }

  /** Braking for t seconds takes all of the joint's speed. */
  predicate StoppedBy(b: Braking, t: real) {
    Abs(b.v0) <= b.decel * t
  }

  lemma StopsAll(joints: seq<Braking>, period: int, last: nat)
    requires AllBrake(joints) && period > 0 && last >= PointsNeeded(joints, period) - 1
    ensures forall i :: 0 <= i < |joints| ==> StoppedBy(joints[i], GridTime(period, last))
  {
    GridReaches(MaxStopTime(joints), period, last);
    hide *;
    forall i | 0 <= i < |joints|
      ensures StoppedBy(joints[i], GridTime(period, last))
    {
      StopsBy(joints[i], GridTime(period, last));
    }
  }

  lemma LeavesOneMoving(joints: seq<Braking>, period: int, last: nat)
    requires AllBrake(joints) && period > 0 && last > 0 && last == PointsNeeded(joints, period) - 1
    ensures exists i :: 0 <= i < |joints| && !StoppedBy(joints[i], GridTime(period, last - 1))
  {
    var stop := MaxStopTime(joints);
    GridIsTight(stop, period, last);
    GridNotNegative(period, last - 1);
    SlowestToStop(joints);
    hide *;
    var i :| 0 <= i < |joints| && StopTime(joints[i]) == stop;
    StopsBy(joints[i], GridTime(period, last - 1));
    assert !StoppedBy(joints[i], GridTime(period, last - 1));
  }

  lemma RampCount(points: seq<TrajectoryPoint>, joints: seq<Braking>, period: int, dof: nat)
    requires AllBrake(joints) && period > 0 && |joints| <= dof && AllHaveRoom(points, |joints|)
    ensures |Ramp(points, joints, period, dof)|
         == if |points| < PointsNeeded(joints, period) then PointsNeeded(joints, period) else |points|
  {
    hide PointsNeeded, RampPoint;
  }

  /** The ramp is exactly as long as it has to be: the time of its last point stops every joint, and if it is longer
      than what was reserved, the time of the point before does not stop all of them. */
  lemma RampLengthExactly(points: seq<TrajectoryPoint>, joints: seq<Braking>, period: int, dof: nat)
    requires AllBrake(joints) && period > 0 && |joints| <= dof && AllHaveRoom(points, |joints|)
    ensures var n := |Ramp(points, joints, period, dof)|;
      && n >= |points| && n > 0
      && (forall i :: 0 <= i < |joints| ==> StoppedBy(joints[i], Seconds((n - 1) * period)))
      && (n > |points| && n > 1 ==>
            exists i :: 0 <= i < |joints| && !StoppedBy(joints[i], Seconds((n - 2) * period)))
  {
    var n := |Ramp(points, joints, period, dof)|;
    NeedsAPoint(joints, period);
    RampCount(points, joints, period, dof);
    hide PointsNeeded, Ramp, Seconds, StoppedBy, AllHaveRoom;
    StopsAll(joints, period, n - 1);
    if n > |points| && n > 1 {
      LeavesOneMoving(joints, period, n - 1);
    }
  }

  lemma StopsBy(b: Braking, t: real)
    requires Brakes(b)
    ensures StopTime(b) <= t <==> StoppedBy(b, t)
  {
    UndoDivision(Abs(b.v0), b.decel);
    var stop := StopTime(b);
    if stop <= t {
      Larger(b.decel, stop, t);
    } else {
      StrictlyLarger(b.decel, t, stop);
    }
  }

  lemma GridNotNegative(period: int, k: nat)
    requires period > 0
    ensures GridTime(period, k) >= 0.0
  {
  }

  /** What the ramp leaves of the reserved points: the effort, and the entries of joints that it does not stop. */
  lemma RampKeeps(points: seq<TrajectoryPoint>, joints: seq<Braking>, period: int, dof: nat, k: nat)
    requires AllBrake(joints) && period > 0 && |joints| <= dof && AllHaveRoom(points, |joints|)
    requires k < |Ramp(points, joints, period, dof)|
    ensures var p := Ramp(points, joints, period, dof)[k]; var n := |joints|;
      if k < |points| then
        && p.positions[n..] == points[k].positions[n..] && p.velocities[n..] == points[k].velocities[n..]
        && p.accelerations[n..] == points[k].accelerations[n..] && p.effort == points[k].effort
      else
        && |p.positions| == |p.velocities| == |p.accelerations| == dof && p.effort == []
        && forall j :: n <= j < dof ==> p.positions[j] == p.velocities[j] == p.accelerations[j] == 0.0
  {
  }

  // ----- Sampling the ramp -----------------------------------------------------------------------

  /** The ramp, installed: the controller has begun to sample it. */
  ghost predicate RampInstalled(s: State, points: seq<TrajectoryPoint>, joints: seq<Braking>, period: int)
    requires AllBrake(joints) && period > 0 && |joints| <= Dim(s) && AllHaveRoom(points, |joints|)
  {
    && s.points == Ramp(points, joints, period, Dim(s))
    && Running(s)
  }

  lemma GridOrder(i: nat, j: nat, period: int)
    requires period > 0 && i < j
    ensures i * period < j * period
  {
  }

  lemma RampSized(points: seq<TrajectoryPoint>, joints: seq<Braking>, period: int, dof: nat, k: nat)
    requires AllBrake(joints) && period > 0 && |joints| <= dof && AllHaveRoom(points, |joints|)
    requires 0 < |joints| && forall k :: 0 <= k < |points| ==> Sized(points[k], dof)
    requires k < |Ramp(points, joints, period, dof)|
    ensures var p := Ramp(points, joints, period, dof)[k];
            && Sized(p, dof) && |p.positions| == |p.velocities| == |p.accelerations| == dof
            && p.timeFromStart == k * period
  {
  }

  /** A ramp has what sampling asks of a message, once the controller has set the state before it. */
  lemma RampCanRun(s: State, points: seq<TrajectoryPoint>, joints: seq<Braking>, period: int)
    requires AllBrake(joints) && period > 0 && 0 < |joints| <= Dim(s) && AllHaveRoom(points, |joints|)
    requires forall k :: 0 <= k < |points| ==> Sized(points[k], Dim(s))
    requires s.points == Ramp(points, joints, period, Dim(s))
    requires Sized(s.before, Dim(s)) && s.sampledAlready
    ensures RampInstalled(s, points, joints, period)
  {
    NeedsAPoint(joints, period);
    forall k | 0 <= k < |s.points|
      ensures Sized(s.points[k], Dim(s)) && s.points[k].positions != [] && s.points[k].timeFromStart == k * period
    {
      RampSized(points, joints, period, Dim(s), k);
    }
    forall i, j | 0 <= i < j < |s.points|
      ensures s.points[i].timeFromStart < s.points[j].timeFromStart
    {
      GridOrder(i, j, period);
    }
  }

  lemma RampArrival(s: State, points: seq<TrajectoryPoint>, joints: seq<Braking>, period: int, k: nat, i: nat)
    requires AllBrake(joints) && period > 0 && |joints| <= Dim(s) && AllHaveRoom(points, |joints|)
    requires RampInstalled(s, points, joints, period) && k + 1 < |s.points| && i < |joints|
    ensures ArrivalDuration(s, k + 1) == Seconds(period) && PointTime(s, k) == s.startTime + k * period
    ensures i < |s.points[k].positions| && i < |s.points[k + 1].positions|
    ensures ArrivalCurve(s, k + 1, i)
            == Quintic(RampKnot(joints[i], GridTime(period, k)), RampKnot(joints[i], GridTime(period, k + 1)),
                       Seconds(period))
  {
    RampEntryAt(points, joints, period, Dim(s), k, i);
    RampEntryAt(points, joints, period, Dim(s), k + 1, i);
    assert (k + 1) * period - k * period == period;
  }

  /** Every sample between two ramp points lies on the quintic through them. */
  lemma RampSegmentSampled(s: State, points: seq<TrajectoryPoint>, joints: seq<Braking>, period: int, k: nat, i: nat,
                           t: int)
    requires AllBrake(joints) && period > 0 && |joints| <= Dim(s) && AllHaveRoom(points, |joints|)
    requires RampInstalled(s, points, joints, period) && k + 1 < |s.points| && i < |joints|
    requires s.timeBefore <= t && PointTime(s, k) <= t < PointTime(s, k + 1)
    ensures Reports(StateAt(s, t), Dim(s), i, SegmentState(joints[i], period, k, Seconds(t - PointTime(s, k))))
  {
    var x := Seconds(t - PointTime(s, k));
    assert ArrivalTime(s, k + 1) == PointTime(s, k);
    SampleOnArrival(s, k + 1, t, i, x);
    RampArrival(s, points, joints, period, k, i);
  }

  /** Sampling the ramp at any time, between its points as much as on them: constant deceleration on
      every segment that ends before the joint's stop time, and the hold state on every segment that
      starts at or after it. */
  lemma RampSampled(s: State, points: seq<TrajectoryPoint>, joints: seq<Braking>, period: int, k: nat, i: nat, t: int)
    requires AllBrake(joints) && period > 0 && |joints| <= Dim(s) && AllHaveRoom(points, |joints|)
    requires RampInstalled(s, points, joints, period) && k + 1 < |s.points| && i < |joints|
    requires s.timeBefore <= t && PointTime(s, k) <= t < PointTime(s, k + 1)
    ensures MovesAt(joints[i], Seconds((k + 1) * period)) ==>
              Reports(StateAt(s, t), Dim(s), i, BrakingState(joints[i], Seconds(t - s.startTime)))
    ensures !MovesAt(joints[i], Seconds(k * period)) ==>
              Reports(StateAt(s, t), Dim(s), i, Held(joints[i]))
  {
    MovesWhileBraking(joints[i], GridTime(period, k));
    MovesWhileBraking(joints[i], GridTime(period, k + 1));
    RampSegmentSampled(s, points, joints, period, k, i, t);
    ElapsedOnGrid(s.startTime, period, k, t);
    RampArrival(s, points, joints, period, k, i);
    RampSegment(joints[i], period, k, Seconds(t - PointTime(s, k)), Seconds(t - s.startTime));
  }

  lemma ElapsedOnGrid(start: int, period: int, k: nat, t: int)
    ensures GridTime(period, k) + Seconds(t - (start + k * period)) == Seconds(t - start)
  {
  }

  /** One joint x seconds into the quintic from ramp point k to the next. */
  function SegmentState(b: Braking, period: int, k: nat, x: real): Knot
    requires Brakes(b)
  {
    KnotAt(Quintic(RampKnot(b, GridTime(period, k)), RampKnot(b, GridTime(period, k + 1)), Seconds(period)), x)
  }

  lemma RampSegment(b: Braking, period: int, k: nat, x: real, elapsed: real)
    requires Brakes(b) && period > 0 && elapsed == GridTime(period, k) + x
    ensures StillBraking(b, GridTime(period, k + 1)) ==> SegmentState(b, period, k, x) == BrakingState(b, elapsed)
    ensures !StillBraking(b, GridTime(period, k)) ==> SegmentState(b, period, k, x) == Held(b)
  {
    GridSteps(period, k);
    if StillBraking(b, GridTime(period, k + 1)) {
      BrakingSegment(b, GridTime(period, k), Seconds(period), x);
    } else if !StillBraking(b, GridTime(period, k)) {
      RampSafe(b, GridTime(period, k), GridTime(period, k + 1));
      HeldSegment(b, Seconds(period), x);
    }
  }

  /** Once the ramp is over, every joint is held for good. */
  lemma RampSampledAfterEnd(s: State, points: seq<TrajectoryPoint>, joints: seq<Braking>, period: int, i: nat, t: int)
    requires AllBrake(joints) && period > 0 && |joints| <= Dim(s) && AllHaveRoom(points, |joints|)
    requires RampInstalled(s, points, joints, period) && i < |joints| && s.timeBefore <= t && EndTime(s) <= t
    ensures Reports(StateAt(s, t), Dim(s), i, Held(joints[i]))
  {
    hide StateAt, AllBrake, AllHaveRoom, Running;
    SampleAfterEnd(s, t, i);
    RampEndsAtRest(points, joints, period, Dim(s), i);
  }
}
