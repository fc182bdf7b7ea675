/** The commanded wheels move with one rigid body: what each wheel is commanded agrees with the velocity that the
    commanded twist gives the place where the wheel stands. */
module RigidBody {
  import opened Options
  import opened Powers
  import opened Steering
  import opened SteeringOdometry
  import M = MecanumKinematics
  import C = MecanumController

  // ----- Steered vehicles ----------------------------------------------------------------------------------

  /** Rolling speed of a wheel that stands to the right of the middle of the traction axle. */
  function SpeedAt(linear: real, angular: real, toTheRight: real): real {
    linear + angular * toTheRight
  }

  lemma TwistOnCurve(t: Trig, g: Vehicle, linear: real, angular: real, angle: real)
    requires Sound(t) && g.Valid() && linear != 0.0 && angle == SteeringAngle(t, g.wheelBase, linear, angular)
    ensures t.cos(angle) != 0.0 && t.tan(angle) * linear == angular * g.wheelBase
    ensures t.tan(angle) != 0.0 ==> linear == angular * TurningRadius(t, g, angle)
    ensures t.tan(angle) == 0.0 <==> angle == 0.0
    ensures angular == 0.0 <==> angle == 0.0
  {
    hide Sound;
    AngularRecovered(t, g, linear, angular, angle);
    UndoQuotient(angular * g.wheelBase, linear);
    if t.tan(angle) != 0.0 {
      UndoQuotient(g.wheelBase, t.tan(angle));
      RadiusTimes(t.tan(angle), TurningRadius(t, g, angle), g.wheelBase, linear, angular);
    } else {
      OnlyZero(angular, g.wheelBase);
    }
  }

  lemma OnlyZero(a: real, b: real)
    requires a * b == 0.0 && b != 0.0
    ensures a == 0.0
  {
  }

  lemma RadiusTimes(tan: real, radius: real, base: real, linear: real, angular: real)
    requires tan != 0.0 && radius * tan == base && tan * linear == angular * base
    ensures linear == angular * radius
  {
    assert Times(tan, angular * radius) == Times(angular, radius * tan);
    assert Times(angular, base) == angular * base;
    CancelFactor(tan, linear, angular * radius);
  }

  lemma RimSpeedOnCurve(linear: real, angular: real, r: real, radius: real, offset: real)
    requires r != 0.0 && radius != 0.0 && linear == angular * radius
    ensures RimSpeed(linear, r, radius, offset) == SpeedAt(linear, angular, offset)
  {
    var a := linear / r;
    UndoQuotient(linear, r);
    var b := a * (radius + offset) / radius;
    UndoQuotient(a * (radius + offset), radius);
    assert Times(radius, b * r) == Times(radius + offset, a * r);
    assert Times(radius + offset, linear) == Times(radius, linear + angular * offset);
    CancelFactor(radius, b * r, linear + angular * offset);
  }

  lemma OpenLoopTraction(t: Trig, g: Vehicle, layout: Layout, linear: real, angular: real, measured: real, reduce: bool)
    requires g.Valid() && (layout == Tricycle || layout == Ackermann)
    ensures GetCommands(t, g, layout, measured, linear, angular, true, reduce).value.traction
         == TractionCommands(t, g, linear / g.wheelRadius, SteeringAngle(t, g.wheelBase, linear, angular))
  {
    hide TractionCommands, SteeredWheel, SteeringAngle;
  }

  lemma WheelOnCurve(t: Trig, g: Vehicle, linear: real, angular: real, speed: real, angle: real, offset: real,
                     half: real)
    requires g.Valid() && t.tan(angle) != 0.0 && linear == angular * TurningRadius(t, g, angle)
    requires speed == linear / g.wheelRadius && offset == half
    ensures WheelSpeed(t, g, speed, angle, offset) * g.wheelRadius == SpeedAt(linear, angular, half)
  {
    RadiusNotZero(g.wheelBase, t.tan(angle));
    hide WheelSpeed, RimSpeed, TurningRadius;
    RimOnCurve(t, g, linear, speed, angle, offset, half);
    RimSpeedOnCurve(linear, angular, g.wheelRadius, TurningRadius(t, g, angle), half);
  }

  lemma TractionOnCurve(t: Trig, g: Vehicle, linear: real, angular: real, angle: real)
    requires g.Valid() && !CloseToZero(angle) && t.tan(angle) != 0.0 && linear == angular * TurningRadius(t, g, angle)
    ensures var traction := TractionCommands(t, g, linear / g.wheelRadius, angle);
      && traction[0] * g.wheelRadius == SpeedAt(linear, angular, g.trackTraction / 2.0)
      && traction[1] * g.wheelRadius == SpeedAt(linear, angular, -(g.trackTraction / 2.0))
  {
    hide WheelSpeed, TurningRadius, SpeedAt;
    var speed := linear / g.wheelRadius;
    WheelOnCurve(t, g, linear, angular, speed, angle, g.trackTraction * 0.5, g.trackTraction / 2.0);
    WheelOnCurve(t, g, linear, angular, speed, angle, g.trackTraction * -0.5, -(g.trackTraction / 2.0));
  }

  lemma TractionOnLine(t: Trig, g: Vehicle, linear: real)
    requires g.Valid()
    ensures var traction := TractionCommands(t, g, linear / g.wheelRadius, 0.0);
      && traction[0] * g.wheelRadius == SpeedAt(linear, 0.0, g.trackTraction / 2.0)
      && traction[1] * g.wheelRadius == SpeedAt(linear, 0.0, -(g.trackTraction / 2.0))
  {
    UndoQuotient(linear, g.wheelRadius);
    assert 0.0 * (g.trackTraction / 2.0) == 0.0 && 0.0 * -(g.trackTraction / 2.0) == 0.0;
  }

  /** Outside the shortcut the right and the left traction wheel roll with the speed over ground of their places: the
      outer wheel faster, the inner one slower, by half the track times the angular velocity. */
  lemma TractionFollowsTheBody(t: Trig, g: Vehicle, layout: Layout, linear: real, angular: real, measured: real,
                               reduce: bool)
    requires Sound(t) && g.Valid() && linear != 0.0 && (layout == Tricycle || layout == Ackermann)
    requires NoShortcut(SteeringAngle(t, g.wheelBase, linear, angular))
    ensures var c := GetCommands(t, g, layout, measured, linear, angular, true, reduce).value;
      && |c.traction| == 2
      && c.traction[0] * g.wheelRadius == SpeedAt(linear, angular, g.trackTraction / 2.0)
      && c.traction[1] * g.wheelRadius == SpeedAt(linear, angular, -(g.trackTraction / 2.0))
  {
    hide Sound, TurningRadius, SpeedAt, GetCommands, SteeringAngle, WheelSpeed;
    var angle := SteeringAngle(t, g.wheelBase, linear, angular);
    TwistOnCurve(t, g, linear, angular, angle);
    OpenLoopTraction(t, g, layout, linear, angular, measured, reduce);
    if angle != 0.0 {
      TractionOnCurve(t, g, linear, angular, angle);
    } else {
      TractionOnLine(t, g, linear);
    }
  }

  /** A steered wheel that stands one wheel base ahead and to the right of the axle's middle points where its place
      moves: across goes angular times wheel base, along goes the speed of that side. */
  lemma SteeredWheelPointsAlong(t: Trig, g: Vehicle, linear: real, angular: real, track: real)
    requires Sound(t) && g.Valid() && linear != 0.0
    requires ClearOf(t, g, SteeringAngle(t, g.wheelBase, linear, angular), track)
    ensures var angle := SteeringAngle(t, g.wheelBase, linear, angular);
      t.tan(SteeredWheel(t, g, angle, track)) * SpeedAt(linear, angular, track / 2.0) == angular * g.wheelBase
  {
    hide Sound;
    var angle := SteeringAngle(t, g.wheelBase, linear, angular);
    TwistOnCurve(t, g, linear, angular, angle);
    var w, b := t.tan(SteeredWheel(t, g, angle, track)), g.wheelBase;
    SteeredTangent(t, g, angle, track, w);
    PointsAlong(b, track, t.tan(angle), linear, angular, w);
  }

  lemma SteeredTangent(t: Trig, g: Vehicle, angle: real, track: real, w: real)
    requires Sound(t) && g.Valid() && t.cos(angle) != 0.0 && ClearOf(t, g, angle, track)
    requires w == t.tan(SteeredWheel(t, g, angle, track))
    ensures w * (2.0 * g.wheelBase + track * t.tan(angle)) == 2.0 * g.wheelBase * t.tan(angle)
  {
    hide Sound, SteeredWheel;
    var tan, cos, sin, b := t.tan(angle), t.cos(angle), t.sin(angle), g.wheelBase;
    SineOfTangent(t, angle);
    DenominatorNotZero(t, g, angle, track);
    var d := 2.0 * b * cos + track * sin;
    WheelTangent(t, g, angle, track, d);
    DividedByCosine(b, track, tan, cos, sin, w, d);
  }

  lemma DividedByCosine(b: real, track: real, tan: real, cos: real, sin: real, w: real, d: real)
    requires cos != 0.0 && Times(tan, cos) == sin && d == 2.0 * b * cos + track * sin && Times(w, d) == 2.0 * b * sin
    ensures w * (2.0 * b + track * tan) == 2.0 * b * tan
  {
    assert d == Times(cos, 2.0 * b + track * tan);
    assert Times(w, d) == Times(cos, w * (2.0 * b + track * tan));
    assert 2.0 * b * sin == Times(cos, 2.0 * b * tan);
    CancelFactor(cos, w * (2.0 * b + track * tan), 2.0 * b * tan);
  }

  lemma PointsAlong(b: real, track: real, tan: real, linear: real, angular: real, w: real)
    requires b != 0.0 && tan * linear == angular * b && w * (2.0 * b + track * tan) == 2.0 * b * tan
    ensures w * SpeedAt(linear, angular, track / 2.0) == angular * b
  {
    var speed := SpeedAt(linear, angular, track / 2.0);
    assert Times(2.0 * b, speed) == 2.0 * b * linear + Times(track, angular * b);
    assert Times(track, tan * linear) == Times(linear, track * tan);
    assert Times(2.0 * b, speed) == Times(linear, 2.0 * b + track * tan);
    assert Times(2.0 * b, w * speed) == Times(linear, w * (2.0 * b + track * tan));
    assert Times(linear, 2.0 * b * tan) == Times(2.0 * b, tan * linear);
    CancelFactor(2.0 * b, w * speed, angular * b);
  }

  /** So do both steered wheels of an Ackermann vehicle, outside the shortcut. */
  lemma SteeringFollowsTheBody(t: Trig, g: Vehicle, linear: real, angular: real, measured: real, reduce: bool)
    requires Sound(t) && g.Valid() && linear != 0.0
    requires var angle := SteeringAngle(t, g.wheelBase, linear, angular);
      !CloseToZero(angle) && ClearOf(t, g, angle, g.trackSteering) && ClearOf(t, g, angle, -g.trackSteering)
    ensures var c := GetCommands(t, g, Ackermann, measured, linear, angular, true, reduce).value;
      && |c.steering| == 2
      && t.tan(c.steering[0]) * SpeedAt(linear, angular, g.trackSteering / 2.0) == angular * g.wheelBase
      && t.tan(c.steering[1]) * SpeedAt(linear, angular, -g.trackSteering / 2.0) == angular * g.wheelBase
  {
    hide Sound, SteeredWheel, TractionCommands, SpeedAt, SteeringAngle;
    SteeredWheelPointsAlong(t, g, linear, angular, g.trackSteering);
    SteeredWheelPointsAlong(t, g, linear, angular, -g.trackSteering);
  }

  /** The bicycle and the tricycle steer with the middle of the front axle. */
  lemma MiddleFollowsTheBody(t: Trig, g: Vehicle, layout: Layout, linear: real, angular: real, measured: real,
                             reduce: bool)
    requires Sound(t) && g.Valid() && linear != 0.0 && (layout == Bicycle || layout == Tricycle)
    ensures var c := GetCommands(t, g, layout, measured, linear, angular, true, reduce).value;
      && |c.steering| == 1 && t.tan(c.steering[0]) * linear == angular * g.wheelBase
      && (layout == Bicycle ==> |c.traction| == 1 && c.traction[0] * g.wheelRadius == linear)
  {
    hide Sound, SteeredWheel, TractionCommands, SteeringAngle, TurningRadius;
    TwistOnCurve(t, g, linear, angular, SteeringAngle(t, g.wheelBase, linear, angular));
    UndoQuotient(linear, g.wheelRadius);
  }

  /** Told to turn on the spot, the wheels stand still and the steering goes to a right angle on the side of the
      turn. */
  lemma SpotSteersSideways(t: Trig, g: Vehicle, layout: Layout, measured: real, angular: real, openLoop: bool,
                           reduce: bool)
    requires g.Valid() && layout != NotImplemented
    ensures var c := GetCommands(t, g, layout, measured, 0.0, angular, openLoop, reduce).value;
      && (forall i :: 0 <= i < |c.traction| ==> c.traction[i] == 0.0)
      && |c.traction| == (if layout == Bicycle then 1 else 2)
      && (layout != Ackermann ==>
            c.steering == [if angular == 0.0 then 0.0
                           else if (angular > 0.0) == (g.wheelBase > 0.0) then t.halfPi
                           else -t.halfPi])
  {
    var used := if openLoop then SteeringAngle(t, g.wheelBase, 0.0, angular) else measured;
    StandingWheels(t, g, used);
    hide SteeredWheel, Reduction, TractionCommands;
    SignOfProduct(angular, g.wheelBase);
  }

  lemma StandingWheels(t: Trig, g: Vehicle, angle: real)
    requires g.Valid()
    ensures TractionCommands(t, g, 0.0, angle) == [0.0, 0.0]
  {
    if !CloseToZero(angle) && t.tan(angle) != 0.0 {
      var radius := TurningRadius(t, g, angle);
      RadiusNotZero(g.wheelBase, t.tan(angle));
      ShareOfNothing(radius, g.trackTraction * 0.5);
      ShareOfNothing(radius, g.trackTraction * -0.5);
    }
  }

  lemma ShareOfNothing(radius: real, offset: real)
    requires radius != 0.0
    ensures 0.0 * (radius + offset) / radius == 0.0
  {
  }

  lemma SignOfProduct(a: real, b: real)
    requires b != 0.0
    ensures a * b == 0.0 <==> a == 0.0
    ensures a != 0.0 ==> (a * b > 0.0 <==> (a > 0.0) == (b > 0.0))
  {
  }

  // ----- Closed loop, while the steering is on its way --------------------------------------------------------

  /** The factor by which the wheels are slowed down. */
  function Slowing(t: Trig, g: Vehicle, measured: real, linear: real, angular: real, reduce: bool): real {
    if reduce then Reduction(t, Abs(measured - SteeringAngle(t, g.wheelBase, linear, angular))) else 1.0
  }

  /** An error below thirty degrees slows nothing down; a larger one by its cosine over that of thirty degrees, and
      beyond 1.5608 it slows down no further. */
  lemma ReductionInNumbers(t: Trig, error: real)
    requires t.cos(t.halfPi / 3.0) != 0.0
    ensures 3.0 * error < t.halfPi ==> Reduction(t, error) == 1.0
    ensures t.halfPi <= 3.0 * error && error < 1.5608 ==> Reduction(t, error) * t.cos(t.halfPi / 3.0) == t.cos(error)
    ensures t.halfPi <= 3.0 * error && 1.5608 <= error ==> Reduction(t, error) * t.cos(t.halfPi / 3.0) == t.cos(1.5608)
  {
    UndoQuotient(t.cos(error), t.cos(t.halfPi / 3.0));
    UndoQuotient(t.cos(1.5608), t.cos(t.halfPi / 3.0));
  }

  lemma SlowedSpeed(linear: real, r: real, k: real)
    requires r != 0.0
    ensures linear / r * k == (linear * k) / r && linear / r * 1.0 == linear / r
  {
    UndoQuotient(linear, r);
    UndoQuotient(linear * k, r);
    assert Times(r, linear / r * k) == Times(k, linear / r * r);
    assert Times(r, (linear * k) / r) == linear * k == Times(k, linear);
    CancelFactor(r, linear / r * k, (linear * k) / r);
  }

  /** The commanded speed as the code forms it. */
  function SlowedWheel(t: Trig, g: Vehicle, measured: real, linear: real, angular: real, reduce: bool): real
    requires g.Valid()
  {
    var full := linear / g.wheelRadius;
    if reduce then Times(full, Reduction(t, Abs(measured - SteeringAngle(t, g.wheelBase, linear, angular)))) else full
  }

  lemma SlowedWheelRolls(t: Trig, g: Vehicle, measured: real, linear: real, angular: real, reduce: bool)
    requires g.Valid()
    ensures SlowedWheel(t, g, measured, linear, angular, reduce)
         == (linear * Slowing(t, g, measured, linear, angular, reduce)) / g.wheelRadius
  {
    hide SteeringAngle, Reduction;
    SlowedSpeed(linear, g.wheelRadius, Slowing(t, g, measured, linear, angular, reduce));
    assert linear * 1.0 == linear;
  }

  lemma ClosedLoopShape(t: Trig, g: Vehicle, layout: Layout, measured: real, linear: real, angular: real, reduce: bool)
    requires g.Valid() && layout != NotImplemented
    ensures var c := GetCommands(t, g, layout, measured, linear, angular, false, reduce).value;
      var speed := SlowedWheel(t, g, measured, linear, angular, reduce);
      c.traction == if layout == Bicycle then [speed] else TractionCommands(t, g, speed, measured)
  {
    hide TractionCommands, SteeredWheel, SteeringAngle, Reduction, Times;
  }

  /** In closed loop the traction wheels roll with one body that moves at the slowed speed on the curve of the measured
      steering angle; inside the shortcut all roll straight ahead. */
  lemma ClosedLoopFollowsTheMeasuredAngle(t: Trig, g: Vehicle, layout: Layout, measured: real, linear: real,
                                          angular: real, reduce: bool, w: real)
    requires g.Valid() && layout != NotImplemented && (t.tan(measured) != 0.0 || CloseToZero(measured))
    requires var v := linear * Slowing(t, g, measured, linear, angular, reduce);
      layout == Bicycle || CloseToZero(measured) || v == w * TurningRadius(t, g, measured)
    ensures var c := GetCommands(t, g, layout, measured, linear, angular, false, reduce).value;
      var v := linear * Slowing(t, g, measured, linear, angular, reduce);
      if layout == Bicycle then |c.traction| == 1 && c.traction[0] * g.wheelRadius == v
      else
        && |c.traction| == 2
        && (CloseToZero(measured) ==> c.traction[0] * g.wheelRadius == c.traction[1] * g.wheelRadius == v)
        && (!CloseToZero(measured) ==>
              && c.traction[0] * g.wheelRadius == SpeedAt(v, w, g.trackTraction / 2.0)
              && c.traction[1] * g.wheelRadius == SpeedAt(v, w, -(g.trackTraction / 2.0)))
  {
    hide GetCommands, Slowing, SlowedWheel, TurningRadius, SpeedAt, WheelSpeed;
    SlowedWheelRolls(t, g, measured, linear, angular, reduce);
    var v := linear * Slowing(t, g, measured, linear, angular, reduce);
    ClosedLoopShape(t, g, layout, measured, linear, angular, reduce);
    UndoQuotient(v, g.wheelRadius);
    if layout != Bicycle && !CloseToZero(measured) {
      TractionOnCurve(t, g, v, w, measured);
    }
  }

  /** The steering is told the wanted angle at once. While an Ackermann vehicle's steering stands straight ahead both
      its wheels are told the same angle, and show the wanted one exactly if they have no track. */
  lemma ClosedLoopSteersAtOnce(t: Trig, g: Vehicle, layout: Layout, measured: real, linear: real, angular: real,
                               reduce: bool)
    requires Sound(t) && g.Valid() && linear != 0.0 && layout != NotImplemented
    ensures var c := GetCommands(t, g, layout, measured, linear, angular, false, reduce).value;
      var angle := SteeringAngle(t, g.wheelBase, linear, angular);
      if layout != Ackermann then c.steering == [angle]
      else if CloseToZero(measured) then
        && c.steering == [angle, angle]
        && (angle != 0.0 && AnglesDefined(t, g, angle, angle) ==>
              (MeanAngle(t, g, angle, angle) == angle <==> g.trackSteering == 0.0))
      else c.steering == [SteeredWheel(t, g, angle, g.trackSteering), SteeredWheel(t, g, angle, -g.trackSteering)]
  {
    hide Sound, SteeredWheel, TractionCommands, TurnTangent, MeanAngle, AnglesDefined, Reduction;
    var angle := SteeringAngle(t, g.wheelBase, linear, angular);
    TangentOfArctangent(t, TurnTangent(g.wheelBase, linear, angular));
    if angle != 0.0 && AnglesDefined(t, g, angle, angle) {
      OneAngleForBothWheels(t, g, TurnTangent(g.wheelBase, linear, angular), angle);
    }
  }

  // ----- What the odometry makes of readings that no command would give ----------------------------------------

  /** With r and l the speeds at the middle of the axle that the right and the left wheel show on their own, the
      odometry takes the mean. */
  lemma AxleTakesTheMean(t: Trig, g: Vehicle, right: real, left: real, angle: real, r: real, l: real)
    requires g.Valid() && AxleDefined(t, g, angle)
    requires if t.tan(angle) == 0.0 then r == right * g.wheelRadius && l == left * g.wheelRadius
             else
               var radius, half := TurningRadius(t, g, angle), g.trackTraction / 2.0;
               && r * (radius + half) == right * g.wheelRadius * radius
               && l * (radius - half) == left * g.wheelRadius * radius
    ensures 2.0 * LinearVelocityOfAxle(t, g, right, left, angle) == r + l
  {
    if t.tan(angle) != 0.0 {
      AxleMean(t, g, right, left, angle, right * g.wheelRadius, left * g.wheelRadius);
      hide LinearVelocityOfAxle, TurningRadius;
      var radius, half := TurningRadius(t, g, angle), g.trackTraction * 0.5;
      MeanOfBoth(radius, half, right * g.wheelRadius, left * g.wheelRadius, r, l);
    }
  }

  lemma MeanOfBoth(radius: real, half: real, right: real, left: real, r: real, l: real)
    requires RadiusDefined(radius, half)
    requires r * (radius + half) == right * radius && l * (radius - half) == left * radius
    ensures 2.0 * MeanSpeed(radius, half, right, left) == r + l
  {
    assert Times(r, radius + half) == right * radius && Times(l, radius - half) == left * radius;
    Quotient(right * radius, radius + half, r);
    Quotient(left * radius, radius - half, l);
  }

  /** The angular velocity is that of the curve: with the wheel base it gives the speed across at the front axle. */
  lemma CurveTurns(t: Trig, g: Vehicle, angle: real, linear: real)
    requires g.Valid()
    ensures var e := Turning(t, g, angle, linear);
      e.steerPosition == angle && e.linear == linear && e.angular * g.wheelBase == t.tan(angle) * linear
  {
    UndoQuotient(t.tan(angle) * linear, g.wheelBase);
  }

  lemma OneWheelShows(t: Trig, g: Vehicle, traction: real, angle: real)
    requires g.Valid()
    ensures var e := FromOneWheel(t, g, traction, angle);
      && e.steerPosition == angle && e.linear == traction * g.wheelRadius
      && e.angular * g.wheelBase == t.tan(angle) * (traction * g.wheelRadius)
  {
    CurveTurns(t, g, angle, traction * g.wheelRadius);
  }

  // ----- The integrated pose -----------------------------------------------------------------------------------

  /** The heading turns by the angular velocity for the period. A turn of less than a millionth moves along the heading
      half-way; any other about a point that stays where it is, to the left by linear over angular velocity. */
  lemma PoseMoves(t: Trig, p: Pose, linear: real, angular: real, dt: real)
    ensures var q := IntegratedPose(t, p, linear, angular, dt);
      && q.heading == p.heading + angular * dt
      && (-0.000001 < angular * dt < 0.000001 ==>
            && q.x - p.x == linear * t.cos(p.heading + angular * 0.5 * dt) * dt
            && q.y - p.y == linear * t.sin(p.heading + angular * 0.5 * dt) * dt)
    ensures var q := IntegratedPose(t, p, linear, angular, dt);
      !(-0.000001 < angular * dt < 0.000001) ==>
        exists radius :: radius * (angular * dt) == linear * dt
          && q.x - Times(radius, t.sin(q.heading)) == p.x - Times(radius, t.sin(p.heading))
          && q.y + Times(radius, t.cos(q.heading)) == p.y + Times(radius, t.cos(p.heading))
  {
    if !CloseToZero(angular * dt) {
      var radius, turn := linear * dt / (angular * dt), angular * dt;
      UndoQuotient(linear * dt, turn);
      hide AlongArc, CloseToZero;
      ArcTurns(t, p, radius, turn);
      CentreStays(t, p, radius, turn);
    }
  }

  lemma ArcTurns(t: Trig, p: Pose, radius: real, turn: real)
    ensures AlongArc(t, p, radius, turn).heading == p.heading + turn
  {
  }

  // ----- The mecanum drive -------------------------------------------------------------------------------------

  /** The twist of the centre: the base frame lies at the offset and is turned by the angle with that cosine and sine,
      so its velocity, turned, is the centre's velocity plus what the rotation adds at the offset. */
  lemma BaseMovesWithTheCentre(g: M.Geometry, t: M.Twist)
    ensures var c := M.CenterFromBase(g, t);
      && c.w == t.w
      && c.x - c.w * g.offsetY == g.cos * t.x - g.sin * t.y
      && c.y + c.w * g.offsetX == g.sin * t.x + g.cos * t.y
  {
  }

  /** One step of the mecanum odometry: the orientation turns by the angular velocity, the position moves by the body's
      velocity turned into the odometry frame. */
  lemma StepMovesTheBody(cos: real, sin: real, x: real, y: real, heading: real, t: M.Twist, dt: real)
    ensures C.Integrated(heading, t.w, dt) - heading == t.w * dt
    ensures C.Integrated(x, M.TurnX(cos, sin, t.x, t.y), dt) - x == (cos * t.x - sin * t.y) * dt
    ensures C.Integrated(y, M.TurnY(cos, sin, t.x, t.y), dt) - y == (sin * t.x + cos * t.y) * dt
  {
  }

  /** The four wheels in the order of the interfaces, front left, front right, rear right, rear left: all of them drive
      forward, the front right and rear left ones against the others to the left, and the right ones against the left
      ones in a turn. */
  lemma WheelsRoll(g: M.Geometry, t: M.Twist)
    requires g.radius != 0.0
    ensures var c, v := M.CenterFromBase(g, t), C.InOrder(M.Commands(g, t));
      && g.radius * v[0] == c.x - c.y - g.centerSum * c.w
      && g.radius * v[1] == c.x + c.y + g.centerSum * c.w
      && g.radius * v[2] == c.x - c.y + g.centerSum * c.w
      && g.radius * v[3] == c.x + c.y - g.centerSum * c.w
  {
    var c := M.CenterFromBase(g, t);
    hide M.CenterFromBase;
    InverseUndone(g.radius, c.x - c.y - g.centerSum * c.w);
    InverseUndone(g.radius, c.x + c.y + g.centerSum * c.w);
    InverseUndone(g.radius, c.x - c.y + g.centerSum * c.w);
    InverseUndone(g.radius, c.x + c.y - g.centerSum * c.w);
  }

  lemma InverseUndone(r: real, a: real)
    requires r != 0.0
    ensures r * (1.0 / r * a) == a
  {
    UndoQuotient(1.0, r);
    assert Times(r, 1.0 / r * a) == Times(a, 1.0 / r * r);
  }

  /** Interfaces are written up to the first that refuses, and the others keep what they held. */
  lemma WrittenUpToTheFirstRefusal(before: seq<real>, values: seq<real>, accepts: seq<bool>, n: nat)
    requires |before| == |values| == |accepts| && n <= |accepts|
    requires (forall k :: 0 <= k < n ==> accepts[k]) && (n < |accepts| ==> !accepts[n])
    ensures C.CommandedInterfaces(before, values, accepts) == values[..n] + before[n..]
  {
  }

  /** Without a reference the first interface that accepts is set to zero, and no other. */
  lemma StoppedAtTheFirstAcceptance(before: seq<real>, accepts: seq<bool>, n: nat)
    requires |before| == |accepts| && n <= |accepts|
    requires (forall k :: 0 <= k < n ==> !accepts[k]) && (n < |accepts| ==> accepts[n])
    ensures C.StoppedInterfaces(before, accepts) == if n < |accepts| then before[n := 0.0] else before
  {
  }
}
