/** Commands and odometry of vehicles with steered wheels: bicycle, tricycle and Ackermann steering, and that
    the odometry recovers the commanded velocities. Trigonometry is a parameter of which only textbook
    identities are used. */
module Steering {
  import opened Options
  import opened Powers

  datatype Trig = Trig(
    sine: real -> real,
    cosine: real -> real,
    tangent: real -> real,
    arctangent: real -> real,
    arctangent2: (real, real) -> real,
    halfPi: real)
  {
    function sin(x: real): real { sine(x) }
    function cos(x: real): real { cosine(x) }
    function tan(x: real): real { tangent(x) }
    function atan(x: real): real { arctangent(x) }
    function atan2(y: real, x: real): real { arctangent2(y, x) }
  }

  predicate Adds(t: Trig, x: real, y: real) {
    && t.sin(x + y) == t.sin(x) * t.cos(y) + t.cos(x) * t.sin(y)
    && t.cos(x + y) == t.cos(x) * t.cos(y) - t.sin(x) * t.sin(y)
  }

  /** The identities that are needed of the functions. */
  ghost predicate Sound(t: Trig) {
    && (forall x :: t.cos(x) != 0.0 ==> t.tan(x) * t.cos(x) == t.sin(x))
    && (forall x :: t.cos(t.atan(x)) != 0.0 && t.tan(t.atan(x)) == x)
    && (forall y, x :: x != 0.0 ==> t.tan(t.atan2(y, x)) * x == y)
    && (forall x, y :: Adds(t, x, y))
    && (forall x :: Abs(t.atan(x)) <= Abs(x))
    && t.atan(0.0) == 0.0 && t.tan(0.0) == 0.0
  }

  datatype Vehicle = Vehicle(wheelRadius: real, wheelBase: real, trackSteering: real, trackTraction: real) {
    predicate Valid() {
      wheelRadius != 0.0 && wheelBase != 0.0
    }
  }

  datatype Layout = Bicycle | Tricycle | Ackermann | NotImplemented

  datatype Commands = Commands(traction: seq<real>, steering: seq<real>)

  const MAX_ANGLE_ERROR := 1.5608

  predicate CloseToZero(x: real) {
    Abs(x) < 0.000001
  }

  // ----- Commands ----------------------------------------------------------------------------------------

  /** Tangent of the angle on which a moving vehicle turns as commanded. */
  function TurnTangent(wheelBase: real, linear: real, angular: real): real
    requires linear != 0.0
  {
    angular * wheelBase / linear
  }

  /** Standing still without turning gives no angle; standing still while turning gives a right angle. */
  function SteeringAngle(t: Trig, wheelBase: real, linear: real, angular: real): real {
    if linear != 0.0 then t.atan(TurnTangent(wheelBase, linear, angular))
    else if angular * wheelBase == 0.0 then 0.0
    else if angular * wheelBase > 0.0 then t.halfPi
    else -t.halfPi
  }

  /** The wheels are slowed down until the steering has come near the wanted angle. */
  function Reduction(t: Trig, error: real): real {
    if error < t.halfPi / 3.0 || t.cos(t.halfPi / 3.0) == 0.0 then 1.0
    else t.cos(if error < MAX_ANGLE_ERROR then error else MAX_ANGLE_ERROR) / t.cos(t.halfPi / 3.0)
  }

  function TurningRadius(t: Trig, g: Vehicle, angle: real): real
    requires t.tan(angle) != 0.0
  {
    g.wheelBase / t.tan(angle)
  }

  /** A wheel at the given distance from the middle of the axle; on a straight line the radius is infinite. */
  function WheelSpeed(t: Trig, g: Vehicle, speed: real, angle: real, offset: real): real
    requires g.Valid()
  {
    if t.tan(angle) == 0.0 then speed
    else
      var radius := TurningRadius(t, g, angle);
      speed * (radius + offset) / radius
  }

  function TractionCommands(t: Trig, g: Vehicle, speed: real, angle: real): seq<real>
    requires g.Valid()
  {
    if CloseToZero(angle) then [speed, speed]
    else [WheelSpeed(t, g, speed, angle, g.trackTraction * 0.5), WheelSpeed(t, g, speed, angle, g.trackTraction * -0.5)]
  }

  /** The two steered wheels turn about one point. */
  function SteeredWheel(t: Trig, g: Vehicle, angle: real, track: real): real {
    t.atan2(2.0 * g.wheelBase * t.sin(angle), 2.0 * g.wheelBase * t.cos(angle) + track * t.sin(angle))
  }

  function GetCommands(t: Trig, g: Vehicle, layout: Layout, steerPosition: real, linear: real, angular: real,
                       openLoop: bool, reduce: bool): Option<Commands>
    requires g.Valid()
  {
    var angle := SteeringAngle(t, g.wheelBase, linear, angular);
    var used := if openLoop then angle else steerPosition;
    var full := linear / g.wheelRadius;
    var speed := if !openLoop && reduce then Times(full, Reduction(t, Abs(steerPosition - angle))) else full;
    match layout
    case Bicycle => Some(Commands([speed], [angle]))
    case Tricycle => Some(Commands(TractionCommands(t, g, speed, used), [angle]))
    case Ackermann =>
      Some(Commands(TractionCommands(t, g, speed, used),
                    if CloseToZero(used) then [angle, angle]
                    else [SteeredWheel(t, g, angle, g.trackSteering), SteeredWheel(t, g, angle, -g.trackSteering)]))
    case NotImplemented => None
  }

  // ----- Odometry ------------------------------------------------------------------------------------------

  datatype Estimate = Estimate(steerPosition: real, linear: real, angular: real)

  predicate RadiusDefined(radius: real, half: real) {
    radius + half != 0.0 && radius - half != 0.0
  }

  /** The speed in the middle as each wheel shows it, averaged. */
  function MeanSpeed(radius: real, half: real, right: real, left: real): real
    requires RadiusDefined(radius, half)
  {
    (right * radius / (radius + half) + left * radius / (radius - half)) * 0.5
  }

  /** The turning radius that the odometry divides by must not meet a wheel. */
  predicate AxleDefined(t: Trig, g: Vehicle, angle: real)
    requires g.Valid()
  {
    t.tan(angle) != 0.0 ==> RadiusDefined(TurningRadius(t, g, angle), g.trackTraction * 0.5)
  }

  function LinearVelocityOfAxle(t: Trig, g: Vehicle, right: real, left: real, angle: real): real
    requires g.Valid() && AxleDefined(t, g, angle)
  {
    var r, l := right * g.wheelRadius, left * g.wheelRadius;
    if t.tan(angle) == 0.0 then (r + l) * 0.5
    else MeanSpeed(TurningRadius(t, g, angle), g.trackTraction * 0.5, r, l)
  }

  function Turning(t: Trig, g: Vehicle, angle: real, linear: real): Estimate
    requires g.Valid()
  {
    Estimate(angle, linear, t.tan(angle) * linear / g.wheelBase)
  }

  function FromOneWheel(t: Trig, g: Vehicle, traction: real, angle: real): Estimate
    requires g.Valid()
  {
    Turning(t, g, angle, traction * g.wheelRadius)
  }

  function FromAxle(t: Trig, g: Vehicle, right: real, left: real, angle: real): Estimate
    requires g.Valid() && AxleDefined(t, g, angle)
  {
    Turning(t, g, angle, LinearVelocityOfAxle(t, g, right, left, angle))
  }

  function Clearance(base: real, track: real, w: real): real { base - track / 2.0 * w }

  predicate TangentDefined(base: real, track: real, w: real) {
    Clearance(base, track, w) != 0.0
  }

  /** The tangent of the middle angle for the tangent w of a wheel's angle. */
  function MiddleTangent(base: real, track: real, w: real): real
    requires TangentDefined(base, track, w)
  {
    base * w / Clearance(base, track, w)
  }

  predicate WheelDefined(t: Trig, g: Vehicle, wheel: real, track: real) {
    TangentDefined(g.wheelBase, track, t.tan(wheel))
  }

  /** The angle of the middle of the steered axle as one of its wheels shows it. */
  function AngleFromWheel(t: Trig, g: Vehicle, wheel: real, track: real): real
    requires WheelDefined(t, g, wheel, track)
  {
    t.atan(MiddleTangent(g.wheelBase, track, t.tan(wheel)))
  }

  predicate AnglesDefined(t: Trig, g: Vehicle, rightAngle: real, leftAngle: real) {
    WheelDefined(t, g, rightAngle, g.trackSteering) && WheelDefined(t, g, leftAngle, -g.trackSteering)
  }

  function MeanAngle(t: Trig, g: Vehicle, rightAngle: real, leftAngle: real): real
    requires AnglesDefined(t, g, rightAngle, leftAngle)
  {
    (AngleFromWheel(t, g, rightAngle, g.trackSteering) + AngleFromWheel(t, g, leftAngle, -g.trackSteering)) * 0.5
  }

  predicate FourWheelsDefined(t: Trig, g: Vehicle, rightAngle: real, leftAngle: real)
    requires g.Valid()
  {
    AnglesDefined(t, g, rightAngle, leftAngle) && AxleDefined(t, g, MeanAngle(t, g, rightAngle, leftAngle))
  }

  function FromFourWheels(t: Trig, g: Vehicle, right: real, left: real, rightAngle: real, leftAngle: real): Estimate
    requires g.Valid() && FourWheelsDefined(t, g, rightAngle, leftAngle)
  {
    FromAxle(t, g, right, left, MeanAngle(t, g, rightAngle, leftAngle))
  }

  // ----- The odometry undoes the commands ----------------------------------------------------------------

  lemma NotZero(a: real, b: real)
    requires a != 0.0 && b != 0.0
    ensures Times(a, b) != 0.0
  {
  }

  lemma FactorNotZero(a: real, b: real)
    requires Times(a, b) != 0.0
    ensures a != 0.0 && b != 0.0
  {
  }

  lemma ProductsDiffer(a: real, x: real, y: real)
    requires a != 0.0 && x != y
    ensures Times(a, x) != Times(a, y)
  {
    NotZero(a, x - y);
    assert Times(a, x - y) == Times(a, x) - Times(a, y);
  }

  lemma CancelFactor(a: real, x: real, y: real)
    requires a != 0.0
    ensures Times(a, x) == Times(a, y) ==> x == y
  {
    if x != y {
      ProductsDiffer(a, x, y);
    }
  }

  lemma ScaledDenominator(b: real, track: real, sin: real, cos: real, d: real, w: real, e: real)
    requires d == 2.0 * b * cos + track * sin && Times(w, d) == 2.0 * b * sin && e == b - track / 2.0 * w
    ensures Times(d, e) == 2.0 * Times(Times(b, b), cos)
  {
    assert Times(d, e) == Times(b, d) - track / 2.0 * Times(w, d);
    assert Times(b, d) == 2.0 * Times(Times(b, b), cos) + b * track * sin;
  }

  lemma ScaledNumerator(b: real, sin: real, d: real, w: real)
    requires Times(w, d) == 2.0 * b * sin
    ensures Times(d, Times(b, w)) == 2.0 * Times(Times(b, b), sin)
  {
    assert Times(d, Times(b, w)) == Times(b, Times(w, d));
  }

  lemma ScaledTangent(b: real, cos: real, tan: real, sin: real)
    requires Times(tan, cos) == sin
    ensures Times(tan, 2.0 * Times(Times(b, b), cos)) == 2.0 * Times(Times(b, b), sin)
  {
    assert Times(tan, 2.0 * Times(Times(b, b), cos)) == 2.0 * Times(Times(b, b), Times(tan, cos));
  }

  /** One steered wheel, with its tangent given by the denominator d: the middle angle comes out. */
  lemma WheelShowsAngle(b: real, track: real, sin: real, cos: real, tan: real, d: real, w: real)
    requires b != 0.0 && cos != 0.0 && d != 0.0 && Times(tan, cos) == sin
    requires d == 2.0 * b * cos + track * sin && Times(w, d) == 2.0 * b * sin
    ensures TangentDefined(b, track, w) && MiddleTangent(b, track, w) == tan
  {
    var e := Clearance(b, track, w);
    assert Times(b, w) == b * w;
    hide Times;
    ScaledDenominator(b, track, sin, cos, d, w, e);
    ScaledNumerator(b, sin, d, w);
    ScaledTangent(b, cos, tan, sin);
    NotZero(b, b);
    NotZero(Times(b, b), cos);
    FactorNotZero(d, e);
    Through(d, tan, e);
    CancelFactor(d, Times(b, w), Times(tan, e));
    Quotient(Times(b, w), e, tan);
  }

  lemma Quotient(x: real, e: real, q: real)
    requires e != 0.0 && x == Times(q, e)
    ensures x / e == q
  {
  }

  /** A wheel speed computed for the turning radius and read back with it. */
  lemma WheelUndone(v: real, r: real, radius: real, q: real)
    requires r != 0.0 && radius != 0.0 && q != 0.0
    ensures v / r * q / radius * r * radius / q == v
  {
    var a := v / r;
    assert Times(r, a) == v;
    var b := a * q / radius;
    assert Times(radius, b) == a * q;
    assert Times(Times(radius, b), r) == Times(q, Times(r, a));
    assert b * r * radius == Times(Times(radius, b), r);
    Quotient(b * r * radius, q, v);
  }

  lemma TangentOfArctangent(t: Trig, x: real)
    requires Sound(t)
    ensures t.cos(t.atan(x)) != 0.0 && t.tan(t.atan(x)) == x && Abs(t.atan(x)) <= Abs(x)
    ensures x == 0.0 <==> t.atan(x) == 0.0
  {
  }

  lemma AngularRecovered(t: Trig, g: Vehicle, linear: real, angular: real, angle: real)
    requires Sound(t) && g.Valid() && linear != 0.0
    requires angle == SteeringAngle(t, g.wheelBase, linear, angular)
    ensures t.cos(angle) != 0.0 && t.tan(angle) == TurnTangent(g.wheelBase, linear, angular)
    ensures Turning(t, g, angle, linear) == Estimate(angle, linear, angular)
    ensures t.tan(angle) == 0.0 <==> angle == 0.0
  {
    hide Sound;
    var tan, x := t.tan(angle), TurnTangent(g.wheelBase, linear, angular);
    TangentOfArctangent(t, x);
    TurnUndone(g.wheelBase, linear, angular);
    hide TurnTangent;
  }

  lemma TurnUndone(wheelBase: real, linear: real, angular: real)
    requires wheelBase != 0.0 && linear != 0.0
    ensures TurnTangent(wheelBase, linear, angular) * linear / wheelBase == angular
  {
    var tan := TurnTangent(wheelBase, linear, angular);
    UndoQuotient(angular * wheelBase, linear);
    Quotient(tan * linear, wheelBase, angular);
  }

  lemma RadiusNotZero(b: real, tan: real)
    requires b != 0.0 && tan != 0.0
    ensures b / tan != 0.0
  {
    assert Times(tan, b / tan) == b;
    FactorNotZero(tan, b / tan);
  }

  lemma CurveRecovered(t: Trig, g: Vehicle, linear: real, angle: real)
    requires g.Valid() && AxleDefined(t, g, angle) && t.tan(angle) != 0.0
    ensures var speed, half := linear / g.wheelRadius, g.trackTraction * 0.5;
      var right, left := WheelSpeed(t, g, speed, angle, half), WheelSpeed(t, g, speed, angle, g.trackTraction * -0.5);
      LinearVelocityOfAxle(t, g, right, left, angle) == linear
  {
    RadiusNotZero(g.wheelBase, t.tan(angle));
    hide LinearVelocityOfAxle, WheelSpeed, MeanSpeed, RimSpeed, TurningRadius;
    var speed, half, radius := linear / g.wheelRadius, g.trackTraction * 0.5, TurningRadius(t, g, angle);
    var right, left := WheelSpeed(t, g, speed, angle, half), WheelSpeed(t, g, speed, angle, g.trackTraction * -0.5);
    RimOnCurve(t, g, linear, speed, angle, half, half);
    RimOnCurve(t, g, linear, speed, angle, g.trackTraction * -0.5, -half);
    AxleMean(t, g, right, left, angle, RimSpeed(linear, g.wheelRadius, radius, half),
             RimSpeed(linear, g.wheelRadius, radius, -half));
    CurveUndone(linear, g.wheelRadius, radius, half);
  }

  /** Speed over ground of a wheel of radius r that is commanded at a distance from the middle of the axle. */
  function RimSpeed(v: real, r: real, radius: real, distance: real): real
    requires r != 0.0 && radius != 0.0
  {
    v / r * (radius + distance) / radius * r
  }

  lemma RimOnCurve(t: Trig, g: Vehicle, v: real, speed: real, angle: real, offset: real, distance: real)
    requires g.Valid() && t.tan(angle) != 0.0 && TurningRadius(t, g, angle) != 0.0
    requires offset == distance && speed == v / g.wheelRadius
    ensures WheelSpeed(t, g, speed, angle, offset) * g.wheelRadius
         == RimSpeed(v, g.wheelRadius, TurningRadius(t, g, angle), distance)
  {
    hide TurningRadius;
  }

  lemma AxleMean(t: Trig, g: Vehicle, right: real, left: real, angle: real, r: real, l: real)
    requires g.Valid() && t.tan(angle) != 0.0 && AxleDefined(t, g, angle)
    requires right * g.wheelRadius == r && left * g.wheelRadius == l
    ensures LinearVelocityOfAxle(t, g, right, left, angle)
         == MeanSpeed(TurningRadius(t, g, angle), g.trackTraction * 0.5, r, l)
  {
    hide TurningRadius;
  }

  lemma RimUndone(v: real, r: real, radius: real, distance: real, q: real)
    requires r != 0.0 && radius != 0.0 && q != 0.0 && q == radius + distance
    ensures RimSpeed(v, r, radius, distance) * radius / q == v
  {
    WheelUndone(v, r, radius, q);
  }

  /** Both wheels of an axle, with the odometry's mean of what they show. */
  lemma CurveUndone(v: real, r: real, radius: real, half: real)
    requires r != 0.0 && radius != 0.0 && RadiusDefined(radius, half)
    ensures MeanSpeed(radius, half, RimSpeed(v, r, radius, half), RimSpeed(v, r, radius, -half)) == v
  {
    hide RimSpeed;
    RimUndone(v, r, radius, half, radius + half);
    RimUndone(v, r, radius, -half, radius - half);
  }

  lemma StraightRecovered(t: Trig, g: Vehicle, linear: real, angle: real)
    requires g.Valid() && t.tan(angle) == 0.0
    ensures var speed := linear / g.wheelRadius;
      && LinearVelocityOfAxle(t, g, speed, speed, angle) == linear
      && WheelSpeed(t, g, speed, angle, g.trackTraction * 0.5) == speed
      && WheelSpeed(t, g, speed, angle, g.trackTraction * -0.5) == speed
  {
    assert Times(g.wheelRadius, linear / g.wheelRadius) == linear;
  }

  lemma AxleRecovered(t: Trig, g: Vehicle, linear: real, angle: real)
    requires g.Valid() && AxleDefined(t, g, angle) && (t.tan(angle) == 0.0 || !CloseToZero(angle))
    ensures var traction := TractionCommands(t, g, linear / g.wheelRadius, angle);
      LinearVelocityOfAxle(t, g, traction[0], traction[1], angle) == linear
  {
    if t.tan(angle) == 0.0 {
      StraightRecovered(t, g, linear, angle);
    } else {
      CurveRecovered(t, g, linear, angle);
    }
  }

  /** The bicycle's odometry gives the commanded velocities back exactly when the command is not to turn on the
      spot: then the wheel is commanded to rest. */
  lemma BicycleOdometryInvertsExactly(t: Trig, g: Vehicle, linear: real, angular: real, measured: real, reduce: bool)
    requires Sound(t) && g.Valid()
    ensures var c := GetCommands(t, g, Bicycle, measured, linear, angular, true, reduce).value;
      FromOneWheel(t, g, c.traction[0], c.steering[0]) == Estimate(c.steering[0], linear, angular)
      <==> linear != 0.0 || angular == 0.0
  {
    var angle := SteeringAngle(t, g.wheelBase, linear, angular);
    UndoQuotient(linear, g.wheelRadius);
    if linear != 0.0 {
      AngularRecovered(t, g, linear, angular, angle);
    } else {
      NoTurning(t, g, angle);
    }
  }

  /** A robot that does not move does not turn, whatever its steering shows. */
  lemma NoTurning(t: Trig, g: Vehicle, angle: real)
    requires g.Valid()
    ensures Turning(t, g, angle, 0.0) == Estimate(angle, 0.0, 0.0)
  {
    assert t.tan(angle) * 0.0 == 0.0;
  }

  lemma ZeroProduct(x: real, d: real)
    requires d != 0.0
    ensures 0.0 * x / d == 0.0
  {
  }

  lemma WheelsAtRest(t: Trig, g: Vehicle, angle: real)
    requires g.Valid()
    ensures TractionCommands(t, g, 0.0 / g.wheelRadius, angle) == [0.0, 0.0]
  {
    if t.tan(angle) != 0.0 {
      var radius := TurningRadius(t, g, angle);
      RadiusNotZero(g.wheelBase, t.tan(angle));
      ZeroProduct(radius + g.trackTraction * 0.5, radius);
      ZeroProduct(radius + g.trackTraction * -0.5, radius);
    }
  }

  lemma RestOnAxle(t: Trig, g: Vehicle, angle: real)
    requires g.Valid() && AxleDefined(t, g, angle)
    ensures FromAxle(t, g, 0.0, 0.0, angle) == Estimate(angle, 0.0, 0.0)
  {
    if t.tan(angle) != 0.0 {
      var radius, half := TurningRadius(t, g, angle), g.trackTraction * 0.5;
      ZeroProduct(radius, radius + half);
      ZeroProduct(radius, radius - half);
    }
    NoTurning(t, g, angle);
  }

  /** A robot that rolls on one wheel is told to turn on the spot, and its odometry sees it at rest. */
  lemma TurningOnTheSpotIsLost(t: Trig, measured: real, reduce: bool)
    requires Sound(t)
    ensures var g := Vehicle(1.0, 1.0, 0.0, 0.0);
      var c := GetCommands(t, g, Bicycle, measured, 0.0, 1.0, true, reduce).value;
      c == Commands([0.0], [t.halfPi]) && FromOneWheel(t, g, 0.0, t.halfPi) == Estimate(t.halfPi, 0.0, 0.0)
  {
    NoTurning(t, Vehicle(1.0, 1.0, 0.0, 0.0), t.halfPi);
  }

  /** The angle is exactly zero or outside the shortcut for small angles. */
  predicate NoShortcut(angle: real) {
    angle == 0.0 || !CloseToZero(angle)
  }

  /** The tricycle's odometry gives the commanded velocities back exactly when the command is not to turn on the
      spot and the angle is not small, unless the traction axle has no track. */
  lemma TricycleOdometryInvertsExactly(t: Trig, g: Vehicle, linear: real, angular: real, measured: real, reduce: bool)
    requires Sound(t) && g.Valid() && AxleDefined(t, g, SteeringAngle(t, g.wheelBase, linear, angular))
    ensures var angle := SteeringAngle(t, g.wheelBase, linear, angular);
      var c := GetCommands(t, g, Tricycle, measured, linear, angular, true, reduce).value;
      FromAxle(t, g, c.traction[0], c.traction[1], c.steering[0]) == Estimate(angle, linear, angular)
      <==> if linear == 0.0 then angular == 0.0 else NoShortcut(angle) || g.trackTraction == 0.0
  {
    var angle := SteeringAngle(t, g.wheelBase, linear, angular);
    hide LinearVelocityOfAxle, WheelSpeed;
    if linear == 0.0 {
      WheelsAtRest(t, g, angle);
      RestOnAxle(t, g, angle);
    } else {
      AngularRecovered(t, g, linear, angular, angle);
      if NoShortcut(angle) {
        AxleRecovered(t, g, linear, angle);
      } else {
        EqualSpeedsOnAxle(t, g, linear, angle);
      }
    }
  }

  /** The point the vehicle turns about does not lie under the wheel on that side of the steered axle's
      track. */
  predicate ClearOf(t: Trig, g: Vehicle, angle: real, track: real) {
    t.tan(angle) != 0.0 ==> 2.0 * (TurningRadius(t, g, angle)) + track != 0.0
  }

  predicate TurnsAboutNoWheel(t: Trig, g: Vehicle, angle: real)
    requires g.Valid()
  {
    AxleDefined(t, g, angle) && ClearOf(t, g, angle, g.trackSteering) && ClearOf(t, g, angle, -g.trackSteering)
  }

  lemma DenominatorNotZero(t: Trig, g: Vehicle, angle: real, track: real)
    requires g.Valid() && t.cos(angle) != 0.0 && t.tan(angle) * t.cos(angle) == t.sin(angle)
    requires ClearOf(t, g, angle, track)
    ensures 2.0 * g.wheelBase * t.cos(angle) + track * t.sin(angle) != 0.0
  {
    var tan, cos, b := t.tan(angle), t.cos(angle), g.wheelBase;
    if tan == 0.0 {
      NotZero(b, cos);
      assert t.sin(angle) == 0.0;
      assert 2.0 * b * cos == 2.0 * Times(b, cos);
    } else {
      var radius := b / tan;
      assert Times(tan, radius) == b;
      NotZero(tan, cos);
      NotZero(Times(tan, cos), 2.0 * radius + track);
      assert Times(Times(tan, cos), 2.0 * radius + track)
          == 2.0 * Times(cos, Times(tan, radius)) + track * Times(tan, cos);
    }
  }

  /** What the arctangent makes of the two quotients. */
  lemma WheelTangent(t: Trig, g: Vehicle, angle: real, track: real, d: real)
    requires Sound(t) && d == 2.0 * g.wheelBase * t.cos(angle) + track * t.sin(angle) && d != 0.0
    ensures Times(t.tan(SteeredWheel(t, g, angle, track)), d) == 2.0 * g.wheelBase * t.sin(angle)
  {
  }

  lemma SteeredWheelTangent(t: Trig, g: Vehicle, angle: real, track: real, w: real)
    requires Sound(t) && g.Valid() && t.cos(angle) != 0.0 && ClearOf(t, g, angle, track)
    requires w == t.tan(SteeredWheel(t, g, angle, track))
    ensures TangentDefined(g.wheelBase, track, w) && MiddleTangent(g.wheelBase, track, w) == t.tan(angle)
  {
    DenominatorNotZero(t, g, angle, track);
    var d := 2.0 * g.wheelBase * t.cos(angle) + track * t.sin(angle);
    WheelTangent(t, g, angle, track, d);
    assert Times(t.tan(angle), t.cos(angle)) == t.sin(angle);
    WheelShowsAngle(g.wheelBase, track, t.sin(angle), t.cos(angle), t.tan(angle), d, w);
  }

  lemma SteeredWheelShowsAngle(t: Trig, g: Vehicle, angle: real, track: real)
    requires Sound(t) && g.Valid() && t.cos(angle) != 0.0 && ClearOf(t, g, angle, track)
    ensures var wheel := SteeredWheel(t, g, angle, track);
      WheelDefined(t, g, wheel, track) && AngleFromWheel(t, g, wheel, track) == t.atan(t.tan(angle))
  {
    SteeredWheelTangent(t, g, angle, track, t.tan(SteeredWheel(t, g, angle, track)));
  }

  lemma BothWheelsShowAngle(t: Trig, g: Vehicle, angle: real)
    requires Sound(t) && g.Valid() && t.cos(angle) != 0.0 && t.atan(t.tan(angle)) == angle
    requires TurnsAboutNoWheel(t, g, angle)
    ensures var right, left := SteeredWheel(t, g, angle, g.trackSteering), SteeredWheel(t, g, angle, -g.trackSteering);
      AnglesDefined(t, g, right, left) && MeanAngle(t, g, right, left) == angle
  {
    SteeredWheelShowsAngle(t, g, angle, g.trackSteering);
    SteeredWheelShowsAngle(t, g, angle, -g.trackSteering);
  }

  lemma StraightWheelsShowZero(t: Trig, g: Vehicle)
    requires Sound(t) && g.Valid()
    ensures AnglesDefined(t, g, 0.0, 0.0) && MeanAngle(t, g, 0.0, 0.0) == 0.0
  {
    assert g.trackSteering / 2.0 * 0.0 == 0.0 && -g.trackSteering / 2.0 * 0.0 == 0.0;
    assert g.wheelBase * 0.0 / g.wheelBase == 0.0;
  }

  /** Outside the shortcut the angles of the two steered wheels show the commanded angle, unless the vehicle turns
      about one of its wheels. */
  lemma AckermannAnglesShowTheAngle(t: Trig, g: Vehicle, linear: real, angular: real, measured: real, reduce: bool)
    requires Sound(t) && g.Valid() && linear != 0.0
    requires var angle := SteeringAngle(t, g.wheelBase, linear, angular);
      NoShortcut(angle) && TurnsAboutNoWheel(t, g, angle)
    ensures var angle := SteeringAngle(t, g.wheelBase, linear, angular);
      var c := GetCommands(t, g, Ackermann, measured, linear, angular, true, reduce).value;
      && FourWheelsDefined(t, g, c.steering[0], c.steering[1])
      && MeanAngle(t, g, c.steering[0], c.steering[1]) == angle
  {
    var angle := SteeringAngle(t, g.wheelBase, linear, angular);
    AngularRecovered(t, g, linear, angular, angle);
    if angle == 0.0 {
      StraightWheelsShowZero(t, g);
    } else {
      BothWheelsShowAngle(t, g, angle);
    }
  }

  // ----- The shortcut of the four-wheeled vehicle ---------------------------------------------------------

  lemma SumTerms(sx: real, cx: real, sy: real, cy: real, p: real, q: real)
    requires Times(p, cx) == sx && Times(q, cy) == sy
    ensures sx * cy + cx * sy == Times(Times(cx, cy), p + q)
    ensures cx * cy - sx * sy == Times(Times(cx, cy), 1.0 - Times(p, q))
  {
    assert sx * sy == Times(Times(cx, cy), Times(p, q));
  }

  lemma SumOfTangents(t: Trig, x: real, y: real)
    requires Sound(t) && t.cos(x) != 0.0 && t.cos(y) != 0.0
    ensures t.sin(x + y) == Times(Times(t.cos(x), t.cos(y)), t.tan(x) + t.tan(y))
    ensures t.cos(x + y) == Times(Times(t.cos(x), t.cos(y)), 1.0 - Times(t.tan(x), t.tan(y)))
  {
    assert Adds(t, x, y);
    SineOfTangent(t, x);
    SineOfTangent(t, y);
    hide Sound, Times;
    SumTerms(t.sin(x), t.cos(x), t.sin(y), t.cos(y), t.tan(x), t.tan(y));
  }

  lemma SineOfTangent(t: Trig, x: real)
    requires Sound(t) && t.cos(x) != 0.0
    ensures Times(t.tan(x), t.cos(x)) == t.sin(x)
  {
  }

  /** Equal sums have equal tangents, whatever the cosines. */
  lemma EqualSums(k: real, n: real, p: real, q: real, w: real)
    requires k != 0.0 && n != 0.0
    requires Times(k, p + q) == Times(n, w + w) && Times(k, 1.0 - Times(p, q)) == Times(n, 1.0 - Times(w, w))
    ensures Times(p + q, 1.0 - Times(w, w)) == Times(w + w, 1.0 - Times(p, q))
  {
    var x, y := Times(p + q, 1.0 - Times(w, w)), Times(w + w, 1.0 - Times(p, q));
    assert Times(Times(k, n), x) == Times(Times(k, p + q), Times(n, 1.0 - Times(w, w)));
    assert Times(Times(k, n), y) == Times(Times(n, w + w), Times(k, 1.0 - Times(p, q)));
    NotZero(k, n);
    CancelFactor(Times(k, n), x, y);
  }

  /** The two middle tangents p and q that a common wheel tangent w gives. */
  predicate WheelTangents(b: real, track: real, w: real, p: real, q: real) {
    && Times(p, Clearance(b, track, w)) == Times(b, w)
    && Times(q, Clearance(b, -track, w)) == Times(b, w)
  }

  lemma Clearances(b: real, track: real, w: real)
    ensures var e, f := Clearance(b, track, w), Clearance(b, -track, w);
      e + f == 2.0 * b && Times(e, f) == Times(b, b) - Times(Times(track / 2.0, track / 2.0), Times(w, w))
  {
    var h := track / 2.0;
    assert Times(b - h * w, b + h * w) == Times(b, b) - Times(Times(h, h), Times(w, w));
    assert -track / 2.0 * w == -(h * w);
  }

  lemma SumOverProduct(e: real, f: real, p: real, q: real, n: real)
    requires Times(p, e) == n && Times(q, f) == n
    ensures Times(Times(e, f), p + q) == Times(e + f, n)
    ensures Times(Times(e, f), Times(p, q)) == Times(n, n)
  {
    assert Times(Times(e, f), p + q) == Times(f, Times(p, e)) + Times(e, Times(q, f));
    assert Times(Times(e, f), Times(p, q)) == Times(Times(p, e), Times(q, f));
  }

  /** The two middle tangents multiplied out. */
  lemma MiddleTangents(b: real, track: real, w: real, p: real, q: real)
    requires WheelTangents(b, track, w, p, q)
    ensures var d := Times(Clearance(b, track, w), Clearance(b, -track, w));
      Times(d, p + q) == Times(2.0 * b, Times(b, w)) && Times(d, Times(p, q)) == Times(Times(b, w), Times(b, w))
  {
    hide Times, Clearance;
    Clearances(b, track, w);
    SumOverProduct(Clearance(b, track, w), Clearance(b, -track, w), p, q, Times(b, w));
  }

  lemma MoveIn(d: real, x: real, y: real)
    ensures Times(d, Times(x, y)) == Times(Times(d, x), y) == Times(x, Times(d, y))
  {
  }

  lemma OneMinus(d: real, x: real)
    ensures Times(d, 1.0 - x) == d - Times(d, x)
  {
  }

  lemma SquareOfProduct(b: real, w: real)
    ensures Times(Times(b, w), Times(b, w)) == Times(Times(b, b), Times(w, w))
  {
  }

  lemma TwiceOut(b: real, w: real, x: real)
    ensures Times(Times(2.0 * b, Times(b, w)), x) == Times(w + w, Times(Times(b, b), x))
  {
  }

  /** The two wheels show the common angle only if they stand at one place. */
  lemma OnlyWithoutSteeringTrack(b: real, track: real, w: real, p: real, q: real)
    requires w != 0.0 && WheelTangents(b, track, w, p, q)
    requires Times(p + q, 1.0 - Times(w, w)) == Times(w + w, 1.0 - Times(p, q))
    ensures track == 0.0
  {
    hide Times, Clearance;
    MiddleTangents(b, track, w, p, q);
    Clearances(b, track, w);
    var d, h := Times(Clearance(b, track, w), Clearance(b, -track, w)), track / 2.0;
    var bb, hh, ww := Times(b, b), Times(h, h), Times(w, w);
    MoveIn(d, p + q, 1.0 - ww);
    MoveIn(d, w + w, 1.0 - Times(p, q));
    OneMinus(d, Times(p, q));
    SquareOfProduct(b, w);
    TwiceOut(b, w, 1.0 - ww);
    OneMinus(bb, ww);
    CancelFactor(w + w, bb - Times(bb, ww), d - Times(bb, ww));
    if h != 0.0 {
      NotZero(h, h);
      NotZero(w, w);
      NotZero(hh, ww);
    }
  }

  /** Standing still is recovered too. */
  lemma RestIsRecovered(t: Trig, g: Vehicle, measured: real, reduce: bool)
    requires Sound(t) && g.Valid()
    ensures var c := GetCommands(t, g, Ackermann, measured, 0.0, 0.0, true, reduce).value;
      && FourWheelsDefined(t, g, c.steering[0], c.steering[1])
      && FromFourWheels(t, g, c.traction[0], c.traction[1], c.steering[0], c.steering[1]) == Estimate(0.0, 0.0, 0.0)
  {
    StraightWheelsShowZero(t, g);
    assert 0.0 / g.wheelRadius == 0.0;
  }

  /** Once the steering has reached the wanted angle, closed loop commands what open loop does. */
  lemma ClosedLoopAgreesWhenReached(t: Trig, g: Vehicle, layout: Layout, linear: real, angular: real, reduce: bool)
    requires g.Valid() && t.halfPi > 0.0
    ensures var angle := SteeringAngle(t, g.wheelBase, linear, angular);
      GetCommands(t, g, layout, angle, linear, angular, false, reduce)
      == GetCommands(t, g, layout, angle, linear, angular, true, reduce)
  {
    assert Reduction(t, 0.0) == 1.0;
  }

  lemma EqualSpeedsDisagree(v: real, radius: real, half: real, x: real)
    requires v != 0.0 && half != 0.0 && Times(x, radius + half) == Times(v, radius)
    ensures Times(2.0 * v - x, radius - half) != Times(v, radius)
  {
    var d := x - v;
    NotZero(v, half);
    assert Times(x, radius + half) == Times(v, radius) + Times(v, half) + Times(d, radius + half);
    FactorNotZero(d, radius + half);
    NotZero(d, half);
    assert Times(2.0 * v - x, radius - half) == Times(v, radius) - Times(v, half) - Times(d, radius - half);
    assert Times(d, radius + half) - Times(d, radius - half) == 2.0 * Times(d, half);
  }

  lemma EqualSpeedsOnCurve(v: real, radius: real, half: real)
    requires v != 0.0 && radius != 0.0 && RadiusDefined(radius, half)
    ensures MeanSpeed(radius, half, v, v) == v <==> half == 0.0
  {
    var x, y := v * radius / (radius + half), v * radius / (radius - half);
    assert Times(x, radius + half) == Times(v, radius) && Times(y, radius - half) == Times(v, radius);
    if half != 0.0 {
      EqualSpeedsDisagree(v, radius, half, x);
    } else {
      Quotient(v * radius, radius, v);
    }
  }

  lemma UndoQuotient(v: real, r: real)
    requires r != 0.0
    ensures v / r * r == v
  {
    assert Times(r, v / r) == v;
  }

  lemma EqualSpeedsOnAxle(t: Trig, g: Vehicle, linear: real, angle: real)
    requires g.Valid() && linear != 0.0 && t.tan(angle) != 0.0 && AxleDefined(t, g, angle)
    ensures var speed := linear / g.wheelRadius;
      LinearVelocityOfAxle(t, g, speed, speed, angle) == linear <==> g.trackTraction * 0.5 == 0.0
  {
    RadiusNotZero(g.wheelBase, t.tan(angle));
    hide MeanSpeed, LinearVelocityOfAxle, TurningRadius;
    UndoQuotient(linear, g.wheelRadius);
    AxleMean(t, g, linear / g.wheelRadius, linear / g.wheelRadius, angle, linear, linear);
    EqualSpeedsOnCurve(linear, TurningRadius(t, g, angle), g.trackTraction * 0.5);
  }

  /** What the odometry makes of two steered wheels at one angle a. */
  predicate SharedAngle(t: Trig, g: Vehicle, a: real)
    requires AnglesDefined(t, g, a, a)
  {
    MeanAngle(t, g, a, a) == a
  }

  lemma AngleOfWheel(t: Trig, g: Vehicle, wheel: real, track: real, x: real)
    requires Sound(t) && WheelDefined(t, g, wheel, track) && x == AngleFromWheel(t, g, wheel, track)
    ensures t.cos(x) != 0.0
    ensures Times(t.tan(x), Clearance(g.wheelBase, track, t.tan(wheel))) == Times(g.wheelBase, t.tan(wheel))
  {
    hide Sound;
    var b, w := g.wheelBase, t.tan(wheel);
    TangentOfArctangent(t, MiddleTangent(b, track, w));
    UndoQuotient(b * w, Clearance(b, track, w));
  }

  lemma MeanIsHalfTheSum(t: Trig, g: Vehicle, a: real)
    requires AnglesDefined(t, g, a, a)
    ensures MeanAngle(t, g, a, a) + MeanAngle(t, g, a, a)
         == AngleFromWheel(t, g, a, g.trackSteering) + AngleFromWheel(t, g, a, -g.trackSteering)
  {
  }

  /** The two angles that are averaged, and their tangents. */
  lemma TwoAngles(t: Trig, g: Vehicle, a: real, x: real, y: real)
    requires Sound(t) && AnglesDefined(t, g, a, a)
    requires x == AngleFromWheel(t, g, a, g.trackSteering) && y == AngleFromWheel(t, g, a, -g.trackSteering)
    ensures MeanAngle(t, g, a, a) + MeanAngle(t, g, a, a) == x + y
    ensures t.cos(x) != 0.0 && t.cos(y) != 0.0
    ensures WheelTangents(g.wheelBase, g.trackSteering, t.tan(a), t.tan(x), t.tan(y))
  {
    hide Sound, AngleFromWheel, MeanAngle, Times, Clearance;
    MeanIsHalfTheSum(t, g, a);
    AngleOfWheel(t, g, a, g.trackSteering, x);
    AngleOfWheel(t, g, a, -g.trackSteering, y);
  }

  lemma MeanIsNotTheAngle(t: Trig, g: Vehicle, a: real)
    requires Sound(t) && t.cos(a) != 0.0 && t.tan(a) != 0.0 && AnglesDefined(t, g, a, a) && SharedAngle(t, g, a)
    ensures g.trackSteering == 0.0
  {
    hide Sound, AngleFromWheel, MeanAngle, Times, WheelDefined, SharedAngle, WheelTangents;
    var x, y := AngleFromWheel(t, g, a, g.trackSteering), AngleFromWheel(t, g, a, -g.trackSteering);
    TwoAngles(t, g, a, x, y);
    SharedSum(t, g, a);
    assert x + y == a + a;
    SumOfTangents(t, x, y);
    SumOfTangents(t, a, a);
    var k, n, p, q, w := Times(t.cos(x), t.cos(y)), Times(t.cos(a), t.cos(a)), t.tan(x), t.tan(y), t.tan(a);
    NotZero(t.cos(x), t.cos(y));
    NotZero(t.cos(a), t.cos(a));
    EqualSums(k, n, p, q, w);
    OnlyWithoutSteeringTrack(g.wheelBase, g.trackSteering, w, p, q);
  }

  lemma SharedSum(t: Trig, g: Vehicle, a: real)
    requires AnglesDefined(t, g, a, a) && SharedAngle(t, g, a)
    ensures MeanAngle(t, g, a, a) + MeanAngle(t, g, a, a) == a + a
  {
  }

  lemma WithoutTrackTheAngleIsShared(t: Trig, g: Vehicle, a: real)
    requires g.wheelBase != 0.0 && g.trackSteering == 0.0 && t.atan(t.tan(a)) == a
    ensures AnglesDefined(t, g, a, a) && SharedAngle(t, g, a)
  {
    var b, w := g.wheelBase, t.tan(a);
    assert 0.0 / 2.0 * w == 0.0 && -0.0 / 2.0 * w == 0.0;
    Quotient(b * w, b, w);
  }

  /** With both steered wheels at one angle, the odometry shows that angle exactly when they have no track. */
  lemma OneAngleForBothWheels(t: Trig, g: Vehicle, x: real, a: real)
    requires Sound(t) && g.wheelBase != 0.0 && x != 0.0 && a == t.atan(x) && AnglesDefined(t, g, a, a)
    ensures MeanAngle(t, g, a, a) == a <==> g.trackSteering == 0.0
  {
    hide Sound, AnglesDefined, MeanAngle;
    TangentOfArctangent(t, x);
    if g.trackSteering == 0.0 {
      WithoutTrackTheAngleIsShared(t, g, a);
    } else if SharedAngle(t, g, a) {
      MeanIsNotTheAngle(t, g, a);
    }
  }

  /** Half of an angle whose sine is not zero has a tangent that is not zero. */
  lemma HalfAngle(t: Trig, m: real)
    requires Sound(t) && t.sin(m + m) != 0.0
    ensures t.tan(m) != 0.0
  {
    assert Adds(t, m, m);
    FactorNotZero(t.sin(m), t.cos(m));
    assert t.tan(m) * t.cos(m) == t.sin(m);
  }

  lemma TangentsDoNotCancel(b: real, track: real, w: real, p: real, q: real)
    requires b != 0.0 && w != 0.0 && WheelTangents(b, track, w, p, q)
    ensures p + q != 0.0
  {
    MiddleTangents(b, track, w, p, q);
    NotZero(b, w);
    NotZero(2.0 * b, Times(b, w));
    FactorNotZero(Times(Clearance(b, track, w), Clearance(b, -track, w)), p + q);
  }

  /** The mean of the two angles is not straight ahead. */
  lemma MeanIsNotStraight(t: Trig, g: Vehicle, a: real)
    requires Sound(t) && g.wheelBase != 0.0 && t.tan(a) != 0.0 && AnglesDefined(t, g, a, a)
    ensures t.tan(MeanAngle(t, g, a, a)) != 0.0
  {
    hide Sound, AngleFromWheel, MeanAngle, Times, WheelDefined, SharedAngle, WheelTangents;
    var x, y := AngleFromWheel(t, g, a, g.trackSteering), AngleFromWheel(t, g, a, -g.trackSteering);
    TwoAngles(t, g, a, x, y);
    SumOfTangents(t, x, y);
    TangentsDoNotCancel(g.wheelBase, g.trackSteering, t.tan(a), t.tan(x), t.tan(y));
    NotZero(t.cos(x), t.cos(y));
    NotZero(Times(t.cos(x), t.cos(y)), t.tan(x) + t.tan(y));
    var m := MeanAngle(t, g, a, a);
    assert m + m == x + y;
    HalfAngle(t, MeanAngle(t, g, a, a));
  }

  lemma ShortcutCommands(t: Trig, g: Vehicle, linear: real, angular: real, measured: real, reduce: bool)
    requires g.Valid() && CloseToZero(SteeringAngle(t, g.wheelBase, linear, angular))
    ensures var angle, speed := SteeringAngle(t, g.wheelBase, linear, angular), linear / g.wheelRadius;
      GetCommands(t, g, Ackermann, measured, linear, angular, true, reduce)
      == Some(Commands([speed, speed], [angle, angle]))
  {
  }

  lemma FourWheelsShow(t: Trig, g: Vehicle, right: real, left: real, rightAngle: real, leftAngle: real)
    requires g.Valid() && FourWheelsDefined(t, g, rightAngle, leftAngle)
    ensures var m := MeanAngle(t, g, rightAngle, leftAngle);
      FromFourWheels(t, g, right, left, rightAngle, leftAngle)
      == Turning(t, g, m, LinearVelocityOfAxle(t, g, right, left, m))
  {
  }

  /** Inside the shortcut all four wheels of an Ackermann vehicle are commanded as if it had no track; its odometry
      then recovers the linear velocity exactly when the traction axle has none, and the angle exactly when the
      steered axle has none. */
  lemma AckermannShortcut(t: Trig, g: Vehicle, linear: real, angular: real, measured: real, reduce: bool)
    requires Sound(t) && g.Valid() && linear != 0.0
    requires var angle := SteeringAngle(t, g.wheelBase, linear, angular);
      !NoShortcut(angle) && FourWheelsDefined(t, g, angle, angle)
    ensures var angle := SteeringAngle(t, g.wheelBase, linear, angular);
      var c := GetCommands(t, g, Ackermann, measured, linear, angular, true, reduce).value;
      && c.steering == [angle, angle]
      && var e := FromFourWheels(t, g, c.traction[0], c.traction[1], angle, angle);
      && (e.linear == linear <==> g.trackTraction == 0.0)
      && (e.steerPosition == angle <==> g.trackSteering == 0.0)
  {
    hide Sound, GetCommands, FromFourWheels, MeanAngle, LinearVelocityOfAxle, AngleFromWheel, TurnTangent;
    var angle, x := SteeringAngle(t, g.wheelBase, linear, angular), TurnTangent(g.wheelBase, linear, angular);
    var speed := linear / g.wheelRadius;
    ShortcutCommands(t, g, linear, angular, measured, reduce);
    FourWheelsShow(t, g, speed, speed, angle, angle);
    AngularRecovered(t, g, linear, angular, angle);
    TangentOfArctangent(t, x);
    OneAngleForBothWheels(t, g, x, angle);
    MeanIsNotStraight(t, g, angle);
    EqualSpeedsOnAxle(t, g, linear, MeanAngle(t, g, angle, angle));
  }

  /** The Ackermann vehicle's odometry, fed with both commanded wheel speeds and both commanded angles, gives the
      commanded velocities back exactly when the command is not to turn on the spot and the angle is not small,
      unless the vehicle has no track at all. */
  lemma AckermannOdometryInvertsExactly(t: Trig, g: Vehicle, linear: real, angular: real, measured: real, reduce: bool)
    requires Sound(t) && g.Valid()
    requires var angle := SteeringAngle(t, g.wheelBase, linear, angular);
      linear != 0.0 && NoShortcut(angle) ==> TurnsAboutNoWheel(t, g, angle)
    requires var c := GetCommands(t, g, Ackermann, measured, linear, angular, true, reduce).value;
      FourWheelsDefined(t, g, c.steering[0], c.steering[1])
    ensures var angle := SteeringAngle(t, g.wheelBase, linear, angular);
      var c := GetCommands(t, g, Ackermann, measured, linear, angular, true, reduce).value;
      FromFourWheels(t, g, c.traction[0], c.traction[1], c.steering[0], c.steering[1])
      == Estimate(angle, linear, angular)
      <==> if linear == 0.0 then angular == 0.0
           else NoShortcut(angle) || (g.trackTraction == 0.0 && g.trackSteering == 0.0)
  {
    hide Sound, MeanAngle, LinearVelocityOfAxle, WheelSpeed, AngleFromWheel;
    var angle := SteeringAngle(t, g.wheelBase, linear, angular);
    var c := GetCommands(t, g, Ackermann, measured, linear, angular, true, reduce).value;
    if linear == 0.0 {
      WheelsAtRest(t, g, angle);
      RestOnAxle(t, g, MeanAngle(t, g, c.steering[0], c.steering[1]));
      if angular == 0.0 {
        RestIsRecovered(t, g, measured, reduce);
      }
    } else {
      AngularRecovered(t, g, linear, angular, angle);
      if NoShortcut(angle) {
        AxleRecovered(t, g, linear, angle);
        AckermannAnglesShowTheAngle(t, g, linear, angular, measured, reduce);
      } else {
        ShortcutCommands(t, g, linear, angular, measured, reduce);
        AckermannShortcut(t, g, linear, angular, measured, reduce);
      }
    }
  }

  /** Inside the shortcut the tricycle's two wheels are commanded alike; the odometry then recovers the linear
      velocity exactly when the traction axle has no track. */
  lemma TricycleShortcut(t: Trig, g: Vehicle, linear: real, angular: real, measured: real, reduce: bool)
    requires Sound(t) && g.Valid() && linear != 0.0
    requires var angle := SteeringAngle(t, g.wheelBase, linear, angular);
      !NoShortcut(angle) && AxleDefined(t, g, angle)
    ensures var c := GetCommands(t, g, Tricycle, measured, linear, angular, true, reduce).value;
      LinearVelocityOfAxle(t, g, c.traction[0], c.traction[1], c.steering[0]) == linear <==> g.trackTraction == 0.0
  {
    hide Sound, LinearVelocityOfAxle, TurnTangent;
    var angle := SteeringAngle(t, g.wheelBase, linear, angular);
    AngularRecovered(t, g, linear, angular, angle);
    EqualSpeedsOnAxle(t, g, linear, angle);
  }

  /** A robot of which every length is one metre, turning so slowly that the angle falls into the shortcut: neither
      the tricycle's nor the Ackermann vehicle's odometry gives back the metre per second that was commanded. */
  lemma ShortcutMissesTheCommand(t: Trig, measured: real, reduce: bool)
    requires Sound(t)
    ensures var g, a := Vehicle(1.0, 1.0, 1.0, 1.0), t.atan(0.0000005);
      var tricycle := GetCommands(t, g, Tricycle, measured, 1.0, 0.0000005, true, reduce).value;
      && tricycle == Commands([1.0, 1.0], [a]) && AxleDefined(t, g, a)
      && LinearVelocityOfAxle(t, g, 1.0, 1.0, a) != 1.0
    ensures var g, a := Vehicle(1.0, 1.0, 1.0, 1.0), t.atan(0.0000005);
      var ackermann := GetCommands(t, g, Ackermann, measured, 1.0, 0.0000005, true, reduce).value;
      && ackermann == Commands([1.0, 1.0], [a, a])
      && (FourWheelsDefined(t, g, a, a) ==> FromFourWheels(t, g, 1.0, 1.0, a, a).linear != 1.0)
  {
    hide Sound, LinearVelocityOfAxle, MeanAngle, AngleFromWheel;
    var g, a := Vehicle(1.0, 1.0, 1.0, 1.0), t.atan(0.0000005);
    TangentOfArctangent(t, 0.0000005);
    assert SteeringAngle(t, 1.0, 1.0, 0.0000005) == a && !NoShortcut(a);
    EqualSpeedsOnAxle(t, g, 1.0, a);
    if FourWheelsDefined(t, g, a, a) {
      AckermannShortcut(t, g, 1.0, 0.0000005, measured, reduce);
    }
  }
}
