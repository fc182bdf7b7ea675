/** The kinematics object of the steering controllers: its wheel parameters, the steering position it keeps, the
    pose it integrates, and the velocities it takes from the wheels and hands on to the rolling means. */
module SteeringOdometry {
  import opened Options
  import opened Powers
  import opened Steering

  const SHORTEST_PERIOD := 0.0001

  datatype Pose = Pose(x: real, y: real, heading: real)

  /** Along a short arc with the heading half-way. */
  function AlongChord(t: Trig, p: Pose, linear: real, angular: real, dt: real): Pose {
    var middle := p.heading + angular * 0.5 * dt;
    Pose(p.x + linear * t.cos(middle) * dt, p.y + linear * t.sin(middle) * dt, p.heading + angular * dt)
  }

  /** Along the arc of the given radius. */
  function AlongArc(t: Trig, p: Pose, radius: real, turn: real): Pose {
    var heading := p.heading + turn;
    Pose(p.x + Times(radius, t.sin(heading) - t.sin(p.heading)),
         p.y + Times(-radius, t.cos(heading) - t.cos(p.heading)), heading)
  }

  function IntegratedPose(t: Trig, p: Pose, linear: real, angular: real, dt: real): Pose {
    if CloseToZero(angular * dt) then AlongChord(t, p, linear, angular, dt)
    else AlongArc(t, p, linear * dt / (angular * dt), angular * dt)
  }

  /** The point the vehicle turns about, one radius to its left. */
  function TurningCentre(t: Trig, p: Pose, radius: real): (real, real) {
    (p.x - Times(radius, t.sin(p.heading)), p.y + Times(radius, t.cos(p.heading)))
  }

  /** The exact integration turns the vehicle about a point that stays where it is. */
  lemma CentreStays(t: Trig, p: Pose, radius: real, turn: real)
    ensures TurningCentre(t, AlongArc(t, p, radius, turn), radius) == TurningCentre(t, p, radius)
  {
    var h := p.heading + turn;
    TimesDifference(radius, t.sin(h), t.sin(p.heading), t.sin(h) - t.sin(p.heading));
    TimesDifference(radius, t.cos(h), t.cos(p.heading), t.cos(h) - t.cos(p.heading));
  }

  lemma TimesDifference(c: real, x: real, y: real, d: real)
    requires d == x - y
    ensures Times(c, d) == Times(c, x) - Times(c, y) && Times(-c, d) == Times(c, y) - Times(c, x)
  {
  }

  class SteeringKinematics {
    const trig: Trig
    var vehicle: Vehicle
    var layout: Layout
    var steerPosition: real
    var linear: real
    var angular: real
    var pose: Pose

    function Measured(): Estimate
      reads this
    {
      Estimate(steerPosition, linear, angular)
    }

    constructor (trig: Trig)
      ensures this.trig == trig && Measured() == Estimate(0.0, 0.0, 0.0) && layout == NotImplemented
      ensures pose == Pose(0.0, 0.0, 0.0)
    {
      this.trig := trig;
      vehicle, layout := Vehicle(0.0, 0.0, 0.0, 0.0), NotImplemented;
      steerPosition, linear, angular := 0.0, 0.0, 0.0;
      pose := Pose(0.0, 0.0, 0.0);
    }

    method SetWheelParams(wheelRadius: real, wheelBase: real, trackSteering: real, trackTraction: real)
      modifies this`vehicle
      ensures vehicle == Vehicle(wheelRadius, wheelBase, trackSteering, trackTraction)
    {
      vehicle := Vehicle(wheelRadius, wheelBase, trackSteering, trackTraction);
    }

    method IntegrateFk(v: real, w: real, dt: real)
      modifies this`pose
      ensures pose == IntegratedPose(trig, old(pose), v, w, dt)
    {
      var distance, turn := v * dt, w * dt;
      if CloseToZero(turn) {
        pose := AlongChord(trig, pose, v, w, dt);
      } else {
        pose := AlongArc(trig, pose, distance / turn, turn);
      }
    }

    /** The pose is integrated in any case, the velocities are handed on only if the period is long enough. */
    method UpdateOdometry(measured: Estimate, dt: real) returns (ok: bool)
      modifies this`linear, this`angular, this`pose
      ensures pose == IntegratedPose(trig, old(pose), measured.linear, measured.angular, dt)
      ensures ok <==> dt >= 0.0001
      ensures (linear, angular) == if ok then (measured.linear, measured.angular) else (old(linear), old(angular))
    {
      IntegrateFk(measured.linear, measured.angular, dt);
      if dt < SHORTEST_PERIOD {
        return false;
      }
      linear, angular := measured.linear, measured.angular;
      ok := true;
    }

    method UpdateFromOneWheel(traction: real, angle: real, dt: real) returns (ok: bool)
      requires vehicle.Valid()
      modifies this`steerPosition, this`linear, this`angular, this`pose
      ensures var e := FromOneWheel(trig, vehicle, traction, angle);
        && steerPosition == e.steerPosition && pose == IntegratedPose(trig, old(pose), e.linear, e.angular, dt)
        && ok == (dt >= 0.0001) && (ok ==> Measured() == e)
    {
      var measured := FromOneWheel(trig, vehicle, traction, angle);
      steerPosition := measured.steerPosition;
      ok := UpdateOdometry(measured, dt);
    }

    method UpdateFromAxle(right: real, left: real, angle: real, dt: real) returns (ok: bool)
      requires vehicle.Valid() && AxleDefined(trig, vehicle, angle)
      modifies this`steerPosition, this`linear, this`angular, this`pose
      ensures var e := FromAxle(trig, vehicle, right, left, angle);
        && steerPosition == e.steerPosition && pose == IntegratedPose(trig, old(pose), e.linear, e.angular, dt)
        && ok == (dt >= 0.0001) && (ok ==> Measured() == e)
    {
      var velocity := LinearVelocityOfAxle(trig, vehicle, right, left, angle);
      var measured := Turning(trig, vehicle, angle, velocity);
      steerPosition := measured.steerPosition;
      ok := UpdateOdometry(measured, dt);
    }

    method UpdateFromFourWheels(right: real, left: real, rightAngle: real, leftAngle: real, dt: real) returns (ok: bool)
      requires vehicle.Valid() && FourWheelsDefined(trig, vehicle, rightAngle, leftAngle)
      modifies this`steerPosition, this`linear, this`angular, this`pose
      ensures var e := FromFourWheels(trig, vehicle, right, left, rightAngle, leftAngle);
        && steerPosition == e.steerPosition && pose == IntegratedPose(trig, old(pose), e.linear, e.angular, dt)
        && ok == (dt >= 0.0001) && (ok ==> Measured() == e)
    {
      var middle := MeanAngle(trig, vehicle, rightAngle, leftAngle);
      ok := UpdateFromAxle(right, left, middle, dt);
    }
  }
}
