/** The mecanum controller's objects: the odometry that turns wheel speeds into a twist, and the part of the
    update that limits the reference, computes the wheel speeds and writes them. */
module MecanumController {
  import opened Options
  import opened MecanumKinematics

  const WHEELS := 4
  const SHORTEST_PERIOD := 0.0001

  /** One step of a rate over dt. */
  function Integrated(value: real, rate: real, dt: real): real {
    value + rate * dt
  }

  /** Sine and cosine are parameters; nothing is asked of them. */
  class Odometry {
    const geometry: Geometry
    const cos: real -> real
    const sin: real -> real
    var twist: Twist
    var orientation: real
    var x: real
    var y: real

    constructor (g: Geometry, cos: real -> real, sin: real -> real)
      ensures geometry == g && this.cos == cos && this.sin == sin
      ensures twist == Twist(0.0, 0.0, 0.0) && orientation == x == y == 0.0
    {
      geometry, this.cos, this.sin := g, cos, sin;
      twist, orientation, x, y := Twist(0.0, 0.0, 0.0), 0.0, 0.0, 0.0;
    }

    method InCenterFrame(v: Wheels) returns (center: Twist)
      requires geometry.centerSum != 0.0
      ensures center == CenterFromWheels(geometry, v)
    {
      var x := 0.25 * geometry.radius * (v.frontLeft + v.rearLeft + v.rearRight + v.frontRight);
      var y := 0.25 * geometry.radius * (-v.frontLeft + v.rearLeft - v.rearRight + v.frontRight);
      var w :=
        0.25 * geometry.radius / geometry.centerSum * (-v.frontLeft - v.rearLeft + v.rearRight + v.frontRight);
      center := Twist(x, y, w);
    }

    method EstimateTwist(wheels: Wheels)
      requires geometry.centerSum != 0.0
      modifies this`twist
      ensures twist == Estimate(geometry, wheels)
    {
      var center := InCenterFrame(wheels);
      twist := BaseFromCenter(geometry, center);
    }

    /** Turns first, and then moves in the direction that the new orientation gives the velocity. */
    method Integrate(dt: real)
      modifies this`orientation, this`x, this`y
      ensures orientation == Integrated(old(orientation), twist.w, dt)
      ensures x == Integrated(old(x), TurnX(cos(orientation), sin(orientation), twist.x, twist.y), dt)
      ensures y == Integrated(old(y), TurnY(cos(orientation), sin(orientation), twist.x, twist.y), dt)
    {
      orientation := Integrated(orientation, twist.w, dt);
      var c, s := cos(orientation), sin(orientation);
      var vx, vy := TurnX(c, s, twist.x, twist.y), TurnY(c, s, twist.x, twist.y);
      x := Integrated(x, vx, dt);
      y := Integrated(y, vy, dt);
    }

    /** Too short a period leaves everything as it was. */
    method Update(wheels: Wheels, dt: real) returns (ok: bool)
      requires geometry.centerSum != 0.0
      modifies this
      ensures ok <==> dt >= 0.0001
      ensures !ok ==> unchanged(this)
      ensures ok ==>
        && twist == Estimate(geometry, wheels)
        && orientation == Integrated(old(orientation), twist.w, dt)
        && x == Integrated(old(x), TurnX(cos(orientation), sin(orientation), twist.x, twist.y), dt)
        && y == Integrated(old(y), TurnY(cos(orientation), sin(orientation), twist.x, twist.y), dt)
    {
      if dt < SHORTEST_PERIOD {
        return false;
      }
      EstimateTwist(wheels);
      Integrate(dt);
      ok := true;
    }
  }

  /** The values in the order of the command interfaces. */
  function InOrder(w: Wheels): (r: seq<real>)
    ensures |r| == WHEELS
  {
    [w.frontLeft, w.frontRight, w.rearRight, w.rearLeft]
  }

  predicate AllBefore(accepts: seq<bool>, i: nat, answer: bool)
    requires i <= |accepts|
  {
    forall k :: 0 <= k < i ==> accepts[k] == answer
  }

  /** Writing goes on until an interface refuses. */
  function CommandedInterfaces(before: seq<real>, values: seq<real>, accepts: seq<bool>): (r: seq<real>)
    requires |before| == |values| == |accepts|
    ensures |r| == |before|
  {
    seq(|before|, i requires 0 <= i < |before| => if AllBefore(accepts, i + 1, true) then values[i] else before[i])
  }

  /** Without a reference zeros are written until an interface accepts one. */
  function StoppedInterfaces(before: seq<real>, accepts: seq<bool>): (r: seq<real>)
    requires |before| == |accepts|
    ensures |r| == |before|
  {
    seq(|before|, i requires 0 <= i < |before| =>
      if accepts[i] && AllBefore(accepts, i, false) then 0.0 else before[i])
  }

  /** Without a reference every wheel is at zero afterwards exactly when every wheel but the first that accepts
      was at zero before: a moving robot is not stopped. */
  lemma MissingReferenceStopsOneWheel(before: seq<real>, accepts: seq<bool>)
    requires |before| == |accepts|
    ensures (forall i :: 0 <= i < |before| ==> StoppedInterfaces(before, accepts)[i] == 0.0)
            <==> forall i :: 0 <= i < |before| && !(accepts[i] && AllBefore(accepts, i, false)) ==> before[i] == 0.0
  {
    forall i | 0 <= i < |before| && !(accepts[i] && AllBefore(accepts, i, false))
      ensures StoppedInterfaces(before, accepts)[i] == before[i]
    {
    }
  }

  predicate FirstToAccept(accepts: seq<bool>, i: nat)
    requires i < |accepts|
  {
    accepts[i] && AllBefore(accepts, i, false)
  }

  /** The interfaces after one update without a reference for every list of answers. */
  function StoppedRepeatedly(before: seq<real>, answers: seq<seq<bool>>): (r: seq<real>)
    requires forall n :: 0 <= n < |answers| ==> |answers[n]| == |before|
    ensures |r| == |before|
    decreases |answers|
  {
    if answers == [] then before
    else StoppedRepeatedly(StoppedInterfaces(before, answers[0]), answers[1..])
  }

  /** However often the controller is updated without a reference, a wheel is stopped exactly by an update in which
      it is the first whose interface accepts; all other wheels keep turning. */
  lemma {:induction false} WheelStopsOnlyAsFirstToAccept(before: seq<real>, answers: seq<seq<bool>>, i: nat)
    requires forall n :: 0 <= n < |answers| ==> |answers[n]| == |before|
    requires i < |before|
    ensures StoppedRepeatedly(before, answers)[i]
         == if exists n :: 0 <= n < |answers| && FirstToAccept(answers[n], i) then 0.0 else before[i]
    decreases |answers|
  {
    if answers != [] {
      var next, rest := StoppedInterfaces(before, answers[0]), answers[1..];
      WheelStopsOnlyAsFirstToAccept(next, rest, i);
      assert next[i] == if FirstToAccept(answers[0], i) then 0.0 else before[i];
      assert forall n :: 0 <= n < |rest| ==> rest[n] == answers[n + 1];
      assert forall n :: 0 < n < |answers| ==> answers[n] == rest[n - 1];
    }
  }

  /** With interfaces that always accept only the first wheel is ever stopped. */
  lemma OnlyTheFirstWheelStops(before: seq<real>, answers: seq<seq<bool>>, i: nat)
    requires forall n :: 0 <= n < |answers| ==> |answers[n]| == |before| && AllBefore(answers[n], |before|, true)
    requires 0 < i < |before|
    ensures StoppedRepeatedly(before, answers)[i] == before[i]
  {
    WheelStopsOnlyAsFirstToAccept(before, answers, i);
    forall n | 0 <= n < |answers|
      ensures !FirstToAccept(answers[n], i)
    {
      assert answers[n][0];
    }
  }

  /** A moving robot whose interfaces accept everything: three wheels keep turning. */
  lemma MovingRobotKeepsMoving()
    ensures StoppedInterfaces([1.0, 1.0, 1.0, 1.0], [true, true, true, true]) == [0.0, 1.0, 1.0, 1.0]
  {
    var accepts := [true, true, true, true];
    assert forall i :: 0 < i < 4 ==> !AllBefore(accepts, i, false) by {
      assert accepts[0];
    }
  }

  class MecanumDriveController {
    const geometry: Geometry
    const commandInterfaces: array<real>
    var previousTwoCommands: seq<Twist>
    var velocityInCenterFrame: Twist

    predicate Valid()
      reads this
    {
      commandInterfaces.Length == WHEELS && |previousTwoCommands| == 2 && geometry.radius != 0.0
    }

    /** Two commands at rest stand in the queue. */
    constructor (g: Geometry)
      requires g.radius != 0.0
      ensures Valid() && geometry == g && fresh(commandInterfaces)
      ensures previousTwoCommands == [Twist(0.0, 0.0, 0.0), Twist(0.0, 0.0, 0.0)]
    {
      geometry := g;
      commandInterfaces := new real[WHEELS](i => 0.0);
      previousTwoCommands := [Twist(0.0, 0.0, 0.0), Twist(0.0, 0.0, 0.0)];
      velocityInCenterFrame := Twist(0.0, 0.0, 0.0);
    }

    /** Writes the wheel speeds for the limited reference; the limiter is given with its result. */
    method WriteCommands(limited: Twist, accepts: seq<bool>) returns (ok: bool)
      requires Valid() && |accepts| == WHEELS
      modifies this, commandInterfaces
      ensures Valid()
      ensures previousTwoCommands == [old(previousTwoCommands)[1], limited]
      ensures velocityInCenterFrame == CenterFromBase(geometry, limited)
      ensures commandInterfaces[..]
           == CommandedInterfaces(old(commandInterfaces[..]), InOrder(Commands(geometry, limited)), accepts)
      ensures ok <==> AllBefore(accepts, WHEELS, true)
    {
      previousTwoCommands := previousTwoCommands[1..];
      previousTwoCommands := previousTwoCommands + [limited];
      velocityInCenterFrame := CenterFromBase(geometry, limited);
      var values := InOrder(WheelsFromCenter(geometry, velocityInCenterFrame));
      var i := 0;
      while i < WHEELS && accepts[i]
        modifies commandInterfaces
        invariant 0 <= i <= WHEELS && AllBefore(accepts, i, true)
        invariant forall k :: 0 <= k < WHEELS ==>
          commandInterfaces[k] == if k < i then values[k] else old(commandInterfaces[k])
      {
        commandInterfaces[i] := values[i];
        i := i + 1;
      }
      ok := i == WHEELS;
    }

    /** Writes zeros, but stops at the first interface that takes one. */
    method WriteStop(accepts: seq<bool>) returns (ok: bool)
      requires Valid() && |accepts| == WHEELS
      modifies commandInterfaces
      ensures commandInterfaces[..] == StoppedInterfaces(old(commandInterfaces[..]), accepts)
      ensures ok <==> exists i :: 0 <= i < WHEELS && accepts[i]
    {
      var i := 0;
      while i < WHEELS && !accepts[i]
        invariant 0 <= i <= WHEELS && AllBefore(accepts, i, false)
      {
        i := i + 1;
      }
      ok := i < WHEELS;
      if ok {
        commandInterfaces[i] := 0.0;
      }
    }

    /** A reference with a missing component counts as missing. */
    method UpdateAndWriteCommands(reference: Option<Twist>, limited: Twist, accepts: seq<bool>) returns (ok: bool)
      requires Valid() && |accepts| == WHEELS
      modifies this, commandInterfaces
      ensures Valid()
      ensures reference.Some? ==>
        && previousTwoCommands == [old(previousTwoCommands)[1], limited]
        && commandInterfaces[..]
           == CommandedInterfaces(old(commandInterfaces[..]), InOrder(Commands(geometry, limited)), accepts)
      ensures reference.None? ==>
        && previousTwoCommands == old(previousTwoCommands)
        && commandInterfaces[..] == StoppedInterfaces(old(commandInterfaces[..]), accepts)
    {
      if reference.Some? {
        ok := WriteCommands(limited, accepts);
      } else {
        ok := WriteStop(accepts);
      }
    }
  }
}
