/** Wheel speeds and body twists of the mecanum drive: the inverse kinematics that command the wheels, the
    forward kinematics that estimate the motion, and that each undoes the other. */
module MecanumKinematics {
  import opened Options
  import opened Powers

  /** Linear velocity along two axes and angular velocity. */
  datatype Twist = Twist(x: real, y: real, w: real)

  datatype Wheels = Wheels(frontLeft: real, frontRight: real, rearRight: real, rearLeft: real)

  /** Where the base frame lies in the centre frame, as offset, cosine and sine of the rotation; the sum of
      the projections of the robot centre; the wheel radius. */
  datatype Geometry = Geometry(offsetX: real, offsetY: real, cos: real, sin: real, centerSum: real, radius: real) {
    predicate Valid() {
      Rotation(cos, sin) && centerSum != 0.0 && radius != 0.0
    }
  }

  // ----- From the body to the wheels ---------------------------------------------------------------------

  /** The two components of a vector that is turned by the angle with this cosine and sine. */
  function TurnX(cos: real, sin: real, x: real, y: real): real { cos * x - sin * y }
  function TurnY(cos: real, sin: real, x: real, y: real): real { sin * x + cos * y }

  function CenterFromBase(g: Geometry, t: Twist): Twist {
    Twist(TurnX(g.cos, g.sin, t.x, t.y) + g.offsetY * t.w, TurnY(g.cos, g.sin, t.x, t.y) - g.offsetX * t.w, t.w)
  }

  function WheelsFromCenter(g: Geometry, t: Twist): Wheels
    requires g.radius != 0.0
  {
    Wheels(1.0 / g.radius * (t.x - t.y - g.centerSum * t.w), 1.0 / g.radius * (t.x + t.y + g.centerSum * t.w),
           1.0 / g.radius * (t.x - t.y + g.centerSum * t.w), 1.0 / g.radius * (t.x + t.y - g.centerSum * t.w))
  }

  function Commands(g: Geometry, t: Twist): Wheels
    requires g.radius != 0.0
  {
    WheelsFromCenter(g, CenterFromBase(g, t))
  }

  // ----- From the wheels to the body ---------------------------------------------------------------------

  function CenterFromWheels(g: Geometry, v: Wheels): Twist
    requires g.centerSum != 0.0
  {
    Twist(0.25 * g.radius * (v.frontLeft + v.rearLeft + v.rearRight + v.frontRight),
          0.25 * g.radius * (-v.frontLeft + v.rearLeft - v.rearRight + v.frontRight),
          0.25 * g.radius / g.centerSum * (-v.frontLeft - v.rearLeft + v.rearRight + v.frontRight))
  }

  /** The turn back by the negative angle, and the offset seen from the base frame. */
  function BaseFromCenter(g: Geometry, t: Twist): Twist {
    var offsetX := TurnX(g.cos, -g.sin, -g.offsetX, -g.offsetY);
    var offsetY := TurnY(g.cos, -g.sin, -g.offsetX, -g.offsetY);
    Twist(TurnX(g.cos, -g.sin, t.x, t.y) + offsetY * t.w, TurnY(g.cos, -g.sin, t.x, t.y) - offsetX * t.w, t.w)
  }

  function Estimate(g: Geometry, v: Wheels): Twist
    requires g.centerSum != 0.0
  {
    BaseFromCenter(g, CenterFromWheels(g, v))
  }

  // ----- Each undoes the other ------------------------------------------------------------------------------

  predicate Rotation(cos: real, sin: real) {
    cos * cos + sin * sin == 1.0
  }

  lemma TurnedBack(c: real, s: real, x: real, y: real)
    requires Rotation(c, s)
    ensures TurnX(c, -s, TurnX(c, s, x, y), TurnY(c, s, x, y)) == x
    ensures TurnY(c, -s, TurnX(c, s, x, y), TurnY(c, s, x, y)) == y
  {
    assert TurnX(c, -s, TurnX(c, s, x, y), TurnY(c, s, x, y)) == (c * c + s * s) * x;
    assert TurnY(c, -s, TurnX(c, s, x, y), TurnY(c, s, x, y)) == (c * c + s * s) * y;
  }

  lemma TurnedForth(c: real, s: real, x: real, y: real)
    requires Rotation(c, s)
    ensures TurnX(c, s, TurnX(c, -s, x, y), TurnY(c, -s, x, y)) == x
    ensures TurnY(c, s, TurnX(c, -s, x, y), TurnY(c, -s, x, y)) == y
  {
    assert TurnX(c, s, TurnX(c, -s, x, y), TurnY(c, -s, x, y)) == (c * c + s * s) * x;
    assert TurnY(c, s, TurnX(c, -s, x, y), TurnY(c, -s, x, y)) == (c * c + s * s) * y;
  }

  /** Adding the velocity that a turn w about a point p, q gives commutes with turning the axes. */
  lemma TurnOfSum(c: real, s: real, x: real, y: real, p: real, q: real, w: real)
    ensures TurnX(c, s, x + q * w, y - p * w) == TurnX(c, s, x, y) + TurnY(c, s, p, q) * w
    ensures TurnY(c, s, x + q * w, y - p * w) == TurnY(c, s, x, y) - TurnX(c, s, p, q) * w
  {
  }

  lemma TurnOfOpposite(c: real, s: real, p: real, q: real)
    ensures TurnX(c, s, -p, -q) == -TurnX(c, s, p, q) && TurnY(c, s, -p, -q) == -TurnY(c, s, p, q)
  {
  }

  lemma BaseRecovered(g: Geometry, t: Twist)
    requires Rotation(g.cos, g.sin)
    ensures BaseFromCenter(g, CenterFromBase(g, t)) == t
  {
    var x, y := TurnX(g.cos, g.sin, t.x, t.y), TurnY(g.cos, g.sin, t.x, t.y);
    TurnOfSum(g.cos, -g.sin, x, y, g.offsetX, g.offsetY, t.w);
    TurnOfOpposite(g.cos, -g.sin, g.offsetX, g.offsetY);
    TurnedBack(g.cos, g.sin, t.x, t.y);
    OppositesCancel(TurnX(g.cos, -g.sin, g.offsetX, g.offsetY), TurnY(g.cos, -g.sin, g.offsetX, g.offsetY), t);
  }

  lemma OppositesCancel(p: real, q: real, t: Twist)
    ensures t.x + q * t.w + -q * t.w == t.x && t.y - p * t.w - -p * t.w == t.y
  {
  }

  lemma Scaled(r: real, a: real)
    requires r != 0.0
    ensures 0.25 * r * (4.0 * (1.0 / r * a)) == a
  {
    assert r * (1.0 / r) == 1.0;
    assert 0.25 * r * (4.0 * (1.0 / r * a)) == (r * (1.0 / r)) * a;
  }

  /** With a and u in the roles of r/4k and 1/r. */
  lemma TurnCancels(a: real, k: real, r: real, u: real, w: real, x: real)
    requires a * k == 0.25 * r && u * r == 1.0 && x == 4.0 * Times(u, Times(k, w))
    ensures Times(a, x) == w
    ensures Times(k, Times(a, w)) == 0.25 * r * w
  {
    assert Times(a * k, 4.0 * u * w) == Times(a, 4.0 * Times(u, Times(k, w)));
    assert Times(0.25 * r, 4.0 * u * w) == Times(u * r, w);
    assert Times(a * k, w) == Times(k, Times(a, w));
  }

  lemma ScaledTurn(r: real, k: real, w: real, z: real, x: real)
    requires r != 0.0 && k != 0.0 && z == k * w && x == 4.0 * (1.0 / r * z)
    ensures 0.25 * r / k * x == w
  {
    TurnCancels(0.25 * r / k, k, r, 1.0 / r, w, 4.0 * Times(1.0 / r, Times(k, w)));
    assert Times(k, w) == z;
    assert Times(1.0 / r, z) == 1.0 / r * z;
    assert Times(0.25 * r / k, x) == 0.25 * r / k * x;
  }

  lemma TurnScaled(r: real, k: real, w: real)
    requires r != 0.0 && k != 0.0
    ensures k * (0.25 * r / k * w) == 0.25 * r * w
  {
    TurnCancels(0.25 * r / k, k, r, 1.0 / r, w, 4.0 * Times(1.0 / r, Times(k, w)));
    assert k * (0.25 * r / k * w) == Times(k, Times(0.25 * r / k, w));
  }

  lemma Summed(r: real, x: real, y: real, z: real)
    requires r != 0.0
    ensures 1.0 / r * (x - y - z) + 1.0 / r * (x + y - z) + 1.0 / r * (x - y + z) + 1.0 / r * (x + y + z)
            == 4.0 * (1.0 / r * x)
    ensures -(1.0 / r * (x - y - z)) + 1.0 / r * (x + y - z) - 1.0 / r * (x - y + z) + 1.0 / r * (x + y + z)
            == 4.0 * (1.0 / r * y)
    ensures -(1.0 / r * (x - y - z)) - 1.0 / r * (x + y - z) + 1.0 / r * (x - y + z) + 1.0 / r * (x + y + z)
            == 4.0 * (1.0 / r * z)
  {
  }

  lemma CenterRecovered(g: Geometry, t: Twist)
    requires g.centerSum != 0.0 && g.radius != 0.0
    ensures CenterFromWheels(g, WheelsFromCenter(g, t)) == t
  {
    var z, v := g.centerSum * t.w, WheelsFromCenter(g, t);
    Summed(g.radius, t.x, t.y, z);
    Scaled(g.radius, t.x);
    Scaled(g.radius, t.y);
    ScaledTurn(g.radius, g.centerSum, t.w, z, -v.frontLeft - v.rearLeft + v.rearRight + v.frontRight);
  }

  /** The odometry computed from the commanded wheel speeds is the commanded twist, for every offset and
      rotation of the base frame. */
  lemma OdometryInvertsCommands(g: Geometry, t: Twist)
    requires g.Valid()
    ensures Estimate(g, Commands(g, t)) == t
  {
    BaseRecovered(g, t);
    CenterRecovered(g, CenterFromBase(g, t));
  }

  /** The wheel speeds that the estimated twist would command. */
  function Projected(g: Geometry, v: Wheels): Wheels
    requires g.Valid()
  {
    Commands(g, Estimate(g, v))
  }

  /** How far the wheels work against each other. */
  function Slip(v: Wheels): real {
    (v.frontLeft + v.frontRight - v.rearRight - v.rearLeft) / 4.0
  }

  lemma CenterCommanded(g: Geometry, t: Twist)
    requires Rotation(g.cos, g.sin)
    ensures CenterFromBase(g, BaseFromCenter(g, t)) == t
  {
    var x, y := TurnX(g.cos, -g.sin, t.x, t.y), TurnY(g.cos, -g.sin, t.x, t.y);
    var p, q := TurnX(g.cos, -g.sin, -g.offsetX, -g.offsetY), TurnY(g.cos, -g.sin, -g.offsetX, -g.offsetY);
    TurnOfSum(g.cos, g.sin, x, y, p, q, t.w);
    TurnedForth(g.cos, g.sin, t.x, t.y);
    TurnedForth(g.cos, g.sin, -g.offsetX, -g.offsetY);
    OppositesCancel(-g.offsetX, -g.offsetY, t);
  }

  lemma LineCommanded(r: real, z: real)
    requires r != 0.0
    ensures 1.0 / r * (0.25 * r * z) == 0.25 * z
  {
    assert r * (1.0 / r) == 1.0;
    assert 1.0 / r * (0.25 * r * z) == (r * (1.0 / r)) * (0.25 * z);
  }

  lemma WheelCommanded(r: real, k: real, x: real, y: real, w: real, z: real)
    requires r != 0.0 && k != 0.0
    requires z == x + y + w
    ensures 1.0 / r * (0.25 * r * x + 0.25 * r * y + k * (0.25 * r / k * w)) == 0.25 * z
  {
    TurnScaled(r, k, w);
    assert 0.25 * r * x + 0.25 * r * y + 0.25 * r * w == 0.25 * r * z;
    LineCommanded(r, z);
  }

  lemma WheelsCommanded(g: Geometry, v: Wheels)
    requires g.radius != 0.0 && g.centerSum != 0.0
    ensures var p, slip := WheelsFromCenter(g, CenterFromWheels(g, v)), Slip(v);
      && p.frontLeft == v.frontLeft - slip && p.frontRight == v.frontRight - slip
      && p.rearRight == v.rearRight + slip && p.rearLeft == v.rearLeft + slip
  {
    var x := v.frontLeft + v.rearLeft + v.rearRight + v.frontRight;
    var y := -v.frontLeft + v.rearLeft - v.rearRight + v.frontRight;
    var w := -v.frontLeft - v.rearLeft + v.rearRight + v.frontRight;
    var r, k := g.radius, g.centerSum;
    WheelCommanded(r, k, x, -y, -w, x - y - w);
    WheelCommanded(r, k, x, y, w, x + y + w);
    WheelCommanded(r, k, x, -y, w, x - y + w);
    WheelCommanded(r, k, x, y, -w, x + y - w);
    TurnScaled(r, k, w);
    TurnScaled(r, k, -w);
  }

  /** Commanding the estimated twist takes the slip out of the wheel speeds and nothing else: it is the
      projection along (1, 1, -1, -1). */
  lemma ProjectionRemovesSlip(g: Geometry, v: Wheels)
    requires g.Valid()
    ensures var p, slip := Projected(g, v), Slip(v);
      && p.frontLeft == v.frontLeft - slip && p.frontRight == v.frontRight - slip
      && p.rearRight == v.rearRight + slip && p.rearLeft == v.rearLeft + slip
  {
    CenterCommanded(g, CenterFromWheels(g, v));
    WheelsCommanded(g, v);
  }

  /** Forward then inverse is idempotent, and the identity exactly on wheel speeds without slip. */
  lemma ProjectionIsIdempotent(g: Geometry, v: Wheels)
    requires g.Valid()
    ensures Projected(g, Projected(g, v)) == Projected(g, v)
    ensures Projected(g, v) == v <==> Slip(v) == 0.0
  {
    OdometryInvertsCommands(g, Estimate(g, v));
    ProjectionRemovesSlip(g, v);
  }
}
