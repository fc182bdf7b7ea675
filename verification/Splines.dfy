/** The polynomials behind `interpolate_between_points`: how the coefficients of the linear, cubic
    and quintic segments are formed, and why they are the right ones.

    A joint's motion over one segment is a polynomial of degree at most five in the seconds elapsed
    since the segment began. */
module Splines {
  import opened Powers

  /** c0 + c1*x + c2*x^2 + c3*x^3 + c4*x^4 + c5*x^5 */
  datatype Polynomial = Polynomial(c0: real, c1: real, c2: real, c3: real, c4: real, c5: real)

  /** Position, velocity and acceleration of one joint at one instant. */
  datatype Knot = Knot(pos: real, vel: real, acc: real)

  const ZERO := Polynomial(0.0, 0.0, 0.0, 0.0, 0.0, 0.0)

  function Position(f: Polynomial, x: real): real {
    f.c0 + x * f.c1 + x * x * f.c2 + x * x * x * f.c3 + x * x * x * x * f.c4 + x * x * x * x * x * f.c5
  }

  function Velocity(f: Polynomial, x: real): real {
    f.c1 + x * 2.0 * f.c2 + x * x * 3.0 * f.c3 + x * x * x * 4.0 * f.c4 + x * x * x * x * 5.0 * f.c5
  }

  function Acceleration(f: Polynomial, x: real): real {
    2.0 * f.c2 + x * 6.0 * f.c3 + x * x * 12.0 * f.c4 + x * x * x * 20.0 * f.c5
  }

  function KnotAt(f: Polynomial, x: real): Knot {
    Knot(Position(f, x), Velocity(f, x), Acceleration(f, x))
  }

  // ----- The coefficients the controller computes ----------------------------------------------

  function LinearSlope(start: real, end: real, T: real): real {
    if T != 0.0 then (end - start) / T else 0.0
  }

  function Linear(a: Knot, b: Knot, T: real): Polynomial {
    Polynomial(a.pos, LinearSlope(a.pos, b.pos, T), 0.0, 0.0, 0.0, 0.0)
  }

  function CubicNumerator2(a: Knot, b: Knot, T: real): real {
    -3.0 * a.pos + 3.0 * b.pos - 2.0 * a.vel * T - b.vel * T
  }

  function CubicNumerator3(a: Knot, b: Knot, T: real): real {
    2.0 * a.pos - 2.0 * b.pos + a.vel * T + b.vel * T
  }

  function Cubic(a: Knot, b: Knot, T: real): Polynomial {
    if T != 0.0 then
      Polynomial(a.pos, a.vel, CubicNumerator2(a, b, T) / (T * T),
                 CubicNumerator3(a, b, T) / (T * T * T), 0.0, 0.0)
    else
      Polynomial(a.pos, a.vel, 0.0, 0.0, 0.0, 0.0)
  }

  function QuinticNumerator3(a: Knot, b: Knot, T: real): real {
    -20.0 * a.pos + 20.0 * b.pos - 3.0 * a.acc * (T * T) + b.acc * (T * T)
    - 12.0 * a.vel * T - 8.0 * b.vel * T
  }

  function QuinticNumerator4(a: Knot, b: Knot, T: real): real {
    30.0 * a.pos - 30.0 * b.pos + 3.0 * a.acc * (T * T) - 2.0 * b.acc * (T * T)
    + 16.0 * a.vel * T + 14.0 * b.vel * T
  }

  function QuinticNumerator5(a: Knot, b: Knot, T: real): real {
    -12.0 * a.pos + 12.0 * b.pos - a.acc * (T * T) + b.acc * (T * T)
    - 6.0 * a.vel * T - 6.0 * b.vel * T
  }

  function Quintic(a: Knot, b: Knot, T: real): Polynomial {
    if T != 0.0 then
      Polynomial(a.pos, a.vel, 0.5 * a.acc,
                 QuinticNumerator3(a, b, T) / (2.0 * (T * T * T)),
                 QuinticNumerator4(a, b, T) / (2.0 * (T * T * T * T)),
                 QuinticNumerator5(a, b, T) / (2.0 * (T * T * T * T * T)))
    else
      Polynomial(a.pos, a.vel, 0.5 * a.acc, 0.0, 0.0, 0.0)
  }

  // ----- Polynomials in terms of powers of the time --------------------------------------------

  lemma PositionInPowers(f: Polynomial, T: real)
    ensures Position(f, T) == f.c0 + Times(T, f.c1) + Times2(T, f.c2) + Times3(T, f.c3) + Times4(T, f.c4)
                              + Times5(T, f.c5)
  {
  }

  lemma VelocityTerms(f: Polynomial, x: real)
    ensures Velocity(f, x) == f.c1 + 2.0 * Times(x, f.c2) + 3.0 * Times2(x, f.c3) + 4.0 * Times3(x, f.c4)
                              + 5.0 * Times4(x, f.c5)
  {
  }

  lemma AccelerationTerms(f: Polynomial, x: real)
    ensures Acceleration(f, x) == 2.0 * f.c2 + 6.0 * Times(x, f.c3) + 12.0 * Times2(x, f.c4)
                                  + 20.0 * Times3(x, f.c5)
  {
  }

  lemma VelocityInPowers(f: Polynomial, T: real)
    ensures Times(T, Velocity(f, T)) == Times(T, f.c1) + 2.0 * Times2(T, f.c2) + 3.0 * Times3(T, f.c3)
                                        + 4.0 * Times4(T, f.c4) + 5.0 * Times5(T, f.c5)
  {
  }

  lemma AccelerationInPowers(f: Polynomial, T: real)
    ensures Times2(T, Acceleration(f, T)) == 2.0 * Times2(T, f.c2) + 6.0 * Times3(T, f.c3)
                                             + 12.0 * Times4(T, f.c4) + 20.0 * Times5(T, f.c5)
  {
  }

  // ----- Both fits are exact and unique --------------------------------------------------------

  /** The division-free equations of the cubic coefficients: linear in the products above. */
  ghost predicate CubicEquations(f: Polynomial, a: Knot, b: Knot, T: real) {
    && f.c0 == a.pos && f.c1 == a.vel && f.c4 == 0.0 && f.c5 == 0.0
    && Times2(T, f.c2) == -3.0 * a.pos + 3.0 * b.pos - 2.0 * Times(T, a.vel) - Times(T, b.vel)
    && Times3(T, f.c3) == 2.0 * a.pos - 2.0 * b.pos + Times(T, a.vel) + Times(T, b.vel)
  }

  lemma CubicNumeratorsInPowers(a: Knot, b: Knot, T: real)
    ensures CubicNumerator2(a, b, T)
            == -3.0 * a.pos + 3.0 * b.pos - 2.0 * Times(T, a.vel) - Times(T, b.vel)
    ensures CubicNumerator3(a, b, T)
            == 2.0 * a.pos - 2.0 * b.pos + Times(T, a.vel) + Times(T, b.vel)
  {
  }

  lemma CubicSolves(a: Knot, b: Knot, T: real)
    requires T > 0.0
    ensures CubicEquations(Cubic(a, b, T), a, b, T)
  {
    QuotientsUndone(T, CubicNumerator2(a, b, T));
    QuotientsUndone(T, CubicNumerator3(a, b, T));
    CubicNumeratorsInPowers(a, b, T);
  }

  lemma CubicUnique(f: Polynomial, g: Polynomial, a: Knot, b: Knot, T: real)
    requires T > 0.0 && CubicEquations(f, a, b, T) && CubicEquations(g, a, b, T)
    ensures f == g
  {
    CancelPower(T, f.c2, g.c2);
    CancelPower(T, f.c3, g.c3);
  }

  lemma CubicEndConditions(f: Polynomial, a: Knot, b: Knot, T: real)
    requires T > 0.0
    ensures CubicEquations(f, a, b, T) <==>
            && f.c4 == 0.0 && f.c5 == 0.0
            && Position(f, 0.0) == a.pos && Velocity(f, 0.0) == a.vel
            && Position(f, T) == b.pos && Velocity(f, T) == b.vel
  {
    PositionInPowers(f, T);
    VelocityInPowers(f, T);
    CancelPower(T, Velocity(f, T), b.vel);
    AtZero(f);
  }

  lemma AtZero(f: Polynomial)
    ensures KnotAt(f, 0.0) == Knot(f.c0, f.c1, 2.0 * f.c2)
  {
  }

  /** The controller's cubic meets the four end conditions, and no other polynomial of degree three
      does. */
  lemma CubicFit(f: Polynomial, a: Knot, b: Knot, T: real)
    requires T > 0.0
    ensures f == Cubic(a, b, T) <==>
            && f.c4 == 0.0 && f.c5 == 0.0
            && Position(f, 0.0) == a.pos && Velocity(f, 0.0) == a.vel
            && Position(f, T) == b.pos && Velocity(f, T) == b.vel
  {
    CubicSolves(a, b, T);
    CubicEndConditions(f, a, b, T);
    if CubicEquations(f, a, b, T) {
      CubicUnique(f, Cubic(a, b, T), a, b, T);
    }
  }

  /** The division-free equations of the quintic coefficients. */
  ghost predicate QuinticEquations(f: Polynomial, a: Knot, b: Knot, T: real) {
    && f.c0 == a.pos && f.c1 == a.vel && f.c2 == 0.5 * a.acc
    && 2.0 * Times3(T, f.c3) == -20.0 * a.pos + 20.0 * b.pos - 3.0 * Times2(T, a.acc) + Times2(T, b.acc)
                                - 12.0 * Times(T, a.vel) - 8.0 * Times(T, b.vel)
    && 2.0 * Times4(T, f.c4) == 30.0 * a.pos - 30.0 * b.pos + 3.0 * Times2(T, a.acc)
                                - 2.0 * Times2(T, b.acc) + 16.0 * Times(T, a.vel) + 14.0 * Times(T, b.vel)
    && 2.0 * Times5(T, f.c5) == -12.0 * a.pos + 12.0 * b.pos - Times2(T, a.acc) + Times2(T, b.acc)
                                - 6.0 * Times(T, a.vel) - 6.0 * Times(T, b.vel)
  }

  lemma QuinticNumeratorsInPowers(a: Knot, b: Knot, T: real)
    ensures QuinticNumerator3(a, b, T)
            == -20.0 * a.pos + 20.0 * b.pos - 3.0 * Times2(T, a.acc) + Times2(T, b.acc)
               - 12.0 * Times(T, a.vel) - 8.0 * Times(T, b.vel)
    ensures QuinticNumerator4(a, b, T)
            == 30.0 * a.pos - 30.0 * b.pos + 3.0 * Times2(T, a.acc) - 2.0 * Times2(T, b.acc)
               + 16.0 * Times(T, a.vel) + 14.0 * Times(T, b.vel)
    ensures QuinticNumerator5(a, b, T)
            == -12.0 * a.pos + 12.0 * b.pos - Times2(T, a.acc) + Times2(T, b.acc)
               - 6.0 * Times(T, a.vel) - 6.0 * Times(T, b.vel)
  {
  }

  lemma QuinticSolves(a: Knot, b: Knot, T: real)
    requires T > 0.0
    ensures QuinticEquations(Quintic(a, b, T), a, b, T)
  {
    QuotientsUndone(T, QuinticNumerator3(a, b, T));
    QuotientsUndone(T, QuinticNumerator4(a, b, T));
    QuotientsUndone(T, QuinticNumerator5(a, b, T));
    QuinticNumeratorsInPowers(a, b, T);
  }

  lemma QuinticUnique(f: Polynomial, g: Polynomial, a: Knot, b: Knot, T: real)
    requires T > 0.0 && QuinticEquations(f, a, b, T) && QuinticEquations(g, a, b, T)
    ensures f == g
  {
    CancelPower(T, f.c3, g.c3);
    CancelPower(T, f.c4, g.c4);
    CancelPower(T, f.c5, g.c5);
  }

  /** Linear algebra: three end equations in the scaled unknowns k3, k4, k5, solved. */
  lemma QuinticSystem(k3: real, k4: real, k5: real, p0: real, v0: real, a0: real, p1: real, v1: real, a1: real)
    ensures (&& p0 + v0 + 0.5 * a0 + k3 + k4 + k5 == p1
             && v0 + a0 + 3.0 * k3 + 4.0 * k4 + 5.0 * k5 == v1
             && a0 + 6.0 * k3 + 12.0 * k4 + 20.0 * k5 == a1)
            <==>
            (&& 2.0 * k3 == -20.0 * p0 + 20.0 * p1 - 3.0 * a0 + a1 - 12.0 * v0 - 8.0 * v1
             && 2.0 * k4 == 30.0 * p0 - 30.0 * p1 + 3.0 * a0 - 2.0 * a1 + 16.0 * v0 + 14.0 * v1
             && 2.0 * k5 == -12.0 * p0 + 12.0 * p1 - a0 + a1 - 6.0 * v0 - 6.0 * v1)
  {
  }

  lemma QuinticEndConditions(f: Polynomial, a: Knot, b: Knot, T: real)
    requires T > 0.0
    ensures QuinticEquations(f, a, b, T) <==> KnotAt(f, 0.0) == a && KnotAt(f, T) == b
  {
    AtZero(f);
    if f.c0 == a.pos && f.c1 == a.vel && f.c2 == 0.5 * a.acc {
      QuinticEndSystem(f, a, b, T);
    }
  }

  lemma QuinticEndSystem(f: Polynomial, a: Knot, b: Knot, T: real)
    requires T > 0.0 && f.c0 == a.pos && f.c1 == a.vel && f.c2 == 0.5 * a.acc
    ensures QuinticEquations(f, a, b, T) <==> KnotAt(f, T) == b
  {
    PositionInPowers(f, T);
    VelocityInPowers(f, T);
    AccelerationInPowers(f, T);
    HalfAcceleration(T, a.acc);
    CancelPower(T, Velocity(f, T), b.vel);
    CancelPower(T, Acceleration(f, T), b.acc);
    QuinticSystem(Times3(T, f.c3), Times4(T, f.c4), Times5(T, f.c5),
                  a.pos, Times(T, a.vel), Times2(T, a.acc), b.pos, Times(T, b.vel), Times2(T, b.acc));
  }

  /** The controller's quintic meets all six end conditions, and no other polynomial of degree five
      does. */
  lemma QuinticFit(f: Polynomial, a: Knot, b: Knot, T: real)
    requires T > 0.0
    ensures f == Quintic(a, b, T) <==> KnotAt(f, 0.0) == a && KnotAt(f, T) == b
  {
    QuinticSolves(a, b, T);
    QuinticEndConditions(f, a, b, T);
    if QuinticEquations(f, a, b, T) {
      QuinticUnique(f, Quintic(a, b, T), a, b, T);
    }
  }

  /** Interpolation reproduces the motion it samples: the quintic through the states of any polynomial
      of degree at most five is that polynomial, so it agrees with it at every time. */
  lemma QuinticReproduces(f: Polynomial, T: real, x: real)
    requires T > 0.0
    ensures KnotAt(Quintic(KnotAt(f, 0.0), KnotAt(f, T), T), x) == KnotAt(f, x)
  {
    QuinticFit(f, KnotAt(f, 0.0), KnotAt(f, T), T);
  }

  lemma CubicReproduces(f: Polynomial, T: real, x: real)
    requires T > 0.0 && f.c4 == 0.0 && f.c5 == 0.0
    ensures KnotAt(Cubic(KnotAt(f, 0.0), KnotAt(f, T), T), x) == KnotAt(f, x)
  {
    CubicFit(f, KnotAt(f, 0.0), KnotAt(f, T), T);
  }

  lemma LinearFit(f: Polynomial, a: Knot, b: Knot, T: real)
    requires T > 0.0
    ensures f == Linear(a, b, T) <==>
            && f.c2 == 0.0 && f.c3 == 0.0 && f.c4 == 0.0 && f.c5 == 0.0
            && Position(f, 0.0) == a.pos && Position(f, T) == b.pos
  {
    Divided(b.pos - a.pos, T);
    CancelPower(T, f.c1, LinearSlope(a.pos, b.pos, T));
    PositionInPowers(f, T);
    AtZero(f);
  }

  // ----- Velocity and Acceleration are derivatives -----------------------------------------------

  /** The remainder of the first-order expansion of Position: what is left is h^2 times this. */
  function PositionRemainder(f: Polynomial, x: real, h: real): real {
    f.c2 + (3.0 * x + h) * f.c3 + (6.0 * x * x + 4.0 * x * h + h * h) * f.c4
    + (10.0 * x * x * x + 10.0 * x * x * h + 5.0 * x * h * h + h * h * h) * f.c5
  }

  function VelocityRemainder(f: Polynomial, x: real, h: real): real {
    3.0 * f.c3 + (12.0 * x + 4.0 * h) * f.c4 + (30.0 * x * x + 20.0 * x * h + 5.0 * h * h) * f.c5
  }

  lemma PositionExpansion(f: Polynomial, x: real, h: real)
    ensures Position(f, x + h) == Position(f, x) + h * Velocity(f, x) + h * h * PositionRemainder(f, x, h)
  {
  }

  lemma VelocityExpansion(f: Polynomial, x: real, h: real)
    ensures Velocity(f, x + h) == Velocity(f, x) + h * Acceleration(f, x) + h * h * VelocityRemainder(f, x, h)
  {
  }

  lemma HalfAcceleration(T: real, acc: real)
    ensures Times2(T, 0.5 * acc) == 0.5 * Times2(T, acc)
  {
  }
}
