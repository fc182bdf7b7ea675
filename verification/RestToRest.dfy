/** Segments that start and end at rest: how far and how fast the joint moves on the way. */
module RestToRest {
  import opened Powers
  import opened Splines

  /** Progress from 0 to 1 along a rest-to-rest cubic and quintic, and its rate. */
  function CubicBlend(u: real): real { 3.0 * (u * u) - 2.0 * (u * u * u) }
  function QuinticBlend(u: real): real { 10.0 * (u * u * u) - 15.0 * (u * u * u * u) + 6.0 * (u * u * u * u * u) }
  function CubicRate(u: real): real { 6.0 * u - 6.0 * (u * u) }
  function QuinticRate(u: real): real { 30.0 * (u * u) - 60.0 * (u * u * u) + 30.0 * (u * u * u * u) }

  lemma PositionAtFraction(f: Polynomial, T: real, u: real)
    ensures Position(f, u * T)
            == f.c0 + Times(u, Times(T, f.c1)) + Times2(u, Times2(T, f.c2)) + Times3(u, Times3(T, f.c3))
               + Times4(u, Times4(T, f.c4)) + Times5(u, Times5(T, f.c5))
  {
    var x := u * T;
    PositionInPowers(f, x);
    ProductOfPowers(u, T, f.c1);
    ProductOfPowers(u, T, f.c2);
    ProductOfPowers(u, T, f.c3);
    ProductOfPowers(u, T, f.c4);
    ProductOfPowers(u, T, f.c5);
  }

  lemma VelocityAtFraction(f: Polynomial, T: real, u: real)
    ensures Times(T, Velocity(f, u * T))
            == Times(T, f.c1) + 2.0 * Times(u, Times2(T, f.c2)) + 3.0 * Times2(u, Times3(T, f.c3))
               + 4.0 * Times3(u, Times4(T, f.c4)) + 5.0 * Times4(u, Times5(T, f.c5))
  {
    var x := u * T;
    VelocityTerms(f, x);
    ProductOfPowers(u, T, f.c2);
    ProductOfPowers(u, T, f.c3);
    ProductOfPowers(u, T, f.c4);
    ProductOfPowers(u, T, f.c5);
    OneMorePower(u, T, f.c2);
    OneMorePower(u, T, f.c3);
    OneMorePower(u, T, f.c4);
    OneMorePower(u, T, f.c5);
    DistributeFive(T, f.c1, 2.0 * Times(x, f.c2), 3.0 * Times2(x, f.c3), 4.0 * Times3(x, f.c4), 5.0 * Times4(x, f.c5));
    ScalarOut(T, Times(x, f.c2));
    ScalarOut(T, Times2(x, f.c3));
    ScalarOut(T, Times3(x, f.c4));
    ScalarOut(T, Times4(x, f.c5));
  }

  lemma QuinticRestShape(p0: real, p1: real, T: real, u: real)
    requires T > 0.0
    ensures var f := Quintic(Knot(p0, 0.0, 0.0), Knot(p1, 0.0, 0.0), T);
            && Position(f, u * T) == p0 + Times(p1 - p0, QuinticBlend(u))
            && Times(T, Velocity(f, u * T)) == Times(p1 - p0, QuinticRate(u))
  {
    var a, b := Knot(p0, 0.0, 0.0), Knot(p1, 0.0, 0.0);
    var f := Quintic(a, b, T);
    var delta := p1 - p0;
    QuinticSolves(a, b, T);
    assert Times(T, 0.0) == 0.0 && Times2(T, 0.0) == 0.0;
    assert Times3(T, f.c3) == 10.0 * delta && Times4(T, f.c4) == -15.0 * delta && Times5(T, f.c5) == 6.0 * delta;
    PositionAtFraction(f, T, u);
    VelocityAtFraction(f, T, u);
    ConstantFactor(u, 10.0, delta);
    ConstantFactor(u, -15.0, delta);
    ConstantFactor(u, 6.0, delta);
    assert Times(u, 0.0) == 0.0 && Times2(u, 0.0) == 0.0;
    QuinticBlendTerms(delta, u);
  }

  lemma BlendTerms(delta: real, a: real, b: real, c: real)
    ensures Times(delta, 10.0 * a - 15.0 * b + 6.0 * c)
            == 10.0 * Times(delta, a) - 15.0 * Times(delta, b) + 6.0 * Times(delta, c)
    ensures Times(delta, 30.0 * a - 60.0 * b + 30.0 * c)
            == 30.0 * Times(delta, a) - 60.0 * Times(delta, b) + 30.0 * Times(delta, c)
  {
  }

  lemma QuinticBlendTerms(delta: real, u: real)
    ensures Times(delta, QuinticBlend(u)) == 10.0 * Times(delta, u * u * u) - 15.0 * Times(delta, u * u * u * u)
                                             + 6.0 * Times(delta, u * u * u * u * u)
    ensures Times(delta, QuinticRate(u)) == 30.0 * Times(delta, u * u) - 60.0 * Times(delta, u * u * u)
                                            + 30.0 * Times(delta, u * u * u * u)
  {
    hide Times;
    BlendTerms(delta, u * u * u, u * u * u * u, u * u * u * u * u);
    BlendTerms(delta, u * u, u * u * u, u * u * u * u);
  }

  lemma CubicRestShape(p0: real, p1: real, T: real, u: real)
    requires T > 0.0
    ensures var f := Cubic(Knot(p0, 0.0, 0.0), Knot(p1, 0.0, 0.0), T);
            && Position(f, u * T) == p0 + Times(p1 - p0, CubicBlend(u))
            && Times(T, Velocity(f, u * T)) == Times(p1 - p0, CubicRate(u))
  {
    var a, b := Knot(p0, 0.0, 0.0), Knot(p1, 0.0, 0.0);
    var f := Cubic(a, b, T);
    var delta := p1 - p0;
    CubicSolves(a, b, T);
    assert Times(T, 0.0) == 0.0 && Times4(T, 0.0) == 0.0 && Times5(T, 0.0) == 0.0;
    assert Times2(T, f.c2) == 3.0 * delta && Times3(T, f.c3) == -2.0 * delta;
    PositionAtFraction(f, T, u);
    VelocityAtFraction(f, T, u);
    ConstantFactor(u, 3.0, delta);
    ConstantFactor(u, -2.0, delta);
    ConstantFactor(u, 0.0, delta);
    CubicBlendTerms(delta, u);
  }

  lemma CubicBlendTerms(delta: real, u: real)
    ensures Times(delta, CubicBlend(u)) == 3.0 * Times(delta, u * u) - 2.0 * Times(delta, u * u * u)
    ensures Times(delta, CubicRate(u)) == 6.0 * Times(delta, u) - 6.0 * Times(delta, u * u)
  {
  }

  // ----- Progress never goes back --------------------------------------------------------------

  function QuinticGain(u: real, h: real): real {
    30.0 * (u * u) - 60.0 * (u * u * u) + 30.0 * (u * u * u * u)
    + h * (30.0 * u - 90.0 * (u * u) + 60.0 * (u * u * u))
    + h * h * (10.0 - 60.0 * u + 60.0 * (u * u)) + h * h * h * (30.0 * u - 15.0) + 6.0 * (h * h * h * h)
  }

  lemma QuinticDifference(u: real, h: real)
    ensures QuinticBlend(u + h) == QuinticBlend(u) + Times(h, QuinticGain(u, h))
  {
  }

  lemma QuinticGainIsSumOfSquares(u: real, h: real)
    ensures QuinticGain(u, h)
            == 30.0 * Square(u - u * u + h / 2.0 - u * h - h * h / 3.0)
               + 2.5 * Square(h * (1.0 - 2.0 * u - h)) + Square(h * h) / 6.0
  {
  }

  lemma QuinticBlendMonotone(u: real, w: real)
    requires u <= w
    ensures QuinticBlend(u) <= QuinticBlend(w)
  {
    var h := w - u;
    QuinticDifference(u, h);
    QuinticGainIsSumOfSquares(u, h);
    NonNegative(h, QuinticGain(u, h));
    assert u + h == w;
  }

  function CubicGain(u: real, w: real): real {
    2.0 * Times(u, 1.0 - u) + 2.0 * Times(w, 1.0 - w) + Times(u, 1.0 - w) + Times(w, 1.0 - u)
  }

  lemma CubicDifference(u: real, w: real)
    ensures CubicBlend(w) == CubicBlend(u) + Times(w - u, CubicGain(u, w))
  {
    assert CubicGain(u, w) == 3.0 * u + 3.0 * w - 2.0 * (u * u) - 2.0 * (u * w) - 2.0 * (w * w);
  }

  lemma CubicBlendMonotone(u: real, w: real)
    requires 0.0 <= u <= w <= 1.0
    ensures CubicBlend(u) <= CubicBlend(w)
  {
    CubicDifference(u, w);
    NonNegative(u, 1.0 - u);
    NonNegative(w, 1.0 - w);
    NonNegative(u, 1.0 - w);
    NonNegative(w, 1.0 - u);
    NonNegative(w - u, CubicGain(u, w));
  }

  // ----- Speed is bounded ----------------------------------------------------------------------

  lemma RatesBounded(u: real)
    requires 0.0 <= u <= 1.0
    ensures 0.0 <= CubicRate(u) <= 1.5
    ensures 0.0 <= QuinticRate(u) <= 1.875
  {
    var z := Times(u, 1.0 - u);
    NonNegative(u, 1.0 - u);
    assert z == 0.25 - Square(u - 0.5);
    assert CubicRate(u) == 6.0 * z;
    NonNegative(0.25 - z, 0.25 + z);
    assert Times(0.25 - z, 0.25 + z) == 0.0625 - Square(z);
    QuinticRateIsSquare(u);
  }

  lemma QuinticRateIsSquare(u: real)
    ensures QuinticRate(u) == 30.0 * Square(Times(u, 1.0 - u))
  {
  }

  // ----- The whole segment ---------------------------------------------------------------------

  function Segment(quintic: bool, p0: real, p1: real, T: real): Polynomial {
    if quintic then Quintic(Knot(p0, 0.0, 0.0), Knot(p1, 0.0, 0.0), T)
    else Cubic(Knot(p0, 0.0, 0.0), Knot(p1, 0.0, 0.0), T)
  }

  function Blend(quintic: bool, u: real): real {
    if quintic then QuinticBlend(u) else CubicBlend(u)
  }

  function Rate(quintic: bool, u: real): real {
    if quintic then QuinticRate(u) else CubicRate(u)
  }

  /** Peak speed of a rest-to-rest segment, as a multiple of its average speed. */
  function PeakFactor(quintic: bool): real {
    if quintic then 1.875 else 1.5
  }

  /** a, b, c, d in order along the line, in either direction. */
  predicate InOrder(a: real, b: real, c: real, d: real) {
    a <= b <= c <= d || a >= b >= c >= d
  }

  lemma SegmentShape(quintic: bool, p0: real, p1: real, T: real, x: real) returns (u: real)
    requires T > 0.0 && 0.0 <= x <= T
    ensures u == x / T && 0.0 <= u <= 1.0
    ensures var f := Segment(quintic, p0, p1, T);
            && Position(f, x) == p0 + Times(p1 - p0, Blend(quintic, u))
            && Times(T, Velocity(f, x)) == Times(p1 - p0, Rate(quintic, u))
  {
    u := x / T;
    assert u * T == x;
    QuinticRestShape(p0, p1, T, u);
    CubicRestShape(p0, p1, T, u);
  }

  /** A segment between two rests moves one way only, never leaves the interval between its end
      positions, and is never faster than the peak factor times its average speed. */
  lemma RestToRest(quintic: bool, p0: real, p1: real, T: real, x: real, y: real)
    requires T > 0.0 && 0.0 <= x <= y <= T
    ensures var f := Segment(quintic, p0, p1, T);
            && InOrder(p0, Position(f, x), Position(f, y), p1)
            && T * Abs(Velocity(f, x)) <= PeakFactor(quintic) * Abs(p1 - p0)
  {
    var f := Segment(quintic, p0, p1, T);
    var delta := p1 - p0;
    var u := SegmentShape(quintic, p0, p1, T, x);
    var w := SegmentShape(quintic, p0, p1, T, y);
    FractionOrder(x, y, T);
    BlendOrder(quintic, u, w);
    RatesBounded(u);
    InterpolationOrder(p0, p1, 0.0, Blend(quintic, u), Blend(quintic, w), 1.0);
    ScaledBound(delta, Rate(quintic, u), PeakFactor(quintic));
    ScaledAbs(T, Velocity(f, x));
    assert Times(T, Abs(Velocity(f, x))) <= Times(Abs(delta), PeakFactor(quintic));
  }

  lemma BlendOrder(quintic: bool, u: real, w: real)
    requires 0.0 <= u <= w <= 1.0
    ensures 0.0 <= Blend(quintic, u) <= Blend(quintic, w) <= 1.0
  {
    CubicBlendMonotone(0.0, u);
    CubicBlendMonotone(u, w);
    CubicBlendMonotone(w, 1.0);
    QuinticBlendMonotone(0.0, u);
    QuinticBlendMonotone(u, w);
    QuinticBlendMonotone(w, 1.0);
  }

  lemma InterpolationOrder(p0: real, p1: real, a: real, b: real, c: real, d: real)
    requires 0.0 == a <= b <= c <= d == 1.0
    ensures InOrder(p0, p0 + Times(p1 - p0, b), p0 + Times(p1 - p0, c), p1)
  {
    var k := if p1 >= p0 then p1 - p0 else p0 - p1;
    Larger(k, a, b);
    Larger(k, b, c);
    Larger(k, c, d);
    Negated(k, b);
    Negated(k, c);
  }

  lemma ScaledBound(delta: real, rate: real, peak: real)
    requires 0.0 <= rate <= peak
    ensures Abs(Times(delta, rate)) <= Times(Abs(delta), peak)
  {
    Larger(Abs(delta), rate, peak);
    Larger(Abs(delta), 0.0, rate);
    Negated(delta, rate);
  }

  lemma ScaledAbs(T: real, v: real)
    requires T > 0.0
    ensures Abs(Times(T, v)) == Times(T, Abs(v))
  {
    Negated(T, v);
    Larger(T, 0.0, Abs(v));
    assert Times(T, -v) == -Times(T, v);
  }

  lemma FractionOrder(x: real, y: real, T: real)
    requires T > 0.0 && x <= y
    ensures x / T <= y / T
  {
  }

  lemma Half(T: real)
    requires T > 0.0
    ensures (T / 2.0) / T == 0.5
  {
  }

  lemma RateHalfWay(quintic: bool)
    ensures Rate(quintic, 0.5) == PeakFactor(quintic)
  {
  }

  /** The bounds are attained half-way: no smaller factor would do. */
  lemma PeakAttained(quintic: bool, p0: real, p1: real, T: real)
    requires T > 0.0
    ensures Times(T, Velocity(Segment(quintic, p0, p1, T), T / 2.0)) == Times(p1 - p0, PeakFactor(quintic))
  {
    hide *;
    var u := SegmentShape(quintic, p0, p1, T, T / 2.0);
    Half(T);
    RateHalfWay(quintic);
  }
}
