/** The one segment of the stop ramp in which a joint comes to rest between two ramp points: when the motion
    sampled there passes the hold position, and by how much. */
module StopOvershoot {
  import opened Powers
  import opened Splines
  import opened RestToRest
  import opened TrajectoryPoints
  import opened TrajectorySampling
  import opened HistoryFree
  import opened Waypoints
  import opened StopRamp

  // ----- The state at the ramp point before the stop ------------------------------------------------------

  /** Seconds from t to the joint's stop. */
  function ToStop(b: Braking, t: real): real
    requires Brakes(b)
  {
    StopTime(b) - t
  }

  lemma SpeedToStop(b: Braking, t: real)
    requires Brakes(b)
    ensures BrakingVelocity(b, t) == Times(Direction(b), Times(b.decel, ToStop(b, t)))
  {
    UndoDivision(Abs(b.v0), b.decel);
    assert Times(b.decel, StopTime(b) - t) == Times(b.decel, StopTime(b)) - Times(b.decel, t);
    DirectedSpeed(b, t);
  }

  lemma DistanceToStop(b: Braking, t: real)
    requires Brakes(b)
    ensures 2.0 * Remaining(b, BrakingPosition(b, t)) == Times(b.decel, Square(ToStop(b, t)))
  {
    var r, d := ToStop(b, t), b.decel;
    SpeedToStop(b, t);
    SpeedMatchesDistance(b, t);
    SignSquared(b, Times(d, r));
    assert Square(Times(d, r)) == Times(d, Times(d, Square(r)));
    assert 2.0 * Times(d, Remaining(b, BrakingPosition(b, t))) == Times(d, 2.0 * Remaining(b, BrakingPosition(b, t)));
    Cancel(d, 2.0 * Remaining(b, BrakingPosition(b, t)), Times(d, Square(r)));
  }

  lemma SignSquared(b: Braking, x: real)
    ensures Square(Times(Direction(b), x)) == Square(x) && Times(Direction(b), Times(Direction(b), x)) == x
  {
  }

  /** Half the signed deceleration. */
  function Bend(b: Braking): real { 0.5 * Direction(b) * b.decel }

  /** Braking with bend s, r seconds before the stop. */
  function AtDistance(hold: real, s: real, r: real): Knot {
    Knot(hold - Times(s, r * r), 2.0 * Times(s, r), -2.0 * s)
  }

  lemma StateToStop(b: Braking, t: real)
    requires Brakes(b)
    ensures var s, r := Bend(b), ToStop(b, t);
      BrakingState(b, t) == AtDistance(HoldPosition(b), s, r)
  {
    SpeedToStop(b, t);
    DistanceToStop(b, t);
  }

  // ----- The quintic from there to rest ------------------------------------------------------------------

  /** What is left of the way u of the period into the segment, with a fraction rho of it needed for braking, apart
      from a factor that is positive before the end. */
  function Shortfall(rho: real, u: real): real {
    rho * rho + u * (3.0 * rho * rho - 2.0 * rho) + u * u * (6.0 * rho * rho - 6.0 * rho + 1.0)
  }

  function Expanded(rr: real, rT: real, TT: real, u: real): real {
    rr - 2.0 * Times(u, rT) + Times2(u, TT) + Times3(u, 12.0 * rT - 10.0 * rr - 3.0 * TT)
    + Times4(u, 15.0 * rr + 3.0 * TT - 16.0 * rT) + Times5(u, 6.0 * rT - 6.0 * rr - TT)
  }

  function Cube(x: real): real { x * x * x }

  /** The quintic's answers to a position, a speed and an acceleration at the start. */
  function FromPosition(u: real): real { 1.0 - 10.0 * (u * u * u) + 15.0 * (u * u * u * u) - 6.0 * (u * u * u * u * u) }
  function FromSpeed(u: real): real { u - 6.0 * (u * u * u) + 8.0 * (u * u * u * u) - 3.0 * (u * u * u * u * u) }
  function FromBend(u: real): real { u * u - 3.0 * (u * u * u) + 3.0 * (u * u * u * u) - u * u * u * u * u }

  lemma ThreeAnswers(rr: real, rT: real, TT: real, u: real)
    ensures Expanded(rr, rT, TT, u)
         == Times(rr, FromPosition(u)) - 2.0 * Times(rT, FromSpeed(u)) + Times(TT, FromBend(u))
  {
    PowersOut(rr, u);
    PowersOut(rT, u);
    PowersOut(TT, u);
  }

  lemma PowersOut(c: real, u: real)
    ensures Times(c, FromPosition(u)) == c - 10.0 * Times3(u, c) + 15.0 * Times4(u, c) - 6.0 * Times5(u, c)
    ensures Times(c, FromSpeed(u)) == Times(u, c) - 6.0 * Times3(u, c) + 8.0 * Times4(u, c) - 3.0 * Times5(u, c)
    ensures Times(c, FromBend(u)) == Times2(u, c) - 3.0 * Times3(u, c) + 3.0 * Times4(u, c) - Times5(u, c)
  {
  }

  lemma RestFactors(u: real)
    ensures FromPosition(u) == Times(Cube(1.0 - u), 1.0 + 3.0 * u + 6.0 * (u * u))
    ensures FromSpeed(u) == Times(Cube(1.0 - u), u + 3.0 * (u * u))
    ensures FromBend(u) == Times(Cube(1.0 - u), u * u)
  {
  }

  function Weighed(rho: real, g0: real, g1: real, g2: real): real { rho * rho * g0 - 2.0 * rho * g1 + g2 }

  lemma ShortfallWeighed(rho: real, u: real)
    ensures Shortfall(rho, u) == Weighed(rho, 1.0 + 3.0 * u + 6.0 * (u * u), u + 3.0 * (u * u), u * u)
  {
  }

  lemma Collected(c: real, TT: real, rho: real, g0: real, g1: real, g2: real)
    ensures Times(rho * rho * TT, Times(c, g0)) - 2.0 * Times(rho * TT, Times(c, g1)) + Times(TT, Times(c, g2))
         == Times(TT, Times(c, Weighed(rho, g0, g1, g2)))
  {
  }

  lemma ExpandedFactors(rho: real, rr: real, rT: real, TT: real, u: real)
    requires rr == rho * rho * TT && rT == rho * TT
    ensures Expanded(rr, rT, TT, u) == Times(TT, Times(Cube(1.0 - u), Shortfall(rho, u)))
  {
    hide Expanded, FromPosition, FromSpeed, FromBend, Cube, Times, Weighed, Shortfall;
    ThreeAnswers(rr, rT, TT, u);
    RestFactors(u);
    Collected(Cube(1.0 - u), TT, rho, 1.0 + 3.0 * u + 6.0 * (u * u), u + 3.0 * (u * u), u * u);
    ShortfallWeighed(rho, u);
  }

  lemma RestCoefficients(f: Polynomial, hold: real, s: real, r: real, T: real)
    requires T > 0.0
    requires f == Quintic(AtDistance(hold, s, r), Knot(hold, 0.0, 0.0), T)
    ensures var rr, rT, TT := r * r, r * T, T * T;
      && f.c0 == hold - Times(s, rr) && Times(T, f.c1) == 2.0 * Times(s, rT) && Times2(T, f.c2) == -Times(s, TT)
      && Times3(T, f.c3) == -Times(s, 12.0 * rT - 10.0 * rr - 3.0 * TT)
      && Times4(T, f.c4) == -Times(s, 15.0 * rr + 3.0 * TT - 16.0 * rT)
      && Times5(T, f.c5) == -Times(s, 6.0 * rT - 6.0 * rr - TT)
  {
    QuinticSolves(AtDistance(hold, s, r), Knot(hold, 0.0, 0.0), T);
    assert Times(T, 0.0) == 0.0 && Times2(T, 0.0) == 0.0;
    StartTerms(s, r, T);
    hide Times, Times2, Times3, Times4, Times5, Quintic;
    OneFactor(s, r * r, r * T, T * T);
    UndoHalfBend(T, f.c1, f.c2, s, r);
  }

  lemma StartTerms(s: real, r: real, T: real)
    ensures Times(T, 2.0 * Times(s, r)) == 2.0 * Times(s, r * T)
    ensures Times2(T, -2.0 * s) == -2.0 * Times(s, T * T)
  {
  }

  lemma UndoHalfBend(T: real, c1: real, c2: real, s: real, r: real)
    requires c1 == 2.0 * Times(s, r) && c2 == 0.5 * (-2.0 * s)
    ensures Times(T, c1) == 2.0 * Times(s, r * T) && Times2(T, c2) == -Times(s, T * T)
  {
  }

  lemma OneFactor(s: real, rr: real, rT: real, TT: real)
    ensures Times(s, 12.0 * rT - 10.0 * rr - 3.0 * TT) == 12.0 * Times(s, rT) - 10.0 * Times(s, rr) - 3.0 * Times(s, TT)
    ensures Times(s, 15.0 * rr + 3.0 * TT - 16.0 * rT) == 15.0 * Times(s, rr) + 3.0 * Times(s, TT) - 16.0 * Times(s, rT)
    ensures Times(s, 6.0 * rT - 6.0 * rr - TT) == 6.0 * Times(s, rT) - 6.0 * Times(s, rr) - Times(s, TT)
  {
  }

  lemma ScaledExpanded(s: real, rr: real, rT: real, TT: real, u: real)
    ensures Times(s, Expanded(rr, rT, TT, u))
         == Times(s, rr) - 2.0 * Times(u, Times(s, rT)) + Times2(u, Times(s, TT))
            + Times3(u, Times(s, 12.0 * rT - 10.0 * rr - 3.0 * TT))
            + Times4(u, Times(s, 15.0 * rr + 3.0 * TT - 16.0 * rT)) + Times5(u, Times(s, 6.0 * rT - 6.0 * rr - TT))
  {
    var a, b, c := 12.0 * rT - 10.0 * rr - 3.0 * TT, 15.0 * rr + 3.0 * TT - 16.0 * rT, 6.0 * rT - 6.0 * rr - TT;
    OutOfPowers(s, u, rT);
    OutOfPowers(s, u, TT);
    OutOfPowers(s, u, a);
    OutOfPowers(s, u, b);
    OutOfPowers(s, u, c);
    Spread(s, rr, Times(u, rT), Times2(u, TT), Times3(u, a), Times4(u, b), Times5(u, c));
  }

  lemma Spread(s: real, a: real, b: real, c: real, d: real, e: real, f: real)
    ensures Times(s, a - 2.0 * b + c + d + e + f)
         == Times(s, a) - 2.0 * Times(s, b) + Times(s, c) + Times(s, d) + Times(s, e) + Times(s, f)
  {
  }

  lemma OutOfPowers(s: real, u: real, x: real)
    ensures Times(s, Times(u, x)) == Times(u, Times(s, x)) && Times(s, Times2(u, x)) == Times2(u, Times(s, x))
    ensures Times(s, Times3(u, x)) == Times3(u, Times(s, x)) && Times(s, Times4(u, x)) == Times4(u, Times(s, x))
    ensures Times(s, Times5(u, x)) == Times5(u, Times(s, x))
  {
  }

  lemma NegatedPowers(u: real, x: real)
    ensures Times2(u, -x) == -Times2(u, x) && Times3(u, -x) == -Times3(u, x)
    ensures Times4(u, -x) == -Times4(u, x) && Times5(u, -x) == -Times5(u, x) && Times(u, 2.0 * x) == 2.0 * Times(u, x)
  {
  }

  lemma RestPosition(f: Polynomial, hold: real, s: real, r: real, T: real, u: real, rr: real, rT: real, TT: real)
    requires T > 0.0 && rr == r * r && rT == r * T && TT == T * T
    requires f == Quintic(AtDistance(hold, s, r), Knot(hold, 0.0, 0.0), T)
    ensures Position(f, u * T) == hold - Times(s, Expanded(rr, rT, TT, u))
  {
    hide Times, Times2, Times3, Times4, Times5, Expanded, Position, Quintic;
    RestCoefficients(f, hold, s, r, T);
    PositionAtFraction(f, T, u);
    ScaledExpanded(s, rr, rT, TT, u);
    NegatedPowers(u, Times(s, rT));
    NegatedPowers(u, Times(s, TT));
    NegatedPowers(u, Times(s, 12.0 * rT - 10.0 * rr - 3.0 * TT));
    NegatedPowers(u, Times(s, 15.0 * rr + 3.0 * TT - 16.0 * rT));
    NegatedPowers(u, Times(s, 6.0 * rT - 6.0 * rr - TT));
  }

  // ----- Where the shortfall is negative -----------------------------------------------------------------

  /** The joint has too little of the period left for braking: it is carried past its hold position. */
  predicate CarriesPast(rho: real) {
    5.0 * rho < 2.0 || 10.0 * rho * rho - 8.0 * rho + 1.0 < 0.0
  }

  /** The shortfall as a mean of three numbers, weighted by products of u and 1 - u. */
  lemma ShortfallIsMean(rho: real, u: real)
    ensures Shortfall(rho, u) == Times(Square(1.0 - u), Square(rho))
                                 + Times(Times(u, 1.0 - u), Times(rho, 5.0 * rho - 2.0))
                                 + Times(Square(u), 10.0 * rho * rho - 8.0 * rho + 1.0)
  {
  }

  lemma NoShortfall(rho: real, u: real)
    requires 0.0 <= rho && 0.0 <= u <= 1.0 && !CarriesPast(rho)
    ensures Shortfall(rho, u) >= 0.0
  {
    ShortfallIsMean(rho, u);
    NonNegative(Square(1.0 - u), Square(rho));
    NonNegative(u, 1.0 - u);
    NonNegative(rho, 5.0 * rho - 2.0);
    NonNegative(Times(u, 1.0 - u), Times(rho, 5.0 * rho - 2.0));
    NonNegative(Square(u), 10.0 * rho * rho - 8.0 * rho + 1.0);
  }

  /** At the very time at which the joint should have stopped. */
  lemma ShortfallAtStop(rho: real)
    requires rho > 0.0
    ensures Shortfall(rho, rho) < 0.0 <==> rho < 0.5
  {
    assert Shortfall(rho, rho) == Times(Cube(rho), 6.0 * rho - 3.0);
    Positive(rho, rho);
    Positive(Times(rho, rho), rho);
    assert Cube(rho) == Times(Times(rho, rho), rho);
    if rho < 0.5 {
      Positive(Cube(rho), 3.0 - 6.0 * rho);
      Negated2(Cube(rho), 6.0 * rho - 3.0);
    } else {
      NonNegative(Cube(rho), 6.0 * rho - 3.0);
    }
  }

  lemma Negated2(c: real, x: real)
    ensures Times(c, -x) == -Times(c, x)
  {
  }

  /** How far before the end of the segment to look. */
  function Margin(rho: real): real { -(10.0 * rho * rho - 8.0 * rho + 1.0) / 8.0 }

  lemma ShortfallNearEnd(rho: real)
    requires 0.5 <= rho <= 1.0 && CarriesPast(rho)
    ensures 0.0 < Margin(rho) < 1.0 && Shortfall(rho, 1.0 - Margin(rho)) < 0.0
  {
    var e := Margin(rho);
    SquareBounds(rho);
    ShortfallIsMean(rho, 1.0 - e);
    var w := Times(rho, 5.0 * rho - 2.0);
    assert w == 5.0 * Square(rho) - 2.0 * rho;
    WeightedBelow(e, Square(rho), w);
    assert 1.0 - (1.0 - e) == e;
    assert Times(1.0 - e, e) == Times(e, 1.0 - e);
  }

  lemma SquareBounds(rho: real)
    requires 0.5 <= rho <= 1.0
    ensures rho - 0.25 <= Square(rho) <= rho && 10.0 * rho * rho == 10.0 * Square(rho)
  {
    assert Square(rho - 0.5) == Square(rho) - rho + 0.25;
    NonNegative(rho, 1.0 - rho);
    assert Times(rho, 1.0 - rho) == rho - Square(rho);
  }

  lemma WeightedBelow(e: real, a: real, w: real)
    requires 0.0 < e <= 0.1 && 0.0 <= a <= 1.0 && w <= 3.0
    ensures Times(Square(e), a) + Times(Times(e, 1.0 - e), w) + Times(Square(1.0 - e), -8.0 * e) < 0.0
  {
    Larger(Square(e), a, 1.0);
    Positive(e, 1.0 - e);
    Larger(Times(e, 1.0 - e), w, 3.0);
    assert Times(Square(1.0 - e), -8.0 * e) == -8.0 * Times(e, Square(1.0 - e));
    assert Square(e) == Times(e, e);
    assert Times(Times(e, 1.0 - e), 3.0) == Times(e, 3.0 - 3.0 * e);
    Positive(e, 8.0 * Square(1.0 - e) - e - 3.0 + 3.0 * e);
  }

  // ----- The segment in which the joint stops --------------------------------------------------------------

  /** The joint still brakes at t and is held at the next ramp point. */
  predicate StopsWithin(b: Braking, t: real, T: real)
    requires Brakes(b)
  {
    T > 0.0 && MovesAt(b, t) && !MovesAt(b, t + T)
  }

  /** The part of the period that braking still takes. */
  function BrakingShare(b: Braking, t: real, T: real): real
    requires Brakes(b) && T > 0.0
  {
    Fraction(ToStop(b, t), T)
  }

  lemma ShareOfPeriod(b: Braking, t: real, T: real)
    requires Brakes(b) && StopsWithin(b, t, T)
    ensures 0.0 < BrakingShare(b, t, T) <= 1.0
    ensures var rho := BrakingShare(b, t, T);
      ToStop(b, t) * ToStop(b, t) == rho * rho * (T * T) && ToStop(b, t) * T == rho * (T * T)
  {
    var rho, r := BrakingShare(b, t, T), ToStop(b, t);
    UndoDivision(r, T);
    assert r == Times(T, rho);
    if rho <= 0.0 {
      Larger(T, rho, 0.0);
    } else if rho > 1.0 {
      LargerStrict(T, 1.0, rho);
    }
    SquaredShare(T, rho, r);
  }

  lemma SquaredShare(T: real, rho: real, r: real)
    requires r == Times(T, rho)
    ensures r * r == rho * rho * (T * T) && r * T == rho * (T * T)
  {
  }

  /** The curve from the ramp point before the stop to the one after it. */
  function StopCurve(b: Braking, t: real, T: real): Polynomial
    requires Brakes(b)
  {
    Quintic(RampKnot(b, t), RampKnot(b, t + T), T)
  }

  /** Twice the distance still to go, u of the way through the segment. */
  lemma WayToGo(b: Braking, t: real, T: real, u: real)
    requires Brakes(b) && StopsWithin(b, t, T)
    ensures 2.0 * Remaining(b, Position(StopCurve(b, t, T), u * T))
         == Times(b.decel, Times(T * T, Times(Cube(1.0 - u), Shortfall(BrakingShare(b, t, T), u))))
  {
    hide Expanded, Position, Quintic, Cube, Shortfall, BrakingShare, ToStop, Times, Bend, Remaining;
    hide BrakingState, AtDistance;
    var r, rho := ToStop(b, t), BrakingShare(b, t, T);
    var rr, rT, TT := r * r, r * T, T * T;
    GuardNeverFires(b, t);
    StateToStop(b, t);
    ShareOfPeriod(b, t, T);
    RestPosition(StopCurve(b, t, T), HoldPosition(b), Bend(b), r, T, u, rr, rT, TT);
    ExpandedFactors(rho, rr, rT, TT, u);
    HalfBend(b, HoldPosition(b), Expanded(rr, rT, TT, u));
  }

  lemma HalfBend(b: Braking, hold: real, e: real)
    requires Brakes(b) && hold == HoldPosition(b)
    ensures 2.0 * Remaining(b, hold - Times(Bend(b), e)) == Times(b.decel, e)
  {
    assert Times(Bend(b), e) == 0.5 * Times(Direction(b), Times(b.decel, e));
    SignSquared(b, Times(b.decel, e));
  }

  lemma NegativeProduct(c: real, x: real)
    requires c > 0.0
    ensures Times(c, x) < 0.0 <==> x < 0.0
  {
    if x < 0.0 {
      Positive(c, -x);
      Negated2(c, x);
    } else {
      NonNegative(c, x);
    }
  }

  /** Before the end of the segment the joint is past its hold position exactly while the shortfall is negative. */
  lemma PastHoldExactly(b: Braking, t: real, T: real, u: real, x: real)
    requires Brakes(b) && StopsWithin(b, t, T) && 0.0 <= u <= 1.0 && x == u * T
    ensures Remaining(b, Position(StopCurve(b, t, T), x)) < 0.0
            <==> u < 1.0 && Shortfall(BrakingShare(b, t, T), u) < 0.0
  {
    hide Times, Cube, Shortfall, Position, StopCurve, Remaining, MovesAt;
    WayToGo(b, t, T, u);
    var q, TT := Shortfall(BrakingShare(b, t, T), u), T * T;
    CubeOfRest(u, q);
    PositivePeriod(b, t, T, TT);
    NegativeProduct(TT, Times(Cube(1.0 - u), q));
    NegativeProduct(b.decel, Times(TT, Times(Cube(1.0 - u), q)));
  }

  lemma PositivePeriod(b: Braking, t: real, T: real, TT: real)
    requires Brakes(b) && StopsWithin(b, t, T) && TT == T * T
    ensures TT > 0.0
  {
    Positive(T, T);
    assert Times(T, T) == T * T;
  }

  lemma CubeOfRest(u: real, q: real)
    requires 0.0 <= u <= 1.0
    ensures Times(Cube(1.0 - u), q) < 0.0 <==> u < 1.0 && q < 0.0
  {
    if u < 1.0 {
      Positive(1.0 - u, 1.0 - u);
      Positive(Times(1.0 - u, 1.0 - u), 1.0 - u);
      assert Cube(1.0 - u) == Times(Times(1.0 - u, 1.0 - u), 1.0 - u);
      NegativeProduct(Cube(1.0 - u), q);
    } else {
      assert Cube(0.0) == 0.0 && Times(0.0, q) == 0.0;
    }
  }

  /** Somewhere on its way through the segment the joint is past its hold position exactly when braking takes too small
      a part of the period: less than two fifths, or less than the larger root of a quadratic, about 0.645. */
  lemma PassesHoldExactly(b: Braking, t: real, T: real)
    requires Brakes(b) && StopsWithin(b, t, T)
    ensures (exists x :: 0.0 <= x <= T && Remaining(b, Position(StopCurve(b, t, T), x)) < 0.0)
            <==> CarriesPast(BrakingShare(b, t, T))
  {
    if CarriesPast(BrakingShare(b, t, T)) {
      var x := PlacePastHold(b, t, T);
    } else {
      forall x | 0.0 <= x <= T
        ensures Remaining(b, Position(StopCurve(b, t, T), x)) >= 0.0
      {
        NowherePastHold(b, t, T, x);
      }
    }
  }

  lemma PlacePastHold(b: Braking, t: real, T: real) returns (x: real)
    requires Brakes(b) && StopsWithin(b, t, T) && CarriesPast(BrakingShare(b, t, T))
    ensures 0.0 <= x <= T && Remaining(b, Position(StopCurve(b, t, T), x)) < 0.0
  {
    hide Shortfall, Position, StopCurve, Remaining, CarriesPast, BrakingShare;
    ShareOfPeriod(b, t, T);
    var u := WhereToLook(BrakingShare(b, t, T));
    WithinPeriod(u, T);
    x := u * T;
    PastHoldExactly(b, t, T, u, x);
  }

  lemma NowherePastHold(b: Braking, t: real, T: real, x: real)
    requires Brakes(b) && StopsWithin(b, t, T) && !CarriesPast(BrakingShare(b, t, T)) && 0.0 <= x <= T
    ensures Remaining(b, Position(StopCurve(b, t, T), x)) >= 0.0
  {
    hide Shortfall, Position, StopCurve, Remaining, CarriesPast, BrakingShare;
    ShareOfPeriod(b, t, T);
    FractionOfPeriod(x, T);
    var u := Fraction(x, T);
    PastHoldExactly(b, t, T, u, x);
    NoShortfall(BrakingShare(b, t, T), u);
  }

  lemma WhereToLook(rho: real) returns (u: real)
    requires 0.0 < rho <= 1.0 && CarriesPast(rho)
    ensures 0.0 <= u < 1.0 && Shortfall(rho, u) < 0.0
  {
    if rho < 0.5 {
      ShortfallAtStop(rho);
      u := rho;
    } else {
      ShortfallNearEnd(rho);
      u := 1.0 - Margin(rho);
    }
  }

  lemma WithinPeriod(u: real, T: real)
    requires 0.0 <= u <= 1.0 && T > 0.0
    ensures 0.0 <= u * T <= T
  {
    Larger(T, 0.0, u);
    Larger(T, u, 1.0);
    assert Times(T, u) == u * T;
  }

  function Fraction(x: real, T: real): real
    requires T > 0.0
  {
    x / T
  }

  lemma FractionOfPeriod(x: real, T: real)
    requires 0.0 <= x <= T && T > 0.0
    ensures 0.0 <= Fraction(x, T) <= 1.0 && x == Fraction(x, T) * T
    ensures x < T ==> Fraction(x, T) < 1.0
  {
    var q := x / T;
    UndoDivision(x, T);
    assert x == Times(T, q);
    if q < 0.0 {
      LargerStrict(T, q, 0.0);
    } else if q > 1.0 {
      LargerStrict(T, 1.0, q);
    } else if q == 1.0 {
      assert x == T;
    }
  }

  lemma ShareUndone(b: Braking, t: real, T: real)
    requires Brakes(b) && T > 0.0
    ensures BrakingShare(b, t, T) * T == ToStop(b, t)
  {
    UndoDivision(ToStop(b, t), T);
  }

  /** At the time at which the joint should come to rest it has already passed its hold position exactly when
      braking takes less than half of the period. */
  lemma PastHoldAtStop(b: Braking, t: real, T: real)
    requires Brakes(b) && StopsWithin(b, t, T)
    ensures Remaining(b, Position(StopCurve(b, t, T), ToStop(b, t))) < 0.0 <==> BrakingShare(b, t, T) < 0.5
  {
    hide Shortfall, Position, StopCurve, Remaining, BrakingShare, ToStop;
    var rho := BrakingShare(b, t, T);
    ShareOfPeriod(b, t, T);
    ShareUndone(b, t, T);
    PastHoldExactly(b, t, T, rho, ToStop(b, t));
    ShortfallAtStop(rho);
  }

  // ----- What sampling shows of it ------------------------------------------------------------------------

  /** A sample between the last ramp point at which the joint brakes and the first at which it is held is past the
      hold position exactly when the shortfall is negative there; no sample is if braking takes enough of the
      period. */
  lemma StopSampled(s: State, points: seq<TrajectoryPoint>, joints: seq<Braking>, period: int, k: nat, i: nat, t: int)
    requires AllBrake(joints) && period > 0 && |joints| <= Dim(s) && AllHaveRoom(points, |joints|)
    requires RampInstalled(s, points, joints, period) && k + 1 < |s.points| && i < |joints|
    requires s.timeBefore <= t && PointTime(s, k) <= t < PointTime(s, k + 1)
    requires MovesAt(joints[i], Seconds(k * period)) && !MovesAt(joints[i], Seconds((k + 1) * period))
    ensures StateAt(s, t).Sampled? && i < |StateAt(s, t).output.positions|
    ensures Seconds(period) > 0.0
    ensures var rho := BrakingShare(joints[i], GridTime(period, k), Seconds(period));
      var past := Remaining(joints[i], StateAt(s, t).output.positions[i]) < 0.0;
      && (past <==> Shortfall(rho, Fraction(Seconds(t - PointTime(s, k)), Seconds(period))) < 0.0)
      && (past ==> CarriesPast(rho))
  {
    hide StateAt, Shortfall, CarriesPast, Position, Remaining, MovesAt, BrakingShare, RampKnot, Quintic, Ramp;
    hide Valid, GridTime, PointTime, AllHaveRoom, SegmentState, Reports, Seconds, Fraction;
    RampSegmentSampled(s, points, joints, period, k, i, t);
    GridIsTime(period, k);
    Reported(StateAt(s, t), Dim(s), i, SegmentState(joints[i], period, k, Seconds(t - PointTime(s, k))));
    TimeInSegment(s, points, joints, period, k, i, t);
    PastHoldOnSegment(joints[i], period, k, Seconds(t - PointTime(s, k)));
  }

  lemma GridIsTime(period: int, k: nat)
    ensures GridTime(period, k) == Seconds(k * period) && GridTime(period, k + 1) == Seconds((k + 1) * period)
  {
  }

  lemma Reported(r: Outcome, dim: nat, i: nat, joint: Knot)
    requires Waypoints.Reports(r, dim, i, joint)
    ensures r.Sampled? && i < |r.output.positions| && r.output.positions[i] == joint.pos
  {
  }

  lemma PastHoldOnSegment(b: Braking, period: int, k: nat, x: real)
    requires Brakes(b) && period > 0 && 0.0 <= x < Seconds(period)
    requires MovesAt(b, GridTime(period, k)) && !MovesAt(b, GridTime(period, k + 1))
    ensures var rho := BrakingShare(b, GridTime(period, k), Seconds(period));
      var past := Remaining(b, SegmentState(b, period, k, x).pos) < 0.0;
      (past <==> Shortfall(rho, Fraction(x, Seconds(period))) < 0.0) && (past ==> CarriesPast(rho))
  {
    hide Shortfall, CarriesPast, Position, Remaining, MovesAt, BrakingShare, SegmentState, Quintic, GridTime;
    hide StopCurve, Fraction, Seconds;
    OnStopCurve(b, period, k, x);
    FractionOfPeriod(x, Seconds(period));
    PastHoldOnCurve(b, GridTime(period, k), Seconds(period), Fraction(x, Seconds(period)), x);
  }

  lemma PastHoldOnCurve(b: Braking, t: real, T: real, u: real, x: real)
    requires Brakes(b) && StopsWithin(b, t, T) && 0.0 <= u < 1.0 && x == u * T
    ensures var rho, past := BrakingShare(b, t, T), Remaining(b, Position(StopCurve(b, t, T), x)) < 0.0;
      (past <==> Shortfall(rho, u) < 0.0) && (past ==> CarriesPast(rho))
  {
    hide Shortfall, CarriesPast, Position, Remaining, MovesAt, BrakingShare, StopCurve;
    PastHoldExactly(b, t, T, u, x);
    ShareOfPeriod(b, t, T);
    if !CarriesPast(BrakingShare(b, t, T)) {
      NoShortfall(BrakingShare(b, t, T), u);
    }
  }

  lemma OnStopCurve(b: Braking, period: int, k: nat, x: real)
    requires Brakes(b) && period > 0
    requires MovesAt(b, GridTime(period, k)) && !MovesAt(b, GridTime(period, k + 1))
    ensures Seconds(period) > 0.0 && StopsWithin(b, GridTime(period, k), Seconds(period))
    ensures SegmentState(b, period, k, x) == KnotAt(StopCurve(b, GridTime(period, k), Seconds(period)), x)
  {
    GridSteps(period, k);
  }

  lemma TimeInSegment(s: State, points: seq<TrajectoryPoint>, joints: seq<Braking>, period: int, k: nat, i: nat, t: int)
    requires AllBrake(joints) && period > 0 && |joints| <= Dim(s) && AllHaveRoom(points, |joints|)
    requires RampInstalled(s, points, joints, period) && k + 1 < |s.points| && i < |joints|
    requires PointTime(s, k) <= t < PointTime(s, k + 1)
    ensures 0.0 <= Seconds(t - PointTime(s, k)) < Seconds(period)
  {
    RampArrival(s, points, joints, period, k, i);
    assert (k + 1) * period == k * period + period;
    RampEntryAt(points, joints, period, Dim(s), k + 1, i);
  }

  /** A joint at 1.5 units a second with a deceleration of 1 and ramp points every second: half a second of braking
      is left at the second point, and a quarter of a second before the third the joint is past its hold position. */
  lemma LateStopPassesHold()
    ensures var b := Braking(0.0, 1.5, 1.0);
      && Brakes(b) && HoldPosition(b) == 1.125 && StopsWithin(b, 1.0, 1.0) && CarriesPast(BrakingShare(b, 1.0, 1.0))
      && Position(StopCurve(b, 1.0, 1.0), 0.75) > 1.126
  {
    hide Position, Quintic, Cube, Shortfall;
    var b := Braking(0.0, 1.5, 1.0);
    assert StopTime(b) == 1.5 && BrakingShare(b, 1.0, 1.0) == 0.5;
    WayToGo(b, 1.0, 1.0, 0.75);
    ShortfallThere();
  }

  lemma ShortfallThere()
    ensures Times(1.0 * 1.0, Times(Cube(1.0 - 0.75), Shortfall(0.5, 0.75))) == -0.00341796875
  {
  }
}
