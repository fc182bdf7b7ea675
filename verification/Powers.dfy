/** Real algebra used by the spline proofs. A product of several factors is wrapped in a function so
    that the solver meets it as one term; each lemma is one small polynomial identity. */
module Powers {

  /** The machine epsilon of single precision, 2^-23. */
  const FLOAT_EPSILON := 1.0 / 8388608.0

  function Times(T: real, c: real): real { T * c }
  function Times2(T: real, c: real): real { T * T * c }
  function Times3(T: real, c: real): real { T * T * T * c }
  function Times4(T: real, c: real): real { T * T * T * T * c }
  function Times5(T: real, c: real): real { T * T * T * T * T * c }
  function FourthPower(T: real): real { T * T * T * T }

  lemma Nested(T: real, c: real)
    ensures Times2(T, c) == Times(T, Times(T, c))
    ensures Times3(T, c) == Times(T, Times2(T, c))
    ensures Times4(T, c) == Times(T, Times3(T, c))
    ensures Times5(T, c) == Times(T, Times4(T, c))
  {
  }

  lemma Cancel(T: real, x: real, y: real)
    requires T > 0.0
    ensures Times(T, x) == Times(T, y) ==> x == y
  {
  }

  lemma CancelPower(T: real, x: real, y: real)
    requires T > 0.0
    ensures Times(T, x) == Times(T, y) ==> x == y
    ensures Times2(T, x) == Times2(T, y) ==> x == y
    ensures Times3(T, x) == Times3(T, y) ==> x == y
    ensures Times4(T, x) == Times4(T, y) ==> x == y
    ensures Times5(T, x) == Times5(T, y) ==> x == y
  {
    Nested(T, x);
    Nested(T, y);
    Cancel(T, x, y);
    Cancel(T, Times(T, x), Times(T, y));
    Cancel(T, Times2(T, x), Times2(T, y));
    Cancel(T, Times3(T, x), Times3(T, y));
    Cancel(T, Times4(T, x), Times4(T, y));
  }

  lemma Positive(x: real, y: real)
    requires x > 0.0 && y > 0.0
    ensures Times(x, y) > 0.0
  {
  }

  lemma UndoHalf(n: real, d: real)
    requires d > 0.0
    ensures d * (n / (2.0 * d)) == n / 2.0
  {
  }

  lemma Fourth(T: real, n: real)
    requires T > 0.0
    ensures FourthPower(T) > 0.0
    ensures Times4(T, n / (2.0 * (T * T * T * T))) == n / 2.0
  {
    assert FourthPower(T) > 0.0 by {
      Positive(T, T);
      Positive(Times(T, T), T);
      Positive(Times(Times(T, T), T), T);
    }
    var q := n / (2.0 * FourthPower(T));
    UndoHalf(n, FourthPower(T));
    assert Times4(T, q) == FourthPower(T) * q;
  }

  lemma QuotientsUndone(T: real, n: real)
    requires T > 0.0
    ensures Times2(T, n / (T * T)) == n
    ensures Times3(T, n / (T * T * T)) == n
    ensures Times3(T, n / (2.0 * (T * T * T))) == n / 2.0
    ensures Times4(T, n / (2.0 * (T * T * T * T))) == n / 2.0
    ensures Times5(T, n / (2.0 * (T * T * T * T * T))) == n / 2.0
  {
    Fourth(T, n);
  }

  lemma ProductOfPowers(u: real, T: real, c: real)
    ensures Times(u * T, c) == Times(u, Times(T, c))
    ensures Times2(u * T, c) == Times2(u, Times2(T, c))
    ensures Times3(u * T, c) == Times3(u, Times3(T, c))
    ensures Times4(u * T, c) == Times4(u, Times4(T, c))
    ensures Times5(u * T, c) == Times5(u, Times5(T, c))
  {
  }

  /** A factor moves through powers of another. */
  lemma Through(T: real, u: real, y: real)
    ensures Times(T, Times(u, y)) == Times(u, Times(T, y))
    ensures Times(T, Times2(u, y)) == Times2(u, Times(T, y))
    ensures Times(T, Times3(u, y)) == Times3(u, Times(T, y))
    ensures Times(T, Times4(u, y)) == Times4(u, Times(T, y))
  {
  }

  lemma OneMorePower(u: real, T: real, c: real)
    ensures Times(T, Times(u, Times(T, c))) == Times(u, Times2(T, c))
    ensures Times(T, Times2(u, Times2(T, c))) == Times2(u, Times3(T, c))
    ensures Times(T, Times3(u, Times3(T, c))) == Times3(u, Times4(T, c))
    ensures Times(T, Times4(u, Times4(T, c))) == Times4(u, Times5(T, c))
  {
    hide *;
    Nested(T, c);
    Through(T, u, Times(T, c));
    Through(T, u, Times2(T, c));
    Through(T, u, Times3(T, c));
    Through(T, u, Times4(T, c));
  }

  lemma DistributeFive(T: real, a: real, b: real, c: real, d: real, e: real)
    ensures Times(T, a + b + c + d + e) == Times(T, a) + Times(T, b) + Times(T, c) + Times(T, d) + Times(T, e)
  {
  }

  lemma ScalarOut(T: real, x: real)
    ensures Times(T, 2.0 * x) == 2.0 * Times(T, x) && Times(T, 3.0 * x) == 3.0 * Times(T, x)
    ensures Times(T, 4.0 * x) == 4.0 * Times(T, x) && Times(T, 5.0 * x) == 5.0 * Times(T, x)
  {
  }

  lemma ConstantFactor(u: real, k: real, delta: real)
    ensures Times(u, k * delta) == k * Times(delta, u)
    ensures Times2(u, k * delta) == k * Times(delta, u * u)
    ensures Times3(u, k * delta) == k * Times(delta, u * u * u)
    ensures Times4(u, k * delta) == k * Times(delta, u * u * u * u)
    ensures Times5(u, k * delta) == k * Times(delta, u * u * u * u * u)
  {
  }

  lemma NonNegative(x: real, y: real)
    requires x >= 0.0 && y >= 0.0
    ensures Times(x, y) >= 0.0
  {
  }

  lemma Divided(n: real, T: real)
    requires T != 0.0
    ensures Times(T, n / T) == n
  {
  }

  lemma Larger(c: real, x: real, y: real)
    requires c >= 0.0 && x <= y
    ensures Times(c, x) <= Times(c, y)
  {
    NonNegative(c, y - x);
    assert Times(c, y - x) == Times(c, y) - Times(c, x);
  }

  lemma Negated(c: real, x: real)
    ensures Times(-c, x) == -Times(c, x)
  {
  }

  function Square(x: real): (r: real)
    ensures r >= 0.0
  {
    x * x
  }

  function Abs(x: real): (r: real)
    ensures r >= 0.0
  {
    if x >= 0.0 then x else -x
  }
}
