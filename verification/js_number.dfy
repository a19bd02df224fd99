/** JavaScript number arithmetic that the heading code relies on, over exact reals. */
module JsNumber {

  /** Rounds toward zero, the quotient JavaScript's `%` is defined with. */
  function Trunc(x: real): (q: int)
    ensures 0.0 <= x ==> q as real <= x < q as real + 1.0
    ensures x < 0.0 ==> q as real - 1.0 < x <= q as real
  {
    if x >= 0.0 then x.Floor else -((-x).Floor)
  }

  /** The part of `y` that truncation toward zero drops; it keeps the sign of `y`. */
  function Fraction(y: real): (f: real)
    ensures 0.0 <= y ==> 0.0 <= f < 1.0
    ensures y < 0.0 ==> -1.0 < f <= 0.0
  {
    y - Trunc(y) as real
  }

  /**
   * JavaScript's `x % m` for a positive modulus: `x` less `m` times the
   * quotient truncated toward zero, written here as `m` times the fraction
   * of `x / m` that truncation drops (the same real). The remainder takes
   * the sign of `x` and stays within one modulus of zero.
   */
  function Rem(x: real, m: real): (r: real)
    requires m > 0.0
    ensures 0.0 <= x ==> 0.0 <= r < m
    ensures x < 0.0 ==> -m < r <= 0.0
  {
    if 0.0 <= x then
      RemOfNonNegative(x, m);
      m * Fraction(x / m)
    else
      RemOfNegative(x, m);
      m * Fraction(x / m)
  }

  lemma RemOfNonNegative(x: real, m: real)
    requires m > 0.0 && 0.0 <= x
    ensures 0.0 <= m * Fraction(x / m) < m
  {
    SameSign(x, m);
    ScaleUnit(Fraction(x / m), m);
  }

  lemma RemOfNegative(x: real, m: real)
    requires m > 0.0 && x < 0.0
    ensures -m < m * Fraction(x / m) <= 0.0
  {
    SameSign(x, m);
    ScaleUnit(Fraction(x / m), m);
  }

  /** Division by a positive modulus keeps the sign. */
  lemma SameSign(x: real, m: real)
    requires m > 0.0
    ensures 0.0 <= x <==> 0.0 <= x / m
  {
  }

  /** A fraction of the modulus stays below the modulus. */
  lemma ScaleUnit(f: real, m: real)
    requires m > 0.0
    ensures 0.0 <= f < 1.0 ==> 0.0 <= m * f < m
    ensures -1.0 < f <= 0.0 ==> -m < m * f <= 0.0
  {
    if 0.0 <= f < 1.0 {
      Scale(f, 1.0, m);
      Scale(0.0, f, m);
    }
    if -1.0 < f <= 0.0 {
      Scale(-1.0, f, m);
      Scale(f, 0.0, m);
    }
  }

  /** Multiplying both sides by a positive factor keeps an inequality. */
  lemma Scale(a: real, b: real, m: real)
    requires m > 0.0
    ensures a <= b ==> m * a <= m * b
    ensures a < b ==> m * a < m * b
  {
    var d := b - a;
    assert m * b == m * a + m * d;
  }

  /** `Rem` takes away the truncated quotient's whole number of moduli. */
  lemma RemMultiple(x: real, m: real) returns (k: int)
    requires m > 0.0
    ensures k == Trunc(x / m)
    ensures Rem(x, m) == x - m * k as real
  {
    k := Trunc(x / m);
    var y := x / m;
    Times(m, Fraction(y), y - k as real);
    Distribute(m, y, k as real);
    Cancel(x, m);
  }

  /** Equal factors give equal products. */
  lemma Times(m: real, a: real, b: real)
    requires a == b
    ensures m * a == m * b
  {
  }

  /** Multiplying the quotient back gives the dividend. */
  lemma Cancel(x: real, m: real)
    requires m > 0.0
    ensures m * (x / m) == x
  {
  }

  lemma Distribute(m: real, a: real, b: real)
    ensures m * (a - b) == m * a - m * b
  {
  }

  /**
   * For a non-negative dividend written as `q` whole moduli plus a remainder
   * `r` in [0, m), JavaScript's `%` returns exactly `r`.
   */
  lemma RemOfDecomposition(x: real, m: real, q: int, r: real)
    requires m > 0.0 && 0 <= q && 0.0 <= r < m
    requires x == m * q as real + r
    ensures Rem(x, m) == r
  {
    var g := r / m;
    FractionBelowOne(r, m);
    Cancel(r, m);
    Gather(m, q as real, g);
    Uncancel(m, q as real + g);
    var y := x / m;
    assert y == q as real + g;
    assert Trunc(y) == q;
    assert Fraction(y) == g;
    Times(m, Fraction(y), g);
  }

  /** A remainder below the modulus is a fraction below one of it. */
  lemma FractionBelowOne(r: real, m: real)
    requires m > 0.0 && 0.0 <= r < m
    ensures 0.0 <= r / m < 1.0
  {
    SameSign(r, m);
    Cancel(r, m);
    Scale(1.0, r / m, m);
  }

  lemma Gather(m: real, a: real, b: real)
    ensures m * a + m * b == m * (a + b)
  {
  }

  /** Dividing a multiple of the modulus by it gives the factor back. */
  lemma Uncancel(m: real, z: real)
    requires m > 0.0
    ensures (m * z) / m == z
  {
  }

  /** JavaScript's `Math.abs`. */
  function Abs(x: real): (r: real)
    ensures 0.0 <= r
    ensures r == x || r == -x
  {
    if x < 0.0 then -x else x
  }
}
