// Floating-point values of the simulation, modelled over the reals.
// `NaN` stands for every non-finite IEEE double (NaN and both infinities),
// which the simulation uses as "no value" (an empty market, no usable price).
module Numbers {

  datatype Num = Finite(value: real) | NaN

  datatype Option<T> = None | Some(value: T)

  function Max(x: real, y: real): (r: real)
    ensures r >= x && r >= y
    ensures r == x || r == y
  {
    if x >= y then x else y
  }

  function Min(x: real, y: real): (r: real)
    ensures r <= x && r <= y
    ensures r == x || r == y
  {
    if x <= y then x else y
  }

  /** (c0 * x + c1) / x splits into c0 + c1 / x when x is not zero. */
  lemma DivSplit(c0: real, c1: real, x: real)
    requires x != 0.0
    ensures (c0 * x + c1) / x == c0 + c1 / x
  {
    assert (c0 * x) / x == c0;
  }

  /** A negative numerator over a growing positive denominator grows. */
  lemma NegativeOverGrowing(c: real, x: real, y: real)
    requires c < 0.0 && 0.0 < x < y
    ensures c / x < c / y
  {
    var d := c / x - c / y;
    assert c / x * x == c;
    assert c / y * y == c;
    assert d * (x * y) == c * y - c * x;
    assert c * y < c * x;
    assert d * (x * y) < 0.0;
    assert x * y > 0.0;
  }
}
