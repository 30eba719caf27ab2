/**
 * Money as exact reals.  Python's `round(x, 2)` is modelled on the exact value
 * of its argument: to the nearest whole paisa (1/100), ties to the even paisa.
 */
module Money {

  /** `x` is a whole number of paise. */
  predicate IsCents(x: real) {
    (x * 100.0).Floor as real == x * 100.0
  }

  /** Python's `round(x, 2)`. */
  function Round2(x: real): (r: real)
    ensures IsCents(r)
    ensures -0.005 <= r - x <= 0.005
  {
    var y := x * 100.0;
    var f := y.Floor;
    var frac := y - f as real;
    var n := if frac < 0.5 then f else if frac > 0.5 then f + 1 else if f % 2 == 0 then f else f + 1;
    n as real / 100.0
  }

  /** Rounding leaves an amount that is already whole paise unchanged. */
  lemma RoundCents(x: real)
    requires IsCents(x)
    ensures Round2(x) == x
  {
    var f := (x * 100.0).Floor;
    assert f as real == x * 100.0;
  }

  /** Rounding preserves order. */
  lemma RoundMonotone(x: real, y: real)
    requires x <= y
    ensures Round2(x) <= Round2(y)
  {
    var fx, fy := (x * 100.0).Floor, (y * 100.0).Floor;
    assert fx <= fy;
  }

  /** The sum of two whole-paise amounts is whole paise. */
  lemma CentsSum(a: real, b: real)
    requires IsCents(a) && IsCents(b)
    ensures IsCents(a + b)
  {
    var ka, kb := (a * 100.0).Floor, (b * 100.0).Floor;
    assert (a + b) * 100.0 == (ka + kb) as real;
  }

  /** A whole number of rupees is whole paise. */
  lemma WholeAmountIsCents(k: int)
    ensures IsCents(k as real)
  {
    assert k as real * 100.0 == (k * 100) as real;
  }

  /** Exact ties go to the even paisa, as Python's `round` does. */
  lemma RoundTiesToEven()
    ensures Round2(0.125) == 0.12 && Round2(0.135) == 0.14
  {
    assert (0.125 * 100.0).Floor == 12;
    assert (0.135 * 100.0).Floor == 13;
  }
}
