/** The chi-square probability density (chiSquarePdf). */
module Density {
  import opened MathEnv
  import opened Gamma

  /** chiSquarePdf(x, k): zero off the positive reals, otherwise
      x^(k/2 - 1) · e^(-x/2) / (2^(k/2) · Γ(k/2)). */
  function ChiSquarePdf(m: MathLib, x: real, k: nat): (r: real)
    requires Valid(m)
    ensures x <= 0.0 ==> r == 0.0
    ensures x > 0.0 ==> r > 0.0
    ensures r >= 0.0
  {
    if x <= 0.0 then 0.0
    else
      var alpha := k as real / 2.0;
      var coef := 1.0 / (m.pow(2.0, alpha) * GammaIntOrHalf(m, k));
      PositiveProduct(coef, m.pow(x, alpha - 1.0), m.exp(-x / 2.0));
      coef * m.pow(x, alpha - 1.0) * m.exp(-x / 2.0)
  }

  /** A product of three positive factors is positive. */
  lemma {:induction false} PositiveProduct(a: real, b: real, c: real)
    requires a > 0.0 && b > 0.0 && c > 0.0
    ensures a * b * c > 0.0
  {
    assert a * b > 0.0;
  }
}
