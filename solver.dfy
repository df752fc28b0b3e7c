/** computeCriticalValue: the critical value x at which the upper-tail probability
    of the sampled, normalised cumulative distribution equals alpha. */
module Solver {
  import opened MathEnv
  import opened Sampler
  import opened Integrator
  import opened Search

  /** The result { xCrit, critIndex }. */
  datatype CriticalPoint = CriticalPoint(xCrit: real, critIndex: nat)

  /** alpha = alphaPercent / 100, replaced by 0.05 unless strictly between 0 and 1. */
  function SanitizeAlpha(alphaPercent: real): (alpha: real)
    ensures 0.0 < alpha < 1.0
    ensures 0.0 < alphaPercent / 100.0 < 1.0 ==> alpha == alphaPercent / 100.0
    ensures !(0.0 < alphaPercent / 100.0 < 1.0) ==> alpha == 0.05
  {
    var alpha := alphaPercent / 100.0;
    if alpha > 0.0 && alpha < 1.0 then alpha else 0.05
  }

  /** targetLower = 1 - alpha: the cumulative probability at the left edge of the tail. */
  function TargetLower(alphaPercent: real): (t: real)
    ensures 0.0 < t < 1.0
  {
    1.0 - SanitizeAlpha(alphaPercent)
  }

  /** Math.min(Math.max(t, 0), 1). */
  function Clamp01(t: real): (r: real)
    ensures 0.0 <= r <= 1.0
    ensures 0.0 <= t <= 1.0 ==> r == t
    ensures t < 0.0 ==> r == 0.0
    ensures t > 1.0 ==> r == 1.0
  {
    Min(Max(t, 0.0), 1.0)
  }

  /** t = (target - cdfPrev) / (cdfCurr - cdfPrev || 1): how far target lies from
      cdfPrev towards cdfCurr, with a zero difference replaced by 1. */
  function Fraction(cdfPrev: real, cdfCurr: real, target: real): (t: real)
    ensures cdfCurr != cdfPrev ==> cdfPrev + t * (cdfCurr - cdfPrev) == target
    ensures cdfCurr == cdfPrev ==> t == target - cdfPrev
    ensures cdfPrev < cdfCurr && cdfPrev <= target <= cdfCurr ==> 0.0 <= t <= 1.0
  {
    var diff := cdfCurr - cdfPrev;
    var t := (target - cdfPrev) / (if diff == 0.0 then 1.0 else diff);
    assert diff != 0.0 ==> t * diff == target - cdfPrev;
    if cdfPrev < cdfCurr && cdfPrev <= target <= cdfCurr then
      assert (target - cdfPrev) <= diff;
      FractionBound(target - cdfPrev, diff);
      t
    else t
  }

  /** 0 <= u <= d with d > 0 give 0 <= u / d <= 1. */
  lemma FractionBound(u: real, d: real)
    requires 0.0 <= u <= d && d > 0.0
    ensures 0.0 <= u / d <= 1.0
  {
  }

  /** xPrev + (xCurr - xPrev)·c: the point a fraction c of the way from xPrev to xCurr. */
  function Lerp(xPrev: real, xCurr: real, c: real): (x: real)
    requires 0.0 <= c <= 1.0
    ensures c == 0.0 ==> x == xPrev
    ensures c == 1.0 ==> x == xCurr
    ensures xPrev <= xCurr ==> xPrev <= x <= xCurr
  {
    LerpBounds(xPrev, xCurr, c);
    xPrev + (xCurr - xPrev) * c
  }

  /** xPrev + (xCurr - xPrev)·c lies in [xPrev, xCurr] when xPrev <= xCurr and 0 <= c <= 1. */
  lemma LerpBounds(xPrev: real, xCurr: real, c: real)
    requires 0.0 <= c <= 1.0
    ensures xPrev <= xCurr ==> xPrev <= xPrev + (xCurr - xPrev) * c <= xCurr
  {
    if xPrev <= xCurr {
      ScaleMonotone(xPrev, xCurr, 0.0, c);
      ScaleMonotone(xPrev, xCurr, c, 1.0);
    }
  }

  /** xCrit from critIndex: x_0 at index 0, otherwise the linear interpolation between
      x_(critIndex-1) and x_critIndex at the clamped fraction of the way. */
  function Interpolate(data: seq<Sample>, cdf: seq<real>, critIndex: nat, target: real): (xCrit: real)
    requires |cdf| == |data| && critIndex < |data|
    ensures critIndex == 0 ==> xCrit == data[0].x
    ensures critIndex > 0 && data[critIndex - 1].x <= data[critIndex].x ==>
              data[critIndex - 1].x <= xCrit <= data[critIndex].x
  {
    if critIndex == 0 then data[0].x
    else Lerp(data[critIndex - 1].x, data[critIndex].x,
              Clamp01(Fraction(cdf[critIndex - 1], cdf[critIndex], target)))
  }

  /** The whole of computeCriticalValue as a function of its inputs. */
  function CriticalValue(data: seq<Sample>, dx: real, alphaPercent: real): (c: CriticalPoint)
    requires |data| > 0 && TotalArea(data, dx) > 0.0
    ensures c.critIndex < |data|
  {
    var cdfNorm := NormalizedCdf(data, dx);
    var target := TargetLower(alphaPercent);
    var critIndex := FirstAtLeast(cdfNorm, target, 0, |data| - 1);
    CriticalPoint(Interpolate(data, cdfNorm, critIndex, target), critIndex)
  }

  /** computeCriticalValue(data, dx, alphaPercent), with N_POINTS = |data| - 1. */
  method ComputeCriticalValue(data: seq<Sample>, dx: real, alphaPercent: real) returns (xCrit: real, critIndex: nat)
    requires |data| > 0 && TotalArea(data, dx) > 0.0
    ensures critIndex < |data|
    ensures CriticalPoint(xCrit, critIndex) == CriticalValue(data, dx, alphaPercent)
  {
    var alpha := SanitizeAlpha(alphaPercent);
    var cdfValues := CumulativeAreas(data, dx);
    var totalArea := cdfValues[|data| - 1];
    assert totalArea == TotalArea(data, dx);
    var cdfNorm := Normalize(cdfValues, totalArea);
    assert cdfNorm == NormalizedCdf(data, dx);
    var targetLower := 1.0 - alpha;
    critIndex := ScanFirstAtLeast(cdfNorm, targetLower, 0, |data| - 1);
    xCrit := Interpolate(data, cdfNorm, critIndex, targetLower);
  }

  /** critIndex is the least index whose normalised cumulative value reaches
      1 - alpha; on a grid of non-negative densities such an index always exists. */
  lemma {:induction false} CriticalIndexIsLeftmost(data: seq<Sample>, dx: real, alphaPercent: real)
    requires NonNegativeYs(data) && dx >= 0.0
    requires |data| > 0 && TotalArea(data, dx) > 0.0
    ensures NormalizedCdf(data, dx)[CriticalValue(data, dx, alphaPercent).critIndex] >= TargetLower(alphaPercent)
    ensures forall j :: 0 <= j < CriticalValue(data, dx, alphaPercent).critIndex ==>
              NormalizedCdf(data, dx)[j] < TargetLower(alphaPercent)
  {
    NormalizedCdfShape(data, dx);
    var cdf := NormalizedCdf(data, dx);
    assert cdf[|data| - 1] >= TargetLower(alphaPercent);
  }

  /** Past index 0 the bracketing cdf values straddle 1 - alpha, so neither the
      zero-difference replacement nor the clamp applies: at the fraction t the line
      from cdf_(i-1) to cdf_i reaches 1 - alpha (Lerp(cdf_(i-1), cdf_i, t) is
      cdf_(i-1) + (cdf_i - cdf_(i-1))·t), and xCrit is the point the same fraction
      of the way from x_(i-1) to x_i. */
  lemma {:induction false} CriticalValueInterpolates(data: seq<Sample>, dx: real, alphaPercent: real)
    requires NonNegativeYs(data) && dx >= 0.0
    requires |data| > 0 && TotalArea(data, dx) > 0.0
    ensures var c := CriticalValue(data, dx, alphaPercent);
      var cdf := NormalizedCdf(data, dx);
      var g := TargetLower(alphaPercent);
      var i := c.critIndex;
      i > 0 ==>
        var t := Fraction(cdf[i - 1], cdf[i], g);
        && cdf[i - 1] < g <= cdf[i]
        && 0.0 <= t <= 1.0 && Clamp01(t) == t
        && Lerp(cdf[i - 1], cdf[i], t) == g
        && c.xCrit == Lerp(data[i - 1].x, data[i].x, t)
  {
    CriticalIndexIsLeftmost(data, dx, alphaPercent);
    var c := CriticalValue(data, dx, alphaPercent);
    var cdf := NormalizedCdf(data, dx);
    var g := TargetLower(alphaPercent);
    var i := c.critIndex;
    if i > 0 {
      var p, q := cdf[i - 1], cdf[i];
      var t := Fraction(p, q, g);
      var x0, x1, xc := data[i - 1].x, data[i].x, c.xCrit;
      assert xc == Lerp(x0, x1, Clamp01(t));
      InterpolationValues(p, q, g, t, x0, x1, xc);
    }
  }

  /** The arithmetic of CriticalValueInterpolates on plain values: with cdfPrev < target
      <= cdfCurr the fraction needs no clamping and the interpolated point is the
      unclamped one. */
  lemma InterpolationValues(p: real, q: real, g: real, t: real, x0: real, x1: real, xc: real)
    requires p < g <= q && t == Fraction(p, q, g)
    requires 0.0 <= Clamp01(t) <= 1.0 && xc == Lerp(x0, x1, Clamp01(t))
    ensures 0.0 <= t <= 1.0 && Clamp01(t) == t
    ensures Lerp(p, q, t) == g
    ensures xc == Lerp(x0, x1, t)
  {
  }

  /** xCrit is x_0 at index 0 and otherwise lies in [x_(critIndex-1), x_critIndex]. */
  lemma {:induction false} CriticalValueBracketed(data: seq<Sample>, dx: real, alphaPercent: real)
    requires SortedXs(data)
    requires |data| > 0 && TotalArea(data, dx) > 0.0
    ensures var c := CriticalValue(data, dx, alphaPercent);
      && (c.critIndex == 0 ==> c.xCrit == data[0].x)
      && (c.critIndex > 0 ==> data[c.critIndex - 1].x <= c.xCrit <= data[c.critIndex].x)
  {
  }

  /** Out-of-range percentages behave exactly like 5%. */
  lemma {:induction false} OutOfRangeAlphaIsFivePercent(data: seq<Sample>, dx: real, alphaPercent: real)
    requires |data| > 0 && TotalArea(data, dx) > 0.0
    requires !(0.0 < alphaPercent < 100.0)
    ensures CriticalValue(data, dx, alphaPercent) == CriticalValue(data, dx, 5.0)
  {
    assert SanitizeAlpha(alphaPercent) == SanitizeAlpha(5.0);
  }

  /** Within (0, 100) a larger percentage gives a larger alpha. */
  lemma {:induction false} SanitizeAlphaMonotone(p1: real, p2: real)
    requires 0.0 < p1 <= p2 < 100.0
    ensures SanitizeAlpha(p1) <= SanitizeAlpha(p2)
  {
  }

  /** The fraction grows with the target when cdfPrev <= cdfCurr. */
  lemma FractionMonotone(cdfPrev: real, cdfCurr: real, t1: real, t2: real)
    requires cdfPrev <= cdfCurr && t1 <= t2
    ensures Fraction(cdfPrev, cdfCurr, t1) <= Fraction(cdfPrev, cdfCurr, t2)
  {
    var diff := cdfCurr - cdfPrev;
    DivideMonotone(t1 - cdfPrev, t2 - cdfPrev, if diff == 0.0 then 1.0 else diff);
  }

  /** Clamping preserves order. */
  lemma Clamp01Monotone(t1: real, t2: real)
    requires t1 <= t2
    ensures Clamp01(t1) <= Clamp01(t2)
  {
  }

  /** With xPrev <= xCurr the point moves right as the fraction grows. */
  lemma LerpMonotone(xPrev: real, xCurr: real, c1: real, c2: real)
    requires xPrev <= xCurr && 0.0 <= c1 <= c2 <= 1.0
    ensures Lerp(xPrev, xCurr, c1) <= Lerp(xPrev, xCurr, c2)
  {
    ScaleMonotone(xPrev, xCurr, c1, c2);
  }

  /** (b - a)·c1 <= (b - a)·c2 for a <= b and c1 <= c2. */
  lemma ScaleMonotone(a: real, b: real, c1: real, c2: real)
    requires a <= b && c1 <= c2
    ensures (b - a) * c1 <= (b - a) * c2
  {
    assert (b - a) * c2 - (b - a) * c1 == (b - a) * (c2 - c1);
  }

  /** The interpolated point moves right as the target rises, for a non-decreasing
      table and non-decreasing x. */
  lemma {:induction false} InterpolateMonotone(data: seq<Sample>, cdf: seq<real>, critIndex: nat, t1: real, t2: real)
    requires |cdf| == |data| && 0 < critIndex < |data|
    requires cdf[critIndex - 1] <= cdf[critIndex]
    requires data[critIndex - 1].x <= data[critIndex].x
    requires t1 <= t2
    ensures Interpolate(data, cdf, critIndex, t1) <= Interpolate(data, cdf, critIndex, t2)
  {
    var prev, curr := cdf[critIndex - 1], cdf[critIndex];
    FractionMonotone(prev, curr, t1, t2);
    Clamp01Monotone(Fraction(prev, curr, t1), Fraction(prev, curr, t2));
    LerpMonotone(data[critIndex - 1].x, data[critIndex].x,
                 Clamp01(Fraction(prev, curr, t1)), Clamp01(Fraction(prev, curr, t2)));
  }

  /** A larger alpha (a lower target) never gives a larger critical index or a larger
      critical value. */
  lemma {:induction false} CriticalValueMonotone(data: seq<Sample>, dx: real, p1: real, p2: real)
    requires NonNegativeYs(data) && SortedXs(data) && dx >= 0.0
    requires |data| > 0 && TotalArea(data, dx) > 0.0
    requires SanitizeAlpha(p1) <= SanitizeAlpha(p2)
    ensures CriticalValue(data, dx, p2).critIndex <= CriticalValue(data, dx, p1).critIndex
    ensures CriticalValue(data, dx, p2).xCrit <= CriticalValue(data, dx, p1).xCrit
  {
    var cdf := NormalizedCdf(data, dx);
    var t1, t2 := TargetLower(p1), TargetLower(p2);
    var n := |data| - 1;
    FirstAtLeastMonotone(cdf, t2, t1, 0, n);
    NormalizedCdfShape(data, dx);
    var c1, c2 := CriticalValue(data, dx, p1), CriticalValue(data, dx, p2);
    CriticalValueBracketed(data, dx, p1);
    CriticalValueBracketed(data, dx, p2);
    if c2.critIndex < c1.critIndex {
      assert c2.xCrit <= data[c2.critIndex].x;
      assert data[c2.critIndex].x <= data[c1.critIndex - 1].x;
    } else if c1.critIndex > 0 {
      InterpolateMonotone(data, cdf, c1.critIndex, t2, t1);
    }
  }
}
