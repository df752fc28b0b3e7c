/** The numeric part of computeRejectionCentroid: the centre of mass of the
    rejection region to the right of the critical value, and the first sample at
    or beyond it. */
module TailCentroid {
  import opened MathEnv
  import opened Sampler
  import opened Integrator
  import opened Search
  import opened Solver

  /** xMid of the trapezoid over [x_(i-1), x_i]. */
  function Midpoint(data: seq<Sample>, i: nat): (xMid: real)
    requires 1 <= i < |data|
    ensures data[i - 1].x <= data[i].x ==> data[i - 1].x <= xMid <= data[i].x
  {
    0.5 * (data[i - 1].x + data[i].x)
  }

  /** The weight w of each trapezoid, index for index with the samples (0 at index 0,
      which starts no trapezoid). */
  function Weights(data: seq<Sample>, dx: real): (ws: seq<real>)
    ensures |ws| == |data|
  {
    seq(|data|, i requires 0 <= i < |data| => if i == 0 then 0.0 else Trapezoid(data, dx, i))
  }

  /** The midpoint xMid of each trapezoid, index for index with the samples (x_0 at
      index 0). */
  function Midpoints(data: seq<Sample>): (ms: seq<real>)
    ensures |ms| == |data|
  {
    seq(|data|, i requires 0 <= i < |data| => if i == 0 then data[0].x else Midpoint(data, i))
  }

  /** ws[lo + 1] + ... + ws[hi]. */
  function Sum(ws: seq<real>, lo: nat, hi: nat): real
    requires lo <= hi < |ws|
    decreases hi
  {
    if hi == lo then 0.0 else Sum(ws, lo, hi - 1) + ws[hi]
  }

  /** ms[lo + 1]·ws[lo + 1] + ... + ms[hi]·ws[hi]. */
  function WeightedSum(ms: seq<real>, ws: seq<real>, lo: nat, hi: nat): real
    requires |ms| == |ws| && lo <= hi < |ws|
    decreases hi
  {
    if hi == lo then 0.0 else WeightedSum(ms, ws, lo, hi - 1) + ms[hi] * ws[hi]
  }

  /** sumW after the trapezoids lo + 1, ..., hi: the weight of the tail. */
  function TailWeight(data: seq<Sample>, dx: real, lo: nat, hi: nat): real
    requires lo <= hi < |data|
  {
    Sum(Weights(data, dx), lo, hi)
  }

  /** sumXW after the trapezoids lo + 1, ..., hi: each weight times its midpoint. */
  function TailMoment(data: seq<Sample>, dx: real, lo: nat, hi: nat): real
    requires lo <= hi < |data|
  {
    WeightedSum(Midpoints(data), Weights(data, dx), lo, hi)
  }

  /** xCenter: the weighted mean of the midpoints over (critIndex, N] when the tail has
      positive weight, and otherwise the midpoint of [xCrit, xMax]. */
  function RejectionCentroid(data: seq<Sample>, dx: real, xCrit: real, critIndex: nat, xMax: real): real
    requires critIndex < |data|
  {
    var sumW := TailWeight(data, dx, critIndex, |data| - 1);
    if sumW > 0.0 then TailMoment(data, dx, critIndex, |data| - 1) / sumW
    else 0.5 * (xCrit + xMax)
  }

  /** computeRejectionCentroid without its pixel mapping: the weighted sums, the mean
      or its fallback, and the scan for the first sample at or beyond xCenter, with
      N_POINTS = |data| - 1. */
  method ComputeRejectionCentroid(data: seq<Sample>, dx: real, xCrit: real, critIndex: nat, xMax: real)
    returns (xCenter: real, idxClosest: nat)
    requires critIndex < |data|
    ensures xCenter == RejectionCentroid(data, dx, xCrit, critIndex, xMax)
    ensures idxClosest == FirstAtLeast(Xs(data), xCenter, critIndex, critIndex)
    ensures critIndex <= idxClosest < |data|
  {
    var sumW, sumXW := TailSums(data, dx, critIndex);
    if sumW > 0.0 {
      xCenter := sumXW / sumW;
    } else {
      xCenter := 0.5 * (xCrit + xMax);
    }
    idxClosest := ScanFirstAtLeast(Xs(data), xCenter, critIndex, critIndex);
  }

  /** The loop of computeRejectionCentroid over the trapezoids critIndex + 1, ..., N:
      sumW accumulates their weights and sumXW their weights times their midpoints. */
  method TailSums(data: seq<Sample>, dx: real, critIndex: nat) returns (sumW: real, sumXW: real)
    requires critIndex < |data|
    ensures sumW == TailWeight(data, dx, critIndex, |data| - 1)
    ensures sumXW == TailMoment(data, dx, critIndex, |data| - 1)
  {
    ghost var ws, ms := Weights(data, dx), Midpoints(data);
    sumW := 0.0;
    sumXW := 0.0;
    for i := critIndex + 1 to |data|
      invariant sumW == Sum(ws, critIndex, i - 1)
      invariant sumXW == WeightedSum(ms, ws, critIndex, i - 1)
    {
      var w := Trapezoid(data, dx, i);
      var xMid := Midpoint(data, i);
      assert w == ws[i] && xMid == ms[i];
      SumStep(ms, ws, critIndex, i, sumW, sumXW, xMid, w);
      sumW := sumW + w;
      sumXW := sumXW + xMid * w;
    }
  }

  /** One iteration of the loop: adding w = ws[i] and xMid·w with xMid = ms[i] extends
      both sums from (lo, i - 1] to (lo, i]. */
  lemma SumStep(ms: seq<real>, ws: seq<real>, lo: nat, i: nat, sumW: real, sumXW: real, xMid: real, w: real)
    requires |ms| == |ws| && lo < i < |ws|
    requires sumW == Sum(ws, lo, i - 1) && sumXW == WeightedSum(ms, ws, lo, i - 1)
    requires xMid == ms[i] && w == ws[i]
    ensures sumW + w == Sum(ws, lo, i) && sumXW + xMid * w == WeightedSum(ms, ws, lo, i)
  {
  }

  /** The tail weight is the drop of the running area: Area(hi) - Area(lo). */
  lemma {:induction false} TailWeightIsAreaDifference(data: seq<Sample>, dx: real, lo: nat, hi: nat)
    requires lo <= hi < |data|
    ensures TailWeight(data, dx, lo, hi) == Area(data, dx, hi) - Area(data, dx, lo)
    decreases hi
  {
    if hi > lo {
      TailWeightIsAreaDifference(data, dx, lo, hi - 1);
      assert Weights(data, dx)[hi] == Trapezoid(data, dx, hi);
    }
  }

  /** Non-negative densities and step give a non-negative tail weight. */
  lemma {:induction false} TailWeightNonNegative(data: seq<Sample>, dx: real, lo: nat, hi: nat)
    requires NonNegativeYs(data) && dx >= 0.0
    requires lo <= hi < |data|
    ensures TailWeight(data, dx, lo, hi) >= 0.0
  {
    TailWeightIsAreaDifference(data, dx, lo, hi);
    AreaMonotone(data, dx, lo, hi);
  }

  /** The tail from i holds at most the fraction alpha of the total area when the
      normalised cumulative value at i has reached 1 - alpha, and more than that
      fraction when it has not. */
  lemma {:induction false} TailMassAgainstCdf(data: seq<Sample>, dx: real, i: nat, alphaPercent: real)
    requires |data| > 0 && TotalArea(data, dx) > 0.0 && i < |data|
    ensures NormalizedCdf(data, dx)[i] >= TargetLower(alphaPercent) ==>
              TailWeight(data, dx, i, |data| - 1) <= SanitizeAlpha(alphaPercent) * TotalArea(data, dx)
    ensures NormalizedCdf(data, dx)[i] < TargetLower(alphaPercent) ==>
              TailWeight(data, dx, i, |data| - 1) > SanitizeAlpha(alphaPercent) * TotalArea(data, dx)
  {
    TailWeightIsAreaDifference(data, dx, i, |data| - 1);
    assert NormalizedCdf(data, dx)[i] == Area(data, dx, i) / TotalArea(data, dx);
    TailFraction(Area(data, dx, i), TotalArea(data, dx), SanitizeAlpha(alphaPercent));
  }

  /** For t > 0: a / t >= 1 - alpha gives t - a <= alpha·t, and a / t < 1 - alpha gives
      t - a > alpha·t. */
  lemma TailFraction(a: real, t: real, alpha: real)
    requires t > 0.0
    ensures a / t >= 1.0 - alpha ==> t - a <= alpha * t
    ensures a / t < 1.0 - alpha ==> t - a > alpha * t
  {
    var q := a / t;
    var d := 1.0 - alpha - q;
    assert a == q * t;
    assert t - a - alpha * t == d * t;
    if d <= 0.0 {
      assert d * t <= 0.0;
    } else {
      assert d * t > 0.0;
    }
  }

  /** The tail from critIndex holds at most the fraction alpha of the total area, and
      the tail from one sample earlier holds more: critIndex is where the upper tail
      first drops to alpha. */
  lemma {:induction false} TailMassAtCriticalIndex(data: seq<Sample>, dx: real, alphaPercent: real)
    requires NonNegativeYs(data) && dx >= 0.0
    requires |data| > 0 && TotalArea(data, dx) > 0.0
    ensures var c := CriticalValue(data, dx, alphaPercent);
      && TailWeight(data, dx, c.critIndex, |data| - 1) <= SanitizeAlpha(alphaPercent) * TotalArea(data, dx)
      && (c.critIndex > 0 ==>
            TailWeight(data, dx, c.critIndex - 1, |data| - 1) > SanitizeAlpha(alphaPercent) * TotalArea(data, dx))
  {
    var i := CriticalValue(data, dx, alphaPercent).critIndex;
    CriticalIndexIsLeftmost(data, dx, alphaPercent);
    TailMassAgainstCdf(data, dx, i, alphaPercent);
    if i > 0 {
      TailMassAgainstCdf(data, dx, i - 1, alphaPercent);
    }
  }

  /** Weights ws >= 0 at points ms in [a, b] over (lo, hi] have a non-negative sum, and
      when the sum is positive their weighted mean lies in [a, b]. */
  lemma {:induction false} WeightedMeanBounds(ms: seq<real>, ws: seq<real>, lo: nat, hi: nat, a: real, b: real)
    requires |ms| == |ws| && lo <= hi < |ws|
    requires forall i :: lo < i <= hi ==> ws[i] >= 0.0 && a <= ms[i] <= b
    ensures Sum(ws, lo, hi) >= 0.0
    ensures Sum(ws, lo, hi) > 0.0 ==> a <= WeightedSum(ms, ws, lo, hi) / Sum(ws, lo, hi) <= b
  {
    MomentBounds(ms, ws, lo, hi, a, b);
    if Sum(ws, lo, hi) > 0.0 {
      MeanBounds(a, b, WeightedSum(ms, ws, lo, hi), Sum(ws, lo, hi));
    }
  }

  /** The weighted sum lies between a and b times the sum of the weights. */
  lemma {:induction false} MomentBounds(ms: seq<real>, ws: seq<real>, lo: nat, hi: nat, a: real, b: real)
    requires |ms| == |ws| && lo <= hi < |ws|
    requires forall i :: lo < i <= hi ==> ws[i] >= 0.0 && a <= ms[i] <= b
    ensures Sum(ws, lo, hi) >= 0.0
    ensures a * Sum(ws, lo, hi) <= WeightedSum(ms, ws, lo, hi) <= b * Sum(ws, lo, hi)
    decreases hi
  {
    if hi > lo {
      MomentBounds(ms, ws, lo, hi - 1, a, b);
      MomentStep(a, b, ms[hi], Sum(ws, lo, hi - 1), WeightedSum(ms, ws, lo, hi - 1), ws[hi]);
    }
  }

  /** One step of MomentBounds: adding a weight t >= 0 at a point mid in [a, b] to a
      moment m0 in [a·w0, b·w0] keeps the moment in range. */
  lemma MomentStep(a: real, b: real, mid: real, w0: real, m0: real, t: real)
    requires t >= 0.0 && a * w0 <= m0 <= b * w0 && a <= mid <= b
    ensures a * (w0 + t) <= m0 + mid * t <= b * (w0 + t)
  {
    assert a * t <= mid * t;
    assert mid * t <= b * t;
  }

  /** a·w <= m <= b·w with w > 0 give a <= m / w <= b. */
  lemma MeanBounds(a: real, b: real, m: real, w: real)
    requires w > 0.0 && a * w <= m <= b * w
    ensures a <= m / w <= b
  {
    var q := m / w;
    assert m == q * w;
  }

  /** With positive tail weight the centroid is the weighted mean and lies between
      x_critIndex and x_N. */
  lemma {:induction false} CentroidInTail(data: seq<Sample>, dx: real, xCrit: real, critIndex: nat, xMax: real)
    requires SortedXs(data) && NonNegativeYs(data) && dx >= 0.0
    requires critIndex < |data|
    requires TailWeight(data, dx, critIndex, |data| - 1) > 0.0
    ensures data[critIndex].x <= RejectionCentroid(data, dx, xCrit, critIndex, xMax) <= data[|data| - 1].x
  {
    var n := |data| - 1;
    var ws, ms := Weights(data, dx), Midpoints(data);
    forall i | critIndex < i <= n
      ensures ws[i] >= 0.0 && data[critIndex].x <= ms[i] <= data[n].x
    {
      TrapezoidNonNegative(data, dx, i);
      assert data[critIndex].x <= data[i - 1].x <= data[i].x <= data[n].x;
    }
    WeightedMeanBounds(ms, ws, critIndex, n, data[critIndex].x, data[n].x);
  }

  /** Without tail weight the centroid is the midpoint of [xCrit, xMax]. */
  lemma {:induction false} CentroidFallback(data: seq<Sample>, dx: real, xCrit: real, critIndex: nat, xMax: real)
    requires critIndex < |data|
    requires TailWeight(data, dx, critIndex, |data| - 1) <= 0.0
    ensures RejectionCentroid(data, dx, xCrit, critIndex, xMax) == 0.5 * (xCrit + xMax)
    ensures xCrit <= xMax ==> xCrit <= RejectionCentroid(data, dx, xCrit, critIndex, xMax) <= xMax
  {
  }

  /** Every grid buildData returns has positive total area: the second sample already
      has positive density. */
  lemma {:induction false} GridHasMass(m: MathLib, k: nat, g: Grid)
    requires SampledFrom(m, k, g)
    ensures TotalArea(g.data, g.dx) > 0.0
  {
    SampledGridShape(m, k, g);
    AreaMonotone(g.data, g.dx, 1, |g.data| - 1);
    PositiveTrapezoid(g.data[0].y, g.data[1].y, g.dx);
  }

  /** 0.5·(y0 + y1)·dx > 0 for y0 >= 0, y1 > 0 and dx > 0. */
  lemma PositiveTrapezoid(y0: real, y1: real, dx: real)
    requires y0 >= 0.0 && y1 > 0.0 && dx > 0.0
    ensures 0.5 * (y0 + y1) * dx > 0.0
  {
  }

  /** On every grid buildData returns, at every significance level, the centroid lies in
      the rejection region [xCrit, xMax]. */
  lemma {:induction false} CentroidInRejectionRegion(m: MathLib, k: nat, g: Grid, alphaPercent: real)
    requires SampledFrom(m, k, g)
    ensures TotalArea(g.data, g.dx) > 0.0
    ensures var c := CriticalValue(g.data, g.dx, alphaPercent);
      c.xCrit <= RejectionCentroid(g.data, g.dx, c.xCrit, c.critIndex, g.xMax) <= g.xMax
  {
    SampledGridShape(m, k, g);
    GridHasMass(m, k, g);
    CriticalValueBracketed(g.data, g.dx, alphaPercent);
    var c := CriticalValue(g.data, g.dx, alphaPercent);
    CentroidBetween(g.data, g.dx, c.xCrit, c.critIndex, g.xMax);
  }

  /** On sorted samples with non-negative densities, an xCrit at or left of x_critIndex
      and xMax = x_N put the centroid in [xCrit, xMax], whichever branch computes it. */
  lemma {:induction false} CentroidBetween(data: seq<Sample>, dx: real, xCrit: real, critIndex: nat, xMax: real)
    requires SortedXs(data) && NonNegativeYs(data) && dx >= 0.0
    requires critIndex < |data| && xCrit <= data[critIndex].x && xMax == data[|data| - 1].x
    ensures xCrit <= RejectionCentroid(data, dx, xCrit, critIndex, xMax) <= xMax
  {
    var n := |data| - 1;
    assert data[critIndex].x <= data[n].x;
    if TailWeight(data, dx, critIndex, n) > 0.0 {
      CentroidInTail(data, dx, xCrit, critIndex, xMax);
    } else {
      CentroidFallback(data, dx, xCrit, critIndex, xMax);
    }
  }

  /** When the centroid lies at or below the last x, idxClosest is the first sample from
      critIndex on whose x reaches it; otherwise it stays at critIndex. */
  lemma {:induction false} ClosestIndexReachesCenter(data: seq<Sample>, xCenter: real, critIndex: nat)
    requires critIndex < |data|
    ensures var r := FirstAtLeast(Xs(data), xCenter, critIndex, critIndex);
      && critIndex <= r < |data|
      && (xCenter <= data[|data| - 1].x ==>
            data[r].x >= xCenter && forall j :: critIndex <= j < r ==> data[j].x < xCenter)
      && (data[|data| - 1].x < xCenter && SortedXs(data) ==> r == critIndex)
  {
    var xs := Xs(data);
    var n := |data| - 1;
    if xCenter <= data[n].x {
      assert xs[n] >= xCenter;
    } else if SortedXs(data) {
      assert forall j :: critIndex <= j < |xs| ==> xs[j] < xCenter;
    }
  }
}
