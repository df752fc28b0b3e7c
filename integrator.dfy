/** The trapezoidal cumulative integral of the samples and its normalisation
    (the first half of computeCriticalValue). */
module Integrator {
  import opened Sampler

  /** The trapezoid over [x_(i-1), x_i]: 0.5·(y_(i-1) + y_i)·dx. */
  function Trapezoid(data: seq<Sample>, dx: real, i: nat): real
    requires 1 <= i < |data|
  {
    0.5 * (data[i - 1].y + data[i].y) * dx
  }

  /** The running area after i trapezoids: cdfValues[i] before normalisation. */
  function Area(data: seq<Sample>, dx: real, i: nat): real
    requires i < |data|
  {
    if i == 0 then 0.0 else Area(data, dx, i - 1) + Trapezoid(data, dx, i)
  }

  /** The area under the whole sampled curve (totalArea). */
  function TotalArea(data: seq<Sample>, dx: real): real
    requires |data| > 0
  {
    Area(data, dx, |data| - 1)
  }

  /** All running areas, index for index with the samples. */
  function Areas(data: seq<Sample>, dx: real): (r: seq<real>)
    ensures |r| == |data|
  {
    seq(|data|, i requires 0 <= i < |data| => Area(data, dx, i))
  }

  /** The cdfValues loop: an array of n + 1 zeros filled in place with the running area. */
  method CumulativeAreas(data: seq<Sample>, dx: real) returns (cdf: seq<real>)
    requires |data| > 0
    ensures cdf == Areas(data, dx)
  {
    var values := new real[|data|](_ => 0.0);
    var area := 0.0;
    for i := 1 to |data|
      invariant area == Area(data, dx, i - 1)
      invariant forall j {:trigger values[j]} :: 0 <= j < i ==> values[j] == Area(data, dx, j)
    {
      area := area + Trapezoid(data, dx, i);
      values[i] := area;
      assert values[i] == Area(data, dx, i);
    }
    cdf := values[..];
    assert forall i :: 0 <= i < |data| ==> cdf[i] == Area(data, dx, i);
  }

  /** The table starts at 0 and each entry adds the next trapezoid to the one before. */
  lemma {:induction false} AreasRecurrence(data: seq<Sample>, dx: real)
    requires |data| > 0
    ensures Areas(data, dx)[0] == 0.0
    ensures forall i :: 1 <= i < |data| ==>
              Areas(data, dx)[i] == Areas(data, dx)[i - 1] + 0.5 * (data[i - 1].y + data[i].y) * dx
  {
    var cdf := Areas(data, dx);
    forall i | 1 <= i < |data|
      ensures cdf[i] == cdf[i - 1] + 0.5 * (data[i - 1].y + data[i].y) * dx
    {
      assert cdf[i] == Area(data, dx, i) && cdf[i - 1] == Area(data, dx, i - 1);
    }
  }

  /** cdfValues.map(v => v / totalArea). */
  function Normalize(cdf: seq<real>, total: real): (r: seq<real>)
    requires total != 0.0
    ensures |r| == |cdf|
    ensures forall i :: 0 <= i < |cdf| ==> r[i] * total == cdf[i]
  {
    seq(|cdf|, i requires 0 <= i < |cdf| => cdf[i] / total)
  }

  /** The normalised cumulative distribution the solver scans. */
  function NormalizedCdf(data: seq<Sample>, dx: real): (r: seq<real>)
    requires |data| > 0 && TotalArea(data, dx) > 0.0
    ensures |r| == |data|
  {
    Normalize(Areas(data, dx), TotalArea(data, dx))
  }

  /** With non-negative densities and step, the running area never decreases. */
  lemma {:induction false} AreaMonotone(data: seq<Sample>, dx: real, i: nat, j: nat)
    requires NonNegativeYs(data) && dx >= 0.0
    requires i <= j < |data|
    ensures Area(data, dx, i) <= Area(data, dx, j)
  {
    if i < j {
      AreaMonotone(data, dx, i, j - 1);
      TrapezoidNonNegative(data, dx, j);
    }
  }

  /** A trapezoid of non-negative heights and width has non-negative area. */
  lemma {:induction false} TrapezoidNonNegative(data: seq<Sample>, dx: real, i: nat)
    requires NonNegativeYs(data) && dx >= 0.0
    requires 1 <= i < |data|
    ensures Trapezoid(data, dx, i) >= 0.0
  {
    var h := 0.5 * (data[i - 1].y + data[i].y);
    assert h >= 0.0;
    assert h * dx >= 0.0;
  }

  /** The normalised table starts at 0, ends at exactly 1, never decreases and
      stays inside [0, 1]. */
  lemma {:induction false} NormalizedCdfShape(data: seq<Sample>, dx: real)
    requires NonNegativeYs(data) && dx >= 0.0
    requires |data| > 0 && TotalArea(data, dx) > 0.0
    ensures NormalizedCdf(data, dx)[0] == 0.0
    ensures NormalizedCdf(data, dx)[|data| - 1] == 1.0
    ensures forall i, j :: 0 <= i <= j < |data| ==> NormalizedCdf(data, dx)[i] <= NormalizedCdf(data, dx)[j]
    ensures forall i :: 0 <= i < |data| ==> 0.0 <= NormalizedCdf(data, dx)[i] <= 1.0
  {
    var t := TotalArea(data, dx);
    var c := NormalizedCdf(data, dx);
    var n := |data| - 1;
    forall i, j | 0 <= i <= j < |data|
      ensures c[i] <= c[j]
    {
      AreaMonotone(data, dx, i, j);
      DivideMonotone(Area(data, dx, i), Area(data, dx, j), t);
    }
    forall i | 0 <= i < |data|
      ensures 0.0 <= c[i] <= 1.0
    {
      AreaMonotone(data, dx, 0, i);
      AreaMonotone(data, dx, i, n);
      DivideMonotone(0.0, Area(data, dx, i), t);
      DivideMonotone(Area(data, dx, i), t, t);
    }
  }

  /** Dividing by a positive number keeps the order. */
  lemma {:induction false} DivideMonotone(a: real, b: real, t: real)
    requires a <= b && t > 0.0
    ensures a / t <= b / t
  {
    assert b / t - a / t == (b - a) / t;
  }
}
