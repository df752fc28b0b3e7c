/** The sampling part of buildData: the uniform grid of (x, density(x)) samples. */
module Sampler {
  import opened MathEnv
  import opened Density

  /** One point { x, y } of the data array. */
  datatype Sample = Sample(x: real, y: real)

  /** What buildData returns to the engine (the pixel-scaling closures are not modelled). */
  datatype Grid = Grid(data: seq<Sample>, dx: real, xMin: real, xMax: real, maxY: real)

  /** The x coordinates of the samples, in order. */
  function Xs(data: seq<Sample>): (xs: seq<real>)
    ensures |xs| == |data|
    ensures forall i :: 0 <= i < |data| ==> xs[i] == data[i].x
  {
    seq(|data|, i requires 0 <= i < |data| => data[i].x)
  }

  /** The x coordinates never decrease along the array. */
  ghost predicate SortedXs(data: seq<Sample>) {
    forall i, j :: 0 <= i <= j < |data| ==> data[i].x <= data[j].x
  }

  /** The x coordinates strictly increase along the array. */
  ghost predicate StrictlyIncreasingXs(data: seq<Sample>) {
    forall i, j :: 0 <= i < j < |data| ==> data[i].x < data[j].x
  }

  /** No sample has a negative density. */
  ghost predicate NonNegativeYs(data: seq<Sample>) {
    forall i :: 0 <= i < |data| ==> data[i].y >= 0.0
  }

  /** The domain buildData chooses: max(30, k + 10·√(2k)). */
  function DomainMax(m: MathLib, k: nat): (r: real)
    ensures r >= 30.0
  {
    Max(30.0, k as real + 10.0 * m.sqrt(2.0 * k as real))
  }

  /** The x coordinates lie on the uniform grid x_i = xMin + dx·i. */
  ghost predicate UniformXs(data: seq<Sample>, xMin: real, dx: real) {
    forall i :: 0 <= i < |data| ==> data[i].x == xMin + dx * i as real
  }

  /** Every y is the chi-square density with k degrees of freedom at its x. */
  ghost predicate DensityYs(m: MathLib, k: nat, data: seq<Sample>) {
    Valid(m) && forall i :: 0 <= i < |data| ==> data[i].y == ChiSquarePdf(m, data[i].x, k)
  }

  /** g holds the n + 1 samples of the density for k degrees of freedom at
      x_i = xMin + dx·i over [0, DomainMax(k)], with n = |g.data| - 1 >= 1. */
  ghost predicate SampledFrom(m: MathLib, k: nat, g: Grid) {
    && Valid(m)
    && |g.data| >= 2
    && g.xMin == 0.0
    && g.xMax == DomainMax(m, k)
    && g.dx == (g.xMax - g.xMin) / (|g.data| - 1) as real
    && UniformXs(g.data, g.xMin, g.dx)
    && DensityYs(m, k, g.data)
  }

  /** The sampling loop of buildData, over the density f it samples: n + 1 points
      x_i = xMin + dx·i with y_i = f(x_i), and the running maximum maxY of the
      y values, started at 0. */
  method SampleLoop(f: real -> real, xMin: real, dx: real, n: nat) returns (data: seq<Sample>, maxY: real)
    ensures |data| == n + 1
    ensures forall i :: 0 <= i < |data| ==> data[i].x == xMin + dx * i as real
    ensures forall i :: 0 <= i < |data| ==> data[i].y == f(data[i].x)
    ensures maxY >= 0.0
    ensures forall i :: 0 <= i < |data| ==> data[i].y <= maxY
    ensures maxY == 0.0 || exists i :: 0 <= i < |data| && data[i].y == maxY
  {
    data := [];
    maxY := 0.0;
    for i := 0 to n + 1
      invariant |data| == i
      invariant forall j :: 0 <= j < i ==> data[j].x == xMin + dx * j as real
      invariant forall j :: 0 <= j < i ==> data[j].y == f(data[j].x)
      invariant maxY >= 0.0
      invariant forall j :: 0 <= j < i ==> data[j].y <= maxY
      invariant maxY == 0.0 || exists j :: 0 <= j < i && data[j].y == maxY
    {
      var x := xMin + dx * i as real;
      var y := f(x);
      ghost var before := data;
      if y > maxY {
        maxY := y;
      }
      data := data + [Sample(x, y)];
      assert data[i].y == y;
      assert forall j :: 0 <= j < i ==> data[j] == before[j];
    }
  }

  /** buildData without its pixel-scaling closures: the domain [0, max(30, k + 10·√(2k))],
      the step dx over n intervals, the samples and their maximum density. */
  method BuildData(m: MathLib, k: nat, n: nat) returns (g: Grid)
    requires Valid(m)
    requires n > 0
    ensures |g.data| == n + 1
    ensures SampledFrom(m, k, g)
    ensures g.maxY >= 0.0
    ensures forall i :: 0 <= i < |g.data| ==> g.data[i].y <= g.maxY
    ensures exists i :: 0 <= i < |g.data| && g.data[i].y == g.maxY
  {
    var sigma := m.sqrt(2.0 * k as real);
    var xMin := 0.0;
    var xMax := Max(30.0, k as real + 10.0 * sigma);
    var dx := (xMax - xMin) / n as real;
    var density: real -> real := x => ChiSquarePdf(m, x, k);
    var data, maxY := SampleLoop(density, xMin, dx, n);
    g := Grid(data, dx, xMin, xMax, maxY);
    assert UniformXs(data, xMin, dx);
    SampledDensity(m, k, density, data);
    assert data[0].y == 0.0 by {
      assert data[0].x == 0.0;
    }
  }

  /** Samples taken of a function that agrees with the density hold the density. */
  lemma {:induction false} SampledDensity(m: MathLib, k: nat, f: real -> real, data: seq<Sample>)
    requires Valid(m)
    requires forall x :: f(x) == ChiSquarePdf(m, x, k)
    requires forall i :: 0 <= i < |data| ==> data[i].y == f(data[i].x)
    ensures DensityYs(m, k, data)
  {
  }

  /** The invariant of every grid buildData returns: a positive step, the first
      sample at xMin = 0 and the last at xMax, x strictly increasing, the density
      zero at 0 and positive at every other sample. */
  ghost predicate GridShape(g: Grid) {
    && |g.data| >= 2
    && g.dx > 0.0
    && g.data[0].x == g.xMin == 0.0
    && g.data[|g.data| - 1].x == g.xMax
    && StrictlyIncreasingXs(g.data)
    && SortedXs(g.data)
    && NonNegativeYs(g.data)
    && g.data[0].y == 0.0
    && (forall i :: 1 <= i < |g.data| ==> g.data[i].y > 0.0)
  }

  /** Every sampled grid has that shape. */
  lemma {:induction false} SampledGridShape(m: MathLib, k: nat, g: Grid)
    requires SampledFrom(m, k, g)
    ensures GridShape(g)
  {
    var n := |g.data| - 1;
    StepFacts(g.xMax, n as real, g.dx);
    UniformXsShape(g.data, g.dx);
    DensityYsSign(m, k, g.data);
  }

  /** On a uniform grid from 0 with a positive step the x coordinates start at 0
      and strictly increase. */
  lemma {:induction false} UniformXsShape(data: seq<Sample>, dx: real)
    requires UniformXs(data, 0.0, dx) && dx > 0.0 && |data| > 0
    ensures data[0].x == 0.0
    ensures data[|data| - 1].x == dx * (|data| - 1) as real
    ensures StrictlyIncreasingXs(data) && SortedXs(data)
    ensures forall i :: 1 <= i < |data| ==> data[i].x > 0.0
  {
    forall i, j | 0 <= i < j < |data|
      ensures data[i].x < data[j].x
    {
      ScaleStrict(dx, i as real, j as real);
    }
    forall i | 1 <= i < |data|
      ensures data[i].x > 0.0
    {
      ScaleStrict(dx, 0.0, i as real);
    }
  }

  /** The density is zero at the first sample, x = 0, and positive at every later one. */
  lemma {:induction false} DensityYsSign(m: MathLib, k: nat, data: seq<Sample>)
    requires DensityYs(m, k, data) && |data| > 0
    requires data[0].x == 0.0
    requires forall i :: 1 <= i < |data| ==> data[i].x > 0.0
    ensures data[0].y == 0.0
    ensures forall i :: 1 <= i < |data| ==> data[i].y > 0.0
    ensures NonNegativeYs(data)
  {
  }

  /** The step dx = w / n of a positive width w over n >= 1 intervals is
      positive, and n steps cover the width exactly. */
  lemma {:induction false} StepFacts(w: real, n: real, dx: real)
    requires w > 0.0 && n >= 1.0 && dx == w / n
    ensures dx > 0.0 && dx * n == w
  {
  }

  /** Multiplying by a positive step keeps a strict order. */
  lemma {:induction false} ScaleStrict(d: real, a: real, b: real)
    requires d > 0.0 && a < b
    ensures d * a < d * b
  {
    assert d * b - d * a == d * (b - a);
  }
}
