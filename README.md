# Chi-square plotter: the numerical engine

This project models the numerical engine of the chi-square plotter (`main.js`) and
proves properties of it. The engine has five parts:

- `factorialInt` and `gammaIntOrHalf`: the Gamma function at integers and
  half-integers.
- `chiSquarePdf`: the chi-square density with k degrees of freedom.
- `buildData`: a sampling loop that fills a uniform grid of N_POINTS + 1 samples
  and tracks the largest density.
- `computeCriticalValue`:
  - builds the trapezoidal cumulative area table and normalises it;
  - scans it for the first index reaching 1 - alpha;
  - interpolates the critical value xCrit.
- `computeRejectionCentroid`:
  - computes the weighted mean of the trapezoid midpoints to the right of the
    critical index, falling back to the midpoint of [xCrit, xMax] when the tail
    has no weight;
  - scans for the first sample at or beyond that centre.

Modules, one per concern:

- `MathEnv`: the floating-point library (Math.pow, Math.exp, Math.sqrt, Math.PI) as
  a `MathLib` value, plus Math.max and Math.min.
- `Gamma`: factorialInt and gammaIntOrHalf.
- `Density`: chiSquarePdf.
- `Sampler`: buildData and the shape of the grid it yields.
- `Integrator`: the cumulative area table of computeCriticalValue and its
  normalisation.
- `Search`: the shared "first index from here whose value reaches a threshold" scan.
- `Solver`: computeCriticalValue.
- `TailCentroid`: computeRejectionCentroid.

Each loop of the engine is a `method` with a `while` or `for` loop. Each method is
proved equal to a function of its inputs, and the source's promises are lemmas
about those functions:

- `FactorialInt` is proved against `Fact`.
- `SampleLoop` is proved outright.
- `CumulativeAreas` is proved against `Areas`.
- `ScanFirstAtLeast` is proved against `FirstAtLeast`.
- `ComputeCriticalValue` is proved against `CriticalValue`.
- `TailSums` and `ComputeRejectionCentroid` are proved against `TailWeight`,
  `TailMoment` and `RejectionCentroid`.

Numbers are modelled as exact reals, and N_POINTS as `|data| - 1`.

## Model

| member | source | states |
|---|---|---|
| MathEnv.Max | main.js:41 | Math.max: the result is at least both arguments and is one of them |
| MathEnv.Min | main.js:160 | Math.min: the result is at most both arguments and is one of them |
| Gamma.Fact | main.js:10-14 | the value factorialInt computes is at least 1 |
| Gamma.FactorialInt | main.js:10-14 | the accumulator loop returns Fact(n): 1 for n <= 1 and n·(n-1)! above; never below 1 |
| Gamma.Pow4 | main.js:27 | Math.pow(4, n) at natural n is at least 1 |
| Gamma.HalfDenominator | main.js:27 | the denominator 4^n · n! is at least 1 |
| Gamma.IntegerGamma | main.js:19-23 | the even branch, 1 for n <= 1 and (n-1)! above, is at least 1 |
| Gamma.HalfIntegerGamma | main.js:25-28 | the odd branch (2n)! / (4^n · n!) · √π is positive |
| Gamma.GammaIntOrHalf | main.js:16-29 | Gamma at twoAlpha/2 is positive on both branches |
| Gamma.GammaAtIntegers | main.js:19-23 | even branch: gammaIntOrHalf gives 1 at twoAlpha = 0 and 2, and (n-1)! at twoAlpha = 2n for n >= 1 |
| Gamma.GammaAtHalfIntegers | main.js:25-28 | odd branch: Γ(n + 1/2) = (2n)! / (4^n · n!) · √π |
| Gamma.GammaBaseValues | main.js:16-29 | Γ(1/2) = √π and Γ(1) = 1 |
| Gamma.GammaRecurrence | main.js:16-29 | both branches together satisfy Γ(a + 1) = a·Γ(a) for every a = twoAlpha/2 >= 1/2 |
| Density.ChiSquarePdf | main.js:31-36 | the density is 0 for x <= 0, positive for x > 0, and never negative |
| Sampler.DomainMax | main.js:39-41 | xMax = max(30, k + 10·√(2k)) is at least 30 |
| Sampler.SampleLoop | main.js:45-54 | n + 1 samples with x_i = xMin + dx·i and y_i = f(x_i); maxY >= 0, maxY bounds every y, and maxY is 0 or some y_i |
| Sampler.BuildData | main.js:38-54 | N + 1 samples of the density on [0, xMax] with dx = xMax / N; maxY bounds every y and equals one of them |
| Sampler.SampledGridShape | main.js:38-54 | a built grid starts at x = 0 with y = 0, ends at xMax, has strictly increasing x, non-negative y, and y > 0 after the first sample |
| Sampler.UniformXsShape | main.js:49-50 | x_i = dx·i with dx > 0 starts at 0, ends at dx·N and strictly increases |
| Sampler.DensityYsSign | main.js:51 | density samples are 0 at x = 0 and positive at every x > 0 |
| Integrator.Trapezoid | main.js:136 | 0.5·(y_(i-1) + y_i)·dx is non-negative for non-negative y and dx (stated by Integrator.TrapezoidNonNegative) |
| Integrator.TrapezoidNonNegative | main.js:136 | a trapezoid with non-negative heights and width has non-negative area |
| Integrator.Area | main.js:136-137 | the running area after i trapezoids, cdfValues[i]; its recurrence and monotonicity are stated by Integrator.AreasRecurrence and Integrator.AreaMonotone |
| Integrator.TotalArea | main.js:139 | totalArea, the running area after the last trapezoid; the normalised table reaches exactly 1 there (Integrator.NormalizedCdfShape) |
| Integrator.Areas | main.js:131-138 | the table of running areas has one entry per sample; its recurrence is stated by Integrator.AreasRecurrence |
| Integrator.CumulativeAreas | main.js:131-138 | the in-place cdfValues loop yields exactly the running trapezoid areas Areas(data, dx) |
| Integrator.AreasRecurrence | main.js:131-138 | cdf_0 = 0 and cdf_i = cdf_(i-1) + 0.5·(y_(i-1) + y_i)·dx |
| Integrator.AreaMonotone | main.js:133-138 | with non-negative y and dx the running area never decreases |
| Integrator.Normalize | main.js:140 | every normalised entry times totalArea gives back the raw entry |
| Integrator.NormalizedCdf | main.js:140 | cdfNorm has one entry per sample; its shape is stated by Integrator.NormalizedCdfShape |
| Integrator.NormalizedCdfShape | main.js:139-140 | the normalised table starts at 0, ends at exactly 1, never decreases and stays in [0, 1] |
| Search.FirstAtLeast | main.js:143-149 | the least index from `from` whose value reaches the target when one exists, and the default otherwise |
| Search.ScanFirstAtLeast | main.js:143-149 | the break-at-first-hit loop returns FirstAtLeast |
| Search.FirstAtLeastMonotone | main.js:143-149 | a lower target is reached no later |
| Solver.SanitizeAlpha | main.js:128-129 | alpha = alphaPercent/100 when strictly inside (0, 1), otherwise 0.05; always in (0, 1) |
| Solver.TargetLower | main.js:141 | targetLower = 1 - alpha lies in (0, 1) |
| Solver.Clamp01 | main.js:160 | min(max(t, 0), 1) lies in [0, 1], is t inside it, 0 below and 1 above |
| Solver.Fraction | main.js:157 | with a non-zero difference, cdfPrev + t·(cdfCurr - cdfPrev) reaches the target; with a zero difference, which the code replaces by 1, t = target - cdfPrev; a target between two increasing values gives t in [0, 1] |
| Solver.Lerp | main.js:158-160 | for 0 <= c <= 1, xPrev + (xCurr - xPrev)·c is xPrev at c = 0, xCurr at c = 1, and within [xPrev, xCurr] when xPrev <= xCurr |
| Solver.Interpolate | main.js:151-161 | xCrit is x_0 at index 0, otherwise within [x_(critIndex-1), x_critIndex] when x_(critIndex-1) <= x_critIndex |
| Solver.CriticalValue | main.js:127-164 | computeCriticalValue as a function of its inputs; critIndex is a valid index (its meaning is stated by the Solver lemmas below) |
| Solver.ComputeCriticalValue | main.js:127-164 | the method computes CriticalValue(data, dx, alphaPercent), with critIndex a valid index |
| Solver.CriticalIndexIsLeftmost | main.js:141-149 | critIndex is the leftmost index whose normalised cdf reaches 1 - alpha; every earlier one is below |
| Solver.CriticalValueInterpolates | main.js:151-161 | for critIndex = i > 0: cdf_(i-1) < 1 - alpha <= cdf_i, the fraction t lies in [0, 1] and is unchanged by the clamp, cdf_(i-1) + (cdf_i - cdf_(i-1))·t = 1 - alpha, and xCrit = x_(i-1) + (x_i - x_(i-1))·t |
| Solver.InterpolationValues | main.js:157-160 | with cdfPrev < target <= cdfCurr the clamped fraction is the fraction itself, the line reaches the target at it, and the clamped interpolation is the unclamped one |
| Solver.CriticalValueBracketed | main.js:151-161 | xCrit = x_0 when critIndex = 0, otherwise x_(critIndex-1) <= xCrit <= x_critIndex |
| Solver.OutOfRangeAlphaIsFivePercent | main.js:128-129 | any alphaPercent outside (0, 100) gives the same result as 5 |
| Solver.SanitizeAlphaMonotone | main.js:128 | inside (0, 100) a larger percentage never gives a smaller alpha |
| Solver.InterpolateMonotone | main.js:155-160 | on an ordered bracket with ordered cdf values, a higher target never moves the interpolated point left |
| Solver.CriticalValueMonotone | main.js:127-164 | a larger alpha never gives a larger critIndex or a larger xCrit |
| TailCentroid.Midpoint | main.js:218 | xMid lies in [x_(i-1), x_i] when x_(i-1) <= x_i |
| TailCentroid.RejectionCentroid | main.js:223-228 | the mean or its fallback; it lies in [xCrit, xMax] (stated by TailCentroid.CentroidBetween) and is the fallback without tail weight (TailCentroid.CentroidFallback) |
| TailCentroid.TailWeight | main.js:219 | sumW over the trapezoids lo + 1 .. hi; it equals Area(hi) - Area(lo) (TailCentroid.TailWeightIsAreaDifference) and is non-negative (TailCentroid.TailWeightNonNegative) |
| TailCentroid.TailMoment | main.js:220 | sumXW over the trapezoids lo + 1 .. hi; it lies between x_lo and x_hi times the weight (TailCentroid.WeightedMeanBounds, TailCentroid.CentroidInTail) |
| TailCentroid.TailSums | main.js:210-221 | the weighted-sum loop yields sumW = TailWeight and sumXW = TailMoment over the trapezoids critIndex + 1 .. N |
| TailCentroid.ComputeRejectionCentroid | main.js:209-236 | xCenter = sumXW / sumW when sumW > 0, else 0.5·(xCrit + xMax); idxClosest is the first i >= critIndex with x_i >= xCenter, or critIndex; it is a valid index |
| TailCentroid.TailWeightIsAreaDifference | main.js:212-219 | the tail weight from lo to hi is Area(hi) - Area(lo) |
| TailCentroid.TailWeightNonNegative | main.js:212-219 | with non-negative y and dx the tail weight is non-negative |
| TailCentroid.TailMassAgainstCdf | main.js:141-149 | a normalised cdf at or above 1 - alpha at i leaves a tail of at most alpha·totalArea, and one below leaves more |
| TailCentroid.TailMassAtCriticalIndex | main.js:141-149 | the tail from critIndex holds at most alpha·totalArea, and the tail from critIndex - 1 holds more |
| TailCentroid.WeightedMeanBounds | main.js:217-225 | non-negative weights at points in [a, b] have a non-negative sum, and a positive sum puts their weighted mean in [a, b] |
| TailCentroid.CentroidInTail | main.js:223-225 | with a positive tail weight, x_critIndex <= xCenter <= x_N |
| TailCentroid.CentroidFallback | main.js:226-228 | with no tail weight, xCenter = 0.5·(xCrit + xMax), which lies in [xCrit, xMax] when xCrit <= xMax |
| TailCentroid.CentroidBetween | main.js:223-228 | sorted samples, xCrit <= x_critIndex and xMax = x_N put xCenter in [xCrit, xMax] on both branches |
| TailCentroid.GridHasMass | main.js:131-139 | in exact arithmetic, every grid buildData returns has totalArea > 0 (see Floating point under Left out) |
| TailCentroid.CentroidInRejectionRegion | main.js:209-228 | on every built grid and every alphaPercent, xCrit <= xCenter <= xMax |
| TailCentroid.ClosestIndexReachesCenter | main.js:230-236 | idxClosest is a valid index; when xCenter <= x_N it is the first i >= critIndex with x_i >= xCenter; when xCenter exceeds every sorted x it stays at critIndex |

## Left out

- Drawing left out: the SVG drawing code (axes, curve, rejection region, markers,
  centroid label, title), the pixel scales xScale and yScale, and yCenter and
  centerXsvg in computeRejectionCentroid, with the y lookup at idxClosest they use.
  This is presentation, not numerics.
- Input handling left out: reading the inputs (parseInt and parseFloat of the form
  fields), the input-event wiring and the guard in redrawFromInputs. The model
  takes its k as a `nat` and its alphaPercent as any real.
- Host library: Math.pow with real exponents, Math.exp, Math.sqrt and Math.PI are
  left uninterpreted. They are fields of a `MathLib` value, and only their positivity
  is assumed (`Valid`). Math.pow(4, n) with natural n is modelled exactly.
- Floating point: IEEE-754 rounding, overflow of factorialInt to Infinity for large n,
  and NaN are not modelled. Arithmetic is on exact reals, so every fact proved here
  holds in exact arithmetic only. In double precision the degenerate case does
  arise: for k = 173, factorialInt(172) at main.js:26 overflows to Infinity, so
  gammaIntOrHalf is Infinity, coef at main.js:34 is 0, every density sample is 0,
  totalArea is 0 and main.js:140 divides by zero, giving NaN entries.
- Gamma.GammaIntOrHalf: takes twoAlpha = Math.round(alpha·2) directly as a natural
  number. For the integer k the program passes, this is k.
- Solver.ComputeCriticalValue: requires totalArea > 0. The source does not guard the
  division by totalArea, so a zero total would give NaN or Infinity there. In exact
  arithmetic (see Floating point) the degenerate case never arises for grids built
  by buildData (TailCentroid.GridHasMass).
- N_POINTS: the constant 10000 is the parameter n of Sampler.BuildData. The
  functions downstream use |data| - 1, which is what they receive.
- Textbook values: agreement of xCrit with tabulated chi-square critical values is
  not claimed. It depends on the discretisation and on the library functions left
  uninterpreted above.

Two edge cases of `main.js` are modelled as the code has them:

- Zero total area: main.js:140 divides by totalArea with no guard (see
  Solver.ComputeCriticalValue above).
- Zero interpolation denominator: main.js:157 replaces a zero difference by 1
  (`|| 1`), which Solver.Fraction models. When critIndex > 0 the difference is
  positive and the fraction already lies in [0, 1], so neither the replacement nor
  the clamp applies (Solver.CriticalValueInterpolates).
