/** The Gamma function at non-negative integers and half-integers
    (factorialInt and gammaIntOrHalf). */
module Gamma {
  import opened MathEnv

  /** n!, with every n <= 1 giving 1: the value factorialInt computes (a number,
      so a real here). */
  function Fact(n: int): (r: real)
    ensures r >= 1.0
    decreases n
  {
    if n <= 1 then 1.0 else n as real * Fact(n - 1)
  }

  /** factorialInt: an accumulator multiplied by 2, 3, ..., n. */
  method FactorialInt(n: int) returns (r: real)
    ensures r == Fact(n)
    ensures r >= 1.0
  {
    r := 1.0;
    var i := 2;
    while i <= n
      invariant 2 <= i <= if n < 2 then 2 else n + 1
      invariant r == Fact(i - 1)
    {
      r := r * i as real;
      i := i + 1;
    }
  }

  /** 4^n, which Math.pow(4, n) gives exactly for the natural n used here. */
  function Pow4(n: nat): (r: real)
    ensures r >= 1.0
  {
    if n == 0 then 1.0 else 4.0 * Pow4(n - 1)
  }

  /** The denominator 4^n · n! of the half-integer closed form. */
  function HalfDenominator(n: nat): (r: real)
    ensures r >= 1.0
  {
    var p := Pow4(n);
    var f := Fact(n);
    assert p * f >= 1.0 * f;
    p * f
  }

  /** The even branch of gammaIntOrHalf, at alpha = n: 1 for n <= 1, else (n-1)!. */
  function IntegerGamma(n: nat): (r: real)
    ensures r >= 1.0
  {
    if n <= 1 then 1.0 else Fact(n - 1)
  }

  /** The odd branch of gammaIntOrHalf, at alpha = n + 1/2: (2n)! / (4^n · n!) · √π. */
  function HalfIntegerGamma(m: MathLib, n: nat): (r: real)
    requires Valid(m)
    ensures r > 0.0
  {
    var numerator := Fact(2 * n);
    var denominator := HalfDenominator(n);
    (numerator / denominator) * m.sqrt(m.pi)
  }

  /** gammaIntOrHalf(alpha) where twoAlpha is 2·alpha rounded; the density always
      passes its degrees of freedom k here, since alpha = k/2. */
  function GammaIntOrHalf(m: MathLib, twoAlpha: nat): (r: real)
    requires Valid(m)
    ensures r > 0.0
  {
    if twoAlpha % 2 == 0 then IntegerGamma(twoAlpha / 2)
    else HalfIntegerGamma(m, (twoAlpha - 1) / 2)
  }

  /** At a positive integer n the result is Γ(n) = (n-1)!; at 0 it is 1. */
  lemma {:induction false} GammaAtIntegers(m: MathLib, n: nat)
    requires Valid(m)
    ensures n >= 1 ==> GammaIntOrHalf(m, 2 * n) == Fact(n - 1)
    ensures n == 0 ==> GammaIntOrHalf(m, 0) == 1.0
  {
    assert (2 * n) % 2 == 0 && (2 * n) / 2 == n;
  }

  /** At n + 1/2 the result is the closed form Γ(n + 1/2) = (2n)! / (4^n · n!) · √π. */
  lemma {:induction false} GammaAtHalfIntegers(m: MathLib, n: nat)
    requires Valid(m)
    ensures GammaIntOrHalf(m, 2 * n + 1) == (Fact(2 * n) / HalfDenominator(n)) * m.sqrt(m.pi)
  {
    assert (2 * n + 1) % 2 == 1 && (2 * n + 1 - 1) / 2 == n;
  }

  /** The two base values Γ(1/2) = √π and Γ(1) = 1. */
  lemma {:induction false} GammaBaseValues(m: MathLib)
    requires Valid(m)
    ensures GammaIntOrHalf(m, 1) == m.sqrt(m.pi)
    ensures GammaIntOrHalf(m, 2) == 1.0
  {
  }

  /** The functional equation Γ(a + 1) = a · Γ(a) for every a = twoAlpha/2 >= 1/2:
      with the base values it determines the result everywhere except at 0. */
  lemma {:induction false} GammaRecurrence(m: MathLib, twoAlpha: nat)
    requires Valid(m)
    requires twoAlpha >= 1
    ensures GammaIntOrHalf(m, twoAlpha + 2) == (twoAlpha as real / 2.0) * GammaIntOrHalf(m, twoAlpha)
  {
    if twoAlpha % 2 == 0 {
      IntegerGammaStep(twoAlpha);
    } else {
      var n := (twoAlpha - 1) / 2;
      assert twoAlpha == 2 * n + 1 && (twoAlpha + 2 - 1) / 2 == n + 1;
      HalfIntegerStep(m, n, twoAlpha);
    }
  }

  /** The recurrence on the even branch: Γ(n + 1) = n · Γ(n) for n = t/2 >= 1. */
  lemma {:induction false} IntegerGammaStep(t: nat)
    requires t >= 2 && t % 2 == 0
    ensures IntegerGamma((t + 2) / 2) == (t as real / 2.0) * IntegerGamma(t / 2)
  {
    var n := t / 2;
    assert (t + 2) / 2 == n + 1;
    if n == 1 {
      assert t == 2;
    } else {
      var f, g := Fact(n), Fact(n - 1);
      FactStep(n, t, f, g);
    }
  }

  /** n! = (t / 2) · (n - 1)! when t = 2n and n >= 2. */
  lemma {:induction false} FactStep(n: nat, t: nat, f: real, g: real)
    requires n >= 2 && t == 2 * n && f == Fact(n) && g == Fact(n - 1)
    ensures f == (t as real / 2.0) * g
  {
    Substitute(f, n as real, Fact(n - 1), t as real / 2.0, g);
  }

  /** The recurrence on the odd branch: Γ(n + 3/2) = (n + 1/2) · Γ(n + 1/2) for t = 2n + 1. */
  lemma {:induction false} HalfIntegerStep(m: MathLib, n: nat, t: nat)
    requires Valid(m) && t == 2 * n + 1
    ensures HalfIntegerGamma(m, n + 1) == (t as real / 2.0) * HalfIntegerGamma(m, n)
  {
    var a, b, x, y, s := Fact(2 * n), HalfDenominator(n), Fact(2 * (n + 1)), HalfDenominator(n + 1), m.sqrt(m.pi);
    HalfStepValues(n, t, a, b, x, y, s);
  }

  /** HalfIntegerStep with the factorial terms and √π named. */
  lemma {:induction false} HalfStepValues(n: nat, t: nat, a: real, b: real, x: real, y: real, s: real)
    requires t == 2 * n + 1
    requires a == Fact(2 * n) && b == HalfDenominator(n) && x == Fact(2 * (n + 1)) && y == HalfDenominator(n + 1)
    ensures (x / y) * s == (t as real / 2.0) * ((a / b) * s)
  {
    var c := (n + 1) as real;
    FactTwoSteps(n, c, a, x);
    HalfDenominatorStep(n, c, b, y);
    RatioStep(a, b, x, y, c, t as real / 2.0, s);
  }

  /** (2n + 2)! = (2n + 2) · (2n + 1) · (2n)!, written with c = n + 1. */
  lemma {:induction false} FactTwoSteps(n: nat, c: real, a: real, x: real)
    requires c == (n + 1) as real && a == Fact(2 * n) && x == Fact(2 * (n + 1))
    ensures x == (2.0 * c) * ((2.0 * c - 1.0) * a)
  {
    Substitute(x, (2 * n + 2) as real, Fact(2 * n + 1), 2.0 * c, (2.0 * c - 1.0) * a);
  }

  /** 4^(n+1) · (n+1)! = 4 (n + 1) · 4^n · n!, written with c = n + 1. */
  lemma {:induction false} HalfDenominatorStep(n: nat, c: real, b: real, y: real)
    requires c == (n + 1) as real && b == HalfDenominator(n) && y == HalfDenominator(n + 1)
    ensures y == (4.0 * c) * b
  {
    var p, f := Pow4(n), Fact(n);
    assert Pow4(n + 1) == 4.0 * p;
    assert Fact(n + 1) == c * f;
    assert (4.0 * p) * (c * f) == (4.0 * c) * (p * f);
  }

  /** x = u · v with u = u' and v = v' gives x = u' · v'. */
  lemma Substitute(x: real, u: real, v: real, u': real, v': real)
    requires x == u * v && u == u' && v == v'
    ensures x == u' * v'
  {
  }

  /** The arithmetic behind HalfIntegerStep: x = (2c)(2c - 1)·a and y = 4c·b, with c >= 1,
      give (x / y) · s = ((2c - 1) / 2) · ((a / b) · s). */
  lemma RatioStep(a: real, b: real, x: real, y: real, c: real, r: real, s: real)
    requires b > 0.0 && c >= 1.0 && r == (2.0 * c - 1.0) / 2.0
    requires x == (2.0 * c) * ((2.0 * c - 1.0) * a) && y == (4.0 * c) * b
    ensures y != 0.0 && (x / y) * s == r * ((a / b) * s)
  {
    var q := a / b;
    assert a == q * b;
    assert x == (r * q) * y;
    assert x / y == r * q;
  }
}
