/** The host's floating-point library, abstracted.
    The engine calls Math.pow with real exponents, Math.exp, Math.sqrt and Math.PI;
    none of them is computed here.  They are fields of a MathLib value, and the
    model assumes about them only the positivity facts that the engine relies on. */
module MathEnv {

  datatype MathLib = MathLib(
    pow: (real, real) -> real,  // Math.pow
    exp: real -> real,          // Math.exp
    sqrt: real -> real,         // Math.sqrt
    pi: real)                   // Math.PI

  /** What the model assumes of the library: π is positive, the square root of a
      positive number is positive, a positive base raised to any power is positive,
      and the exponential is positive. */
  ghost predicate Valid(m: MathLib) {
    && m.pi > 0.0
    && (forall x: real :: x > 0.0 ==> m.sqrt(x) > 0.0)
    && (forall a: real, b: real :: a > 0.0 ==> m.pow(a, b) > 0.0)
    && (forall x: real :: m.exp(x) > 0.0)
  }

  /** Math.max of two numbers. */
  function Max(a: real, b: real): (r: real)
    ensures r >= a && r >= b
    ensures r == a || r == b
  {
    if a >= b then a else b
  }

  /** Math.min of two numbers. */
  function Min(a: real, b: real): (r: real)
    ensures r <= a && r <= b
    ensures r == a || r == b
  {
    if a <= b then a else b
  }
}
