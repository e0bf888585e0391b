/** Scalar support for the vector library: the C math functions the source
    calls, the single-precision constants it uses, and float division and
    std::min/std::max stated over the reals. */
module MathLib {

  /** The libm entry points the source calls (sqrt/sqrtf, sin, cos/cosf,
      acos). They are code this model cannot see, so every operation that
      needs them receives them as a parameter. */
  datatype Libm = Libm(sqrt: real -> real, sin: real -> real, cos: real -> real, acos: real -> real)

  /** The only facts about libm that the proofs rely on. The positivity of
      sqrt on positive inputs follows from the first conjunct; it is stated
      as well because the solver does not derive it through products. */
  ghost predicate Lawful(lib: Libm)
  {
    && (forall x :: x >= 0.0 ==> lib.sqrt(x) >= 0.0 && lib.sqrt(x) * lib.sqrt(x) == x)
    && (forall x :: x > 0.0 ==> lib.sqrt(x) > 0.0)
    && lib.cos(0.0) == 1.0
    && lib.sin(0.0) == 0.0
  }

  /** M_PI as spelled in <math.h>. */
  const Pi: real := 3.14159265358979323846

  /** EPSILON of the matrix inversion. */
  const Epsilon: real := 0.00001

  /** std::numeric_limits<float>::max(), exactly. */
  const FltMax: real := 340282346638528859811704183484516925440.0

  /** Float division. Dividing by zero gives an infinity or NaN in the
      source; the model makes no claim on those paths and returns 0. */
  function FDiv(a: real, b: real): (q: real)
    ensures b != 0.0 ==> q * b == a
  {
    if b == 0.0 then 0.0 else a / b
  }

  /** Dividing is multiplying by the reciprocal, also for a zero divisor. */
  lemma DivByRecip(a: real, b: real)
    ensures FDiv(a, b) == a * FDiv(1.0, b)
  {
  }

  /** fabs */
  function Abs(x: real): (r: real)
    ensures r >= 0.0 && (r == x || r == -x)
  {
    if x < 0.0 then -x else x
  }

  /** std::min(a, b), which returns a unless b < a. */
  function Min(a: real, b: real): (r: real)
    ensures r <= a && r <= b && (r == a || r == b)
  {
    if b < a then b else a
  }

  /** std::max(a, b), which returns a unless a < b. */
  function Max(a: real, b: real): (r: real)
    ensures r >= a && r >= b && (r == a || r == b)
  {
    if a < b then b else a
  }

  /** Over the reals a lawful sqrt is the unique non-negative root. */
  lemma SqrtUnique(lib: Libm, x: real, s: real)
    requires Lawful(lib) && x >= 0.0
    requires s >= 0.0 && s * s == x
    ensures lib.sqrt(x) == s
  {
    var t := lib.sqrt(x);
    assert t >= 0.0 && t * t == x;
    assert (t - s) * (t + s) == 0.0;
    if t + s == 0.0 {
      assert t == 0.0 && s == 0.0;
    } else {
      assert t - s == (t - s) * (t + s) / (t + s);
    }
  }
}
