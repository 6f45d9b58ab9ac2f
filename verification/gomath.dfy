/**
 * What the propagator takes from Go's `math` package. The transcendental
 * functions are not computed: they are the fields of a `Library` value that
 * every caller passes in, and `Lawful` lists the only facts the proofs rely on.
 */
module GoMath {

  /** math.Pi, as the exact decimal Go declares it. */
  const Pi: real := 3.14159265358979323846264338327950288419716939937510582097494459

  datatype Library = Library(
    sin: real -> real,
    cos: real -> real,
    sqrt: real -> real,
    cbrt: real -> real,
    pow: (real, real) -> real,
    asin: real -> real,
    atan2: (real, real) -> real
  )

  /** The laws of the math library that the model uses, and nothing more. */
  ghost predicate Lawful(m: Library) {
    && m.sin(0.0) == 0.0
    && m.cos(0.0) == 1.0
    && m.sqrt(0.0) == 0.0
    && (forall x :: m.sin(x) * m.sin(x) + m.cos(x) * m.cos(x) == 1.0)
    && (forall x :: -1.0 <= m.cos(x) <= 1.0)
    && (forall x :: m.sqrt(x) >= 0.0)
    && (forall x :: x > 0.0 ==> m.cbrt(x) > 0.0)
    && (forall x, y :: x > 0.0 ==> m.pow(x, y) > 0.0)
  }

  /** math.Abs. */
  function Abs(x: real): (r: real)
    ensures r >= 0.0
    ensures r == x || r == -x
  {
    if x < 0.0 then -x else x
  }

  /** Go's conversion float64(int64(x)): truncation toward zero (int64 overflow is not modelled). */
  function Trunc(x: real): (n: int)
    ensures x >= 0.0 ==> 0.0 <= n as real <= x < n as real + 1.0
    ensures x < 0.0 ==> n as real - 1.0 < x <= n as real <= 0.0
  {
    if x >= 0.0 then x.Floor else -((-x).Floor)
  }

  /** `x - float64(int64(x))`: the fractional part, carrying the sign of x. */
  function Frac(x: real): (f: real)
    ensures x >= 0.0 ==> 0.0 <= f < 1.0
    ensures x < 0.0 ==> -1.0 < f <= 0.0
    ensures (x - f).Floor as real == x - f
  {
    x - Trunc(x) as real
  }
}
