/**
 * pkg/kepler/kepler.go: Newton-Raphson on Kepler's equation E - e sin E = M,
 * always run for exactly ten steps.
 */
module Kepler {
  import opened GoMath

  /** The divisor 1 - e cos E of a step is positive for 0 <= e < 1. */
  lemma DivisorPositive(m: Library, e: real, E: real)
    requires Lawful(m) && 0.0 <= e < 1.0
    ensures 1.0 - e * m.cos(E) > 0.0
  {
    var c := m.cos(E);
    assert c <= 1.0;
    assert e * c <= e * 1.0 by {
      assert e * (1.0 - c) >= 0.0;
    }
  }

  /** E solves Kepler's equation E - e sin E = M. */
  predicate SolvesKepler(m: Library, e: real, M: real, E: real) {
    E - e * m.sin(E) == M
  }

  /**
   * One step of the closure KeplerEquation(e, M): E - (E - e sin E - M) / (1 - e cos E).
   * A root of Kepler's equation is a fixed point; for e = 0 the step lands on M.
   */
  function Step(m: Library, e: real, M: real, E: real): (next: real)
    requires Lawful(m) && 0.0 <= e < 1.0
    ensures SolvesKepler(m, e, M, E) ==> next == E
    ensures e == 0.0 ==> next == M
  {
    DivisorPositive(m, e, E);
    var fE := E - e * m.sin(E) - M;
    var dfE := 1.0 - e * m.cos(E);
    assert fE == 0.0 ==> fE / dfE == 0.0;
    E - fE / dfE
  }

  /**
   * The n-th Newton iterate from the start value E0. Started at a root of
   * Kepler's equation it stays there; for e = 0 it is M from the first step on.
   */
  function Iterate(m: Library, e: real, M: real, E0: real, n: nat): (E: real)
    requires Lawful(m) && 0.0 <= e < 1.0
    ensures SolvesKepler(m, e, M, E0) ==> E == E0
    ensures e == 0.0 && n >= 1 ==> E == M
  {
    if n == 0 then E0 else Step(m, e, M, Iterate(m, e, M, E0, n - 1))
  }

  /**
   * The eccentric anomaly NewtonRaphson returns: ten steps started from M
   * itself. It is M when M already solves the equation, and for e = 0.
   */
  function Solve(m: Library, e: real, M: real): (E: real)
    requires Lawful(m) && 0.0 <= e < 1.0
    ensures SolvesKepler(m, e, M, M) ==> E == M
    ensures e == 0.0 ==> E == M
  {
    Iterate(m, e, M, M, 10)
  }

  /**
   * The error NewtonRaphson returns: the size of the last step, |E10 - E9|.
   * It is zero once the ninth iterate solves the equation, and for e = 0.
   */
  function LastStep(m: Library, e: real, M: real): (err: real)
    requires Lawful(m) && 0.0 <= e < 1.0
    ensures err >= 0.0
    ensures SolvesKepler(m, e, M, Iterate(m, e, M, M, 9)) ==> err == 0.0
    ensures e == 0.0 ==> err == 0.0
  {
    Abs(Iterate(m, e, M, M, 10) - Iterate(m, e, M, M, 9))
  }

  /**
   * NewtonRaphson(e, before, a): ten steps of the Kepler closure from `before`,
   * which is also the mean anomaly inside the closure; the tolerance `a` is
   * never read. Returns the last iterate and the size of the last step.
   */
  method NewtonRaphson(m: Library, e: real, before: real, a: real) returns (after: real, err: real)
    requires Lawful(m) && 0.0 <= e < 1.0
    ensures after == Iterate(m, e, before, before, 10)
    ensures err == Abs(after - Iterate(m, e, before, before, 9))
    ensures err >= 0.0
  {
    var M := before;
    var current := before;
    after := 0.0;
    err := 100.0;
    for i := 0 to 10
      invariant current == Iterate(m, e, M, M, i)
      invariant i > 0 ==> after == current && err == Abs(current - Iterate(m, e, M, M, i - 1))
    {
      after := Step(m, e, M, current);
      err := Abs(after - current);
      current := after;
    }
  }

  /** Once an iterate solves Kepler's equation, every later iterate equals it. */
  lemma {:induction false} ConvergedStays(m: Library, e: real, M: real, E0: real, n: nat, k: nat)
    requires Lawful(m) && 0.0 <= e < 1.0
    requires SolvesKepler(m, e, M, Iterate(m, e, M, E0, n))
    ensures Iterate(m, e, M, E0, n + k) == Iterate(m, e, M, E0, n)
  {
    if k > 0 {
      ConvergedStays(m, e, M, E0, n, k - 1);
      assert Iterate(m, e, M, E0, n + k) == Step(m, e, M, Iterate(m, e, M, E0, n + k - 1));
    }
  }
}
