/**
 * pkg/orbital/calculations.go: the propagation pipeline over exact reals.
 * Elapsed time, mean anomaly, Kepler solve, orbital-plane position,
 * perturbation, rotation to the equatorial frame, rotation to the Earth-fixed
 * frame, latitude/longitude and altitude, in that order.
 */
module Orbital {
  import opened Outcomes
  import opened GoMath
  import opened GoTime
  import opened Util
  import opened Model
  import Kepler

  /** The propagator's only panic. */
  datatype Panic = Panic(message: string)

  const TargetBeforeEpoch: Panic := Panic("TargetTime < ET")

  // ---------------------------------------------------------------- time

  /** Days since January 1 of the target's own year, plus one (1-based day of year). */
  function DaysIntoYear(target: int): (d: real)
    ensures 1.0 <= d < 367.0
  {
    var y := YearOf(target);
    YearLength(y);
    (target - YearStart(y)) as real / 86400.0 + 1.0
  }

  /**
   * Whole seconds in etDay days: time.Duration truncates 86400e9 * etDay
   * nanoseconds toward zero, and Unix() floors to the second. For a
   * non-negative epoch day the two roundings amount to flooring 86400 * etDay;
   * a negative one gives no positive count.
   */
  function EpochSeconds(etDay: real): (seconds: int)
    ensures etDay >= 0.0 ==> seconds == (86400.0 * etDay).Floor
    ensures etDay < 0.0 ==> seconds <= 0
  {
    NanosecondsFloor(86400.0 * etDay);
    assert 1000000000.0 * 86400.0 * etDay == 1000000000.0 * (86400.0 * etDay);
    Trunc(1000000000.0 * 86400.0 * etDay) / 1000000000
  }

  /** Truncating x seconds to nanoseconds and then flooring to seconds floors x, for x >= 0. */
  lemma NanosecondsFloor(x: real)
    ensures x >= 0.0 ==> Trunc(1000000000.0 * x) / 1000000000 == x.Floor
    ensures x < 0.0 ==> Trunc(1000000000.0 * x) / 1000000000 <= 0
  {
    var n := Trunc(1000000000.0 * x);
    var q := n / 1000000000;
    if x < 0.0 {
      return;
    }
    assert q * 1000000000 <= n < (q + 1) * 1000000000;
    assert n as real <= 1000000000.0 * x < n as real + 1.0;
    assert q as real <= x by {
      assert (q * 1000000000) as real <= 1000000000.0 * x;
    }
    assert x < (q + 1) as real by {
      assert (n + 1) as real <= ((q + 1) * 1000000000) as real;
    }
  }

  /**
   * calculateTimeDifference: days from the epoch to the target, or the panic
   * "TargetTime < ET" when that is negative. The epoch is measured inside its
   * own year only; the epoch year is never read.
   */
  function TimeDifference(target: int, etYear: int, etDay: real): (r: Result<real, Panic>)
    ensures r.Err? <==> DaysIntoYear(target) < EpochSeconds(etDay) as real / 86400.0
    ensures r.Err? ==> r.error == TargetBeforeEpoch
    ensures r.Ok? ==> r.value >= 0.0
    ensures r.Ok? ==> r.value + EpochSeconds(etDay) as real / 86400.0 == DaysIntoYear(target)
  {
    var tDiff1 := DaysIntoYear(target);
    var tDiff2 := EpochSeconds(etDay) as real / 86400.0;
    var tDiff := tDiff1 - tDiff2;
    if tDiff < 0.0 then Err(TargetBeforeEpoch) else Ok(tDiff)
  }

  /** The epoch year has no influence on the elapsed time. */
  lemma EpochYearIgnored(target: int, year1: int, year2: int, etDay: real)
    ensures TimeDifference(target, year1, etDay) == TimeDifference(target, year2, etDay)
  {
  }

  // ---------------------------------------------------------------- mean anomaly

  /**
   * Mean anomaly in revolutions: m0/360 + m1 t + m2 t^2 / 2. At the epoch it is
   * the element's mean anomaly over 360; with non-negative rates it only grows.
   */
  function MeanAnomalyRevs(m0: real, m1: real, m2: real, tDiff: real): (revs: real)
    ensures tDiff == 0.0 ==> revs == m0 / 360.0
    ensures m1 >= 0.0 && m2 >= 0.0 && tDiff >= 0.0 ==> revs >= m0 / 360.0
  {
    NonNegativeTerms(m1, m2, tDiff);
    (m0 / 360.0) + m1 * tDiff + 0.5 * m2 * tDiff * tDiff
  }

  lemma NonNegativeTerms(m1: real, m2: real, t: real)
    ensures m1 >= 0.0 && m2 >= 0.0 && t >= 0.0 ==> m1 * t >= 0.0 && 0.5 * m2 * t * t >= 0.0
  {
    if m1 >= 0.0 && m2 >= 0.0 && t >= 0.0 {
      assert 0.5 * m2 >= 0.0;
      assert 0.5 * m2 * t >= 0.0;
    }
  }

  /** Advancing the elapsed time never lowers the revolution count when both rates are non-negative. */
  lemma MeanAnomalyRevsMonotone(m0: real, m1: real, m2: real, t1: real, t2: real)
    requires m1 >= 0.0 && m2 >= 0.0 && 0.0 <= t1 <= t2
    ensures MeanAnomalyRevs(m0, m1, m2, t1) <= MeanAnomalyRevs(m0, m1, m2, t2)
  {
    assert m1 * t1 <= m1 * t2 by {
      assert m1 * (t2 - t1) >= 0.0;
    }
    assert t1 * t1 <= t2 * t2 by {
      assert t1 * (t2 - t1) >= 0.0;
      assert t2 * (t2 - t1) >= 0.0;
    }
    assert 0.5 * m2 * t1 * t1 <= 0.5 * m2 * t2 * t2 by {
      assert 0.5 * m2 * (t2 * t2 - t1 * t1) >= 0.0;
    }
  }

  /**
   * calculateMeanAnomaly: the fractional part (truncated toward zero) of the
   * revolutions, in radians.
   */
  function CalculateMeanAnomaly(m0: real, m1: real, m2: real, tDiff: real): (rad: real)
    ensures MeanAnomalyRevs(m0, m1, m2, tDiff) >= 0.0 ==> 0.0 <= rad < 2.0 * Pi
    ensures MeanAnomalyRevs(m0, m1, m2, tDiff) < 0.0 ==> -2.0 * Pi < rad <= 0.0
  {
    Frac(MeanAnomalyRevs(m0, m1, m2, tDiff)) * (2.0 * Pi)
  }

  /** At the epoch a mean anomaly in [0, 360) degrees comes back unchanged, in radians. */
  lemma MeanAnomalyAtEpoch(m0: real, m1: real, m2: real)
    requires 0.0 <= m0 < 360.0
    ensures CalculateMeanAnomaly(m0, m1, m2, 0.0) == Deg2Rad(m0)
  {
    var revs := MeanAnomalyRevs(m0, m1, m2, 0.0);
    assert revs == m0 / 360.0;
    assert Trunc(revs) == 0;
    assert m0 / 360.0 * (2.0 * Pi) == m0 / 180.0 * Pi;
  }

  // ---------------------------------------------------------------- orbit shape

  /** calculateOrbitalSemiAxes' semi-major axis a = cbrt(2.975537e15 / (4 pi^2 n^2)) [km]. */
  function SemiMajorAxis(m: Library, meanMotion: real): (a: real)
    requires Lawful(m) && meanMotion != 0.0
    ensures a > 0.0
  {
    QuotientSameSign(2.975537 * m.pow(10.0, 15.0), 4.0 * Pi * Pi * meanMotion, meanMotion);
    m.cbrt((2.975537 * m.pow(10.0, 15.0)) / (4.0 * Pi * Pi * meanMotion * meanMotion))
  }

  /** A positive number over a product of two factors of the same sign is positive. */
  lemma QuotientSameSign(x: real, p: real, q: real)
    requires x > 0.0 && ((p > 0.0 && q > 0.0) || (p < 0.0 && q < 0.0))
    ensures p * q > 0.0
    ensures x / (p * q) > 0.0
  {
    if p < 0.0 {
      assert p * q == (-p) * (-q);
    }
  }

  /**
   * calculatePositionInOrbitalPlane: u = a cos E - a e, v = a sqrt(1 - e^2) sin E,
   * measured from the focus (the Earth's centre). The point lies on the
   * ellipse of semi-axes a and b = a sqrt(1 - e^2) centred at (-a e, 0); at
   * E = 0 it is the perigee, a (1 - e) from the focus on the u axis.
   */
  function PositionInOrbitalPlane(m: Library, a: real, ecc: real, eccentricAnomaly: real): (uv: (real, real))
    ensures Lawful(m) ==> OnOrbitEllipse(m, a, ecc, uv)
    ensures Lawful(m) && eccentricAnomaly == 0.0 ==> uv == (a * (1.0 - ecc), 0.0)
  {
    var c, s := m.cos(eccentricAnomaly), m.sin(eccentricAnomaly);
    OnEllipse(a, m.sqrt(1.0 - ecc * ecc), c, s);
    (a * c - a * ecc, a * m.sqrt(1.0 - ecc * ecc) * s)
  }

  /**
   * (u, v) lies on the ellipse with semi-axes a and b = a sqrt(1 - e^2) whose
   * centre is a e behind the focus: b^2 (u + a e)^2 + a^2 v^2 = a^2 b^2.
   */
  ghost predicate OnOrbitEllipse(m: Library, a: real, ecc: real, uv: (real, real)) {
    var b := a * m.sqrt(1.0 - ecc * ecc);
    b * b * (uv.0 + a * ecc) * (uv.0 + a * ecc) + a * a * uv.1 * uv.1 == a * a * b * b
  }

  /** (a c, a k s) lies on the ellipse of semi-axes a and a k whenever c^2 + s^2 = 1. */
  lemma OnEllipse(a: real, k: real, c: real, s: real)
    ensures c * c + s * s == 1.0 ==>
              (a * k) * (a * k) * (a * c) * (a * c) + a * a * (a * k * s) * (a * k * s) == a * a * (a * k) * (a * k)
  {
    var X := a * a * (a * k) * (a * k);
    assert (a * k) * (a * k) * (a * c) * (a * c) == X * (c * c);
    assert a * a * (a * k * s) * (a * k * s) == X * (s * s);
    assert X * (c * c) + X * (s * s) == X * (c * c + s * s);
  }

  // ---------------------------------------------------------------- perturbation

  /** Denominator pi (a / EarthRadius)^3.5 shared by both drift rates. */
  function DriftScale(m: Library, a: real): (scale: real)
    requires Lawful(m) && a > 0.0
    ensures scale > 0.0
  {
    Pi * m.pow(a / EarthRadius, 3.5)
  }

  /**
   * Drift of the argument of perigee [deg/day]: 180 * 0.174 (2 - 2.5 sin^2 i) / scale.
   * The perigee advances exactly when sin^2 i < 0.8 and recedes exactly when
   * sin^2 i > 0.8 (the critical inclination).
   */
  function PerigeeRate(m: Library, incl0: real, a: real): (rate: real)
    requires Lawful(m) && a > 0.0
    ensures rate > 0.0 <==> m.pow(m.sin(incl0 * Pi / 180.0), 2.0) < 0.8
    ensures rate < 0.0 <==> m.pow(m.sin(incl0 * Pi / 180.0), 2.0) > 0.8
  {
    var sin2 := m.pow(m.sin(incl0 * Pi / 180.0), 2.0);
    QuotientSign(180.0 * 0.174 * (2.0 - 2.5 * sin2), DriftScale(m, a));
    (180.0 * 0.174 * (2.0 - 2.5 * sin2)) / DriftScale(m, a)
  }

  /**
   * Regression of the node [deg/day]: 180 * 0.174 cos i / scale. It has the
   * sign of cos i and is at most 180 * 0.174 / scale in size.
   */
  function NodeRate(m: Library, incl0: real, a: real): (rate: real)
    requires Lawful(m) && a > 0.0
    ensures rate > 0.0 <==> m.cos(incl0 * Pi / 180.0) > 0.0
    ensures rate < 0.0 <==> m.cos(incl0 * Pi / 180.0) < 0.0
    ensures Abs(rate) <= 180.0 * 0.174 / DriftScale(m, a)
  {
    var c := m.cos(incl0 * Pi / 180.0);
    QuotientSign(180.0 * 0.174 * c, DriftScale(m, a));
    QuotientBound(180.0 * 0.174 * c, 180.0 * 0.174, DriftScale(m, a));
    (180.0 * 0.174 * c) / DriftScale(m, a)
  }

  /** Dividing by a positive number keeps the sign. */
  lemma QuotientSign(x: real, d: real)
    requires d > 0.0
    ensures x / d > 0.0 <==> x > 0.0
    ensures x / d < 0.0 <==> x < 0.0
  {
    assert x == (x / d) * d;
  }

  /** Dividing by a positive number keeps a bound on the size. */
  lemma QuotientBound(x: real, k: real, d: real)
    requires d > 0.0 && -k <= x <= k
    ensures Abs(x / d) <= k / d
  {
    assert x / d <= k / d by {
      assert (k - x) / d >= 0.0;
    }
    assert -(x / d) <= k / d by {
      assert (k + x) / d >= 0.0;
    }
  }

  /**
   * calculatePerturbationCorrection: argument of perigee and RAAN [deg] after a
   * linear secular drift over tDiff days; the perigee advances and the node regresses.
   */
  function PerturbationCorrection(m: Library, argPerigee0: real, raan0: real, incl0: real, a: real, tDiff: real)
    : (angles: (real, real))
    requires Lawful(m) && a > 0.0
    ensures tDiff == 0.0 ==> angles == (argPerigee0, raan0)
  {
    (argPerigee0 + PerigeeRate(m, incl0, a) * tDiff, raan0 - NodeRate(m, incl0, a) * tDiff)
  }

  /** Both corrected angles are affine in the elapsed time: fixed by their values at t = 0 and t = 1. */
  lemma PerturbationAffine(m: Library, argPerigee0: real, raan0: real, incl0: real, a: real, tDiff: real)
    requires Lawful(m) && a > 0.0
    ensures var one := PerturbationCorrection(m, argPerigee0, raan0, incl0, a, 1.0);
            var here := PerturbationCorrection(m, argPerigee0, raan0, incl0, a, tDiff);
            && here.0 == argPerigee0 + (one.0 - argPerigee0) * tDiff
            && here.1 == raan0 + (one.1 - raan0) * tDiff
  {
    var one := PerturbationCorrection(m, argPerigee0, raan0, incl0, a, 1.0);
    LinearDrift(argPerigee0, PerigeeRate(m, incl0, a), one.0, tDiff);
    LinearRegression(raan0, NodeRate(m, incl0, a), one.1, tDiff);
  }

  /** x0 + r t is the line through x0 (at t = 0) and x0 + r (at t = 1). */
  lemma LinearDrift(x0: real, rate: real, x1: real, t: real)
    requires x1 == x0 + rate * 1.0
    ensures x0 + rate * t == x0 + (x1 - x0) * t
  {
  }

  /** x0 - r t is the line through x0 (at t = 0) and x0 - r (at t = 1). */
  lemma LinearRegression(x0: real, rate: real, x1: real, t: real)
    requires x1 == x0 - rate * 1.0
    ensures x0 - rate * t == x0 + (x1 - x0) * t
  {
  }

  // ---------------------------------------------------------------- rotations

  datatype Vec3 = Vec3(x: real, y: real, z: real)

  /** A 3x3 matrix by rows. */
  datatype Mat3 = Mat3(
    a11: real, a12: real, a13: real,
    a21: real, a22: real, a23: real,
    a31: real, a32: real, a33: real)

  function NormSquared(v: Vec3): real {
    v.x * v.x + v.y * v.y + v.z * v.z
  }

  function Apply(A: Mat3, v: Vec3): Vec3 {
    Vec3(A.a11 * v.x + A.a12 * v.y + A.a13 * v.z,
         A.a21 * v.x + A.a22 * v.y + A.a23 * v.z,
         A.a31 * v.x + A.a32 * v.y + A.a33 * v.z)
  }

  /** The matrix product A B, as gonum's Dense.Mul computes it. */
  function Mul(A: Mat3, B: Mat3): Mat3 {
    Mat3(
      A.a11 * B.a11 + A.a12 * B.a21 + A.a13 * B.a31,
      A.a11 * B.a12 + A.a12 * B.a22 + A.a13 * B.a32,
      A.a11 * B.a13 + A.a12 * B.a23 + A.a13 * B.a33,
      A.a21 * B.a11 + A.a22 * B.a21 + A.a23 * B.a31,
      A.a21 * B.a12 + A.a22 * B.a22 + A.a23 * B.a32,
      A.a21 * B.a13 + A.a22 * B.a23 + A.a23 * B.a33,
      A.a31 * B.a11 + A.a32 * B.a21 + A.a33 * B.a31,
      A.a31 * B.a12 + A.a32 * B.a22 + A.a33 * B.a32,
      A.a31 * B.a13 + A.a32 * B.a23 + A.a33 * B.a33)
  }

  /** One row of a product: (r B) v == r (B v), with the row of r B and the vector B v given by name. */
  lemma RowOfProduct(r1: real, r2: real, r3: real,
                     b11: real, b12: real, b13: real,
                     b21: real, b22: real, b23: real,
                     b31: real, b32: real, b33: real,
                     x: real, y: real, z: real,
                     c1: real, c2: real, c3: real,
                     w1: real, w2: real, w3: real)
    requires c1 == r1 * b11 + r2 * b21 + r3 * b31
    requires c2 == r1 * b12 + r2 * b22 + r3 * b32
    requires c3 == r1 * b13 + r2 * b23 + r3 * b33
    requires w1 == b11 * x + b12 * y + b13 * z
    requires w2 == b21 * x + b22 * y + b23 * z
    requires w3 == b31 * x + b32 * y + b33 * z
    ensures c1 * x + c2 * y + c3 * z == r1 * w1 + r2 * w2 + r3 * w3
  {
  }

  /** Applying a product applies its factors in turn, the right one first. */
  lemma MulApply(A: Mat3, B: Mat3, v: Vec3)
    ensures Apply(Mul(A, B), v) == Apply(A, Apply(B, v))
  {
    MulApplyRows(A, B, v);
  }

  lemma MulApplyRows(A: Mat3, B: Mat3, v: Vec3)
    ensures Apply(Mul(A, B), v).x == Apply(A, Apply(B, v)).x
    ensures Apply(Mul(A, B), v).y == Apply(A, Apply(B, v)).y
    ensures Apply(Mul(A, B), v).z == Apply(A, Apply(B, v)).z
  {
    var C, w := Mul(A, B), Apply(B, v);
    FirstRowOfProduct(A, B, v);
    SecondRowOfProduct(A, B, v);
    ThirdRowOfProduct(A, B, v);
  }

  lemma FirstRowOfProduct(A: Mat3, B: Mat3, v: Vec3)
    ensures Apply(Mul(A, B), v).x == Apply(A, Apply(B, v)).x
  {
    var C, w := Mul(A, B), Apply(B, v);
    RowOfProduct(A.a11, A.a12, A.a13, B.a11, B.a12, B.a13, B.a21, B.a22, B.a23, B.a31, B.a32, B.a33,
                 v.x, v.y, v.z, C.a11, C.a12, C.a13, w.x, w.y, w.z);
  }

  lemma SecondRowOfProduct(A: Mat3, B: Mat3, v: Vec3)
    ensures Apply(Mul(A, B), v).y == Apply(A, Apply(B, v)).y
  {
    var C, w := Mul(A, B), Apply(B, v);
    RowOfProduct(A.a21, A.a22, A.a23, B.a11, B.a12, B.a13, B.a21, B.a22, B.a23, B.a31, B.a32, B.a33,
                 v.x, v.y, v.z, C.a21, C.a22, C.a23, w.x, w.y, w.z);
  }

  lemma ThirdRowOfProduct(A: Mat3, B: Mat3, v: Vec3)
    ensures Apply(Mul(A, B), v).z == Apply(A, Apply(B, v)).z
  {
    var C, w := Mul(A, B), Apply(B, v);
    RowOfProduct(A.a31, A.a32, A.a33, B.a11, B.a12, B.a13, B.a21, B.a22, B.a23, B.a31, B.a32, B.a33,
                 v.x, v.y, v.z, C.a31, C.a32, C.a33, w.x, w.y, w.z);
  }

  /** The columns of A are unit vectors at right angles to each other (A^T A = I). */
  predicate Orthonormal(A: Mat3) {
    && A.a11 * A.a11 + A.a21 * A.a21 + A.a31 * A.a31 == 1.0
    && A.a12 * A.a12 + A.a22 * A.a22 + A.a32 * A.a32 == 1.0
    && A.a13 * A.a13 + A.a23 * A.a23 + A.a33 * A.a33 == 1.0
    && A.a11 * A.a12 + A.a21 * A.a22 + A.a31 * A.a32 == 0.0
    && A.a11 * A.a13 + A.a21 * A.a23 + A.a31 * A.a33 == 0.0
    && A.a12 * A.a13 + A.a22 * A.a23 + A.a32 * A.a33 == 0.0
  }

  const Identity: Mat3 := Mat3(1.0, 0.0, 0.0, 0.0, 1.0, 0.0, 0.0, 0.0, 1.0)

  /** Rotation by angle about the z axis. */
  function RotZ(m: Library, angle: real): Mat3 {
    Mat3(m.cos(angle), -m.sin(angle), 0.0,
         m.sin(angle), m.cos(angle), 0.0,
         0.0, 0.0, 1.0)
  }

  /** Rotation by angle about the x axis. */
  function RotX(m: Library, angle: real): Mat3 {
    Mat3(1.0, 0.0, 0.0,
         0.0, m.cos(angle), -m.sin(angle),
         0.0, m.sin(angle), m.cos(angle))
  }

  /**
   * transformToEquatorial: the product (Rz(raan) Rx(incl)) Rz(argPerigee)
   * applied to (u, v, 0), i.e. rotate by the argument of perigee first, then
   * the inclination, then the RAAN. Angles in radians.
   */
  function TransformToEquatorial(m: Library, u: real, v: real, argPerigee: real, raan: real, incl: real)
    : (p: Vec3)
    ensures p == Apply(RotZ(m, raan), Apply(RotX(m, incl), Apply(RotZ(m, argPerigee), Vec3(u, v, 0.0))))
  {
    var w := Vec3(u, v, 0.0);
    var tempA := Mul(RotZ(m, raan), RotX(m, incl));
    MulApply(tempA, RotZ(m, argPerigee), w);
    MulApply(RotZ(m, raan), RotX(m, incl), Apply(RotZ(m, argPerigee), w));
    Apply(Mul(tempA, RotZ(m, argPerigee)), w)
  }

  /** With all three angles zero the orbital plane is the equatorial plane. */
  lemma EquatorialAtZeroAngles(m: Library, u: real, v: real)
    requires Lawful(m)
    ensures TransformToEquatorial(m, u, v, 0.0, 0.0, 0.0) == Vec3(u, v, 0.0)
  {
    var w := Vec3(u, v, 0.0);
    assert Apply(RotZ(m, 0.0), w) == w;
    assert Apply(RotX(m, 0.0), w) == w;
  }

  /** The rotation about z is orthonormal, and the identity for angle 0. */
  lemma RotZRotation(m: Library, angle: real)
    requires Lawful(m)
    ensures Orthonormal(RotZ(m, angle))
    ensures angle == 0.0 ==> RotZ(m, angle) == Identity
  {
    var c, s := m.cos(angle), m.sin(angle);
    assert c * c + s * s == 1.0;
    assert c * (-s) + s * c == 0.0;
  }

  /** The rotation about x is orthonormal, and the identity for angle 0. */
  lemma RotXRotation(m: Library, angle: real)
    requires Lawful(m)
    ensures Orthonormal(RotX(m, angle))
    ensures angle == 0.0 ==> RotX(m, angle) == Identity
  {
    var c, s := m.cos(angle), m.sin(angle);
    assert c * c + s * s == 1.0;
    assert c * (-s) + s * c == 0.0;
  }

  /** c^2 + s^2 = 1 makes the planar rotation (c x - s y, s x + c y) length-preserving. */
  lemma PlanarRotationLength(c: real, s: real, x: real, y: real)
    requires c * c + s * s == 1.0
    ensures (c * x - s * y) * (c * x - s * y) + (s * x + c * y) * (s * x + c * y) == x * x + y * y
  {
  }

  lemma RotZLength(m: Library, angle: real, v: Vec3)
    requires Lawful(m)
    ensures NormSquared(Apply(RotZ(m, angle), v)) == NormSquared(v)
  {
    PlanarRotationLength(m.cos(angle), m.sin(angle), v.x, v.y);
  }

  lemma RotXLength(m: Library, angle: real, v: Vec3)
    requires Lawful(m)
    ensures NormSquared(Apply(RotX(m, angle), v)) == NormSquared(v)
  {
    PlanarRotationLength(m.cos(angle), m.sin(angle), v.y, v.z);
  }

  /** The equatorial position is as far from the Earth's centre as the orbital-plane one. */
  lemma EquatorialPreservesRadius(m: Library, u: real, v: real, argPerigee: real, raan: real, incl: real)
    requires Lawful(m)
    ensures NormSquared(TransformToEquatorial(m, u, v, argPerigee, raan, incl)) == u * u + v * v
  {
    var w := Vec3(u, v, 0.0);
    var w1 := Apply(RotZ(m, argPerigee), w);
    var w2 := Apply(RotX(m, incl), w1);
    RotZLength(m, argPerigee, w);
    RotXLength(m, incl, w1);
    RotZLength(m, raan, w2);
  }

  /**
   * Sidereal cycles since 2006-01-01T00:00:00Z: 0.27644444444 + 1.002737909 per
   * day. It is 0.27644444444 at that instant and no less afterwards.
   */
  function SiderealCycles(target: int): (cycles: real)
    ensures target == YearStart(2006) ==> cycles == 0.27644444444
    ensures target >= YearStart(2006) ==> cycles >= 0.27644444444
  {
    0.27644444444 + 1.002737909 * ((target - YearStart(2006)) as real / 86400.0)
  }

  /** A day later the Earth has turned 1.002737909 more sidereal cycles. */
  lemma SiderealDay(target: int)
    ensures SiderealCycles(target + 86400) == SiderealCycles(target) + 1.002737909
  {
    var d := (target - YearStart(2006)) as real / 86400.0;
    assert (target + 86400 - YearStart(2006)) as real / 86400.0 == d + 1.0;
  }

  /** Greenwich sidereal angle [rad]: the truncated fractional part of the cycles times 2 pi. */
  function SiderealAngle(target: int): (theta: real)
    ensures SiderealCycles(target) >= 0.0 ==> 0.0 <= theta < 2.0 * Pi
    ensures SiderealCycles(target) < 0.0 ==> -2.0 * Pi < theta <= 0.0
  {
    Frac(SiderealCycles(target)) * 2.0 * Pi
  }

  /** From 2006 on the sidereal angle lies in [0, 2 pi). */
  lemma SiderealAngleSince2006(target: int)
    requires target >= YearStart(2006)
    ensures 0.0 <= SiderealAngle(target) < 2.0 * Pi
  {
    var days := (target - YearStart(2006)) as real / 86400.0;
    assert days >= 0.0;
    assert 1.002737909 * days >= 0.0;
  }

  /** transformToEarthFixed: rotate the equatorial vector about z by minus the sidereal angle. */
  function TransformToEarthFixed(m: Library, p: Vec3, target: int): (q: Vec3)
    ensures q.z == p.z
  {
    Apply(RotZ(m, -SiderealAngle(target)), p)
  }

  /** The Earth-fixed rotation keeps the distance from the polar axis. */
  lemma EarthFixedKeepsAxisDistance(m: Library, p: Vec3, target: int)
    requires Lawful(m)
    ensures var q := TransformToEarthFixed(m, p, target);
            q.x * q.x + q.y * q.y == p.x * p.x + p.y * p.y
  {
    var angle := -SiderealAngle(target);
    var c, s := m.cos(angle), m.sin(angle);
    assert c * c + s * s == 1.0;
    var q := TransformToEarthFixed(m, p, target);
    assert q.x == c * p.x - s * p.y && q.y == s * p.x + c * p.y;
    PlanarRotationLength(c, s, p.x, p.y);
  }

  /** Hence the Earth-fixed position is as far from the centre as the equatorial one. */
  lemma EarthFixedKeepsRadius(m: Library, p: Vec3, target: int)
    requires Lawful(m)
    ensures NormSquared(TransformToEarthFixed(m, p, target)) == NormSquared(p)
  {
    EarthFixedKeepsAxisDistance(m, p, target);
  }

  // ---------------------------------------------------------------- geodetic

  /**
   * calculateLatLong on a spherical Earth: latitude asin(z / r), longitude
   * atan2(y, x), in degrees. At r = 0 the division yields NaN or an infinity and
   * the latitude is NaN.
   */
  function CalculateLatLong(m: Library, x: real, y: real, z: real): (latLng: (Float64, real))
    ensures latLng.0.NaN? <==> m.sqrt(x * x + y * y + z * z) == 0.0
    ensures latLng.1 == Rad2Deg(m.atan2(y, x))
  {
    var r := m.sqrt(x * x + y * y + z * z);
    var lat := if r == 0.0 then NaN else Finite(Rad2Deg(m.asin(z / r)));
    (lat, Rad2Deg(m.atan2(y, x)))
  }

  /** The centre of the Earth has no latitude. */
  lemma OriginHasNoLatitude(m: Library)
    requires Lawful(m)
    ensures CalculateLatLong(m, 0.0, 0.0, 0.0).0 == NaN
  {
    assert 0.0 * 0.0 + 0.0 * 0.0 + 0.0 * 0.0 == 0.0;
  }

  /** calculateAltitude: distance from the centre minus EarthRadius [km]. */
  function CalculateAltitude(m: Library, x: real, y: real, z: real): (alt: real)
    requires Lawful(m)
    ensures alt >= -EarthRadius
    ensures alt + EarthRadius == m.sqrt(x * x + y * y + z * z)
  {
    m.sqrt(x * x + y * y + z * z) - EarthRadius
  }

  /** CalculateVelocity: the length of the position change between two locations. */
  function CalculateVelocity(m: Library, loc1: SatLocation, loc2: SatLocation): (v: real)
    requires Lawful(m)
    ensures v >= 0.0
    ensures loc1.x == loc2.x && loc1.y == loc2.y && loc1.z == loc2.z ==> v == 0.0
  {
    var dx, dy, dz := loc2.x - loc1.x, loc2.y - loc1.y, loc2.z - loc1.z;
    m.sqrt(dx * dx + dy * dy + dz * dz)
  }

  // ---------------------------------------------------------------- pipeline

  /**
   * Eccentric anomaly tDiff days after the epoch: the solver run on the mean
   * anomaly, which it returns unchanged for a circular orbit.
   */
  function EccentricAnomalyAt(m: Library, sat: TleOrbitalElement, tDiff: real): (E: real)
    requires Lawful(m) && 0.0 <= sat.eccentricity < 1.0
    ensures sat.eccentricity == 0.0 ==>
              E == CalculateMeanAnomaly(sat.meanAnomaly, sat.meanMotion, sat.meanMotionDot, tDiff)
  {
    var meanAnomaly := CalculateMeanAnomaly(sat.meanAnomaly, sat.meanMotion, sat.meanMotionDot, tDiff);
    Kepler.Solve(m, sat.eccentricity, meanAnomaly)
  }

  /**
   * Position in the orbital plane tDiff days after the epoch: a point of the
   * orbit ellipse fixed by the mean motion and the eccentricity.
   */
  function OrbitalPlaneAt(m: Library, sat: TleOrbitalElement, tDiff: real): (uv: (real, real))
    requires Lawful(m) && 0.0 <= sat.eccentricity < 1.0 && sat.meanMotion != 0.0
    ensures OnOrbitEllipse(m, SemiMajorAxis(m, sat.meanMotion), sat.eccentricity, uv)
  {
    var a := SemiMajorAxis(m, sat.meanMotion);
    PositionInOrbitalPlane(m, a, sat.eccentricity, EccentricAnomalyAt(m, sat, tDiff))
  }

  /**
   * Equatorial position tDiff days after the epoch, with the perturbed angles.
   * It is as far from the Earth's centre as the orbital-plane position.
   */
  function EquatorialAt(m: Library, sat: TleOrbitalElement, tDiff: real): (p: Vec3)
    requires Lawful(m) && 0.0 <= sat.eccentricity < 1.0 && sat.meanMotion != 0.0
    ensures var uv := OrbitalPlaneAt(m, sat, tDiff);
            NormSquared(p) == NormSquared(Vec3(uv.0, uv.1, 0.0))
  {
    var a := SemiMajorAxis(m, sat.meanMotion);
    var (u, v) := OrbitalPlaneAt(m, sat, tDiff);
    var (argPerigee, raan) :=
      PerturbationCorrection(m, sat.argumentOfPerigee, sat.raan, sat.orbitalInclination, a, tDiff);
    EquatorialPreservesRadius(m, u, v, Deg2Rad(argPerigee), Deg2Rad(raan), Deg2Rad(sat.orbitalInclination));
    TransformToEquatorial(m, u, v, Deg2Rad(argPerigee), Deg2Rad(raan), Deg2Rad(sat.orbitalInclination))
  }

  /**
   * CalculateSatelliteLocation: the stages in order; panics (Err) exactly when
   * the target precedes the epoch; leaves the velocity at 0.
   */
  function CalculateSatelliteLocation(m: Library, sat: TleOrbitalElement, target: int)
    : (r: Result<SatLocation, Panic>)
    requires Lawful(m) && 0.0 <= sat.eccentricity < 1.0 && sat.meanMotion != 0.0
    ensures r.Err? <==> TimeDifference(target, sat.etYear, sat.etDay).Err?
    ensures r.Err? ==> r.error == TargetBeforeEpoch
    ensures r.Ok? ==> r.value.velocity == 0.0
    ensures r.Ok? ==> r.value.alt == CalculateAltitude(m, r.value.x, r.value.y, r.value.z)
    ensures r.Ok? ==> (r.value.lat, r.value.lng) == CalculateLatLong(m, r.value.x, r.value.y, r.value.z)
  {
    match TimeDifference(target, sat.etYear, sat.etDay)
    case Err(p) => Err(p)
    case Ok(tDiff) =>
      var q := TransformToEarthFixed(m, EquatorialAt(m, sat, tDiff), target);
      var (lat, lng) := CalculateLatLong(m, q.x, q.y, q.z);
      Ok(SatLocation(q.x, q.y, q.z, lat, lng, CalculateAltitude(m, q.x, q.y, q.z), 0.0))
  }

  /** The propagated position is as far from the Earth's centre as the orbital-plane position. */
  lemma LocationRadius(m: Library, sat: TleOrbitalElement, target: int, tDiff: real)
    requires Lawful(m) && 0.0 <= sat.eccentricity < 1.0 && sat.meanMotion != 0.0
    requires TimeDifference(target, sat.etYear, sat.etDay) == Ok(tDiff)
    ensures CalculateSatelliteLocation(m, sat, target).Ok?
    ensures var loc := CalculateSatelliteLocation(m, sat, target).value;
            var uv := OrbitalPlaneAt(m, sat, tDiff);
            NormSquared(Vec3(loc.x, loc.y, loc.z)) == NormSquared(Vec3(uv.0, uv.1, 0.0))
  {
    var uv := OrbitalPlaneAt(m, sat, tDiff);
    var p := EquatorialAt(m, sat, tDiff);
    assert NormSquared(p) == NormSquared(Vec3(uv.0, uv.1, 0.0));
    var q := TransformToEarthFixed(m, p, target);
    EarthFixedKeepsRadius(m, p, target);
    LocationIsEarthFixed(m, sat, target, tDiff);
    var loc := CalculateSatelliteLocation(m, sat, target).value;
    assert Vec3(loc.x, loc.y, loc.z) == q;
  }

  /** The propagated location is the Earth-fixed image of the equatorial position. */
  lemma LocationIsEarthFixed(m: Library, sat: TleOrbitalElement, target: int, tDiff: real)
    requires Lawful(m) && 0.0 <= sat.eccentricity < 1.0 && sat.meanMotion != 0.0
    requires TimeDifference(target, sat.etYear, sat.etDay) == Ok(tDiff)
    ensures CalculateSatelliteLocation(m, sat, target).Ok?
    ensures var loc := CalculateSatelliteLocation(m, sat, target).value;
            Vec3(loc.x, loc.y, loc.z) == TransformToEarthFixed(m, EquatorialAt(m, sat, tDiff), target)
  {
  }

  /** For a circular orbit at its epoch, the eccentric anomaly is the element's mean anomaly in radians. */
  lemma CircularOrbitAtEpoch(m: Library, sat: TleOrbitalElement)
    requires Lawful(m) && sat.eccentricity == 0.0
    requires 0.0 <= sat.meanAnomaly < 360.0
    ensures EccentricAnomalyAt(m, sat, 0.0) == Deg2Rad(sat.meanAnomaly)
  {
    MeanAnomalyAtEpoch(sat.meanAnomaly, sat.meanMotion, sat.meanMotionDot);

  }
}
