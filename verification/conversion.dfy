/** pkg/util/conversion.go: the Earth radius and the degree/radian conversions. */
module Util {
  import opened GoMath

  /** Mean Earth radius [km], shared by the altitude and the perturbation formulas. */
  const EarthRadius: real := 6356.752

  /** Degrees to radians, computed as deg / 180 * pi. */
  function Deg2Rad(deg: real): (rad: real)
    ensures deg == 0.0 <==> rad == 0.0
    ensures deg > 0.0 <==> rad > 0.0
    ensures deg == 180.0 ==> rad == Pi
  {
    deg / 180.0 * Pi
  }

  /** Radians to degrees, computed as rad * 180 / pi. */
  function Rad2Deg(rad: real): (deg: real)
    ensures rad == 0.0 <==> deg == 0.0
    ensures rad > 0.0 <==> deg > 0.0
    ensures rad == Pi ==> deg == 180.0
  {
    rad * 180.0 / Pi
  }

  /** The two conversions are inverse to each other over the reals. */
  lemma ConversionsInverse(x: real)
    ensures Rad2Deg(Deg2Rad(x)) == x
    ensures Deg2Rad(Rad2Deg(x)) == x
  {
    assert Rad2Deg(Deg2Rad(x)) == x / 180.0 * Pi * 180.0 / Pi;
    assert Deg2Rad(Rad2Deg(x)) == x * 180.0 / Pi / 180.0 * Pi;
  }

  /** Both conversions are strictly increasing. */
  lemma ConversionsIncreasing(x: real, y: real)
    requires x < y
    ensures Deg2Rad(x) < Deg2Rad(y)
    ensures Rad2Deg(x) < Rad2Deg(y)
  {
    assert Deg2Rad(y) - Deg2Rad(x) == Deg2Rad(y - x);
    assert Rad2Deg(y) - Rad2Deg(x) == Rad2Deg(y - x);
  }
}
