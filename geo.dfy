// Coordinates and the distance oracle shared by the tracking engine, the
// trajectory pipeline and the location service.
module Geo {
  import opened JavaMath

  /** A latitude/longitude pair in degrees (a Java `double` pair). */
  datatype LatLng = LatLng(lat: real, lng: real)

  /**
   * The great-circle distance in metres between two points. The source
   * computes it with the haversine formula; here it is a parameter, of
   * which only the two facts of IsDistance are assumed where needed.
   */
  type Distance = (LatLng, LatLng) -> real

  ghost predicate IsDistance(dist: Distance)
  {
    forall a: LatLng, b: LatLng :: dist(a, b) >= 0.0 && (a == b ==> dist(a, b) == 0.0)
  }

  /** The point a fraction t of the way from a to b, coordinate-wise. */
  function Lerp(a: LatLng, b: LatLng, t: real): LatLng
  {
    LatLng(a.lat + Scale(b.lat - a.lat, t), a.lng + Scale(b.lng - a.lng, t))
  }

  /** A real product, named so that the solver treats it as one term. */
  function Scale(x: real, t: real): real
  {
    x * t
  }

  // Facts about real products and quotients, stated on named terms.

  lemma MulNonNegative(a: real, b: real)
    requires a >= 0.0 && b >= 0.0
    ensures a * b >= 0.0
  {
  }

  lemma ScaleNegate(a: real, f: real)
    ensures Scale(-a, f) == -Scale(a, f)
  {
  }

  lemma MulBetween(a: real, f: real)
    requires a >= 0.0 && 0.0 <= f <= 1.0
    ensures 0.0 <= Scale(a, f) <= a
  {
  }

  lemma MulBelow(f: real, a: real)
    requires f < 1.0 && a > 0.0
    ensures f * a < a
  {
  }

  lemma DivTimes(j: real, d: real)
    requires d > 0.0
    ensures (j / d) * d == j
  {
  }

  lemma DivSelf(d: real)
    requires d > 0.0
    ensures d / d == 1.0
  {
  }

  lemma DivBelowOne(j: real, d: real)
    requires 0.0 <= j < d
    ensures j / d < 1.0
  {
  }

  lemma FloorOfInt(j: int)
    ensures (j as real).Floor == j
  {
  }

  /** A coordinate of Lerp at a fraction in [0, 1] lies between the two end coordinates. */
  lemma LerpBetween(x: real, y: real, f: real)
    requires 0.0 <= f <= 1.0
    ensures MinR(x, y) <= x + Scale(y - x, f) <= MaxR(x, y)
  {
    if x <= y {
      MulBetween(y - x, f);
    } else {
      MulBetween(x - y, f);
      ScaleNegate(x - y, f);
    }
  }
}
