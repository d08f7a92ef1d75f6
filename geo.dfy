/** Coordinates, the fixed home point and the distance function shared by
    the session tick and the geofence monitor. */
module Geo {

  datatype Option<+T> = None | Some(value: T)

  /** A position in decimal degrees. */
  datatype Coord = Coord(lat: real, lon: real)

  /** The launch point; it is also the centre of the geofence. */
  const HOME: Coord := Coord(26.9239, 75.8267)

  /** Great-circle distance in metres. The console computes it with the
      haversine formula; the model keeps it uninterpreted and passes it in. */
  type Distance = (Coord, Coord) -> real

  /** The only facts the model relies on about the distance: it is never
      negative and a point is at distance zero from itself. */
  ghost predicate IsDistance(d: Distance)
  {
    (forall a: Coord, b: Coord :: d(a, b) >= 0.0) &&
    (forall a: Coord :: d(a, a) == 0.0)
  }

  function Abs(x: real): (r: real)
    ensures r >= 0.0 && (r == x || r == -x)
  {
    if x < 0.0 then -x else x
  }

  /** `q` lies strictly between `p` and `t` on one axis, or all three agree. */
  predicate StrictlyBetween(p: real, q: real, t: real)
  {
    if p < t then p < q < t
    else if t < p then t < q < p
    else q == p
  }

  /** Moving from `p` a fraction `k` of the way to `t` leaves the fraction
      1 - k of the offset and lands strictly between the two. */
  lemma ShrinkToward(p: real, t: real, k: real)
    requires 0.0 < k < 1.0
    ensures t - (p + (t - p) * k) == (t - p) * (1.0 - k)
    ensures StrictlyBetween(p, p + (t - p) * k, t)
  {
    var e := t - p;
    var c := e * k;
    var g := e * (1.0 - k);
    assert g == e - c;
    if p < t {
      PositiveProduct(e, k);
      PositiveProduct(e, 1.0 - k);
      assert g > 0.0;
      assert p + c < t;
    } else if t < p {
      PositiveProduct(-e, k);
      PositiveProduct(-e, 1.0 - k);
      assert (-e) * k == -c;
      assert (-e) * (1.0 - k) == -g;
      assert t < p + c < p;
    }
  }

  lemma PositiveProduct(x: real, y: real)
    requires x > 0.0 && y > 0.0
    ensures x * y > 0.0
  {
  }
}
