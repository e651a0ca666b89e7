/**
 * Pharmacy and quarantine zones. A zone is only a centre; its radius is the
 * `pharmacyRadius` or `quarantineRadius` parameter. Membership is the strict
 * test `Math.sqrt(dx * dx + dy * dy) < radius`, stated on squared distances.
 */
module Zones {

  datatype Zone = Zone(x: real, y: real)

  /** `Math.sqrt(dx * dx + dy * dy) < r`, without the square root. */
  predicate WithinRadius(dx: real, dy: real, r: real) {
    0.0 < r && dx * dx + dy * dy < r * r
  }

  /** The squared test agrees with the source's test for the true distance `d`. */
  lemma WithinRadiusIsDistanceTest(dx: real, dy: real, r: real, d: real)
    requires 0.0 <= d && d * d == dx * dx + dy * dy
    ensures d < r <==> WithinRadius(dx, dy, r)
  {
    var dd, dr, rr := d * d, d * r, r * r;
    if d < r {
      assert dd <= dr < rr;
    } else if 0.0 < r {
      assert dd >= dr >= rr;
    }
  }

  /** `zones.some(z => distance from (x, y) to z < r)`. */
  function AnyContains(zones: seq<Zone>, x: real, y: real, r: real): (b: bool)
    ensures b <==> exists i :: 0 <= i < |zones| && WithinRadius(zones[i].x - x, zones[i].y - y, r)
  {
    if zones == [] then false
    else if WithinRadius(zones[0].x - x, zones[0].y - y, r) then true
    else
      var rest := AnyContains(zones[1..], x, y, r);
      assert forall i :: 1 <= i < |zones| ==> zones[i] == zones[1..][i - 1];
      rest
  }
}
