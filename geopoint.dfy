// GeoPoint: the immutable coordinate record whose compact constructor
// rejects a latitude outside [-90, 90] or a longitude outside [-180, 180].
module GeoPoints {
  import opened Wrappers
  import opened Geo

  /** The IllegalArgumentException the constructor throws, by the coordinate it names. */
  datatype PointError = InvalidLatitude(lat: real) | InvalidLongitude(lng: real)

  predicate LatitudeInRange(lat: real) { -90.0 <= lat <= 90.0 }

  predicate LongitudeInRange(lng: real) { -180.0 <= lng <= 180.0 }

  predicate ValidPoint(p: LatLng) { LatitudeInRange(p.lat) && LongitudeInRange(p.lng) }

  /**
   * `new GeoPoint(lat, lng)`: the point itself when both coordinates are in
   * range (bounds included); otherwise the latitude error when the latitude
   * is out of range, else the longitude error.
   */
  function MakeGeoPoint(lat: real, lng: real): (r: Result<LatLng, PointError>)
    ensures r.Ok? <==> ValidPoint(LatLng(lat, lng))
    ensures r.Ok? ==> r.value.lat == lat && r.value.lng == lng
    ensures !LatitudeInRange(lat) ==> r == Err(InvalidLatitude(lat))
    ensures LatitudeInRange(lat) && !LongitudeInRange(lng) ==> r == Err(InvalidLongitude(lng))
  {
    if lat < -90.0 || lat > 90.0 then Err(InvalidLatitude(lat))
    else if lng < -180.0 || lng > 180.0 then Err(InvalidLongitude(lng))
    else Ok(LatLng(lat, lng))
  }

  /** The four extreme coordinates are accepted; one step beyond each is not. */
  lemma GeoPointBounds(eps: real)
    requires eps > 0.0
    ensures MakeGeoPoint(90.0, 180.0).Ok? && MakeGeoPoint(-90.0, -180.0).Ok?
    ensures MakeGeoPoint(90.0 + eps, 0.0) == Err(InvalidLatitude(90.0 + eps))
    ensures MakeGeoPoint(-90.0 - eps, 0.0) == Err(InvalidLatitude(-90.0 - eps))
    ensures MakeGeoPoint(0.0, 180.0 + eps) == Err(InvalidLongitude(180.0 + eps))
    ensures MakeGeoPoint(0.0, -180.0 - eps) == Err(InvalidLongitude(-180.0 - eps))
  {
  }
}
