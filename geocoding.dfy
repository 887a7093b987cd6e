// GeocodingService: the service-area bounding box (and the copy of it in
// GeocodingController), the classification of a geocoder reply into a
// point or an error in `getGeoPoint`, and `isInServiceArea`.
module Geocoding {
  import opened Wrappers
  import opened Geo
  import opened GeoPoints

  const ServiceSouthLat: real := 37.620
  const ServiceNorthLat: real := 37.810
  const ServiceWestLng: real := -122.520
  const ServiceEastLng: real := -122.357

  /** `isWithinServiceArea`: inside the box, bounds included. */
  predicate IsWithinServiceArea(lat: real, lng: real)
  {
    lat >= ServiceSouthLat && lat <= ServiceNorthLat && lng >= ServiceWestLng && lng <= ServiceEastLng
  }

  /** The check `validateServiceArea` in GeocodingController makes, with its own local constants. */
  predicate ControllerInServiceArea(lat: real, lng: real)
  {
    var south, north, west, east := 37.620, 37.810, -122.520, -122.357;
    lat >= south && lat <= north && lng >= west && lng <= east
  }

  /**
   * The controller's copy agrees with the service everywhere, and every
   * point of the area is a valid GeoPoint, so building the point after the
   * area check never throws.
   */
  lemma ServiceAreaAgrees(lat: real, lng: real)
    ensures IsWithinServiceArea(lat, lng) <==> ControllerInServiceArea(lat, lng)
    ensures IsWithinServiceArea(lat, lng) ==> MakeGeoPoint(lat, lng) == Ok(LatLng(lat, lng))
  {
  }

  /** The corners are inside; a step past any side is outside. */
  lemma ServiceAreaCorners(eps: real)
    requires eps > 0.0
    ensures IsWithinServiceArea(37.620, -122.520) && IsWithinServiceArea(37.810, -122.357)
    ensures !IsWithinServiceArea(37.620 - eps, -122.4) && !IsWithinServiceArea(37.810 + eps, -122.4)
    ensures !IsWithinServiceArea(37.7, -122.520 - eps) && !IsWithinServiceArea(37.7, -122.357 + eps)
  {
  }

  /** One geocoder result: whether it only partly matched, and where it is. */
  datatype GeocodingResult = GeocodingResult(partialMatch: bool, formattedAddress: string, location: LatLng)

  /** The geocoder call: a list of results, or the checked exception it threw. */
  datatype GeocodeReply = Results(results: seq<GeocodingResult>) | IoFailure | ApiFailure | Interrupted

  /** The exceptions `getGeoPoint` throws, with their messages. */
  datatype GeoError =
    | InvalidAddress(message: string)
    | OutsideServiceArea(message: string)
    | GeocodingFailure(message: string)

  const OutsideAreaMessage: string :=
    "Address must be within service area (San Francisco, Daly City, or San Bruno)"

  /**
   * `getGeoPoint`: the first result's point when there is a first result,
   * it matched exactly and it lies in the service area; otherwise the
   * exception the source throws for the first failed check.
   */
  function GetGeoPoint(address: string, reply: GeocodeReply): Result<LatLng, GeoError>
  {
    if !reply.Results? then Err(GeocodingFailure("Failed to geocode address: " + address))
    else if reply.results == [] then Err(InvalidAddress("No results found for address: " + address))
    else
      var first := reply.results[0];
      if first.partialMatch then Err(InvalidAddress("Address is not exact: " + address))
      else if !IsWithinServiceArea(first.location.lat, first.location.lng) then Err(OutsideServiceArea(OutsideAreaMessage))
      else
        ServiceAreaAgrees(first.location.lat, first.location.lng);
        Ok(MakeGeoPoint(first.location.lat, first.location.lng).value)
  }

  /**
   * How a reply is classified: a thrown geocoder exception is a geocoding
   * failure; no results or a partial first match is an invalid address; a
   * first result outside the area is an out-of-area error; and otherwise
   * the point is the first result's location, which lies in the area.
   */
  lemma GetGeoPointClassification(address: string, reply: GeocodeReply)
    ensures var r := GetGeoPoint(address, reply);
      (r.Err? && r.error.GeocodingFailure? <==> !reply.Results?)
      && (r.Err? && r.error.InvalidAddress? <==>
            reply.Results? && (reply.results == [] || reply.results[0].partialMatch))
      && (r.Err? && r.error.OutsideServiceArea? <==>
            reply.Results? && reply.results != [] && !reply.results[0].partialMatch
            && !IsWithinServiceArea(reply.results[0].location.lat, reply.results[0].location.lng))
      && (r.Ok? ==> reply.Results? && reply.results != [] && r.value == reply.results[0].location
                    && IsWithinServiceArea(r.value.lat, r.value.lng))
  {
  }

  /** `isInServiceArea`: true exactly when `getGeoPoint` returns a point; every exception gives false. */
  function IsInServiceArea(address: string, reply: GeocodeReply): (inArea: bool)
    ensures inArea <==> reply.Results? && reply.results != [] && !reply.results[0].partialMatch
                        && IsWithinServiceArea(reply.results[0].location.lat, reply.results[0].location.lng)
  {
    GetGeoPoint(address, reply).Ok?
  }
}
