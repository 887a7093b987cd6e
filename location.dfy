// DeliveryLocationService: station listing, the nearest station to a
// point, idle vehicles within a radius sorted by distance, and the robot
// and drone delivery options with their price and duration text.
module DeliveryLocation {
  import opened Wrappers
  import opened Strings
  import opened Geo
  import opened JavaMath
  import opened GeoPoints
  import Pricing

  datatype VehicleType = Robot | Drone

  /** The largest double, the starting minimum of the nearest-station scan. */
  const DoubleMax: real := 1.7976931348623157e308

  // ---------------------------------------------------------------- price

  function BasePrice(vehicle: VehicleType): real
  {
    if vehicle == Robot then 8.0 else 12.0
  }

  function PerKmPrice(vehicle: VehicleType): real
  {
    if vehicle == Robot then 2.0 else 3.0
  }

  /** The price before rounding: base plus kilometres times the per-km rate. */
  function ExactPrice(distanceMeters: real, vehicle: VehicleType): real
  {
    BasePrice(vehicle) + Scale(distanceMeters / 1000.0, PerKmPrice(vehicle))
  }

  /** `calculatePrice`: the exact price rounded to cents, halves up. */
  function CalculatePrice(distanceMeters: real, vehicle: VehicleType): real
  {
    Pricing.Cents(ExactPrice(distanceMeters, vehicle))
  }

  /** The price is within half a cent of base + km × rate. */
  lemma PriceNearExact(distanceMeters: real, vehicle: VehicleType)
    ensures ExactPrice(distanceMeters, vehicle) - 0.005 <= CalculatePrice(distanceMeters, vehicle)
    ensures CalculatePrice(distanceMeters, vehicle) <= ExactPrice(distanceMeters, vehicle) + 0.005
  {
    var x := ExactPrice(distanceMeters, vehicle);
    var r := Round(Scale(x, 100.0));
    assert r as real - 0.5 <= x * 100.0 < r as real + 0.5;
  }

  /** A longer trip never costs less, and a drone never costs less than a robot. */
  lemma PriceMonotone(d1: real, d2: real, vehicle: VehicleType)
    requires 0.0 <= d1 <= d2
    ensures CalculatePrice(d1, vehicle) <= CalculatePrice(d2, vehicle)
    ensures CalculatePrice(d1, Robot) <= CalculatePrice(d1, Drone)
  {
    assert Scale(d1 / 1000.0, PerKmPrice(vehicle)) <= Scale(d2 / 1000.0, PerKmPrice(vehicle));
    Pricing.CentsMonotone(ExactPrice(d1, vehicle), ExactPrice(d2, vehicle));
    assert Scale(d1 / 1000.0, 2.0) <= Scale(d1 / 1000.0, 3.0);
    Pricing.CentsMonotone(ExactPrice(d1, Robot), ExactPrice(d1, Drone));
  }

  // ---------------------------------------------------------- duration text

  /** The text `formatDuration` builds from a whole number of minutes. */
  function DurationText(minutes: int): string
  {
    if minutes < 60 then IntToString(minutes) + " min"
    else IntToString(minutes / 60) + "h " + IntToString(minutes % 60) + "min"
  }

  /** `formatDuration`: the seconds cast to whole minutes by Java's `(int)`. */
  function FormatDuration(seconds: real): string
  {
    DurationText(DoubleToInt(seconds / 60.0))
  }

  /** Digits followed by a fixed unit, as in "12h" or "5min": the number, or None. */
  function ReadUnit(word: string, unit: string): Option<nat>
  {
    if |word| > |unit| && IsSuffix(unit, word) && AllDigits(word[..|word| - |unit|])
    then Some(ParseDigits(word[..|word| - |unit|]))
    else None
  }

  /** Reads a duration text back as minutes: the inverse of DurationText. */
  function ReadDuration(text: string): Option<int>
  {
    var w := SplitOn(text, ' ');
    if |w| == 2 && w[1] == "min" then ParseLong(w[0])
    else if |w| == 2 && ReadUnit(w[0], "h").Some? && ReadUnit(w[1], "min").Some?
    then Some(60 * ReadUnit(w[0], "h").value + ReadUnit(w[1], "min").value)
    else None
  }

  lemma ReadUnitOf(n: nat, unit: string)
    requires unit != [] && !IsDigit(unit[0])
    ensures ReadUnit(NatToString(n) + unit, unit) == Some(n)
  {
    var w := NatToString(n) + unit;
    assert w[..|w| - |unit|] == NatToString(n);
    assert w[|w| - |unit|..] == unit;
    ParseNatToString(n);
  }

  lemma ReadMinutesText(minutes: int)
    requires IsInt32(minutes)
    ensures ReadDuration(IntToString(minutes) + " min") == Some(minutes)
  {
    var d := IntToString(minutes);
    IntTextHasNoSpace(minutes);
    assert d + " min" == d + [' '] + "min";
    SplitTwo(d, "min", ' ');
    ParseLongOfInt(minutes);
  }

  lemma ReadHoursWords(text: string, hw: string, mw: string, h: nat, m: nat)
    requires SplitOn(text, ' ') == [hw, mw] && mw != "min"
    requires ReadUnit(hw, "h") == Some(h) && ReadUnit(mw, "min") == Some(m)
    ensures ReadDuration(text) == Some(60 * h + m)
  {
  }

  lemma HoursMinutesWords(h: nat, m: nat)
    ensures SplitOn(NatToString(h) + "h " + NatToString(m) + "min", ' ') == [NatToString(h) + "h", NatToString(m) + "min"]
  {
    var hw, mw := NatToString(h) + "h", NatToString(m) + "min";
    DigitsHaveNoSpace(NatToString(h));
    DigitsHaveNoSpace(NatToString(m));
    assert ' ' !in hw && ' ' !in mw;
    assert NatToString(h) + "h " + NatToString(m) + "min" == hw + [' '] + mw;
    SplitTwo(hw, mw, ' ');
  }

  lemma ReadHoursText(h: nat, m: nat)
    ensures ReadDuration(NatToString(h) + "h " + NatToString(m) + "min") == Some(60 * h + m)
  {
    var hw, mw := NatToString(h) + "h", NatToString(m) + "min";
    HoursMinutesWords(h, m);
    assert |mw| > 3;
    ReadUnitOf(h, "h");
    ReadUnitOf(m, "min");
    ReadHoursWords(NatToString(h) + "h " + NatToString(m) + "min", hw, mw, h, m);
  }

  /** Every `int` number of minutes is read back from its text. */
  lemma DurationTextRoundTrip(minutes: int)
    requires IsInt32(minutes)
    ensures ReadDuration(DurationText(minutes)) == Some(minutes)
  {
    if minutes < 60 {
      ReadMinutesText(minutes);
    } else {
      var h, m := minutes / 60, minutes % 60;
      assert DurationText(minutes) == NatToString(h) + "h " + NatToString(m) + "min";
      ReadHoursText(h, m);
    }
  }

  /**
   * For a non-negative number of seconds within `int` range, the text
   * carries exactly floor(seconds / 60) minutes.
   */
  lemma FormatDurationMinutes(seconds: real)
    requires 0.0 <= seconds <= 60.0 * IntMax as real
    ensures ReadDuration(FormatDuration(seconds)) == Some((seconds / 60.0).Floor)
  {
    DurationTextRoundTrip(DoubleToInt(seconds / 60.0));
  }

  // -------------------------------------------------------------- stations

  /** A stored address: the formatted text and, when known, its coordinates. */
  datatype AddressRecord = AddressRecord(formattedAddress: string, latitude: Option<real>, longitude: Option<real>)

  /** A Station entity with its optional address. */
  datatype StationRecord = StationRecord(id: int, name: string, availableRobots: int, availableDrones: int,
                                         address: Option<AddressRecord>)

  /** A mock station carries a random UUID, a stored one its database key. */
  datatype StationId = Uuid(text: string) | Key(key: int)

  /** One entry of `getAllStationsWithLocations`. */
  datatype StationInfo = StationInfo(id: StationId, name: string, address: Option<string>,
                                     location: Option<LatLng>, availableRobots: int, availableDrones: int)

  /** The geocoder: the point for an address text, or None where it throws. */
  type Geocoder = string -> Option<LatLng>

  function MockStations(uuid: nat -> string): seq<StationInfo>
  {
    [StationInfo(Uuid(uuid(0)), "Mission Bay Station", Some("600 16th St, San Francisco, CA"),
                 Some(LatLng(37.7677, -122.3958)), 5, 3),
     StationInfo(Uuid(uuid(1)), "Financial District Station", Some("101 California St, San Francisco, CA"),
                 Some(LatLng(37.7930, -122.3978)), 8, 4),
     StationInfo(Uuid(uuid(2)), "SOMA Station", Some("350 2nd St, San Francisco, CA"),
                 Some(LatLng(37.7855, -122.3967)), 6, 2)]
  }

  /** The coordinates of a stored address: its own when both are set, else the geocoder's. */
  function AddressLocation(a: AddressRecord, geocode: Geocoder): Option<LatLng>
  {
    if a.latitude.Some? && a.longitude.Some? then Some(LatLng(a.latitude.value, a.longitude.value))
    else geocode(a.formattedAddress)
  }

  function StationInfoOf(s: StationRecord, geocode: Geocoder): StationInfo
  {
    StationInfo(Key(s.id), s.name,
                if s.address.Some? then Some(s.address.value.formattedAddress) else None,
                if s.address.Some? then AddressLocation(s.address.value, geocode) else None,
                s.availableRobots, s.availableDrones)
  }

  /**
   * `getAllStationsWithLocations`: the three mock stations when the
   * repository is empty, else one entry per station in repository order,
   * with a location only when the station has an address whose coordinates
   * are stored or can be geocoded.
   */
  function StationsWithLocations(repo: seq<StationRecord>, geocode: Geocoder, uuid: nat -> string): (r: seq<StationInfo>)
    ensures repo == [] ==> r == MockStations(uuid)
    ensures repo != [] ==> |r| == |repo|
    ensures repo != [] ==> forall i :: 0 <= i < |r| ==>
              r[i].id == Key(repo[i].id) && r[i].name == repo[i].name
              && r[i].availableRobots == repo[i].availableRobots && r[i].availableDrones == repo[i].availableDrones
              && (r[i].location.Some? ==> repo[i].address.Some?)
              && (r[i].address.Some? <==> repo[i].address.Some?)
  {
    if repo == [] then MockStations(uuid)
    else seq(|repo|, i requires 0 <= i < |repo| => StationInfoOf(repo[i], geocode))
  }

  // ------------------------------------------------------- nearest station

  /** The station chosen and its distance in kilometres. */
  datatype Nearest = Nearest(index: nat, km: real)

  /** The state of the scan: the station chosen so far and its distance in metres. */
  datatype Scan = Scan(nearest: Option<Nearest>, minDistance: real)

  /**
   * The scan of `getNearestStation` over a list of stations, from the
   * front: stations without a location are skipped, a location that is
   * not a valid GeoPoint throws, and a strictly smaller distance replaces
   * the choice.
   */
  function ScanStations(user: LatLng, stations: seq<StationInfo>, dist: Distance): (r: Result<Scan, PointError>)
    ensures r.Ok? && r.value.nearest.Some? ==> r.value.nearest.value.index < |stations|
    decreases |stations|
  {
    if stations == [] then Ok(Scan(None, DoubleMax))
    else
      var prev := ScanStations(user, stations[..|stations| - 1], dist);
      var i := |stations| - 1;
      if prev.Err? || stations[i].location.None? then prev
      else
        var p := stations[i].location.value;
        var point := MakeGeoPoint(p.lat, p.lng);
        if point.Err? then Err(point.error)
        else
          var d := dist(user, p);
          if d < prev.value.minDistance then Ok(Scan(Some(Nearest(i, d / 1000.0)), d)) else prev
  }

  /**
   * `getNearestStation` over the listed stations: the error of an invalid
   * user point or station point, else the chosen station (None for null).
   */
  function NearestStation(lat: real, lng: real, stations: seq<StationInfo>, dist: Distance)
    : (r: Result<Option<Nearest>, PointError>)
    ensures r.Ok? && r.value.Some? ==> r.value.value.index < |stations|
  {
    var user := MakeGeoPoint(lat, lng);
    if user.Err? then Err(user.error)
    else
      var scan := ScanStations(user.value, stations, dist);
      if scan.Err? then Err(scan.error) else Ok(scan.value.nearest)
  }

  /** `getNearestStation` as the loop the source runs. */
  method GetNearestStation(lat: real, lng: real, stations: seq<StationInfo>, dist: Distance)
    returns (r: Result<Option<Nearest>, PointError>)
    ensures r == NearestStation(lat, lng, stations, dist)
  {
    var user := MakeGeoPoint(lat, lng);
    if user.Err? {
      return Err(user.error);
    }
    var nearest: Option<Nearest> := None;
    var minDistance := DoubleMax;
    for i := 0 to |stations|
      invariant ScanStations(user.value, stations[..i], dist) == Ok(Scan(nearest, minDistance))
    {
      assert stations[..i + 1][..i] == stations[..i];
      if stations[i].location.Some? {
        var p := stations[i].location.value;
        var point := MakeGeoPoint(p.lat, p.lng);
        if point.Err? {
          ScanErrorPersists(user.value, stations, i + 1, dist);
          return Err(point.error);
        }
        var d := dist(user.value, p);
        if d < minDistance {
          minDistance := d;
          nearest := Some(Nearest(i, d / 1000.0));
        }
      }
    }
    assert stations[..|stations|] == stations;
    r := Ok(nearest);
  }

  /** Once the scan has thrown, the stations after that point change nothing. */
  lemma {:induction false} ScanErrorPersists(user: LatLng, stations: seq<StationInfo>, i: nat, dist: Distance)
    requires i <= |stations|
    requires ScanStations(user, stations[..i], dist).Err?
    ensures ScanStations(user, stations, dist) == ScanStations(user, stations[..i], dist)
    decreases |stations| - i
  {
    if i < |stations| {
      var front := stations[..|stations| - 1];
      assert front[..i] == stations[..i];
      ScanErrorPersists(user, front, i, dist);
    } else {
      assert stations[..i] == stations;
    }
  }

  predicate Located(s: StationInfo) { s.location.Some? }

  function DistanceTo(user: LatLng, s: StationInfo, dist: Distance): real
    requires Located(s)
  {
    dist(user, s.location.value)
  }

  /**
   * What the scan finds: it fails exactly when some located station is not
   * a valid point; otherwise it chooses nothing exactly when no located
   * station is nearer than the largest double, and a chosen station is
   * located, at a distance no other located station beats, and strictly
   * nearer than every located station before it (ties go to the earlier).
   */
  lemma {:induction false} ScanStationsArgmin(user: LatLng, stations: seq<StationInfo>, dist: Distance)
    ensures var r := ScanStations(user, stations, dist);
      (r.Err? <==> exists i :: 0 <= i < |stations| && Located(stations[i]) && !ValidPoint(stations[i].location.value))
      && (r.Ok? ==> r.value.minDistance <= DoubleMax)
      && (r.Ok? && r.value.nearest.None? ==>
            r.value.minDistance == DoubleMax
            && forall j :: 0 <= j < |stations| && Located(stations[j]) ==> DistanceTo(user, stations[j], dist) >= DoubleMax)
      && (r.Ok? && r.value.nearest.Some? ==>
            var n := r.value.nearest.value;
            n.index < |stations| && Located(stations[n.index])
            && r.value.minDistance == DistanceTo(user, stations[n.index], dist) < DoubleMax
            && n.km == r.value.minDistance / 1000.0
            && (forall j :: 0 <= j < |stations| && Located(stations[j]) ==> DistanceTo(user, stations[j], dist) >= r.value.minDistance)
            && (forall j :: 0 <= j < n.index && Located(stations[j]) ==> DistanceTo(user, stations[j], dist) > r.value.minDistance))
    decreases |stations|
  {
    if stations != [] {
      var front := stations[..|stations| - 1];
      ScanStationsArgmin(user, front, dist);
      assert forall j :: 0 <= j < |front| ==> front[j] == stations[j];
    }
  }

  /**
   * `getNearestStation` returns null exactly when no located station is
   * nearer than the largest double, and otherwise a located station no
   * other located station beats, the first such in list order.
   */
  lemma NearestStationIsArgmin(lat: real, lng: real, stations: seq<StationInfo>, dist: Distance)
    requires ValidPoint(LatLng(lat, lng))
    requires forall i :: 0 <= i < |stations| && Located(stations[i]) ==> ValidPoint(stations[i].location.value)
    ensures var r := NearestStation(lat, lng, stations, dist); var user := LatLng(lat, lng);
      r.Ok?
      && (r.value.None? <==> forall j :: 0 <= j < |stations| && Located(stations[j]) ==> DistanceTo(user, stations[j], dist) >= DoubleMax)
      && (r.value.Some? ==>
            var n := r.value.value;
            n.index < |stations| && Located(stations[n.index])
            && n.km == DistanceTo(user, stations[n.index], dist) / 1000.0
            && (forall j :: 0 <= j < |stations| && Located(stations[j]) ==> DistanceTo(user, stations[j], dist) >= DistanceTo(user, stations[n.index], dist))
            && (forall j :: 0 <= j < n.index && Located(stations[j]) ==> DistanceTo(user, stations[j], dist) > DistanceTo(user, stations[n.index], dist)))
  {
    ScanStationsArgmin(LatLng(lat, lng), stations, dist);
  }

  /** The scan throws exactly when the user point or a located station's point is invalid. */
  lemma NearestStationFails(lat: real, lng: real, stations: seq<StationInfo>, dist: Distance)
    ensures NearestStation(lat, lng, stations, dist).Err? <==>
      !ValidPoint(LatLng(lat, lng))
      || exists i :: 0 <= i < |stations| && Located(stations[i]) && !ValidPoint(stations[i].location.value)
  {
    ScanStationsArgmin(LatLng(lat, lng), stations, dist);
  }

  // ------------------------------------------------------- nearby vehicles

  /** A vehicle of the idle list, with the station it belongs to. */
  datatype VehicleRecord = VehicleRecord(id: int, vehicleType: VehicleType, stationId: Option<int>,
                                         station: Option<StationRecord>)

  datatype VehicleId = Named(name: string) | Numbered(key: int)

  /** One entry of `getAvailableVehiclesNearLocation`; every entry is IDLE. */
  datatype VehicleInfo = VehicleInfo(id: VehicleId, vehicleType: VehicleType, location: LatLng, distanceKm: real,
                                     stationId: Option<int>, batteryLevel: Option<int>)

  /**
   * The three mock vehicles, each at distance 0 whatever the radius;
   * `draw(k)` is the k-th `nextInt(25)` of the battery level.
   */
  function MockVehicles(draw: nat -> int): seq<VehicleInfo>
  {
    [VehicleInfo(Named("ROBOT_001"), Robot, LatLng(37.7677, -122.3958), 0.0, None, Some(75 + draw(0))),
     VehicleInfo(Named("DRONE_001"), Drone, LatLng(37.7930, -122.3978), 0.0, None, Some(75 + draw(1))),
     VehicleInfo(Named("ROBOT_002"), Robot, LatLng(37.7855, -122.3967), 0.0, None, Some(75 + draw(2)))]
  }

  /**
   * Where a vehicle is: None when it has no station or the station no
   * address, and when the stored coordinates are not a valid GeoPoint or
   * the geocoder throws (both caught and the vehicle skipped).
   */
  function VehicleLocation(v: VehicleRecord, geocode: Geocoder): Option<LatLng>
  {
    if v.station.None? || v.station.value.address.None? then None
    else
      var a := v.station.value.address.value;
      if a.latitude.Some? && a.longitude.Some? then
        var point := MakeGeoPoint(a.latitude.value, a.longitude.value);
        if point.Ok? then Some(point.value) else None
      else geocode(a.formattedAddress)
  }

  /** The vehicles of the list within the radius of the user, in list order. */
  function Nearby(vehicles: seq<VehicleRecord>, user: LatLng, radiusKm: real, geocode: Geocoder, dist: Distance): (r: seq<VehicleInfo>)
    ensures |r| <= |vehicles|
    ensures forall k :: 0 <= k < |r| ==> r[k].distanceKm <= radiusKm
    decreases |vehicles|
  {
    if vehicles == [] then []
    else
      var prev := Nearby(vehicles[..|vehicles| - 1], user, radiusKm, geocode, dist);
      var v := vehicles[|vehicles| - 1];
      var loc := VehicleLocation(v, geocode);
      if loc.None? then prev
      else
        var d := dist(user, loc.value) / 1000.0;
        if d <= radiusKm then prev + [VehicleInfo(Numbered(v.id), v.vehicleType, loc.value, d, v.stationId, None)]
        else prev
  }

  /** Every vehicle with a location and within the radius is listed. */
  lemma {:induction false} NearbyComplete(vehicles: seq<VehicleRecord>, user: LatLng, radiusKm: real,
                                          geocode: Geocoder, dist: Distance, i: nat)
    requires i < |vehicles|
    requires VehicleLocation(vehicles[i], geocode).Some?
    requires dist(user, VehicleLocation(vehicles[i], geocode).value) / 1000.0 <= radiusKm
    ensures exists k :: 0 <= k < |Nearby(vehicles, user, radiusKm, geocode, dist)|
              && Nearby(vehicles, user, radiusKm, geocode, dist)[k].id == Numbered(vehicles[i].id)
    decreases |vehicles|
  {
    var front := vehicles[..|vehicles| - 1];
    var r := Nearby(vehicles, user, radiusKm, geocode, dist);
    if i == |vehicles| - 1 {
      assert r[|r| - 1].id == Numbered(vehicles[i].id);
    } else {
      assert front[i] == vehicles[i];
      NearbyComplete(front, user, radiusKm, geocode, dist, i);
      var prev := Nearby(front, user, radiusKm, geocode, dist);
      var k :| 0 <= k < |prev| && prev[k].id == Numbered(vehicles[i].id);
      assert r[k] == prev[k];
    }
  }

  predicate SortedByDistance(vs: seq<VehicleInfo>)
  {
    forall i, j :: 0 <= i < j < |vs| ==> vs[i].distanceKm <= vs[j].distanceKm
  }

  /** Every entry of r is v or an entry of vs. */
  predicate DrawnFrom(r: seq<VehicleInfo>, v: VehicleInfo, vs: seq<VehicleInfo>)
  {
    forall k :: 0 <= k < |r| ==> r[k] == v || r[k] in vs
  }

  /** Inserts v after every entry no farther than it. */
  function InsertByDistance(v: VehicleInfo, vs: seq<VehicleInfo>): (r: seq<VehicleInfo>)
    requires SortedByDistance(vs)
    ensures SortedByDistance(r)
    ensures multiset(r) == multiset(vs) + multiset{v}
    ensures DrawnFrom(r, v, vs)
    decreases |vs|
  {
    if vs == [] then [v]
    else if vs[|vs| - 1].distanceKm <= v.distanceKm then
      InsertLast(v, vs);
      vs + [v]
    else
      var rest := InsertByDistance(v, vs[..|vs| - 1]);
      InsertBefore(v, vs, rest);
      rest + [vs[|vs| - 1]]
  }

  /** Appending an entry no nearer than the last keeps the order. */
  lemma InsertLast(v: VehicleInfo, vs: seq<VehicleInfo>)
    requires SortedByDistance(vs) && vs != [] && vs[|vs| - 1].distanceKm <= v.distanceKm
    ensures SortedByDistance(vs + [v])
    ensures DrawnFrom(vs + [v], v, vs)
  {
    assert forall k :: 0 <= k < |vs| ==> (vs + [v])[k] == vs[k];
  }

  /** Inserting v into all but the last entry, then putting the last back. */
  lemma InsertBefore(v: VehicleInfo, vs: seq<VehicleInfo>, rest: seq<VehicleInfo>)
    requires SortedByDistance(vs) && vs != [] && v.distanceKm < vs[|vs| - 1].distanceKm
    requires SortedByDistance(rest)
    requires multiset(rest) == multiset(vs[..|vs| - 1]) + multiset{v}
    requires DrawnFrom(rest, v, vs[..|vs| - 1])
    ensures SortedByDistance(rest + [vs[|vs| - 1]])
    ensures multiset(rest + [vs[|vs| - 1]]) == multiset(vs) + multiset{v}
    ensures DrawnFrom(rest + [vs[|vs| - 1]], v, vs)
  {
    var front, last := vs[..|vs| - 1], vs[|vs| - 1];
    assert vs == front + [last];
    forall k | 0 <= k < |rest|
      ensures rest[k].distanceKm <= last.distanceKm && (rest[k] == v || rest[k] in vs)
    {
      if rest[k] != v {
        var j :| 0 <= j < |front| && front[j] == rest[k];
        assert vs[j] == front[j];
      }
    }
    var r := rest + [last];
    assert forall k :: 0 <= k < |rest| ==> r[k] == rest[k];
  }

  /** The list sorted by ascending distance, as List.sort with Double.compare leaves it. */
  function SortByDistance(vs: seq<VehicleInfo>): (r: seq<VehicleInfo>)
    ensures SortedByDistance(r)
    ensures multiset(r) == multiset(vs)
    decreases |vs|
  {
    if vs == [] then []
    else
      var front := vs[..|vs| - 1];
      assert vs == front + [vs[|vs| - 1]];
      InsertByDistance(vs[|vs| - 1], SortByDistance(front))
  }

  /**
   * `getAvailableVehiclesNearLocation`: the user point's error when it is
   * invalid; the mock vehicles when the idle list is empty; otherwise the
   * vehicles within the radius, sorted by ascending distance.
   */
  method GetAvailableVehiclesNearLocation(lat: real, lng: real, radiusKm: real, idle: seq<VehicleRecord>,
                                          geocode: Geocoder, dist: Distance, draw: nat -> int)
    returns (r: Result<seq<VehicleInfo>, PointError>)
    ensures MakeGeoPoint(lat, lng).Err? ==> r == Err(MakeGeoPoint(lat, lng).error)
    ensures MakeGeoPoint(lat, lng).Ok? && idle == [] ==> r == Ok(MockVehicles(draw))
    ensures MakeGeoPoint(lat, lng).Ok? && idle != [] ==>
              r.Ok? && SortedByDistance(r.value)
              && multiset(r.value) == multiset(Nearby(idle, LatLng(lat, lng), radiusKm, geocode, dist))
              && forall k :: 0 <= k < |r.value| ==> r.value[k].distanceKm <= radiusKm
  {
    var user := MakeGeoPoint(lat, lng);
    if user.Err? {
      return Err(user.error);
    }
    if idle == [] {
      return Ok(MockVehicles(draw));
    }
    var found: seq<VehicleInfo> := [];
    for i := 0 to |idle|
      invariant found == Nearby(idle[..i], user.value, radiusKm, geocode, dist)
    {
      assert idle[..i + 1][..i] == idle[..i];
      var v := idle[i];
      var loc := VehicleLocation(v, geocode);
      if loc.Some? {
        var d := dist(user.value, loc.value) / 1000.0;
        if d <= radiusKm {
          found := found + [VehicleInfo(Numbered(v.id), v.vehicleType, loc.value, d, v.stationId, None)];
        }
      }
    }
    assert idle[..|idle|] == idle;
    NearbyWithinRadius(SortByDistance(found), found, radiusKm);
    r := Ok(SortByDistance(found));
  }

  /** Every vehicle the repository path returns is within the radius. */
  lemma NearbyWithinRadius(vs: seq<VehicleInfo>, found: seq<VehicleInfo>, radiusKm: real)
    requires multiset(vs) == multiset(found)
    requires forall k :: 0 <= k < |found| ==> found[k].distanceKm <= radiusKm
    ensures forall k :: 0 <= k < |vs| ==> vs[k].distanceKm <= radiusKm
  {
    forall k | 0 <= k < |vs|
      ensures vs[k].distanceKm <= radiusKm
    {
      assert vs[k] in multiset(found);
      var m :| 0 <= m < |found| && found[m] == vs[k];
    }
  }

  // ------------------------------------------------------- delivery options

  /** The route summary the route service returns for a pair of addresses. */
  datatype RouteReply = RouteReply(distance: string, distanceValue: Option<real>, durationValue: Option<real>,
                                   polyline: string)

  datatype RouteSummary = RouteSummary(distance: string, distanceValue: real, polyline: string)

  /** One delivery option; the fallback options carry no station, CO2, weight or route. */
  datatype DeliveryOption = DeliveryOption(vehicle: VehicleType, name: string, estimatedTime: string, price: real,
                                           available: int, stationName: Option<string>, co2Saved: Option<real>,
                                           weatherDependent: bool, maxWeight: Option<real>, route: Option<RouteSummary>)

  /** `createDefaultOption`. */
  function DefaultOption(vehicle: VehicleType): DeliveryOption
  {
    if vehicle == Robot then DeliveryOption(Robot, "Ground Robot", "45-60 min", 12.50, 3, None, None, false, None, None)
    else DeliveryOption(Drone, "Express Drone", "20-30 min", 18.00, 3, None, None, false, None, None)
  }

  function RobotOption(s: StationInfo, meters: real, seconds: real, summary: RouteSummary): DeliveryOption
  {
    DeliveryOption(Robot, "Ground Robot Delivery", FormatDuration(seconds * 1.5), CalculatePrice(meters, Robot),
                   s.availableRobots, Some(s.name), Some(meters * 0.12), false, None, Some(summary))
  }

  function DroneOption(s: StationInfo, meters: real, seconds: real, summary: RouteSummary): DeliveryOption
  {
    DeliveryOption(Drone, "Express Drone Delivery", FormatDuration(seconds * 0.5), CalculatePrice(meters, Drone),
                   s.availableDrones, Some(s.name), Some(meters * 0.15), true, Some(2.5), Some(summary))
  }

  /** The options of one station: robot when it has robots, drone when it has drones and the trip is under 10 km. */
  function StationOptions(s: StationInfo, meters: real, seconds: real, summary: RouteSummary): seq<DeliveryOption>
  {
    (if s.availableRobots > 0 then [RobotOption(s, meters, seconds, summary)] else [])
    + (if s.availableDrones > 0 && meters < 10000.0 then [DroneOption(s, meters, seconds, summary)] else [])
  }

  /**
   * `calculateDeliveryOptions`: both addresses are geocoded, the route is
   * computed and the station nearest to the pickup point chosen; any
   * failure on the way (a geocoder or route exception, a missing distance
   * or duration value, an invalid station point) gives the two fallback
   * options instead.
   */
  function CalculateDeliveryOptions(pickupAddress: string, deliveryAddress: string, geocode: Geocoder,
                                    route: Option<RouteReply>, stations: seq<StationInfo>, dist: Distance)
    : seq<DeliveryOption>
  {
    var pickup := geocode(pickupAddress);
    var delivery := geocode(deliveryAddress);
    if pickup.None? || delivery.None? || route.None? || route.value.distanceValue.None? || route.value.durationValue.None?
    then [DefaultOption(Robot), DefaultOption(Drone)]
    else
      var meters := route.value.distanceValue.value;
      var nearest := NearestStation(pickup.value.lat, pickup.value.lng, stations, dist);
      if nearest.Err? then [DefaultOption(Robot), DefaultOption(Drone)]
      else if nearest.value.None? then []
      else
        StationOptions(stations[nearest.value.value.index], meters, route.value.durationValue.value,
                       RouteSummary(route.value.distance, meters, route.value.polyline))
  }

  /** Every way the option calculation can fail. */
  predicate OptionsFail(pickupAddress: string, deliveryAddress: string, geocode: Geocoder,
                        route: Option<RouteReply>, stations: seq<StationInfo>, dist: Distance)
  {
    var pickup := geocode(pickupAddress);
    geocode(deliveryAddress).None? || route.None? || route.value.distanceValue.None? || route.value.durationValue.None?
    || pickup.None? || NearestStation(pickup.value.lat, pickup.value.lng, stations, dist).Err?
  }

  /** Any failure gives exactly the robot fallback at $12.50 and then the drone fallback at $18.00. */
  lemma DeliveryOptionsFallback(pickupAddress: string, deliveryAddress: string, geocode: Geocoder,
                                route: Option<RouteReply>, stations: seq<StationInfo>, dist: Distance)
    requires OptionsFail(pickupAddress, deliveryAddress, geocode, route, stations, dist)
    ensures var r := CalculateDeliveryOptions(pickupAddress, deliveryAddress, geocode, route, stations, dist);
      |r| == 2 && r[0].vehicle == Robot && r[0].price == 12.50 && r[1].vehicle == Drone && r[1].price == 18.00
      && r[0].route.None? && r[1].route.None?
  {
  }

  /**
   * Without failure: no options when no station is nearest, and otherwise
   * the options of the nearest station for the route's distance and
   * duration.
   */
  lemma DeliveryOptionsEligibility(pickupAddress: string, deliveryAddress: string, geocode: Geocoder,
                                   route: Option<RouteReply>, stations: seq<StationInfo>, dist: Distance)
    requires !OptionsFail(pickupAddress, deliveryAddress, geocode, route, stations, dist)
    ensures var r := CalculateDeliveryOptions(pickupAddress, deliveryAddress, geocode, route, stations, dist);
      var pickup := geocode(pickupAddress).value;
      var nearest := NearestStation(pickup.lat, pickup.lng, stations, dist).value;
      var meters := route.value.distanceValue.value;
      (nearest.None? ==> r == [])
      && (nearest.Some? ==>
            r == StationOptions(stations[nearest.value.index], meters, route.value.durationValue.value,
                                RouteSummary(route.value.distance, meters, route.value.polyline)))
  {
  }

  /**
   * The options of a station: the robot option is present iff the station
   * has robots, the drone option iff it has drones and the trip is under
   * 10 000 m, and robot comes first.
   */
  lemma StationOptionsEligibility(s: StationInfo, meters: real, seconds: real, summary: RouteSummary)
    ensures var r := StationOptions(s, meters, seconds, summary);
      ((exists k :: 0 <= k < |r| && r[k].vehicle == Robot) <==> s.availableRobots > 0)
      && ((exists k :: 0 <= k < |r| && r[k].vehicle == Drone) <==> s.availableDrones > 0 && meters < 10000.0)
      && |r| <= 2
      && (|r| == 2 ==> r[0].vehicle == Robot && r[1].vehicle == Drone)
  {
    var r := StationOptions(s, meters, seconds, summary);
    if s.availableRobots > 0 {
      assert r[0].vehicle == Robot;
    }
    if s.availableDrones > 0 && meters < 10000.0 {
      assert r[|r| - 1].vehicle == Drone;
    }
  }

  /** Every option of a station carries the route, the station, the vehicle's price and its scaled duration. */
  lemma StationOptionsFields(s: StationInfo, meters: real, seconds: real, summary: RouteSummary)
    ensures var r := StationOptions(s, meters, seconds, summary);
      forall k :: 0 <= k < |r| ==>
        r[k].route == Some(summary)
        && r[k].stationName == Some(s.name)
        && r[k].price == CalculatePrice(meters, r[k].vehicle)
        && r[k].estimatedTime == FormatDuration(seconds * (if r[k].vehicle == Robot then 1.5 else 0.5))
  {
    var r := StationOptions(s, meters, seconds, summary);
    var robot, drone := RobotOption(s, meters, seconds, summary), DroneOption(s, meters, seconds, summary);
    assert robot.vehicle == Robot && drone.vehicle == Drone;
    forall k | 0 <= k < |r|
      ensures r[k] == robot || r[k] == drone
    {
    }
  }


}
