// The client-side delivery simulator of deliverySimulation.ts: the
// speed-based planned duration, status bands by progress, generated and
// sampled routes, and the simulator that keeps a map of simulations and
// advances each of them one route point per tick.
module ClientSimulation {
  import opened Wrappers
  import opened Geo
  import opened JavaMath

  // ---------------------------------------------------------- planned time

  datatype VehicleType = Robot | Drone

  /** `VEHICLE_SPEEDS`, in km/h. */
  function VehicleSpeed(v: VehicleType): int
  {
    match v
    case Robot => 15
    case Drone => 45
  }

  /** The travel minutes: ceil(km / speed · 60). */
  function BaseMinutes(distanceKm: real, v: VehicleType): int
  {
    Ceil(distanceKm / VehicleSpeed(v) as real * 60.0)
  }

  /** The preparation buffer: a tenth of the travel minutes, kept within [5, 10]. */
  function BufferMinutes(baseMinutes: int): (b: int)
    ensures 5 <= b <= 10
  {
    Max(5, Min(10, baseMinutes / 10))
  }

  /** `calculateDeliveryTime`: travel plus buffer, clamped to [15, 120] minutes. */
  function CalculateDeliveryTime(distanceKm: real, v: VehicleType): (minutes: int)
    ensures 15 <= minutes <= 120
  {
    var base := BaseMinutes(distanceKm, v);
    Max(15, Min(120, base + BufferMinutes(base)))
  }

  lemma BaseMinutesMonotone(d1: real, d2: real, v: VehicleType)
    requires d1 <= d2
    ensures BaseMinutes(d1, v) <= BaseMinutes(d2, v)
  {
    var x1, x2 := d1 / VehicleSpeed(v) as real * 60.0, d2 / VehicleSpeed(v) as real * 60.0;
    assert x1 <= x2;
    assert Ceil(x1) as real - 1.0 < x1 <= x2 <= Ceil(x2) as real;
  }

  /** A longer trip is never planned shorter. */
  lemma DeliveryTimeMonotone(d1: real, d2: real, v: VehicleType)
    requires d1 <= d2
    ensures CalculateDeliveryTime(d1, v) <= CalculateDeliveryTime(d2, v)
  {
    BaseMinutesMonotone(d1, d2, v);
    var b1, b2 := BaseMinutes(d1, v), BaseMinutes(d2, v);
    assert b1 / 10 <= b2 / 10;
  }

  /** A drone is never planned slower than a robot over the same distance. */
  lemma DroneNotSlower(distanceKm: real)
    ensures CalculateDeliveryTime(distanceKm, Drone) <= CalculateDeliveryTime(distanceKm, Robot)
  {
    var xd, xr := distanceKm / 45.0 * 60.0, distanceKm / 15.0 * 60.0;
    if distanceKm >= 0.0 {
      assert xd <= xr;
      assert Ceil(xd) <= Ceil(xr);
    } else {
      assert xd >= xr;
      assert Ceil(xd) <= 0 && Ceil(xr) <= 0;
    }
  }

  /** Worked values: 5 km take 20 + 5 minutes by robot, and a drone gets the 15-minute floor. */
  lemma DeliveryTimeExamples()
    ensures CalculateDeliveryTime(5.0, Robot) == 25
    ensures CalculateDeliveryTime(5.0, Drone) == 15
    ensures CalculateDeliveryTime(100.0, Robot) == 120
  {
    assert BaseMinutes(5.0, Robot) == 20;
    assert BaseMinutes(5.0, Drone) == 7;
    assert BaseMinutes(100.0, Robot) == 400;
  }

  // ---------------------------------------------------------------- status

  datatype Status = PickedUp | InTransit | NearDestination | Delivered

  /** The position of a status in the delivery's course. */
  function StatusRank(s: Status): nat
  {
    match s
    case PickedUp => 0
    case InTransit => 1
    case NearDestination => 2
    case Delivered => 3
  }

  /** `getStatusByProgress`, for a percentage. */
  function StatusByProgress(progress: int): Status
  {
    if progress < 10 then PickedUp
    else if progress < 85 then InTransit
    else if progress < 100 then NearDestination
    else Delivered
  }

  /** More progress never moves the status back. */
  lemma StatusMonotone(p: int, q: int)
    requires p <= q
    ensures StatusRank(StatusByProgress(p)) <= StatusRank(StatusByProgress(q))
  {
  }

  /** Each band in full: a status holds exactly on its interval of percentages. */
  lemma StatusBands(p: int)
    ensures StatusByProgress(p) == PickedUp <==> p < 10
    ensures StatusByProgress(p) == InTransit <==> 10 <= p < 85
    ensures StatusByProgress(p) == NearDestination <==> 85 <= p < 100
    ensures StatusByProgress(p) == Delivered <==> 100 <= p
  {
  }

  // ------------------------------------------------------ generated routes

  /**
   * Interior point i of a generated route: the straight-line point at
   * ratio i/(n-1), moved by the curve offset (sin(ratio·π)·0.002 in the
   * source, a parameter here) on latitude and half of it on longitude,
   * and by the jitter (random()-0.5)·0.0005 of the i-th random draw on both.
   */
  function RoutePoint(start: LatLng, end: LatLng, i: int, numPoints: int,
                      curve: real -> real, random: nat -> real): LatLng
    requires 1 <= i < numPoints - 1
  {
    var ratio := i as real / (numPoints - 1) as real;
    var offset := curve(ratio);
    var jitter := (random(i - 1) - 0.5) * 0.0005;
    LatLng(start.lat + Scale(end.lat - start.lat, ratio) + offset + jitter,
           start.lng + Scale(end.lng - start.lng, ratio) + offset * 0.5 + jitter)
  }

  /**
   * `generateRoutePoints`: the start, the interior points 1 .. n-2, and the
   * end; so exactly n points for n >= 2, and just the two ends otherwise.
   */
  method GenerateRoutePoints(start: LatLng, end: LatLng, numPoints: int,
                             curve: real -> real, random: nat -> real)
    returns (points: seq<LatLng>)
    ensures |points| == Max(numPoints, 2)
    ensures points[0] == start && points[|points| - 1] == end
    ensures forall i :: 1 <= i < |points| - 1 ==> points[i] == RoutePoint(start, end, i, numPoints, curve, random)
  {
    points := [start];
    var i := 1;
    while i < numPoints - 1
      invariant 1 <= i <= Max(numPoints - 1, 1)
      invariant |points| == i && points[0] == start
      invariant forall j :: 1 <= j < i ==> points[j] == RoutePoint(start, end, j, numPoints, curve, random)
    {
      points := points + [RoutePoint(start, end, i, numPoints, curve, random)];
      i := i + 1;
    }
    points := points + [end];
  }

  /** Without curve and jitter, every generated point lies inside the start–end box. */
  lemma RoutePointInBox(start: LatLng, end: LatLng, i: int, numPoints: int, random: nat -> real)
    requires 1 <= i < numPoints - 1 && random(i - 1) == 0.5
    ensures var p := RoutePoint(start, end, i, numPoints, x => 0.0, random);
      MinR(start.lat, end.lat) <= p.lat <= MaxR(start.lat, end.lat)
      && MinR(start.lng, end.lng) <= p.lng <= MaxR(start.lng, end.lng)
  {
    var ratio := i as real / (numPoints - 1) as real;
    DivBelowOne(i as real, (numPoints - 1) as real);
    LerpBetween(start.lat, end.lat, ratio);
    LerpBetween(start.lng, end.lng, ratio);
  }

  // --------------------------------------------------------- route sampling

  /** The points of ps at indices i.. whose index is a multiple of step, in order. */
  function EveryNth(ps: seq<LatLng>, step: nat, i: nat): seq<LatLng>
    requires step > 0
    decreases |ps| - i
  {
    if i >= |ps| then []
    else (if i % step == 0 then [ps[i]] else []) + EveryNth(ps, step, i + 1)
  }

  /** The sampling of `getRealRoutePoints`: over 50 points, keep every ⌊n/50⌋-th. */
  function SampleRoute(ps: seq<LatLng>): seq<LatLng>
  {
    if |ps| > 50 then EveryNth(ps, |ps| / 50, 0) else ps
  }

  lemma {:induction false} EveryNthSkips(ps: seq<LatLng>, step: nat, i: nat, next: nat)
    requires step > 0 && i <= next && next % step == 0
    requires forall j :: i <= j < next ==> j % step != 0
    ensures EveryNth(ps, step, i) == EveryNth(ps, step, next)
    decreases next - i
  {
    if i < next && i < |ps| {
      EveryNthSkips(ps, step, i + 1, next);
    } else if i < next {
      assert EveryNth(ps, step, i) == [];
    }
  }

  /** Euclidean division of q·step + r, for a remainder below step. */
  lemma ModOffset(q: nat, r: nat, step: nat)
    requires r < step
    ensures (q * step + r) % step == r
  {
    var x := q * step + r;
    var d := x / step;
    assert x == d * step + x % step;
    MulMonotone(q + 1, d, step);
    MulMonotone(d + 1, q, step);
  }

  lemma NextMultiple(i: nat, step: nat)
    requires step > 0 && i % step == 0
    ensures (i + step) % step == 0
    ensures forall j :: i < j < i + step ==> j % step != 0
  {
    var q := i / step;
    assert i == q * step;
    ModOffset(q + 1, 0, step);
    forall j | i < j < i + step ensures j % step != 0 {
      ModOffset(q, j - i, step);
    }
  }

  /**
   * From a multiple i of step, the sample holds ps[i], ps[i+step], ...:
   * element k is ps[i + k·step], and the count c is the least with
   * i + c·step >= |ps|.
   */
  lemma {:induction false} EveryNthAt(ps: seq<LatLng>, step: nat, i: nat)
    requires step > 0 && i % step == 0
    ensures var r := EveryNth(ps, step, i);
      (forall k :: 0 <= k < |r| ==> i + k * step < |ps| && r[k] == ps[i + k * step])
      && i + |r| * step >= |ps|
    decreases |ps| - i
  {
    var r := EveryNth(ps, step, i);
    if i < |ps| {
      NextMultiple(i, step);
      EveryNthSkips(ps, step, i + 1, i + step);
      EveryNthAt(ps, step, i + step);
      var rest := EveryNth(ps, step, i + step);
      assert r == [ps[i]] + rest;
      forall k | 0 <= k < |r| ensures i + k * step < |ps| && r[k] == ps[i + k * step] {
        if k > 0 {
          assert r[k] == rest[k - 1];
          StrideStep(i, k, step);
        }
      }
      StrideStep(i, |r|, step);
    }
  }

  lemma StrideStep(i: int, k: int, step: int)
    ensures i + step + (k - 1) * step == i + k * step
  {
  }

  /**
   * Sampling keeps routes of up to 50 points; longer ones keep exactly the
   * points whose index is a multiple of ⌊n/50⌋, in order, so the first
   * point always survives.
   */
  lemma SampleRouteShape(ps: seq<LatLng>)
    ensures |ps| <= 50 ==> SampleRoute(ps) == ps
    ensures |ps| > 50 ==>
      var step, r := |ps| / 50, SampleRoute(ps);
      |r| > 0 && r[0] == ps[0]
      && (forall k :: 0 <= k < |r| ==> k * step < |ps| && r[k] == ps[k * step])
      && |r| * step >= |ps|
  {
    if |ps| > 50 {
      EveryNthAt(ps, |ps| / 50, 0);
    }
  }

  // ----------------------------------------------------------- real routes

  /** What the route API answered: success flag, polyline and end points, each possibly absent. */
  datatype RouteReply = RouteReply(
    success: bool, hasData: bool, polyline: string,
    startLocation: Option<LatLng>, endLocation: Option<LatLng>)

  /**
   * `getRealRoutePoints` after the request: the decoded polyline (empty when
   * decoding throws), sampled; else the two end points; None where it
   * throws. `decode` is the polyline library, None when it throws.
   */
  function RealRoutePoints(reply: RouteReply, decode: string -> Option<seq<LatLng>>): (r: Option<seq<LatLng>>)
    ensures r.None? <==> !reply.success || !reply.hasData
                         || (reply.polyline == "" && (reply.startLocation.None? || reply.endLocation.None?))
    ensures r.Some? && reply.polyline != "" && decode(reply.polyline).Some? ==>
      r.value == SampleRoute(decode(reply.polyline).value)
    ensures r.Some? && reply.polyline != "" && decode(reply.polyline).None? ==> r.value == []
    ensures r.Some? && reply.polyline == "" ==> r.value == [reply.startLocation.value, reply.endLocation.value]
  {
    if !reply.success || !reply.hasData then None
    else if reply.polyline != "" then
      var points := match decode(reply.polyline) case Some(ps) => ps case None => [];
      Some(SampleRoute(points))
    else if reply.startLocation.Some? && reply.endLocation.Some? then
      Some([reply.startLocation.value, reply.endLocation.value])
    else None
  }

  /**
   * A route read from a decoded polyline starts at the polyline's first
   * point and is that polyline when it has at most 50 points; a route
   * built from the end points runs from start to end.
   */
  lemma RealRouteEnds(reply: RouteReply, decode: string -> Option<seq<LatLng>>)
    requires RealRoutePoints(reply, decode).Some?
    ensures var r := RealRoutePoints(reply, decode).value;
      (reply.polyline != "" && decode(reply.polyline).Some? ==>
        var ps := decode(reply.polyline).value;
        (|ps| > 0 ==> |r| > 0 && r[0] == ps[0]) && (|ps| <= 50 ==> r == ps))
      && (reply.polyline == "" ==> |r| == 2 && r[0] == reply.startLocation.value && r[1] == reply.endLocation.value)
  {
    if reply.polyline != "" && decode(reply.polyline).Some? {
      SampleRouteShape(decode(reply.polyline).value);
    }
  }

  // ----------------------------------------------------------- simulation

  /** One entry of `getAllActiveDeliveries`. */
  datatype DeliveryProgress = DeliveryProgress(
    orderId: string,
    currentLocation: LatLng,
    progress: Option<int>,
    estimatedTime: int,
    status: Status,
    route: seq<LatLng>)

  /**
   * Math.round(index/(n-1)·100); None for a one-point route, where the
   * source divides 0 by 0 and gets NaN.
   */
  function Percent(index: nat, n: nat): Option<int>
    requires n > 0
  {
    if n == 1 then None else Some(Round(Scale(index as real / (n - 1) as real, 100.0)))
  }

  lemma RatioAtMost(a: real, b: real, c: real)
    requires b > 0.0 && a <= c * b
    ensures a / b <= c
  {
  }

  lemma RatioBelow(a: real, b: real, c: real)
    requires b > 0.0 && a < c * b
    ensures a / b < c
  {
  }

  /**
   * On a route of n >= 2 points the percentage is within [0, 100] and is
   * 100 at the last point; for routes of at most 200 points it is 100
   * only there.
   */
  lemma PercentBounds(index: nat, n: nat)
    requires 2 <= n && index < n
    ensures Percent(index, n).Some?
    ensures 0 <= Percent(index, n).value <= 100
    ensures index == n - 1 ==> Percent(index, n).value == 100
    ensures n <= 200 && index < n - 1 ==> Percent(index, n).value < 100
  {
    var m := (n - 1) as real;
    var f := index as real / m;
    RatioAtMost(index as real, m, 1.0);
    MulBetween(100.0, f);
    assert Scale(f, 100.0) == Scale(100.0, f);
    if index == n - 1 {
      DivSelf(m);
    }
    if n <= 200 && index < n - 1 {
      RatioBelow(index as real, m, 0.995);
      assert Scale(f, 100.0) < 99.5;
    }
  }

  /** The percentage can reach 100 one point early on a 201-point route. */
  lemma PercentEarlyOnLongRoute()
    ensures Percent(199, 201) == Some(100)
  {
    assert Scale(199.0 / 200.0, 100.0) == 99.5;
  }

  /** `getCurrentProgress` of a simulation in the given state, at clock time `now` (ms). */
  function ProgressOf(orderId: string, routePoints: seq<LatLng>, index: nat,
                      totalTimeMinutes: real, startTime: real, now: real): DeliveryProgress
    requires index < |routePoints|
  {
    var progress := Percent(index, |routePoints|);
    var elapsedMinutes := (now - startTime) / 60000.0;
    var estimatedTime := Max(0, Round(totalTimeMinutes - elapsedMinutes));
    // A NaN percentage fails every comparison, which gives 'delivered'.
    var status := match progress case Some(p) => StatusByProgress(p) case None => Delivered;
    DeliveryProgress(orderId, routePoints[index], progress, estimatedTime, status, routePoints)
  }

  /** The reported progress is a percentage, 100 at the end, and the time left is never negative. */
  lemma ProgressOfBounds(orderId: string, routePoints: seq<LatLng>, index: nat,
                         totalTimeMinutes: real, startTime: real, now: real)
    requires 2 <= |routePoints| && index < |routePoints|
    ensures var p := ProgressOf(orderId, routePoints, index, totalTimeMinutes, startTime, now);
      p.progress.Some? && 0 <= p.progress.value <= 100 && p.estimatedTime >= 0
      && p.currentLocation == routePoints[index]
      && (index == |routePoints| - 1 ==> p.progress.value == 100 && p.status == Delivered)
  {
    PercentBounds(index, |routePoints|);
  }

  /** One simulation object: a route walked one point per tick. */
  class Simulation {
    const orderId: string
    const routePoints: seq<LatLng>
    const totalTimeMinutes: real
    const totalDistance: real
    /** `Date.now()` when the simulation was created, in ms. */
    const startTime: real
    var currentPointIndex: nat
    var isCompleted: bool

    ghost predicate Valid()
      reads this
    {
      currentPointIndex == 0 || currentPointIndex < |routePoints|
    }

    constructor (orderId: string, routePoints: seq<LatLng>, totalTimeMinutes: real,
                 totalDistance: real, startTime: real)
      ensures Valid()
      ensures this.orderId == orderId && this.routePoints == routePoints
      ensures this.totalTimeMinutes == totalTimeMinutes && this.totalDistance == totalDistance
      ensures this.startTime == startTime
      ensures currentPointIndex == 0 && !isCompleted
    {
      this.orderId := orderId;
      this.routePoints := routePoints;
      this.totalTimeMinutes := totalTimeMinutes;
      this.totalDistance := totalDistance;
      this.startTime := startTime;
      currentPointIndex := 0;
      isCompleted := false;
    }

    /**
     * `advance`: step to the next point while one is left, and otherwise
     * mark the simulation completed; the index never passes the last point.
     */
    method Advance() returns (advanced: bool)
      requires Valid()
      modifies this
      ensures Valid()
      ensures advanced <==> old(currentPointIndex) < |routePoints| - 1
      ensures currentPointIndex == old(currentPointIndex) + (if advanced then 1 else 0)
      ensures isCompleted == (old(isCompleted) || !advanced)
      ensures currentPointIndex <= Max(|routePoints| - 1, 0)
    {
      if currentPointIndex < |routePoints| - 1 {
        currentPointIndex := currentPointIndex + 1;
        return true;
      } else {
        isCompleted := true;
        return false;
      }
    }

    /**
     * `getCurrentProgress` at clock time `now`; None on an empty route,
     * where reading the current point's `lat` throws a TypeError.
     */
    function CurrentProgress(now: real): (r: Option<DeliveryProgress>)
      reads this
      requires Valid()
      ensures r.None? <==> |routePoints| == 0
      ensures r.Some? ==> r.value.orderId == orderId && r.value.currentLocation == routePoints[currentPointIndex]
    {
      if |routePoints| == 0 then None
      else Some(ProgressOf(orderId, routePoints, currentPointIndex, totalTimeMinutes, startTime, now))
    }
  }

  // -------------------------------------------------------------- simulator

  /** The set of elements of a sequence. */
  function Elements(xs: seq<string>): (r: set<string>)
    ensures forall x :: x in r <==> x in xs
  {
    set x | x in xs
  }

  /** The elements of xs that are not in drop, in order. */
  function Without(xs: seq<string>, drop: set<string>): (r: seq<string>)
    ensures forall x :: x in r <==> x in xs && x !in drop
    ensures |r| <= |xs|
  {
    if xs == [] then []
    else (if xs[0] in drop then [] else [xs[0]]) + Without(xs[1..], drop)
  }

  predicate Distinct<T(==)>(xs: seq<T>)
  {
    forall i, j :: 0 <= i < j < |xs| ==> xs[i] != xs[j]
  }

  lemma {:induction false} WithoutDistinct(xs: seq<string>, drop: set<string>)
    requires Distinct(xs)
    ensures Distinct(Without(xs, drop))
  {
    if xs != [] {
      WithoutDistinct(xs[1..], drop);
      assert xs[0] !in xs[1..];
    }
  }

  /** Dropping a then b is dropping both at once. */
  lemma {:induction false} WithoutTwice(xs: seq<string>, a: set<string>, b: set<string>)
    ensures Without(Without(xs, a), b) == Without(xs, a + b)
  {
    if xs != [] {
      WithoutTwice(xs[1..], a, b);
      var rest := Without(xs[1..], a);
      if xs[0] in a {
        assert Without(xs, a) == [] + rest == rest;
        assert Without(xs, a + b) == [] + Without(xs[1..], a + b);
      } else {
        var ys := [xs[0]] + rest;
        assert Without(xs, a) == ys;
        assert ys[0] == xs[0] && ys[1..] == rest;
        if xs[0] in b {
          assert Without(ys, b) == [] + Without(rest, b);
          assert Without(xs, a + b) == [] + Without(xs[1..], a + b);
        } else {
          assert Without(ys, b) == [xs[0]] + Without(rest, b);
          assert Without(xs, a + b) == [xs[0]] + Without(xs[1..], a + b);
        }
      }
    }
  }

  lemma MapMinusTwice<K, V>(m: map<K, V>, a: set<K>, b: set<K>)
    ensures (m - a) - b == m - (a + b)
  {
  }

  /** Dropping nothing keeps the sequence. */
  lemma {:induction false} WithoutNothing(xs: seq<string>)
    ensures Without(xs, {}) == xs
  {
    if xs != [] {
      WithoutNothing(xs[1..]);
    }
  }

  /**
   * `order` lists the keys of m once each, distinct keys hold distinct
   * objects, and each simulation is stored under its own order id.
   */
  ghost predicate KeyedBy(m: map<string, Simulation>, order: seq<string>)
  {
    (forall id :: id in m <==> id in order)
    && Distinct(order)
    && (forall a, b :: a in m && b in m && a != b ==> m[a] != m[b])
    && (forall id :: id in m ==> m[id].orderId == id)
  }

  /** Storing a new object under its own id keeps the keying; a new id goes last. */
  lemma KeyedByAdd(m: map<string, Simulation>, order: seq<string>, id: string, s: Simulation)
    requires KeyedBy(m, order) && s.orderId == id
    requires forall k :: k in m ==> m[k] != s
    ensures KeyedBy(m[id := s], if id in m then order else order + [id])
  {
  }

  /** Deleting a key keeps the keying, with the key dropped from the order. */
  lemma KeyedByRemove(m: map<string, Simulation>, order: seq<string>, id: string)
    requires KeyedBy(m, order)
    ensures KeyedBy(m - {id}, Without(order, {id}))
  {
    WithoutDistinct(order, {id});
  }

  /**
   * `DeliverySimulator`: the simulations by order id (with the insertion
   * order a JavaScript Map iterates in), the subscribed callback keys, and
   * whether the update loop's interval is set.
   */
  class DeliverySimulator {
    var simulations: map<string, Simulation>
    /** The keys of `simulations` in insertion order. */
    var order: seq<string>
    /** The keys of `callbacks` in insertion order. */
    var callbacks: seq<string>
    /** Whether `updateInterval` is set. */
    var running: bool
    const updateIntervalMs: int

    ghost function Objects(): set<Simulation>
      reads this
    {
      set id | id in simulations :: simulations[id]
    }

    /**
     * The simulations are keyed by `order`, each is in a valid state, and
     * every callback key is listed once.
     */
    ghost predicate Indexed()
      reads this, Objects()
    {
      KeyedBy(simulations, order) && Distinct(callbacks)
      && (forall id :: id in simulations ==> simulations[id].Valid())
    }

    /**
     * Between ticks, besides: no stored simulation is completed (a tick
     * deletes those), and the loop runs exactly while there are simulations.
     */
    ghost predicate Valid()
      reads this, Objects()
    {
      Indexed()
      && (forall id :: id in simulations ==> !simulations[id].isCompleted)
      && (running <==> simulations != map[])
    }

    constructor (updateIntervalMs: int)
      ensures Valid() && this.updateIntervalMs == updateIntervalMs
      ensures simulations == map[] && order == [] && callbacks == [] && !running
    {
      this.updateIntervalMs := updateIntervalMs;
      simulations := map[];
      order := [];
      callbacks := [];
      running := false;
    }

    /**
     * The end of `createDeliverySimulationAsync`: store a fresh simulation
     * under its id (replacing any, in the same Map position) and start the
     * update loop, which does nothing if it already runs.
     */
    method AddSimulation(orderId: string, routePoints: seq<LatLng>, totalTimeMinutes: real,
                         totalDistance: real, startTime: real)
      requires Valid()
      modifies this
      ensures Valid() && running
      ensures orderId in simulations && fresh(simulations[orderId])
      ensures simulations == old(simulations)[orderId := simulations[orderId]]
      ensures var s := simulations[orderId];
        s.routePoints == routePoints && s.totalTimeMinutes == totalTimeMinutes
        && s.totalDistance == totalDistance && s.startTime == startTime && s.currentPointIndex == 0
      ensures order == if orderId in old(simulations) then old(order) else old(order) + [orderId]
      ensures callbacks == old(callbacks)
    {
      var simulation := new Simulation(orderId, routePoints, totalTimeMinutes, totalDistance, startTime);
      KeyedByAdd(simulations, order, orderId, simulation);
      if orderId !in simulations {
        order := order + [orderId];
      }
      simulations := simulations[orderId := simulation];
      running := true;
    }

    /**
     * `createDeliverySimulationAsync`. The route is the fetched real route
     * when one was asked for (both addresses non-empty) and fetched, and a
     * generated 30-point route otherwise; the planned time is the speed-based
     * one when asked for, and the given one otherwise.
     */
    method CreateDeliverySimulation(orderId: string, startLocation: LatLng, endLocation: LatLng,
                                    totalTimeMinutes: real, originAddress: string, destinationAddress: string,
                                    useRealRoute: bool, fetched: Option<seq<LatLng>>,
                                    vehicleType: VehicleType, useSpeedBasedTime: bool,
                                    distKm: Distance, curve: real -> real, random: nat -> real, now: real)
      requires Valid()
      modifies this
      ensures Valid() && running && orderId in simulations && fresh(simulations[orderId])
      ensures simulations == old(simulations)[orderId := simulations[orderId]]
      ensures order == if orderId in old(simulations) then old(order) else old(order) + [orderId]
      ensures callbacks == old(callbacks)
      ensures var s := simulations[orderId];
        var viaApi := useRealRoute && originAddress != "" && destinationAddress != "" && fetched.Some?;
        (viaApi ==> s.routePoints == fetched.value)
        && (!viaApi ==> |s.routePoints| == 30 && s.routePoints[0] == startLocation && s.routePoints[29] == endLocation
                        && forall i :: 1 <= i < 29 ==> s.routePoints[i] == RoutePoint(startLocation, endLocation, i, 30, curve, random))
        && s.totalDistance == distKm(if |s.routePoints| > 0 then s.routePoints[0] else startLocation,
                                     if |s.routePoints| > 0 then s.routePoints[|s.routePoints| - 1] else endLocation)
        && (useSpeedBasedTime ==> s.totalTimeMinutes == CalculateDeliveryTime(s.totalDistance, vehicleType) as real)
        && (!useSpeedBasedTime ==> s.totalTimeMinutes == totalTimeMinutes)
        && s.startTime == now && s.currentPointIndex == 0
    {
      var routePoints: seq<LatLng>;
      if useRealRoute && originAddress != "" && destinationAddress != "" && fetched.Some? {
        routePoints := fetched.value;
      } else {
        routePoints := GenerateRoutePoints(startLocation, endLocation, 30, curve, random);
      }
      var first := if |routePoints| > 0 then routePoints[0] else startLocation;
      var last := if |routePoints| > 0 then routePoints[|routePoints| - 1] else endLocation;
      var totalDistance := distKm(first, last);
      var actualDeliveryTime := totalTimeMinutes;
      if useSpeedBasedTime {
        actualDeliveryTime := CalculateDeliveryTime(totalDistance, vehicleType) as real;
      }
      AddSimulation(orderId, routePoints, actualDeliveryTime, totalDistance, now);
    }

    /** `removeDeliverySimulation`: whether the id was present; the loop stops once none are left. */
    method RemoveDeliverySimulation(orderId: string) returns (removed: bool)
      requires Valid()
      modifies this
      ensures Valid()
      ensures removed <==> orderId in old(simulations)
      ensures simulations == old(simulations) - {orderId}
      ensures order == Without(old(order), {orderId})
      ensures callbacks == old(callbacks)
      ensures running <==> simulations != map[]
    {
      removed := orderId in simulations;
      KeyedByRemove(simulations, order, orderId);
      simulations := simulations - {orderId};
      order := Without(order, {orderId});
      if simulations == map[] {
        running := false;
      }
    }

    /**
     * `getAllActiveDeliveries`: the progress of every simulation not
     * completed, in Map order; as none in the map is completed, that is
     * one entry per simulation. None where a simulation with an empty
     * route (a real route whose polyline did not decode) makes
     * `getCurrentProgress` throw.
     */
    method GetAllActiveDeliveries(now: real) returns (deliveries: Option<seq<DeliveryProgress>>)
      requires Valid()
      ensures deliveries.None? <==> exists k :: 0 <= k < |order| && |simulations[order[k]].routePoints| == 0
      ensures deliveries.Some? ==> |deliveries.value| == |order|
      ensures deliveries.Some? ==> forall k :: 0 <= k < |order| ==>
        Some(deliveries.value[k]) == simulations[order[k]].CurrentProgress(now) && deliveries.value[k].orderId == order[k]
    {
      var found: seq<DeliveryProgress> := [];
      var k := 0;
      while k < |order|
        invariant 0 <= k <= |order| && |found| == k
        invariant forall j :: 0 <= j < k ==> Some(found[j]) == simulations[order[j]].CurrentProgress(now)
        invariant forall j :: 0 <= j < k ==> |simulations[order[j]].routePoints| > 0
      {
        var simulation := simulations[order[k]];
        if !simulation.isCompleted {
          var progress := simulation.CurrentProgress(now);
          if progress.None? {
            return None;
          }
          found := found + [progress.value];
        }
        k := k + 1;
      }
      deliveries := Some(found);
    }

    /** `subscribe`: a new key goes last; an existing one keeps its place. */
    method Subscribe(key: string)
      requires Valid()
      modifies this`callbacks
      ensures Valid()
      ensures callbacks == if key in old(callbacks) then old(callbacks) else old(callbacks) + [key]
    {
      if key !in callbacks {
        callbacks := callbacks + [key];
      }
    }

    /** `unsubscribe`. */
    method Unsubscribe(key: string)
      requires Valid()
      modifies this`callbacks
      ensures Valid()
      ensures callbacks == Without(old(callbacks), {key})
    {
      WithoutDistinct(callbacks, {key});
      callbacks := Without(callbacks, {key});
    }

    /** `cleanup`: stop the loop and forget every simulation and subscriber. */
    method Cleanup()
      modifies this
      ensures Valid()
      ensures simulations == map[] && order == [] && callbacks == [] && !running
    {
      running := false;
      simulations := map[];
      order := [];
      callbacks := [];
    }

    /** The ids whose simulation can still step forward. */
    ghost function Advancing(): (r: set<string>)
      reads this, Objects()
      ensures r <= simulations.Keys
    {
      set id | id in simulations && simulations[id].currentPointIndex < |simulations[id].routePoints| - 1
    }

    /**
     * Midway through a tick: the ids in `visited` have advanced by one
     * point if they could (and are completed otherwise), the others are as
     * they were; `advancing` and `startIndex` describe the state before.
     */
    ghost predicate Progressed(visited: set<string>, advancing: set<string>, startIndex: map<string, nat>)
      reads this, Objects()
    {
      (forall id :: id in simulations ==> id in startIndex && simulations[id].Valid())
      && (forall id :: id in advancing <==>
            id in simulations && startIndex[id] < |simulations[id].routePoints| - 1)
      && (forall id :: id in simulations ==>
            if id in visited then
              simulations[id].currentPointIndex == startIndex[id] + (if id in advancing then 1 else 0)
              && simulations[id].isCompleted == (id !in advancing)
            else
              simulations[id].currentPointIndex == startIndex[id] && !simulations[id].isCompleted)
    }

    /** One step of the first half of a tick: advance the simulation under orderId. */
    method AdvanceOne(orderId: string, ghost visited: set<string>, ghost advancing: set<string>,
                      ghost startIndex: map<string, nat>) returns (hasMore: bool)
      requires KeyedBy(simulations, order) && orderId in simulations && orderId !in visited
      requires Progressed(visited, advancing, startIndex)
      modifies simulations[orderId]
      ensures Progressed(visited + {orderId}, advancing, startIndex)
      ensures hasMore <==> orderId in advancing
    {
      var simulation := simulations[orderId];
      hasMore := simulation.Advance();
    }

    /**
     * The first half of a tick: advance every simulation not completed, in
     * Map order; report whether any advanced and list those that could not.
     */
    method AdvanceAll() returns (hasActiveDeliveries: bool, completedDeliveries: seq<string>)
      requires Valid()
      modifies Objects()
      ensures Indexed()
      ensures forall id :: id in simulations ==>
        simulations[id].currentPointIndex
          == old(simulations[id].currentPointIndex) + (if id in old(Advancing()) then 1 else 0)
        && simulations[id].isCompleted == (id !in old(Advancing()))
      ensures hasActiveDeliveries <==> old(Advancing()) != {}
      ensures Elements(completedDeliveries) == simulations.Keys - old(Advancing())
    {
      ghost var advancing := Advancing();
      ghost var startIndex := map id | id in simulations :: simulations[id].currentPointIndex;
      ghost var visited: set<string> := {};
      hasActiveDeliveries := false;
      completedDeliveries := [];
      var k := 0;
      while k < |order|
        invariant 0 <= k <= |order|
        invariant Swept(k, visited, advancing, startIndex, hasActiveDeliveries, completedDeliveries)
      {
        hasActiveDeliveries, completedDeliveries :=
          Visit(k, visited, advancing, startIndex, hasActiveDeliveries, completedDeliveries);
        visited := visited + {order[k]};
        k := k + 1;
      }
      assert Elements(completedDeliveries) == simulations.Keys - advancing;
    }

    /**
     * The first k simulations in Map order have been visited: each advanced
     * if it could, and the flag and the completed list say which did not.
     */
    ghost predicate Swept(k: nat, visited: set<string>, advancing: set<string>, startIndex: map<string, nat>,
                          hasActiveDeliveries: bool, completedDeliveries: seq<string>)
      reads this, Objects()
    {
      && k <= |order|
      && KeyedBy(simulations, order)
      && visited <= simulations.Keys
      && (forall j :: 0 <= j < k ==> order[j] in visited)
      && (forall j :: k <= j < |order| ==> order[j] !in visited)
      && Progressed(visited, advancing, startIndex)
      && (hasActiveDeliveries <==> exists id :: id in visited && id in advancing)
      && (forall id :: id in completedDeliveries <==> id in visited && id !in advancing)
    }

    /** One round of the first half of a tick: visit the k-th simulation in Map order. */
    method Visit(k: nat, ghost visited: set<string>, ghost advancing: set<string>, ghost startIndex: map<string, nat>,
                 hasActive: bool, completed: seq<string>)
      returns (hasActiveDeliveries: bool, completedDeliveries: seq<string>)
      requires k < |order| && Swept(k, visited, advancing, startIndex, hasActive, completed)
      modifies simulations[order[k]]
      ensures Swept(k + 1, visited + {order[k]}, advancing, startIndex, hasActiveDeliveries, completedDeliveries)
    {
      hasActiveDeliveries, completedDeliveries := hasActive, completed;
      var orderId := order[k];
      var simulation := simulations[orderId];
      if !simulation.isCompleted {
        var hasMore := AdvanceOne(orderId, visited, advancing, startIndex);
        if hasMore {
          hasActiveDeliveries := true;
        } else {
          completedDeliveries := completedDeliveries + [orderId];
        }
      }
    }

    /** Delete one simulation from the map and from the Map order. */
    method RemoveOne(orderId: string)
      requires Indexed()
      modifies this`simulations, this`order
      ensures Indexed()
      ensures simulations == old(simulations) - {orderId}
      ensures order == Without(old(order), {orderId})
    {
      KeyedByRemove(simulations, order, orderId);
      simulations := simulations - {orderId};
      order := Without(order, {orderId});
    }

    /** The second half of a tick: delete each listed simulation, in turn. */
    method RemoveAll(completedDeliveries: seq<string>)
      requires Indexed()
      modifies this`simulations, this`order
      ensures Indexed()
      ensures simulations == old(simulations) - Elements(completedDeliveries)
      ensures order == Without(old(order), Elements(completedDeliveries))
    {
      WithoutNothing(order);
      ghost var done: set<string> := {};
      var j := 0;
      while j < |completedDeliveries|
        invariant 0 <= j <= |completedDeliveries|
        invariant forall i :: 0 <= i < j ==> completedDeliveries[i] in done
        invariant forall id :: id in done ==> id in completedDeliveries
        invariant simulations == old(simulations) - done
        invariant order == Without(old(order), done)
        invariant Indexed()
      {
        var orderId := completedDeliveries[j];
        WithoutTwice(old(order), done, {orderId});
        MapMinusTwice(old(simulations), done, {orderId});
        RemoveOne(orderId);
        done := done + {orderId};
        j := j + 1;
      }
      assert done == Elements(completedDeliveries);
    }

    /**
     * The state change of one run of the update loop's interval: advance
     * every simulation once, delete those that could not advance, and stop
     * the loop when nothing advanced.
     */
    method UpdateSimulations()
      requires Valid() && running
      modifies this, Objects()
      ensures Valid()
      ensures simulations == old(simulations) - (old(simulations).Keys - old(Advancing()))
      ensures forall id :: id in simulations ==>
        var s := simulations[id];
        s.currentPointIndex == old(s.currentPointIndex) + 1 && s.currentPointIndex < |s.routePoints|
      ensures order == Without(old(order), old(simulations).Keys - old(Advancing()))
      ensures running <==> old(Advancing()) != {}
      ensures callbacks == old(callbacks)
    {
      ghost var advancing := Advancing();
      var hasActiveDeliveries, completedDeliveries := AdvanceAll();
      DropCompleted(hasActiveDeliveries, completedDeliveries, advancing);
    }

    /**
     * The end of a tick: delete the simulations that could not advance and
     * stop the loop when none advanced.
     */
    method DropCompleted(hasActiveDeliveries: bool, completedDeliveries: seq<string>, ghost advancing: set<string>)
      requires Indexed() && running && advancing <= simulations.Keys
      requires Elements(completedDeliveries) == simulations.Keys - advancing
      requires forall id :: id in advancing ==> !simulations[id].isCompleted
      requires hasActiveDeliveries <==> advancing != {}
      modifies this`simulations, this`order, this`running
      ensures Valid()
      ensures simulations == old(simulations) - (old(simulations).Keys - advancing)
      ensures simulations.Keys == advancing
      ensures order == Without(old(order), old(simulations).Keys - advancing)
      ensures running <==> advancing != {}
    {
      RemoveAll(completedDeliveries);
      if !hasActiveDeliveries {
        running := false;
      }
    }

    /**
     * One run of the update loop's interval: update the simulations, then
     * hand the progress of those left to every subscriber, in Map order.
     */
    method Tick(now: real) returns (notified: seq<string>, deliveries: seq<DeliveryProgress>)
      requires Valid() && running
      modifies this, Objects()
      ensures Valid()
      ensures simulations == old(simulations) - (old(simulations).Keys - old(Advancing()))
      ensures forall id :: id in simulations ==>
        var s := simulations[id];
        s.currentPointIndex == old(s.currentPointIndex) + 1 && s.currentPointIndex < |s.routePoints|
      ensures order == Without(old(order), old(simulations).Keys - old(Advancing()))
      ensures running <==> old(Advancing()) != {}
      ensures callbacks == old(callbacks) && notified == callbacks
      ensures |deliveries| == |order|
      ensures forall k :: 0 <= k < |order| ==>
        Some(deliveries[k]) == simulations[order[k]].CurrentProgress(now) && deliveries[k].orderId == order[k]
    {
      UpdateSimulations();
      var all := GetAllActiveDeliveries(now);
      deliveries := all.value;
      notified := callbacks;
    }
  }
}
