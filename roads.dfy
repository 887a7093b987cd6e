// The trajectory pipeline of RoadsAPIService: road snapping of single
// points and of batches (with the Roads API as an oracle), densification
// of long segments and a three-point smoothing pass.
module RoadsApi {
  import opened Wrappers
  import opened Strings
  import opened Geo

  /** The configured `google.maps.api.key`; None when the property is null. */
  datatype Config = Config(apiKey: Option<string>)

  /** The `location` object of one snapped point, with nullable coordinates. */
  datatype SnapLocation = SnapLocation(latitude: Option<real>, longitude: Option<real>)

  datatype SnappedPoint = SnappedPoint(location: Option<SnapLocation>)

  /** The body of a Roads API reply: its `snappedPoints` list, None when null. */
  datatype SnapBody = SnapBody(snappedPoints: Option<seq<SnappedPoint>>)

  /** One HTTP exchange: it threw, or it gave a status (OK or not) and a body. */
  datatype SnapReply = Threw | Replied(statusOk: bool, body: Option<SnapBody>)

  /** The Roads API seen from the service: the reply to a request for a path. */
  type RoadsOracle = seq<LatLng> -> SnapReply

  /** The snapped point used, when it has both coordinates. */
  function Coordinates(p: SnappedPoint): Option<LatLng>
  {
    match p.location
    case Some(SnapLocation(Some(lat), Some(lng))) => Some(LatLng(lat, lng))
    case _ => None
  }

  // ------------------------------------------------------------ single point

  /** `isRoadsAPIAvailable`. */
  predicate IsRoadsApiAvailable(cfg: Config)
  {
    cfg.apiKey.Some? && !JavaBlank(cfg.apiKey.value)
  }

  /** The API counts as available iff a key is set with a character above U+0020. */
  lemma RoadsApiAvailableIff(cfg: Config)
    ensures IsRoadsApiAvailable(cfg) <==>
      cfg.apiKey.Some? && exists i :: 0 <= i < |cfg.apiKey.value| && !IsJavaSpace(cfg.apiKey.value[i])
  {
  }

  /**
   * `processSnapToRoadsResponse`: the first snapped point, provided it has
   * both coordinates and lies under 500 m from the original; otherwise the
   * original point.
   */
  function ProcessSnapResponse(body: SnapBody, original: LatLng, dist: Distance): (p: LatLng)
    ensures p == original || dist(original, p) < 500.0
    ensures p != original ==>
      body.snappedPoints.Some? && |body.snappedPoints.value| > 0
      && Coordinates(body.snappedPoints.value[0]) == Some(p)
  {
    match body.snappedPoints
    case Some(points) =>
      if |points| > 0 then
        match Coordinates(points[0])
        case Some(snapped) => if dist(original, snapped) < 500.0 then snapped else original
        case None => original
      else original
    case None => original
  }

  /**
   * `snapToRoads`: without a usable key, on a failed exchange or on a
   * non-OK reply the point itself; otherwise the processed reply.
   */
  function SnapToRoads(cfg: Config, point: LatLng, api: RoadsOracle, dist: Distance): (p: LatLng)
    ensures !IsRoadsApiAvailable(cfg) ==> p == point
    ensures api([point]).Threw? ==> p == point
    ensures p == point || dist(point, p) < 500.0
  {
    if !IsRoadsApiAvailable(cfg) then point
    else
      match api([point])
      case Threw => point
      case Replied(ok, body) =>
        if ok && body.Some? then ProcessSnapResponse(body.value, point, dist) else point
  }

  // ------------------------------------------------------------------ batches

  /** The snapped points having both coordinates, in reply order. */
  function CompletePoints(points: seq<SnappedPoint>): (r: seq<LatLng>)
    ensures |r| <= |points|
  {
    if points == [] then []
    else
      match Coordinates(points[0])
      case Some(c) => [c] + CompletePoints(points[1..])
      case None => CompletePoints(points[1..])
  }

  lemma {:induction false} CompletePointsAllComplete(points: seq<SnappedPoint>)
    requires forall i :: 0 <= i < |points| ==> Coordinates(points[i]).Some?
    ensures |CompletePoints(points)| == |points|
    ensures forall i :: 0 <= i < |points| ==> Some(CompletePoints(points)[i]) == Coordinates(points[i])
  {
    if points != [] {
      CompletePointsAllComplete(points[1..]);
    }
  }

  lemma {:induction false} CompletePointsNoneComplete(points: seq<SnappedPoint>)
    requires forall i :: 0 <= i < |points| ==> Coordinates(points[i]).None?
    ensures CompletePoints(points) == []
  {
    if points != [] {
      CompletePointsNoneComplete(points[1..]);
    }
  }

  /** What `processSnapToRoadsBatchResponse` returns for a body. */
  function BatchResult(body: SnapBody, original: seq<LatLng>): seq<LatLng>
  {
    if body.snappedPoints.Some? && CompletePoints(body.snappedPoints.value) != []
    then CompletePoints(body.snappedPoints.value)
    else original
  }

  /**
   * `processSnapToRoadsBatchResponse`: the snapped points that have both
   * coordinates, in order, or the original list when none has.
   */
  method ProcessBatchResponse(body: SnapBody, original: seq<LatLng>) returns (r: seq<LatLng>)
    ensures r == BatchResult(body, original)
    ensures r != original ==> |r| > 0 && body.snappedPoints.Some? && |r| <= |body.snappedPoints.value|
  {
    if body.snappedPoints.None? || |body.snappedPoints.value| == 0 {
      return original;
    }
    var points := body.snappedPoints.value;
    var result: seq<LatLng> := [];
    var i := 0;
    while i < |points|
      invariant 0 <= i <= |points|
      invariant result + CompletePoints(points[i..]) == CompletePoints(points)
    {
      assert points[i..][1..] == points[i + 1..];
      match Coordinates(points[i]) {
        case Some(c) => result := result + [c];
        case None =>
      }
      i := i + 1;
    }
    assert points[i..] == [];
    if |result| > 0 {
      r := result;
    } else {
      r := original;
    }
  }

  /** The one-request path of `snapToRoadsBatch`, for a list of at most 100 points. */
  function SingleRequest(cs: seq<LatLng>, api: RoadsOracle): seq<LatLng>
  {
    match api(cs)
    case Threw => cs
    case Replied(ok, body) => if ok && body.Some? then BatchResult(body.value, cs) else cs
  }

  /** The results of the 100-point chunks starting at index i, concatenated. */
  function ChunkedFrom(cs: seq<LatLng>, i: nat, api: RoadsOracle): seq<LatLng>
    decreases |cs| - i
  {
    if i >= |cs| then []
    else
      var end := if i + 100 <= |cs| then i + 100 else |cs|;
      SingleRequest(cs[i..end], api) + ChunkedFrom(cs, i + 100, api)
  }

  /** What `snapToRoadsBatch` returns. */
  function SnapBatch(cfg: Config, cs: seq<LatLng>, api: RoadsOracle): seq<LatLng>
  {
    if cs == [] || !IsRoadsApiAvailable(cfg) then cs
    else if |cs| > 100 then ChunkedFrom(cs, 0, api)
    else SingleRequest(cs, api)
  }

  /** The consecutive 100-point chunks of cs from index i. */
  function ChunksFrom(cs: seq<LatLng>, i: nat): seq<seq<LatLng>>
    decreases |cs| - i
  {
    if i >= |cs| then []
    else
      var end := if i + 100 <= |cs| then i + 100 else |cs|;
      [cs[i..end]] + ChunksFrom(cs, i + 100)
  }

  function Flatten(chunks: seq<seq<LatLng>>): seq<LatLng>
  {
    if chunks == [] then [] else chunks[0] + Flatten(chunks[1..])
  }

  function MapSnapBatch(cfg: Config, chunks: seq<seq<LatLng>>, api: RoadsOracle): seq<seq<LatLng>>
  {
    if chunks == [] then [] else [SnapBatch(cfg, chunks[0], api)] + MapSnapBatch(cfg, chunks[1..], api)
  }

  /** The chunks cover the list in order, and each holds between 1 and 100 points. */
  lemma {:induction false} ChunksPartition(cs: seq<LatLng>, i: nat)
    requires i <= |cs|
    ensures Flatten(ChunksFrom(cs, i)) == cs[i..]
    ensures forall k :: 0 <= k < |ChunksFrom(cs, i)| ==> 1 <= |ChunksFrom(cs, i)[k]| <= 100
    decreases |cs| - i
  {
    if i < |cs| {
      var end := if i + 100 <= |cs| then i + 100 else |cs|;
      if end < |cs| {
        ChunksPartition(cs, end);
      }
      assert cs[i..] == cs[i..end] + cs[end..];
    }
  }

  /**
   * With a key, a list over 100 points is snapped chunk by chunk through
   * `snapToRoadsBatch` itself, and the results are concatenated in order.
   */
  lemma {:induction false} BatchOfChunks(cfg: Config, cs: seq<LatLng>, api: RoadsOracle, i: nat)
    requires IsRoadsApiAvailable(cfg)
    ensures ChunkedFrom(cs, i, api) == Flatten(MapSnapBatch(cfg, ChunksFrom(cs, i), api))
    decreases |cs| - i
  {
    if i < |cs| {
      BatchOfChunks(cfg, cs, api, i + 100);
    }
  }

  /** When every exchange fails, a batch comes back unchanged, whatever its size. */
  lemma {:induction false} BatchFallsBack(cfg: Config, cs: seq<LatLng>, api: RoadsOracle)
    requires forall path :: api(path).Threw?
    ensures SnapBatch(cfg, cs, api) == cs
  {
    if cs != [] && IsRoadsApiAvailable(cfg) && |cs| > 100 {
      ChunkedFallsBack(cs, 0, api);
    }
  }

  lemma {:induction false} ChunkedFallsBack(cs: seq<LatLng>, i: nat, api: RoadsOracle)
    requires forall path :: api(path).Threw?
    requires i <= |cs|
    ensures ChunkedFrom(cs, i, api) == cs[i..]
    decreases |cs| - i
  {
    if i < |cs| {
      var end := if i + 100 <= |cs| then i + 100 else |cs|;
      assert api(cs[i..end]).Threw?;
      if end < |cs| {
        ChunkedFallsBack(cs, end, api);
      }
      assert cs[i..] == cs[i..end] + cs[end..];
    }
  }

  /** `snapToRoadsBatch`. */
  method SnapToRoadsBatch(cfg: Config, cs: seq<LatLng>, api: RoadsOracle) returns (r: seq<LatLng>)
    ensures r == SnapBatch(cfg, cs, api)
    ensures cs == [] || !IsRoadsApiAvailable(cfg) ==> r == cs
    decreases |cs|, 1
  {
    if cs == [] || !IsRoadsApiAvailable(cfg) {
      return cs;
    }
    if |cs| > 100 {
      r := SnapToRoadsInBatches(cfg, cs, api);
      return;
    }
    match api(cs) {
      case Threw => r := cs;
      case Replied(ok, body) =>
        if ok && body.Some? {
          r := ProcessBatchResponse(body.value, cs);
        } else {
          r := cs;
        }
    }
  }

  /** `snapToRoadsInBatches`: each 100-point chunk through `snapToRoadsBatch`. */
  method SnapToRoadsInBatches(cfg: Config, cs: seq<LatLng>, api: RoadsOracle) returns (r: seq<LatLng>)
    requires |cs| > 100 && IsRoadsApiAvailable(cfg)
    ensures r == ChunkedFrom(cs, 0, api)
    decreases |cs|, 0
  {
    r := [];
    var i := 0;
    while i < |cs|
      invariant r + ChunkedFrom(cs, i, api) == ChunkedFrom(cs, 0, api)
      decreases |cs| - i
    {
      var end := if i + 100 <= |cs| then i + 100 else |cs|;
      var snapped := SnapToRoadsBatch(cfg, cs[i..end], api);
      ChunkStep(cfg, cs, i, api, r, snapped);
      r := r + snapped;
      i := i + 100;
    }
  }

  lemma ChunkStep(cfg: Config, cs: seq<LatLng>, i: nat, api: RoadsOracle, done: seq<LatLng>, snapped: seq<LatLng>)
    requires i < |cs| && IsRoadsApiAvailable(cfg)
    requires snapped == SnapBatch(cfg, cs[i..if i + 100 <= |cs| then i + 100 else |cs|], api)
    ensures done + ChunkedFrom(cs, i, api) == (done + snapped) + ChunkedFrom(cs, i + 100, api)
  {
  }

  // ------------------------------------------------------------ densifying

  /** The number of points inserted between two points d metres apart. */
  function InsertCount(d: real): (k: nat)
    ensures k <= 5
    ensures d <= 100.0 ==> k == 0
    ensures d > 100.0 ==> k >= 2
  {
    if d > 100.0 then
      var q := (d / 50.0).Floor;
      if q < 5 then q else 5
    else 0
  }

  /** The first j of the k points between a and b at fractions 1/(k+1), 2/(k+1), .... */
  function LerpPrefix(a: LatLng, b: LatLng, k: nat, j: nat): seq<LatLng>
    requires j <= k
  {
    if j == 0 then [] else LerpPrefix(a, b, k, j - 1) + [Lerp(a, b, j as real / (k + 1) as real)]
  }

  lemma {:induction false} LerpPrefixAt(a: LatLng, b: LatLng, k: nat, j: nat)
    requires j <= k
    ensures |LerpPrefix(a, b, k, j)| == j
    ensures forall m :: 0 <= m < j ==> LerpPrefix(a, b, k, j)[m] == Lerp(a, b, (m + 1) as real / (k + 1) as real)
  {
    if j > 0 {
      LerpPrefixAt(a, b, k, j - 1);
    }
  }

  /** The points `interpolatePoints` inserts between a and b. */
  function Inserted(a: LatLng, b: LatLng, dist: Distance): seq<LatLng>
  {
    var k := InsertCount(dist(a, b));
    LerpPrefix(a, b, k, k)
  }

  /** The output of the first i rounds of the `interpolatePoints` loop. */
  function DensePrefix(ps: seq<LatLng>, i: nat, dist: Distance): seq<LatLng>
    requires i < |ps|
  {
    if i == 0 then [] else DensePrefix(ps, i - 1, dist) + [ps[i - 1]] + Inserted(ps[i - 1], ps[i], dist)
  }

  /** What `interpolatePoints` returns for a non-empty list. */
  function Densified(ps: seq<LatLng>, dist: Distance): seq<LatLng>
    requires |ps| >= 1
  {
    DensePrefix(ps, |ps| - 1, dist) + [ps[|ps| - 1]]
  }

  /** The number of points inserted over the first i segments. */
  function InsertedTotal(ps: seq<LatLng>, i: nat, dist: Distance): nat
    requires i < |ps|
  {
    if i == 0 then 0 else InsertedTotal(ps, i - 1, dist) + InsertCount(dist(ps[i - 1], ps[i]))
  }

  /** `interpolatePoints`. */
  method InterpolatePoints(ps: seq<LatLng>, dist: Distance) returns (result: seq<LatLng>)
    requires |ps| >= 1
    ensures result == Densified(ps, dist)
  {
    result := [];
    var i := 0;
    while i < |ps| - 1
      invariant 0 <= i <= |ps| - 1
      invariant result == DensePrefix(ps, i, dist)
    {
      var current, next := ps[i], ps[i + 1];
      result := result + [current];
      var d := dist(current, next);
      if d > 100.0 {
        var q := (d / 50.0).Floor;
        var k := if q < 5 then q else 5;
        ghost var before := result;
        var j := 1;
        while j <= k
          invariant 1 <= j <= k + 1
          invariant result == before + LerpPrefix(current, next, k, j - 1)
        {
          var fraction := j as real / (k + 1) as real;
          result := result + [Lerp(current, next, fraction)];
          j := j + 1;
        }
      }
      i := i + 1;
    }
    result := result + [ps[|ps| - 1]];
  }

  lemma {:induction false} DensePrefixLength(ps: seq<LatLng>, i: nat, dist: Distance)
    requires i < |ps|
    ensures |DensePrefix(ps, i, dist)| == i + InsertedTotal(ps, i, dist)
  {
    if i > 0 {
      DensePrefixLength(ps, i - 1, dist);
      var k := InsertCount(dist(ps[i - 1], ps[i]));
      LerpPrefixAt(ps[i - 1], ps[i], k, k);
    }
  }

  /** Earlier rounds' output is a prefix of later rounds' output. */
  lemma {:induction false} DensePrefixGrows(ps: seq<LatLng>, i: nat, j: nat, dist: Distance)
    requires i <= j < |ps|
    ensures |DensePrefix(ps, i, dist)| <= |DensePrefix(ps, j, dist)|
    ensures DensePrefix(ps, j, dist)[..|DensePrefix(ps, i, dist)|] == DensePrefix(ps, i, dist)
    decreases j
  {
    if i < j {
      DensePrefixGrows(ps, i, j - 1, dist);
    }
  }

  /**
   * The densified list has n + Σk points, starts with the first input,
   * ends with the last, holds input point i at index i + (points inserted
   * before it), and holds the inserted points of segment i right after it.
   */
  lemma DensifiedShape(ps: seq<LatLng>, dist: Distance)
    requires |ps| >= 1
    ensures |Densified(ps, dist)| == |ps| + InsertedTotal(ps, |ps| - 1, dist)
    ensures Densified(ps, dist)[0] == ps[0]
    ensures Densified(ps, dist)[|Densified(ps, dist)| - 1] == ps[|ps| - 1]
  {
    DensePrefixLength(ps, |ps| - 1, dist);
    if |ps| > 1 {
      DensifiedKeeps(ps, 0, dist);
    }
  }

  lemma DensifiedKeeps(ps: seq<LatLng>, i: nat, dist: Distance)
    requires i < |ps|
    ensures |Densified(ps, dist)| > i + InsertedTotal(ps, i, dist)
    ensures Densified(ps, dist)[i + InsertedTotal(ps, i, dist)] == ps[i]
  {
    DensePrefixLength(ps, i, dist);
    if i < |ps| - 1 {
      var before := DensePrefix(ps, i, dist);
      var pre := DensePrefix(ps, i + 1, dist);
      assert pre == before + [ps[i]] + Inserted(ps[i], ps[i + 1], dist);
      DensifiedExtends(ps, i + 1, dist);
      assert Densified(ps, dist)[|before|] == pre[|before|];
    }
  }

  lemma DensifiedInserts(ps: seq<LatLng>, i: nat, j: nat, dist: Distance)
    requires i + 1 < |ps|
    requires j < InsertCount(dist(ps[i], ps[i + 1]))
    ensures |Densified(ps, dist)| > i + InsertedTotal(ps, i, dist) + 1 + j
    ensures Densified(ps, dist)[i + InsertedTotal(ps, i, dist) + 1 + j]
         == Lerp(ps[i], ps[i + 1], (j + 1) as real / (InsertCount(dist(ps[i], ps[i + 1])) + 1) as real)
  {
    DensePrefixLength(ps, i, dist);
    var before := DensePrefix(ps, i, dist);
    var pre := DensePrefix(ps, i + 1, dist);
    var k := InsertCount(dist(ps[i], ps[i + 1]));
    LerpPrefixAt(ps[i], ps[i + 1], k, k);
    var ins := Inserted(ps[i], ps[i + 1], dist);
    assert pre == before + [ps[i]] + ins;
    assert pre[|before| + 1 + j] == ins[j];
    DensifiedExtends(ps, i + 1, dist);
    assert Densified(ps, dist)[|before| + 1 + j] == pre[|before| + 1 + j];
  }

  /** The output of every round is a prefix of the densified list. */
  lemma DensifiedExtends(ps: seq<LatLng>, i: nat, dist: Distance)
    requires i < |ps|
    ensures |DensePrefix(ps, i, dist)| < |Densified(ps, dist)|
    ensures Densified(ps, dist)[..|DensePrefix(ps, i, dist)|] == DensePrefix(ps, i, dist)
  {
    DensePrefixGrows(ps, i, |ps| - 1, dist);
  }

  // -------------------------------------------------------------- smoothing

  /** The 0.25/0.5/0.25 weighted average of three consecutive points. */
  function Smooth3(prev: LatLng, cur: LatLng, next: LatLng): LatLng
  {
    LatLng(prev.lat * 0.25 + cur.lat * 0.5 + next.lat * 0.25,
           prev.lng * 0.25 + cur.lng * 0.5 + next.lng * 0.25)
  }

  /** The first i points `smoothPath` emits, for a list of at least three. */
  function SmoothPrefix(ps: seq<LatLng>, i: nat): seq<LatLng>
    requires 3 <= |ps| && 1 <= i <= |ps| - 1
  {
    if i == 1 then [ps[0]] else SmoothPrefix(ps, i - 1) + [Smooth3(ps[i - 2], ps[i - 1], ps[i])]
  }

  /** What `smoothPath` returns. */
  function Smoothed(ps: seq<LatLng>): seq<LatLng>
  {
    if |ps| < 3 then ps else SmoothPrefix(ps, |ps| - 1) + [ps[|ps| - 1]]
  }

  /**
   * `smoothPath`: lists under three points unchanged; otherwise the same
   * length, the same end points, and each interior point averaged from
   * its neighbours in the input.
   */
  method SmoothPath(ps: seq<LatLng>) returns (r: seq<LatLng>)
    ensures r == Smoothed(ps)
    ensures |ps| < 3 ==> r == ps
    ensures |r| == |ps|
    ensures |ps| > 0 ==> r[0] == ps[0] && r[|r| - 1] == ps[|ps| - 1]
    ensures forall i :: 0 < i < |ps| - 1 ==> r[i] == Smooth3(ps[i - 1], ps[i], ps[i + 1])
  {
    SmoothedShape(ps);
    if |ps| < 3 {
      return ps;
    }
    r := [ps[0]];
    var i := 1;
    while i < |ps| - 1
      invariant 1 <= i <= |ps| - 1
      invariant r == SmoothPrefix(ps, i)
    {
      r := r + [Smooth3(ps[i - 1], ps[i], ps[i + 1])];
      i := i + 1;
    }
    r := r + [ps[|ps| - 1]];
  }

  lemma {:induction false} SmoothPrefixShape(ps: seq<LatLng>, i: nat)
    requires 3 <= |ps| && 1 <= i <= |ps| - 1
    ensures |SmoothPrefix(ps, i)| == i && SmoothPrefix(ps, i)[0] == ps[0]
    ensures forall k :: 0 < k < i ==> SmoothPrefix(ps, i)[k] == Smooth3(ps[k - 1], ps[k], ps[k + 1])
  {
    if i > 1 {
      SmoothPrefixShape(ps, i - 1);
    }
  }

  /**
   * A smoothed list has the input's length and end points, and each of
   * its interior points averages the input's neighbours, not smoothed ones.
   */
  lemma SmoothedShape(ps: seq<LatLng>)
    ensures |ps| < 3 ==> Smoothed(ps) == ps
    ensures |Smoothed(ps)| == |ps|
    ensures |ps| > 0 ==> Smoothed(ps)[0] == ps[0] && Smoothed(ps)[|ps| - 1] == ps[|ps| - 1]
    ensures forall i :: 0 < i < |ps| - 1 ==> Smoothed(ps)[i] == Smooth3(ps[i - 1], ps[i], ps[i + 1])
  {
    if |ps| >= 3 {
      SmoothPrefixShape(ps, |ps| - 1);
    }
  }

  // ---------------------------------------------------------- whole pipeline

  /** What `smoothTrajectory` returns. */
  function Trajectory(cfg: Config, raw: seq<LatLng>, api: RoadsOracle, dist: Distance): seq<LatLng>
  {
    if |raw| < 2 then raw else Smoothed(SnapBatch(cfg, Densified(raw, dist), api))
  }

  /**
   * `smoothTrajectory`: lists under two points unchanged; otherwise
   * densify, snap as a batch, then smooth.
   */
  method SmoothTrajectory(cfg: Config, raw: seq<LatLng>, api: RoadsOracle, dist: Distance)
    returns (r: seq<LatLng>)
    ensures r == Trajectory(cfg, raw, api, dist)
    ensures |raw| < 2 ==> r == raw
    ensures |raw| >= 2 ==> |r| > 0
  {
    if |raw| < 2 {
      return raw;
    }
    var interpolated := InterpolatePoints(raw, dist);
    var snapped := SnapToRoadsBatch(cfg, interpolated, api);
    NonEmptySnap(cfg, interpolated, api);
    r := SmoothPath(snapped);
  }

  lemma NonEmptySnap(cfg: Config, cs: seq<LatLng>, api: RoadsOracle)
    requires |cs| > 0
    ensures |SnapBatch(cfg, cs, api)| > 0
  {
    if IsRoadsApiAvailable(cfg) && |cs| > 100 {
      assert |SingleRequest(cs[0..100], api)| > 0;
    }
  }

  /** With every exchange failing, the trajectory is the smoothed densified input. */
  lemma TrajectoryWithoutRoads(cfg: Config, raw: seq<LatLng>, api: RoadsOracle, dist: Distance)
    requires |raw| >= 2
    requires forall path :: api(path).Threw?
    ensures Trajectory(cfg, raw, api, dist) == Smoothed(Densified(raw, dist))
  {
    BatchFallsBack(cfg, Densified(raw, dist), api);
  }
}
