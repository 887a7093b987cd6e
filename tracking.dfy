// DeliveryTrackingService: the registry of active deliveries with its
// start / tick / complete / stop lifecycle and event log, position
// interpolation along a route, the nearest-point progress, the traffic
// buffer and blended ETA, the ETA text, and the mock polyline format.
module DeliveryTracking {
  import opened Wrappers
  import opened Strings
  import opened Geo
  import opened JavaMath
  import RoadsApi

  // ------------------------------------------------------------ ETA text

  /** `formatETA`. */
  function FormatEta(minutes: int): string
  {
    if minutes <= 0 then "即将送达"
    else if minutes == 1 then "1 分钟"
    else if minutes < 60 then IntToString(minutes) + " 分钟"
    else
      var hours := minutes / 60;
      var rest := minutes % 60;
      if rest == 0 then IntToString(hours) + " 小时"
      else IntToString(hours) + " 小时 " + IntToString(rest) + " 分钟"
  }

  /** Reads an ETA text back as minutes: the inverse of FormatEta. */
  function ReadEta(text: string): Option<int>
  {
    if text == "即将送达" then Some(0)
    else
      var w := SplitOn(text, ' ');
      if |w| == 2 && w[0] != "" && AllDigits(w[0]) && w[1] == "分钟" then Some(ParseDigits(w[0]))
      else if |w| == 2 && w[0] != "" && AllDigits(w[0]) && w[1] == "小时" then Some(60 * ParseDigits(w[0]))
      else if |w| == 4 && w[0] != "" && AllDigits(w[0]) && w[1] == "小时"
              && w[2] != "" && AllDigits(w[2]) && w[3] == "分钟"
      then Some(60 * ParseDigits(w[0]) + ParseDigits(w[2]))
      else None
  }

  /**
   * The ETA text loses nothing: a positive number of minutes is read back
   * exactly, and every non-positive number reads as 0 ("即将送达"). So an
   * hour text omits the minutes exactly when they are 0.
   */
  lemma FormatEtaRoundTrip(minutes: int)
    ensures ReadEta(FormatEta(minutes)) == Some(if minutes <= 0 then 0 else minutes)
  {
    if minutes <= 0 {
    } else if minutes < 60 {
      assert minutes == 1 ==> NatToString(minutes) == "1";
      ReadMinutesText(minutes);
    } else if minutes % 60 == 0 {
      ReadHoursText(minutes / 60);
    } else {
      ReadHoursMinutesText(minutes / 60, minutes % 60);
    }
  }

  lemma ReadMinutesText(m: nat)
    ensures ReadEta(NatToString(m) + " 分钟") == Some(m)
  {
    var d := NatToString(m);
    DigitsHaveNoSpace(d);
    assert d + " 分钟" == Join([d, "分钟"], " ");
    SplitJoin([d, "分钟"], ' ');
    ParseNatToString(m);
    assert (d + " 分钟")[0] != '即';
  }

  lemma ReadHoursText(h: nat)
    ensures ReadEta(NatToString(h) + " 小时") == Some(60 * h)
  {
    var d := NatToString(h);
    DigitsHaveNoSpace(d);
    assert d + " 小时" == Join([d, "小时"], " ");
    SplitJoin([d, "小时"], ' ');
    ParseNatToString(h);
    assert (d + " 小时")[0] != '即';
  }

  lemma ReadHoursMinutesText(h: nat, m: nat)
    ensures ReadEta(NatToString(h) + " 小时 " + NatToString(m) + " 分钟") == Some(60 * h + m)
  {
    var hd, md := NatToString(h), NatToString(m);
    HoursMinutesWords(hd, md);
    assert ParseDigits(hd) == h && ParseDigits(md) == m by {
      ParseNatToString(h);
      ParseNatToString(m);
    }
    ReadHoursMinutesWords(hd + " 小时 " + md + " 分钟", hd, md);
  }

  /** The hours-and-minutes text splits into its four words. */
  lemma HoursMinutesWords(hd: string, md: string)
    requires AllDigits(hd) && AllDigits(md)
    ensures SplitOn(hd + " 小时 " + md + " 分钟", ' ') == [hd, "小时", md, "分钟"]
  {
    DigitsHaveNoSpace(hd);
    DigitsHaveNoSpace(md);
    var parts := [hd, "小时", md, "分钟"];
    assert parts[1..][1..] == [md, "分钟"];
    assert Join(parts[1..][1..], " ") == md + " 分钟";
    assert Join(parts[1..], " ") == "小时 " + md + " 分钟";
    assert hd + " 小时 " + md + " 分钟" == Join(parts, " ");
    SplitJoin(parts, ' ');
  }

  lemma ReadHoursMinutesWords(text: string, hd: string, md: string)
    requires hd != "" && AllDigits(hd) && md != "" && AllDigits(md)
    requires text == hd + " 小时 " + md + " 分钟"
    requires SplitOn(text, ' ') == [hd, "小时", md, "分钟"]
    ensures ReadEta(text) == Some(60 * ParseDigits(hd) + ParseDigits(md))
  {
    assert text[0] != '即';
  }

  // --------------------------------------------------------- interpolation

  /**
   * `interpolateLocation`: (0,0) for no route, the first point at or
   * before the start, the last at or after the end, and otherwise the
   * point a fraction of the way along the segment the progress falls in.
   * (With reals the index can only reach the last point when progress is
   * 1 or more, so the source's second guard is folded into the first.)
   */
  function InterpolateLocation(coords: seq<LatLng>, progress: real): (p: LatLng)
    ensures |coords| == 0 ==> p == LatLng(0.0, 0.0)
    ensures |coords| > 0 && progress <= 0.0 ==> p == coords[0]
    ensures |coords| > 0 && progress >= 1.0 ==> p == coords[|coords| - 1]
  {
    var n := |coords|;
    if n == 0 then LatLng(0.0, 0.0)
    else if progress <= 0.0 then coords[0]
    else
      var target := TargetIndex(coords, progress);
      var index := target.Floor;
      if progress >= 1.0 || index >= n - 1 then coords[n - 1]
      else
        assert 0 <= index by { TargetNonNegative(coords, progress); }
        Lerp(coords[index], coords[index + 1], target - index as real)
  }

  /** The fractional route index a progress value maps to. */
  function TargetIndex(coords: seq<LatLng>, progress: real): real
  {
    progress * (|coords| - 1) as real
  }

  lemma TargetBelowLast(coords: seq<LatLng>, progress: real)
    requires progress < 1.0 && |coords| >= 2
    ensures TargetIndex(coords, progress) < (|coords| - 1) as real
  {
    MulBelow(progress, (|coords| - 1) as real);
  }

  lemma TargetAtPoint(coords: seq<LatLng>, j: nat)
    requires |coords| >= 2
    ensures TargetIndex(coords, j as real / (|coords| - 1) as real) == j as real
  {
    DivTimes(j as real, (|coords| - 1) as real);
  }

  lemma TargetNonNegative(coords: seq<LatLng>, progress: real)
    requires progress >= 0.0 && |coords| >= 1
    ensures TargetIndex(coords, progress) >= 0.0
  {
  }

  /** At the progress value j/(n-1) of a route point, the position is that point. */
  lemma InterpolateAtPoint(coords: seq<LatLng>, j: nat)
    requires j < |coords| && |coords| >= 2
    ensures InterpolateLocation(coords, j as real / (|coords| - 1) as real) == coords[j]
  {
    var n := |coords|;
    var p := j as real / (n - 1) as real;
    if j == n - 1 {
      DivSelf((n - 1) as real);
    } else if j > 0 {
      TargetAtPoint(coords, j);
      DivBelowOne(j as real, (n - 1) as real);
      FloorOfInt(j);
      assert InterpolateLocation(coords, p) == Lerp(coords[j], coords[j + 1], 0.0);
    }
  }

  /**
   * Strictly inside the route, the position lies on the segment between
   * the route points just before and just after it.
   */
  lemma InterpolateOnSegment(coords: seq<LatLng>, progress: real)
    requires |coords| >= 2 && 0.0 < progress < 1.0
    ensures var k := TargetIndex(coords, progress).Floor;
      0 <= k < |coords| - 1 &&
      var a, b, p := coords[k], coords[k + 1], InterpolateLocation(coords, progress);
      MinR(a.lat, b.lat) <= p.lat <= MaxR(a.lat, b.lat) && MinR(a.lng, b.lng) <= p.lng <= MaxR(a.lng, b.lng)
  {
    var n := |coords|;
    var target := TargetIndex(coords, progress);
    var k := target.Floor;
    TargetNonNegative(coords, progress);
    TargetBelowLast(coords, progress);
    var f := target - k as real;
    var a, b := coords[k], coords[k + 1];
    assert InterpolateLocation(coords, progress) == Lerp(a, b, f);
    LerpBetween(a.lat, b.lat, f);
    LerpBetween(a.lng, b.lng, f);
  }

  // -------------------------------------------------------------- progress

  /** The loop state of `calculateActualProgress` after visiting index i with `best` closest so far. */
  function NearestFrom(route: seq<LatLng>, p: LatLng, dist: Distance, i: nat, best: nat): nat
    requires best < i <= |route|
    decreases |route| - i
  {
    if i == |route| then best
    else NearestFrom(route, p, dist, i + 1, if dist(p, route[i]) < dist(p, route[best]) then i else best)
  }

  /** The index `calculateActualProgress` settles on. */
  function FirstNearest(route: seq<LatLng>, p: LatLng, dist: Distance): nat
    requires |route| > 0
  {
    NearestFrom(route, p, dist, 1, 0)
  }

  lemma {:induction false} NearestFromIsFirstMinimum(route: seq<LatLng>, p: LatLng, dist: Distance, i: nat, best: nat)
    requires best < i <= |route|
    requires forall j :: 0 <= j < i ==> dist(p, route[j]) >= dist(p, route[best])
    requires forall j :: 0 <= j < best ==> dist(p, route[j]) > dist(p, route[best])
    ensures var k := NearestFrom(route, p, dist, i, best);
      k < |route|
      && (forall j :: 0 <= j < |route| ==> dist(p, route[j]) >= dist(p, route[k]))
      && (forall j :: 0 <= j < k ==> dist(p, route[j]) > dist(p, route[k]))
    decreases |route| - i
  {
    if i < |route| {
      var next := if dist(p, route[i]) < dist(p, route[best]) then i else best;
      NearestFromIsFirstMinimum(route, p, dist, i + 1, next);
    }
  }

  lemma {:induction false} NearestFromKeepsMinimum(route: seq<LatLng>, p: LatLng, dist: Distance, i: nat, best: nat)
    requires best < i <= |route|
    requires forall j :: 0 <= j < |route| ==> dist(p, route[j]) >= dist(p, route[best])
    ensures NearestFrom(route, p, dist, i, best) == best
    decreases |route| - i
  {
    if i < |route| {
      NearestFromKeepsMinimum(route, p, dist, i + 1, best);
    }
  }

  /** The chosen index is the first route point at minimum distance: ties go to the earlier one. */
  lemma FirstNearestIsFirstMinimum(route: seq<LatLng>, p: LatLng, dist: Distance)
    requires |route| > 0
    ensures var k := FirstNearest(route, p, dist);
      k < |route|
      && (forall j :: 0 <= j < |route| ==> dist(p, route[j]) >= dist(p, route[k]))
      && (forall j :: 0 <= j < k ==> dist(p, route[j]) > dist(p, route[k]))
  {
    NearestFromIsFirstMinimum(route, p, dist, 1, 0);
  }

  /**
   * What `calculateActualProgress` returns: 0 for no route, None for a
   * one-point route (Java's 0/0, a NaN), else index/(n-1).
   */
  function ActualProgress(route: seq<LatLng>, p: LatLng, dist: Distance): Option<real>
  {
    if |route| == 0 then Some(0.0)
    else if |route| == 1 then None
    else Some(FirstNearest(route, p, dist) as real / (|route| - 1) as real)
  }

  /** `calculateActualProgress`, with the closest-point loop. */
  method CalculateActualProgress(route: seq<LatLng>, current: LatLng, dist: Distance)
    returns (progress: Option<real>)
    ensures progress == ActualProgress(route, current, dist)
    ensures |route| >= 2 ==> progress.Some? && 0.0 <= progress.value <= 1.0
  {
    if |route| == 0 {
      return Some(0.0);
    }
    var minDistance: Option<real> := None;
    var closestIndex := 0;
    var i := 0;
    while i < |route|
      invariant 0 <= i <= |route|
      invariant i == 0 <==> minDistance.None?
      invariant i > 0 ==> closestIndex < i && minDistance == Some(dist(current, route[closestIndex]))
      invariant i > 0 ==> NearestFrom(route, current, dist, i, closestIndex) == FirstNearest(route, current, dist)
    {
      var d := dist(current, route[i]);
      if minDistance.None? || d < minDistance.value {
        minDistance := Some(d);
        closestIndex := i;
      }
      i := i + 1;
    }
    if |route| == 1 {
      return None;
    }
    FirstNearestIsFirstMinimum(route, current, dist);
    progress := Some(closestIndex as real / (|route| - 1) as real);
  }

  /** At the first route point itself, the progress is 0. */
  lemma ProgressAtOrigin(route: seq<LatLng>, dist: Distance)
    requires IsDistance(dist) && |route| >= 2
    ensures ActualProgress(route, route[0], dist) == Some(0.0)
  {
    assert dist(route[0], route[0]) == 0.0;
    forall j | 0 <= j < |route| ensures dist(route[0], route[j]) >= dist(route[0], route[0]) {
      assert dist(route[0], route[j]) >= 0.0;
    }
    NearestFromKeepsMinimum(route, route[0], dist, 1, 0);
  }

  // ------------------------------------------------------------------- ETA

  /** A delivery being tracked (the fields of `DeliveryTask`, less its start instant). */
  datatype DeliveryTask = DeliveryTask(
    orderId: string,
    origin: string,
    destination: string,
    polyline: string,
    routeCoordinates: seq<LatLng>,
    durationMinutes: int,
    totalDistance: int)

  /** A real quotient, kept behind a name so that it is not unfolded into every proof. */
  function Ratio(a: real, b: real): real
    requires b != 0.0
  {
    a / b
  }

  lemma RatioPositive(a: real, b: real)
    requires a > 0.0 && b > 0.0
    ensures Ratio(a, b) > 0.0
  {
  }

  /** `calculateAverageSpeed`, in metres per second: the planned average, once time has passed. */
  function AverageSpeed(task: DeliveryTask, elapsedSeconds: int): real
    requires task.durationMinutes != 0
  {
    if elapsedSeconds <= 0 then 0.0
    else Ratio(task.totalDistance as real, task.durationMinutes as real * 60.0)
  }

  /** The metres left at a progress value. */
  function RemainingDistance(progress: real, totalDistance: int): real
  {
    (1.0 - progress) * totalDistance as real
  }

  /** The blend weight given to the speed-based estimate. */
  function BlendWeight(elapsedSeconds: int): real
  {
    MinR(elapsedSeconds as real / 60.0, 0.7)
  }

  /** The planned remaining seconds blended with the speed-based estimate, truncated. */
  function Blend(remaining: int, estimate: real, elapsedSeconds: int): int
  {
    var w := BlendWeight(elapsedSeconds);
    Trunc((1.0 - w) * remaining as real + w * estimate)
  }

  /**
   * With a positive elapsed time the blend stays within the range spanned
   * by the plan and the estimate (less the truncation).
   */
  lemma BlendBetween(remaining: int, estimate: real, elapsedSeconds: int)
    requires remaining >= 0 && estimate > 0.0 && elapsedSeconds > 0
    ensures 0.0 < BlendWeight(elapsedSeconds) <= 0.7
    ensures var b := Blend(remaining, estimate, elapsedSeconds);
      0 <= b && MinR(remaining as real, estimate) - 1.0 < b as real <= MaxR(remaining as real, estimate)
  {
    var w := BlendWeight(elapsedSeconds);
    var a := remaining as real;
    var x := (1.0 - w) * a + w * estimate;
    var lo, hi := MinR(a, estimate), MaxR(a, estimate);
    assert x - lo == (1.0 - w) * (a - lo) + w * (estimate - lo);
    MulNonNegative(1.0 - w, a - lo);
    MulNonNegative(w, estimate - lo);
    assert hi - x == (1.0 - w) * (hi - a) + w * (hi - estimate);
    MulNonNegative(1.0 - w, hi - a);
    MulNonNegative(w, hi - estimate);
  }

  /** The traffic multiplier for a progress value; a NaN progress fails both comparisons. */
  function BufferMultiplier(progress: Option<real>): real
  {
    match progress
    case Some(p) => if p < 0.3 then 1.2 else if p < 0.7 then 1.1 else 1.15
    case None => 1.15
  }

  /**
   * `addTrafficBuffer`: the seconds times 1.2, 1.1 or 1.15, truncated; it
   * never lowers a non-negative value and adds at most 20%.
   */
  function AddTrafficBuffer(remaining: int, progress: Option<real>): (r: int)
    ensures remaining >= 0 ==> remaining <= r && r as real <= 1.2 * remaining as real
  {
    var m := BufferMultiplier(progress);
    assert remaining >= 0 ==> remaining as real <= remaining as real * m <= 1.2 * remaining as real;
    Trunc(remaining as real * m)
  }

  /**
   * The remaining seconds before the traffic buffer: the plan, blended
   * with distance-left over average speed when both are positive.
   */
  function BlendedSeconds(remaining: int, progress: Option<real>, speed: real, totalDistance: int, elapsedSeconds: int): int
  {
    if progress.Some? && speed > 0.0 && RemainingDistance(progress.value, totalDistance) > 0.0
    then Blend(remaining, Ratio(RemainingDistance(progress.value, totalDistance), speed), elapsedSeconds)
    else remaining
  }

  /** The buffered remaining seconds `calculateDynamicETA` computes. */
  function EtaSeconds(task: DeliveryTask, current: LatLng, elapsedSeconds: int, totalSeconds: int, dist: Distance): int
    requires task.durationMinutes != 0
  {
    var progress := ActualProgress(task.routeCoordinates, current, dist);
    AddTrafficBuffer(
      BlendedSeconds(Max(0, totalSeconds - elapsedSeconds), progress, AverageSpeed(task, elapsedSeconds),
                     task.totalDistance, elapsedSeconds),
      progress)
  }

  /**
   * The minutes handed to formatETA, as written: the `long` seconds are
   * divided by 60, floored at 0, and then cast to `int`, which wraps a
   * value above the `int` range to a negative one.
   */
  function EtaMinutesAsWritten(seconds: int): int
  {
    Wrap32(Max(0, JavaDiv(seconds, 60)))
  }

  /** The wrap shows: 136799999996 seconds become -2014967297 minutes, which read as "即将送达". */
  lemma EtaMinutesWrap()
    ensures EtaMinutesAsWritten(136799999996) == -2014967297
    ensures FormatEta(EtaMinutesAsWritten(136799999996)) == "即将送达"
  {
  }

  /** The minutes evidently intended: whole minutes of the seconds, never negative. */
  function EtaMinutes(seconds: int): (m: int)
    ensures m >= 0
    ensures seconds >= 0 ==> m * 60 <= seconds < m * 60 + 60
  {
    Max(0, JavaDiv(seconds, 60))
  }

  /**
   * The intended minutes are never negative, so a delivery at least a
   * minute away is never reported as arriving; the as-written cast agrees
   * with them whenever the minutes fit an `int`.
   */
  lemma EtaMinutesAgree(seconds: int)
    ensures seconds >= 60 ==> FormatEta(EtaMinutes(seconds)) != "即将送达"
    ensures IsInt32(EtaMinutes(seconds)) ==> EtaMinutesAsWritten(seconds) == EtaMinutes(seconds)
  {
    if seconds >= 60 {
      var m := EtaMinutes(seconds);
      assert m >= 1;
      FormatEtaRoundTrip(m);
    }
  }

  /** What `calculateDynamicETA` returns: formatETA of the cast minutes. */
  function DynamicEta(task: DeliveryTask, current: LatLng, elapsedSeconds: int, totalSeconds: int, dist: Distance): string
    requires task.durationMinutes != 0
  {
    FormatEta(EtaMinutesAsWritten(EtaSeconds(task, current, elapsedSeconds, totalSeconds, dist)))
  }


  /** The blended seconds are never negative and lie between the plan and the estimate. */
  lemma BlendedSecondsBounds(remaining: int, progress: Option<real>, speed: real, totalDistance: int, elapsedSeconds: int)
    requires remaining >= 0 && (speed > 0.0 ==> elapsedSeconds > 0)
    ensures BlendedSeconds(remaining, progress, speed, totalDistance, elapsedSeconds) >= 0
    ensures speed <= 0.0 ==> BlendedSeconds(remaining, progress, speed, totalDistance, elapsedSeconds) == remaining
  {
    if progress.Some? && speed > 0.0 && RemainingDistance(progress.value, totalDistance) > 0.0 {
      var rd := RemainingDistance(progress.value, totalDistance);
      RatioPositive(rd, speed);
      BlendBetween(remaining, Ratio(rd, speed), elapsedSeconds);
    }
  }

  /**
   * The buffered seconds are never negative, so the `max(0, ...)` before
   * formatting never changes them; and before any time has passed they are
   * the planned remainder with the traffic buffer applied.
   */
  lemma EtaSecondsNonNegative(task: DeliveryTask, current: LatLng, elapsedSeconds: int, totalSeconds: int, dist: Distance)
    requires task.durationMinutes != 0
    ensures EtaSeconds(task, current, elapsedSeconds, totalSeconds, dist) >= 0
    ensures elapsedSeconds <= 0 ==>
      EtaSeconds(task, current, elapsedSeconds, totalSeconds, dist)
      == AddTrafficBuffer(Max(0, totalSeconds - elapsedSeconds), ActualProgress(task.routeCoordinates, current, dist))
  {
    var progress := ActualProgress(task.routeCoordinates, current, dist);
    var remaining := Max(0, totalSeconds - elapsedSeconds);
    BlendedSecondsBounds(remaining, progress, AverageSpeed(task, elapsedSeconds), task.totalDistance, elapsedSeconds);
  }

  /** `calculateDynamicETA`. */
  method CalculateDynamicEta(task: DeliveryTask, current: LatLng, elapsedSeconds: int, totalSeconds: int, dist: Distance)
    returns (eta: string)
    requires task.durationMinutes != 0
    ensures eta == DynamicEta(task, current, elapsedSeconds, totalSeconds, dist)
  {
    var remainingSeconds := Max(0, totalSeconds - elapsedSeconds);
    var actualProgress := CalculateActualProgress(task.routeCoordinates, current, dist);
    var averageSpeed := AverageSpeed(task, elapsedSeconds);
    ghost var blended := BlendedSeconds(remainingSeconds, actualProgress, averageSpeed, task.totalDistance, elapsedSeconds);
    if actualProgress.Some? {
      var remainingDistance := RemainingDistance(actualProgress.value, task.totalDistance);
      if averageSpeed > 0.0 && remainingDistance > 0.0 {
        var estimated := Ratio(remainingDistance, averageSpeed);
        remainingSeconds := Blend(remainingSeconds, estimated, elapsedSeconds);
      }
    }
    assert remainingSeconds == blended;
    remainingSeconds := AddTrafficBuffer(remainingSeconds, actualProgress);
    eta := FormatEta(EtaMinutesAsWritten(remainingSeconds));
  }

  // ---------------------------------------------------------- mock polyline

  /**
   * Java's Double.toString and Double.parseDouble as a pair of functions.
   * parse returns None where parseDouble throws.
   */
  datatype NumberText = NumberText(show: real -> string, parse: string -> Option<real>)

  /**
   * What Java guarantees of the text of a double x: it is never empty,
   * holds neither '|' nor ',', and parses back to x. Reals stand for
   * doubles here, so this is asked only of the coordinates encoded.
   */
  ghost predicate ShowsBack(nt: NumberText, x: real)
  {
    nt.parse(nt.show(x)) == Some(x) && nt.show(x) != "" && '|' !in nt.show(x) && ',' !in nt.show(x)
  }

  /** Both numbers of every point in cs are shown and read back faithfully. */
  ghost predicate ShowsAllBack(nt: NumberText, cs: seq<LatLng>)
  {
    forall c :: c in cs ==> ShowsBack(nt, c.lat) && ShowsBack(nt, c.lng)
  }

  /** The numbers of cs in order, latitude before longitude. */
  function Numbers(cs: seq<LatLng>): (r: seq<real>)
    ensures forall c :: c in cs ==> c.lat in r && c.lng in r
  {
    if cs == [] then [] else [cs[0].lat, cs[0].lng] + Numbers(cs[1..])
  }

  function FirstIndex(xs: seq<real>, x: real): (i: nat)
    requires x in xs
    ensures i < |xs| && xs[i] == x
  {
    if xs[0] == x then 0 else 1 + FirstIndex(xs[1..], x)
  }

  /**
   * A pair that shows the k-th number of xs as k+1 copies of '1'; it meets
   * ShowsBack on every number of xs, so that requirement can be met for
   * any route.
   */
  function TallyText(xs: seq<real>): NumberText
  {
    NumberText(x => if x in xs then seq(FirstIndex(xs, x) + 1, _ => '1') else "0",
               t => if 1 <= |t| <= |xs| then Some(xs[|t| - 1]) else None)
  }

  lemma TallyShowsBack(xs: seq<real>, x: real)
    requires x in xs
    ensures ShowsBack(TallyText(xs), x)
  {
    var nt, i := TallyText(xs), FirstIndex(xs, x);
    var t: string := seq(i + 1, _ => '1');
    assert nt.show(x) == t;
    assert forall k :: 0 <= k < |t| ==> t[k] == '1';
    assert nt.parse(t) == Some(xs[i]);
  }

  lemma TallyTextShowsBack(cs: seq<LatLng>)
    ensures ShowsAllBack(TallyText(Numbers(cs)), cs)
  {
    forall c | c in cs
      ensures ShowsBack(TallyText(Numbers(cs)), c.lat) && ShowsBack(TallyText(Numbers(cs)), c.lng)
    {
      TallyShowsBack(Numbers(cs), c.lat);
      TallyShowsBack(Numbers(cs), c.lng);
    }
  }

  function PointText(nt: NumberText, c: LatLng): string
  {
    nt.show(c.lat) + "," + nt.show(c.lng)
  }

  function PointTexts(nt: NumberText, cs: seq<LatLng>): (r: seq<string>)
    ensures |r| == |cs|
    ensures forall i :: 0 <= i < |cs| ==> r[i] == PointText(nt, cs[i])
  {
    if cs == [] then [] else [PointText(nt, cs[0])] + PointTexts(nt, cs[1..])
  }

  /** The text `encodeMockPolyline` builds: "lat,lng" pieces joined by '|'. */
  function MockPolyline(nt: NumberText, cs: seq<LatLng>): string
  {
    Join(PointTexts(nt, cs), "|")
  }

  lemma JoinSnoc(parts: seq<string>, x: string, sep: string)
    requires |parts| >= 1
    ensures Join(parts + [x], sep) == Join(parts, sep) + sep + x
  {
    if |parts| > 1 {
      assert (parts + [x])[1..] == parts[1..] + [x];
      JoinSnoc(parts[1..], x, sep);
    }
  }

  /** `encodeMockPolyline`, appending '|' before every piece but the first. */
  method EncodeMockPolyline(nt: NumberText, cs: seq<LatLng>) returns (encoded: string)
    requires forall x: real :: nt.show(x) != ""
    ensures encoded == MockPolyline(nt, cs)
  {
    encoded := "";
    var i := 0;
    while i < |cs|
      invariant 0 <= i <= |cs|
      invariant encoded == Join(PointTexts(nt, cs[..i]), "|")
      invariant i > 0 ==> |encoded| > 0
    {
      assert cs[..i + 1] == cs[..i] + [cs[i]];
      PointTextsAppend(nt, cs[..i], cs[i]);
      if |encoded| > 0 {
        JoinSnoc(PointTexts(nt, cs[..i]), PointText(nt, cs[i]), "|");
        encoded := encoded + "|";
      }
      encoded := encoded + nt.show(cs[i].lat) + "," + nt.show(cs[i].lng);
      i := i + 1;
    }
    assert cs[..i] == cs;
  }

  lemma PointTextsAppend(nt: NumberText, cs: seq<LatLng>, c: LatLng)
    ensures PointTexts(nt, cs + [c]) == PointTexts(nt, cs) + [PointText(nt, c)]
  {
  }

  /** The two coordinates `decodePolyline` falls back to. */
  const DefaultCoordinates: seq<LatLng> := [LatLng(37.7749, -122.4194), LatLng(37.7849, -122.4094)]

  /**
   * The points decoded from '|'-separated segments up to the first
   * segment whose number does not parse, and whether one did not.
   */
  function DecodeSegments(nt: NumberText, segments: seq<string>): (seq<LatLng>, bool)
  {
    if segments == [] then ([], false)
    else
      var parts := JavaSplit(segments[0], ',');
      if |parts| != 2 then DecodeSegments(nt, segments[1..])
      else
        match (nt.parse(parts[0]), nt.parse(parts[1]))
        case (Some(lat), Some(lng)) =>
          var rest := DecodeSegments(nt, segments[1..]);
          ([LatLng(lat, lng)] + rest.0, rest.1)
        case _ => ([], true)
  }

  /**
   * What `decodePolyline` returns. A text with '|' is read as mock
   * segments; one without goes to the Google polyline decoder (None when
   * that throws). When an exception is thrown the two default
   * coordinates are appended to whatever was decoded before it.
   */
  function Decoded(nt: NumberText, google: string -> Option<seq<LatLng>>, encoded: string): seq<LatLng>
  {
    if '|' in encoded then
      var (points, failed) := DecodeSegments(nt, JavaSplit(encoded, '|'));
      if failed then points + DefaultCoordinates else points
    else
      match google(encoded)
      case Some(points) => points
      case None => DefaultCoordinates
  }

  /** `decodePolyline`, with its segment loop. */
  method DecodePolyline(nt: NumberText, google: string -> Option<seq<LatLng>>, encoded: string)
    returns (coordinates: seq<LatLng>)
    ensures coordinates == Decoded(nt, google, encoded)
  {
    coordinates := [];
    if '|' !in encoded {
      match google(encoded) {
        case Some(points) => coordinates := points;
        case None => coordinates := DefaultCoordinates;
      }
      return;
    }
    coordinates := DecodeMockSegments(nt, JavaSplit(encoded, '|'));
  }

  /** The segment loop of `decodePolyline`, with its early return on a number that does not parse. */
  method DecodeMockSegments(nt: NumberText, points: seq<string>) returns (coordinates: seq<LatLng>)
    ensures var (decoded, failed) := DecodeSegments(nt, points);
      coordinates == if failed then decoded + DefaultCoordinates else decoded
  {
    coordinates := [];
    var i := 0;
    while i < |points|
      invariant 0 <= i <= |points|
      invariant DecodeSegments(nt, points[i..]).1 == DecodeSegments(nt, points).1
      invariant coordinates + DecodeSegments(nt, points[i..]).0 == DecodeSegments(nt, points).0
    {
      DecodeSegmentsFrom(nt, points, i);
      var coords := JavaSplit(points[i], ',');
      if |coords| == 2 {
        var lat := nt.parse(coords[0]);
        var lng := nt.parse(coords[1]);
        if lat.None? || lng.None? {
          coordinates := coordinates + DefaultCoordinates;
          return;
        }
        coordinates := coordinates + [LatLng(lat.value, lng.value)];
      }
      i := i + 1;
    }
    assert points[i..] == [];
  }

  /** The segments from index i decode as segment i followed by the segments after it. */
  lemma DecodeSegmentsFrom(nt: NumberText, segments: seq<string>, i: nat)
    requires i < |segments|
    ensures var parts := JavaSplit(segments[i], ',');
      var rest := DecodeSegments(nt, segments[i + 1..]);
      DecodeSegments(nt, segments[i..]) ==
        if |parts| != 2 then rest
        else if nt.parse(parts[0]).None? || nt.parse(parts[1]).None? then ([], true)
        else ([LatLng(nt.parse(parts[0]).value, nt.parse(parts[1]).value)] + rest.0, rest.1)
  {
    assert segments[i..][1..] == segments[i + 1..];
  }

  lemma {:induction false} DecodeSegmentsOfTexts(nt: NumberText, cs: seq<LatLng>)
    requires ShowsAllBack(nt, cs)
    ensures DecodeSegments(nt, PointTexts(nt, cs)) == (cs, false)
  {
    if cs != [] {
      var c := cs[0];
      assert c in cs;
      var a, b := nt.show(c.lat), nt.show(c.lng);
      assert PointText(nt, c) == Join([a, b], ",");
      JavaSplitJoin([a, b], ',');
      assert PointTexts(nt, cs)[1..] == PointTexts(nt, cs[1..]);
      DecodeSegmentsOfTexts(nt, cs[1..]);
      assert [c] + cs[1..] == cs;
    }
  }

  /** Decoding a mock polyline of two or more points gives the points back. */
  lemma MockPolylineRoundTrip(nt: NumberText, google: string -> Option<seq<LatLng>>, cs: seq<LatLng>)
    requires ShowsAllBack(nt, cs) && |cs| >= 2
    ensures Decoded(nt, google, MockPolyline(nt, cs)) == cs
  {
    var texts := PointTexts(nt, cs);
    forall i | 0 <= i < |texts| ensures '|' !in texts[i] && texts[i] != "" {
      var a, b := nt.show(cs[i].lat), nt.show(cs[i].lng);
      assert cs[i] in cs;
      assert texts[i] == a + "," + b;
      assert '|' !in a && '|' !in b;
    }
    JoinHasSeparator(texts, '|');
    JavaSplitJoin(texts, '|');
    DecodeSegmentsOfTexts(nt, cs);
  }

  /** A one-point mock polyline has no '|', so it goes to the Google decoder. */
  lemma SinglePointGoesToGoogle(nt: NumberText, c: LatLng)
    requires ShowsAllBack(nt, [c])
    ensures '|' !in MockPolyline(nt, [c])
    ensures forall google: string -> Option<seq<LatLng>> ::
      Decoded(nt, google, MockPolyline(nt, [c])) == (match google(MockPolyline(nt, [c])) case Some(ps) => ps case None => DefaultCoordinates)
  {
    assert MockPolyline(nt, [c]) == nt.show(c.lat) + "," + nt.show(c.lng);
    assert c in [c];
    assert '|' !in nt.show(c.lat) && '|' !in nt.show(c.lng);
  }

  // ------------------------------------------------------------ mock routes

  const MountainViewToPaloAlto: seq<LatLng> := [
    LatLng(37.3861, -122.0839), LatLng(37.3900, -122.0850), LatLng(37.3950, -122.0860),
    LatLng(37.4000, -122.0870), LatLng(37.4050, -122.0880), LatLng(37.4100, -122.0890),
    LatLng(37.4150, -122.0900), LatLng(37.4200, -122.0910), LatLng(37.4250, -122.0920),
    LatLng(37.4419, -122.1430)]

  const SanFranciscoRoute: seq<LatLng> := [
    LatLng(37.7749, -122.4194), LatLng(37.7849, -122.4094), LatLng(37.7949, -122.3994),
    LatLng(37.8049, -122.3894), LatLng(37.8149, -122.3794), LatLng(37.8249, -122.3694)]

  /** The fixed route distance `createMockRouteInfo` reports, in metres. */
  const MockDistance: int := 8000

  /** The coordinates `createMockRouteInfo` picks for an origin and destination. */
  function MockRoute(origin: string, destination: string): (r: seq<LatLng>)
    ensures |r| >= 6
  {
    if Contains(ToLower(origin), "mountain view") && Contains(ToLower(destination), "palo alto")
    then MountainViewToPaloAlto
    else SanFranciscoRoute
  }

  /** The route coordinates `startDeliveryTracking` derives for a delivery. */
  function StartRoute(origin: string, destination: string, nt: NumberText,
                      google: string -> Option<seq<LatLng>>, cfg: RoadsApi.Config,
                      api: RoadsApi.RoadsOracle, dist: Distance): seq<LatLng>
  {
    var raw := Decoded(nt, google, MockPolyline(nt, MockRoute(origin, destination)));
    if RoadsApi.IsRoadsApiAvailable(cfg) then RoadsApi.Trajectory(cfg, raw, api, dist) else raw
  }

  /**
   * Without a Roads API key the tracked route is exactly the mock route,
   * and with one it is never empty; so the empty-route failure of
   * `startDeliveryTracking` cannot occur.
   */
  lemma StartRouteIsMockRoute(origin: string, destination: string, nt: NumberText,
                              google: string -> Option<seq<LatLng>>, cfg: RoadsApi.Config,
                              api: RoadsApi.RoadsOracle, dist: Distance)
    requires ShowsAllBack(nt, MockRoute(origin, destination))
    ensures !RoadsApi.IsRoadsApiAvailable(cfg) ==>
      StartRoute(origin, destination, nt, google, cfg, api, dist) == MockRoute(origin, destination)
    ensures |StartRoute(origin, destination, nt, google, cfg, api, dist)| > 0
  {
    var route := MockRoute(origin, destination);
    MockPolylineRoundTrip(nt, google, route);
    if RoadsApi.IsRoadsApiAvailable(cfg) {
      var raw := Decoded(nt, google, MockPolyline(nt, route));
      RoadsApi.NonEmptySnap(cfg, RoadsApi.Densified(raw, dist), api);
      RoadsApi.SmoothedShape(RoadsApi.SnapBatch(cfg, RoadsApi.Densified(raw, dist), api));
    }
  }

  /**
   * The first half of `startDeliveryTracking`: encode the mock route,
   * decode it again, and smooth it along the roads when the Roads API is
   * configured.
   */
  method DeriveRoute(origin: string, destination: string, nt: NumberText,
                     google: string -> Option<seq<LatLng>>, cfg: RoadsApi.Config,
                     api: RoadsApi.RoadsOracle, dist: Distance)
    returns (polyline: string, route: seq<LatLng>)
    requires forall x: real :: nt.show(x) != ""
    ensures polyline == MockPolyline(nt, MockRoute(origin, destination))
    ensures route == StartRoute(origin, destination, nt, google, cfg, api, dist)
  {
    var mock := MockRoute(origin, destination);
    polyline := EncodeMockPolyline(nt, mock);
    var raw := DecodePolyline(nt, google, polyline);
    route := raw;
    if RoadsApi.IsRoadsApiAvailable(cfg) {
      route := RoadsApi.SmoothTrajectory(cfg, raw, api, dist);
    }
  }

  // ------------------------------------------------------------ tick period

  /**
   * The scheduler period `startGPSSimulator` computes, (60·d)/(2·d), over
   * unbounded integers; None where the division by zero throws.
   */
  function TickPeriod(durationMinutes: int): Option<int>
  {
    if durationMinutes * 2 == 0 then None else Some(JavaDiv(durationMinutes * 60, durationMinutes * 2))
  }

  /** Every non-zero duration gives a 30-second tick. */
  lemma TickPeriodIsThirty(d: int)
    ensures TickPeriod(d) == (if d == 0 then None else Some(30))
  {
    if d != 0 {
      var a, b := Abs(d * 60), Abs(d * 2);
      assert a == 30 * b;
      ExactQuotient(30, b);
    }
  }

  /** The same period as Java computes it, in wrapping 32-bit `int` arithmetic. */
  function TickPeriodAsWritten(durationMinutes: int): Option<int>
    requires IsInt32(durationMinutes)
  {
    var totalUpdates := Wrap32(durationMinutes * 2);
    if totalUpdates == 0 then None else Some(JavaDiv(Wrap32(durationMinutes * 60), totalUpdates))
  }

  /**
   * As written, the period is 30 only up to 35791394 minutes: at 35791395
   * the product 60·d overflows and the period is -29, which
   * scheduleAtFixedRate rejects.
   */
  lemma TickPeriodOverflows()
    ensures TickPeriodAsWritten(35791394) == Some(30)
    ensures TickPeriodAsWritten(35791395) == Some(-29)
  {
  }

  /**
   * While 60·d fits an `int` the period as written is the intended one,
   * so the two differ only through the overflow.
   */
  lemma TickPeriodAgrees(d: int)
    requires -35791394 <= d <= 35791394
    ensures TickPeriodAsWritten(d) == TickPeriod(d)
    ensures d != 0 ==> TickPeriodAsWritten(d) == Some(30)
  {
    assert IsInt32(d * 2) && IsInt32(d * 60);
    TickPeriodIsThirty(d);
  }

  /** A computed period means the duration was not 0. */
  lemma PeriodNeedsMinutes(d: int)
    requires IsInt32(d)
    ensures TickPeriodAsWritten(d).Some? ==> d != 0
  {
  }

  /** A period of at most 0, which scheduleAtFixedRate refuses with a null message. */
  predicate RefusedPeriod(period: Option<int>)
  {
    period.Some? && period.value <= 0
  }

  // ------------------------------------------------------------ the service

  datatype Status = DeliveryStarted | LocationUpdate | DeliveryCompleted | DeliveryCancelled | DeliveryFailed

  /** One message `sendTrackingUpdate` publishes (its timestamp left out). */
  datatype TrackingUpdate = TrackingUpdate(
    orderId: string, status: Status, location: Option<LatLng>, message: string, eta: string)

  /** The update a tick sends while the delivery is under way. */
  function LocationEvent(task: DeliveryTask, elapsedSeconds: int, cfg: RoadsApi.Config,
                         api: RoadsApi.RoadsOracle, dist: Distance): TrackingUpdate
    requires task.durationMinutes != 0
  {
    var totalSeconds := task.durationMinutes * 60;
    var raw := InterpolateLocation(task.routeCoordinates, elapsedSeconds as real / totalSeconds as real);
    var current := RoadsApi.SnapToRoads(cfg, raw, api, dist);
    TrackingUpdate(task.orderId, LocationUpdate, Some(current), "配送中",
                   DynamicEta(task, current, elapsedSeconds, totalSeconds, dist))
  }

  /** The blend at the first tick: 3 s in, at progress 0, with 8000 m planned over 114000000000 s. */
  lemma FirstTickBlend(speed: real)
    requires speed == Ratio(8000 as real, 1900000000 as real * 60.0)
    ensures BlendedSeconds(113999999997, Some(0.0), speed, 8000, 3) == 113999999997
  {
    assert speed == 8000.0 / 114000000000.0;
    assert RemainingDistance(0.0, 8000) == 8000.0;
    var estimate := Ratio(8000.0, speed);
    assert estimate == 114000000000.0;
    assert BlendWeight(3) == 0.05;
    var x := (1.0 - 0.05) * 113999999997 as real + 0.05 * estimate;
    assert x == 113999999997.15;
    assert Trunc(x) == 113999999997;
  }

  /** 1900000000 minutes: the int products wrap to −494967296 and −1964116992, whose truncated quotient is 3. */
  lemma FirstTickPeriod()
    ensures TickPeriodAsWritten(1900000000) == Some(3)
  {
    assert Wrap32(1900000000 * 2) == -494967296;
    assert Wrap32(1900000000 * 60) == -1964116992;
  }

  /** The traffic buffer at progress 0: 113999999997 s times 1.2, truncated. */
  lemma FirstTickBuffer()
    ensures AddTrafficBuffer(113999999997, Some(0.0)) == 136799999996
  {
    assert 113999999997 as real * 1.2 == 136799999996.4;
  }

  /**
   * A delivery planned for 1900000000 minutes has a tick period of 3 s in
   * 32-bit arithmetic, so it starts. At its first tick, 3 s in, with the
   * 8000 m mock distance and the position nearest the first route point,
   * the buffered minutes 2279999999 wrap to a negative `int` and the
   * update reads "即将送达".
   */
  lemma EtaWrapsAtFirstTick(task: DeliveryTask, cfg: RoadsApi.Config, api: RoadsApi.RoadsOracle, dist: Distance)
    requires task.durationMinutes == 1900000000 && task.totalDistance == MockDistance
    requires ActualProgress(task.routeCoordinates,
                            RoadsApi.SnapToRoads(cfg, InterpolateLocation(task.routeCoordinates, 3.0 / 114000000000.0), api, dist),
                            dist) == Some(0.0)
    ensures TickPeriodAsWritten(task.durationMinutes) == Some(3)
    ensures 3 < task.durationMinutes * 60
    ensures LocationEvent(task, 3, cfg, api, dist).eta == "即将送达"
  {
    var current := RoadsApi.SnapToRoads(cfg, InterpolateLocation(task.routeCoordinates, 3.0 / 114000000000.0), api, dist);
    FirstTickPeriod();
    assert task.durationMinutes * 60 == 114000000000;
    assert LocationEvent(task, 3, cfg, api, dist).eta == DynamicEta(task, current, 3, 114000000000, dist);
    var speed := AverageSpeed(task, 3);
    FirstTickBlend(speed);
    assert EtaSeconds(task, current, 3, 114000000000, dist) == AddTrafficBuffer(113999999997, Some(0.0));
    FirstTickBuffer();
    EtaMinutesWrap();
  }

  /** The update `completeDelivery` sends: the route's last point. */
  function CompletedEvent(task: DeliveryTask): TrackingUpdate
    requires |task.routeCoordinates| > 0
  {
    TrackingUpdate(task.orderId, DeliveryCompleted,
                   Some(task.routeCoordinates[|task.routeCoordinates| - 1]), "配送已完成", "已送达")
  }

  function FailedEvent(orderId: string, reason: string): TrackingUpdate
  {
    TrackingUpdate(orderId, DeliveryFailed, None, "配送启动失败: " + reason, "")
  }

  class TrackingService {
    /** `activeDeliveries`, keyed by order id. */
    var activeDeliveries: map<string, DeliveryTask>
    /** The delivery task each scheduled tick job captured, in scheduling order. */
    var timers: seq<DeliveryTask>
    /** Every update sent, in order. */
    var events: seq<TrackingUpdate>

    ghost predicate Valid()
      reads this
    {
      (forall id :: id in activeDeliveries ==>
         activeDeliveries[id].orderId == id && |activeDeliveries[id].routeCoordinates| > 0)
      && (forall k :: 0 <= k < |timers| ==>
         |timers[k].routeCoordinates| > 0 && timers[k].durationMinutes != 0)
    }

    constructor ()
      ensures Valid() && activeDeliveries == map[] && timers == [] && events == []
    {
      activeDeliveries := map[];
      timers := [];
      events := [];
    }

    /**
     * `startDeliveryTracking`: derive the route; fail without registering
     * when it is empty; otherwise register the delivery task (replacing any task of
     * the same id), send DELIVERY_STARTED at the first point, and schedule
     * the tick. The tick period is computed in 32-bit arithmetic: a 0-minute
     * delivery fails with a division by zero, and one whose period
     * overflows to 0 or less fails because scheduleAtFixedRate refuses it
     * with an exception whose message is null.
     */
    method StartDeliveryTracking(orderId: string, origin: string, destination: string, durationMinutes: int,
                                 nt: NumberText, google: string -> Option<seq<LatLng>>,
                                 cfg: RoadsApi.Config, api: RoadsApi.RoadsOracle, dist: Distance)
      requires Valid() && IsInt32(durationMinutes)
      requires forall x: real :: nt.show(x) != ""
      modifies this
      ensures Valid()
      ensures var route := StartRoute(origin, destination, nt, google, cfg, api, dist);
        var task := DeliveryTask(orderId, origin, destination,
                                 MockPolyline(nt, MockRoute(origin, destination)), route, durationMinutes, MockDistance);
        if route == [] then
          activeDeliveries == old(activeDeliveries) && timers == old(timers)
          && events == old(events) + [FailedEvent(orderId, "路径坐标解码失败")]
        else
          activeDeliveries == old(activeDeliveries)[orderId := task]
          && var started := TrackingUpdate(orderId, DeliveryStarted, Some(route[0]), "配送已开始", FormatEta(durationMinutes));
          var period := TickPeriodAsWritten(durationMinutes);
          if period.None? then
            timers == old(timers) && events == old(events) + [started, FailedEvent(orderId, "/ by zero")]
          else if RefusedPeriod(period) then
            timers == old(timers) && events == old(events) + [started, FailedEvent(orderId, "null")]
          else
            timers == old(timers) + [task] && events == old(events) + [started]
    {
      var polyline, route := DeriveRoute(origin, destination, nt, google, cfg, api, dist);
      if |route| == 0 {
        events := events + [FailedEvent(orderId, "路径坐标解码失败")];
        return;
      }
      var task := DeliveryTask(orderId, origin, destination, polyline, route, durationMinutes, MockDistance);
      activeDeliveries := activeDeliveries[orderId := task];
      events := events + [TrackingUpdate(orderId, DeliveryStarted, Some(route[0]), "配送已开始", FormatEta(durationMinutes))];
      PeriodNeedsMinutes(durationMinutes);
      ScheduleTicks(task, TickPeriodAsWritten(durationMinutes));
    }

    /**
     * `scheduleAtFixedRate` with the computed period: None is the division
     * by zero, a period of 0 or less is refused, any other schedules the tick.
     */
    method ScheduleTicks(task: DeliveryTask, period: Option<int>)
      requires Valid() && |task.routeCoordinates| > 0 && (period.Some? ==> task.durationMinutes != 0)
      modifies this`timers, this`events
      ensures Valid()
      ensures period.None? ==> timers == old(timers) && events == old(events) + [FailedEvent(task.orderId, "/ by zero")]
      ensures RefusedPeriod(period) ==> timers == old(timers) && events == old(events) + [FailedEvent(task.orderId, "null")]
      ensures period.Some? && period.value > 0 ==> timers == old(timers) + [task] && events == old(events)
    {
      match period {
        case None =>
          events := events + [FailedEvent(task.orderId, "/ by zero")];
        case Some(p) =>
          if p <= 0 {
            events := events + [FailedEvent(task.orderId, "null")];
          } else {
            timers := timers + [task];
          }
      }
    }

    /**
     * One run of the tick job scheduled as timer t. It does nothing once
     * its order id is no longer registered (whichever task is registered
     * under it); at or after the planned duration it completes the
     * delivery, and before it sends a location update.
     */
    method Tick(t: nat, elapsedSeconds: int, cfg: RoadsApi.Config, api: RoadsApi.RoadsOracle, dist: Distance)
      requires Valid() && t < |timers|
      modifies this
      ensures Valid() && timers == old(timers)
      ensures var task := timers[t];
        if task.orderId !in old(activeDeliveries) then
          activeDeliveries == old(activeDeliveries) && events == old(events)
        else if elapsedSeconds >= task.durationMinutes * 60 then
          activeDeliveries == old(activeDeliveries) - {task.orderId}
          && events == old(events) + [CompletedEvent(task)]
        else
          activeDeliveries == old(activeDeliveries)
          && events == old(events) + [LocationEvent(task, elapsedSeconds, cfg, api, dist)]
    {
      var task := timers[t];
      if task.orderId !in activeDeliveries {
        return;
      }
      var totalSeconds := task.durationMinutes * 60;
      if elapsedSeconds >= totalSeconds {
        CompleteDelivery(task);
        return;
      }
      var progress := elapsedSeconds as real / totalSeconds as real;
      var rawLocation := InterpolateLocation(task.routeCoordinates, progress);
      var currentLocation := RoadsApi.SnapToRoads(cfg, rawLocation, api, dist);
      var eta := CalculateDynamicEta(task, currentLocation, elapsedSeconds, totalSeconds, dist);
      events := events + [TrackingUpdate(task.orderId, LocationUpdate, Some(currentLocation), "配送中", eta)];
    }

    /** `completeDelivery`: DELIVERY_COMPLETED at the last point, then deregistration. */
    method CompleteDelivery(task: DeliveryTask)
      requires Valid() && |task.routeCoordinates| > 0
      modifies this`activeDeliveries, this`events
      ensures Valid()
      ensures activeDeliveries == old(activeDeliveries) - {task.orderId}
      ensures events == old(events) + [CompletedEvent(task)]
    {
      var finalLocation := task.routeCoordinates[|task.routeCoordinates| - 1];
      events := events + [TrackingUpdate(task.orderId, DeliveryCompleted, Some(finalLocation), "配送已完成", "已送达")];
      activeDeliveries := activeDeliveries - {task.orderId};
    }

    /**
     * `stopDeliveryTracking`: deregister, and send DELIVERY_CANCELLED only
     * when a task was registered; an unknown id changes nothing.
     */
    method StopDeliveryTracking(orderId: string)
      requires Valid()
      modifies this`activeDeliveries, this`events
      ensures Valid()
      ensures activeDeliveries == old(activeDeliveries) - {orderId}
      ensures events == old(events) +
        (if orderId in old(activeDeliveries) then [TrackingUpdate(orderId, DeliveryCancelled, None, "配送已取消", "")] else [])
    {
      if orderId in activeDeliveries {
        activeDeliveries := activeDeliveries - {orderId};
        events := events + [TrackingUpdate(orderId, DeliveryCancelled, None, "配送已取消", "")];
      }
    }

    /** `getActiveDeliveries`: every registered id once, in no particular order. */
    method GetActiveDeliveries() returns (ids: seq<string>)
      ensures forall id :: id in ids <==> id in activeDeliveries
      ensures forall i, j :: 0 <= i < j < |ids| ==> ids[i] != ids[j]
    {
      ids := [];
      var rest := activeDeliveries.Keys;
      while rest != {}
        invariant rest <= activeDeliveries.Keys
        invariant forall id :: id in ids <==> id in activeDeliveries && id !in rest
        invariant forall i, j :: 0 <= i < j < |ids| ==> ids[i] != ids[j]
        decreases rest
      {
        var id :| id in rest;
        ids := ids + [id];
        rest := rest - {id};
      }
    }
  }

  /**
   * Stopping a delivery silences every tick job for it: a later tick of any
   * timer for that id changes nothing.
   */
  method StopThenTick(service: TrackingService, orderId: string, t: nat, elapsedSeconds: int,
                      cfg: RoadsApi.Config, api: RoadsApi.RoadsOracle, dist: Distance)
    requires service.Valid() && t < |service.timers| && service.timers[t].orderId == orderId
    modifies service
    ensures service.activeDeliveries == old(service.activeDeliveries) - {orderId}
    ensures service.timers == old(service.timers)
    ensures service.events == old(service.events) +
      (if orderId in old(service.activeDeliveries) then [TrackingUpdate(orderId, DeliveryCancelled, None, "配送已取消", "")] else [])
  {
    service.StopDeliveryTracking(orderId);
    service.Tick(t, elapsedSeconds, cfg, api, dist);
  }
}
