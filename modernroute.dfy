// ModernRouteService: the reading of a Routes API reply (main route,
// alternatives, route count), its distance and duration texts, the
// "123s" duration parser, the fall-back to the legacy route service and
// the API-key check.
module ModernRoutes {
  import opened Wrappers
  import opened Strings
  import opened Geo
  import opened JavaMath

  // ------------------------------------------------------ duration parsing

  function Pow10(n: nat): (p: nat)
    ensures p >= 1
  {
    if n == 0 then 1 else 10 * Pow10(n - 1)
  }

  /**
   * Double.parseDouble on the decimal forms a Routes API duration takes:
   * an optional sign, digits, and an optional '.' with more digits, at
   * least one digit in all; None where Java throws NumberFormatException.
   */
  function ParseDecimal(s: string): Option<real>
  {
    var negative := |s| > 0 && s[0] == '-';
    var body := if |s| > 0 && (s[0] == '-' || s[0] == '+') then s[1..] else s;
    var magnitude := ParseUnsigned(body);
    if magnitude.None? then None
    else Some(if negative then -magnitude.value else magnitude.value)
  }

  /** Digits with an optional '.' and more digits, at least one digit in all. */
  function ParseUnsigned(body: string): Option<real>
  {
    var parts := SplitOn(body, '.');
    if |parts| > 2 || !AllDigits(parts[0]) || (|parts| == 2 && !AllDigits(parts[1])) then None
    else if |parts| == 1 && parts[0] == [] then None
    else if |parts| == 2 && parts[0] == [] && parts[1] == [] then None
    else if |parts| == 1 then Some(ParseDigits(parts[0]) as real)
    else Some(DecimalValue(parts[0], parts[1]))
  }

  /** The value of the digits `whole`.`fraction`. */
  function DecimalValue(whole: string, fraction: string): real
    requires AllDigits(whole) && AllDigits(fraction)
  {
    ParseDigits(whole) as real + Fraction(ParseDigits(fraction), |fraction|)
  }

  /** f / 10^width, named so that the solver treats it as one term. */
  function Fraction(f: nat, width: nat): (x: real)
    ensures 0.0 <= x
    ensures f < Pow10(width) ==> x < 1.0
  {
    DivBelowOneIf(f as real, Pow10(width) as real);
    f as real / Pow10(width) as real
  }

  lemma DivBelowOneIf(j: real, d: real)
    requires 0.0 <= j && 0.0 < d
    ensures 0.0 <= j / d && (j < d ==> j / d < 1.0)
  {
    DivTimes(j, d);
    if j < d {
      DivBelowOne(j, d);
    }
  }

  /** Math.round of a double, a `long`: the nearest integer, halves up, saturating at the long range. */
  function RoundToLong(x: real): (r: int)
    ensures LongMin <= r <= LongMax
    ensures LongMin as real <= x <= LongMax as real ==> r == Round(x) || (r == LongMax && Round(x) == LongMax + 1)
  {
    var n := Round(x);
    if n < LongMin then LongMin else if n > LongMax then LongMax else n
  }

  /**
   * `parseDurationSeconds`: for a text ending in 's', the number before it
   * rounded and narrowed to `int` (None where the number does not parse
   * and Java throws); 0 for any other text.
   */
  function ParseDurationSeconds(duration: string): (r: Option<int>)
    ensures !IsSuffix("s", duration) ==> r == Some(0)
    ensures r.Some? ==> IsInt32(r.value)
  {
    if |duration| > 0 && duration[|duration| - 1] == 's' then
      var number := ParseDecimal(duration[..|duration| - 1]);
      if number.None? then None else Some(Wrap32(RoundToLong(number.value)))
    else Some(0)
  }

  lemma ParseDecimalOfNat(n: nat)
    ensures ParseDecimal(NatToString(n)) == Some(n as real)
  {
    var d := NatToString(n);
    assert IsDigit(d[0]);
    SplitOnNoSeparator(d, '.');
    ParseNatToString(n);
  }

  /** A number text followed by 's' reads as the number rounded, when that fits an `int`. */
  lemma ParseSecondsOf(body: string, x: real)
    requires ParseDecimal(body) == Some(x)
    requires 0.0 <= x && Round(x) <= IntMax
    ensures ParseDurationSeconds(body + "s") == Some(Round(x))
  {
    var text := body + "s";
    assert text[..|text| - 1] == body;
    assert RoundToLong(x) == Round(x);
  }

  /** A whole number of seconds "Ns" within `int` range is read as N. */
  lemma ParseWholeSeconds(n: nat)
    requires n <= IntMax
    ensures ParseDurationSeconds(NatToString(n) + "s") == Some(n)
  {
    ParseDecimalOfNat(n);
    assert Round(n as real) == n;
    ParseSecondsOf(NatToString(n), n as real);
  }

  /**
   * A fractional "W.Fs" is rounded half up to the nearest second, leading
   * zeros of the fraction included ("1.05s" is 1.05 seconds).
   */
  lemma ParseFractionalSeconds(whole: string, digits: string)
    requires whole != [] && AllDigits(whole) && AllDigits(digits)
    requires ParseDigits(whole) < IntMax
    ensures ParseDurationSeconds(whole + "." + digits + "s") == Some(Round(DecimalValue(whole, digits)))
  {
    var x := DecimalValue(whole, digits);
    assert ParseDecimal(whole + "." + digits) == Some(x) by {
      UnsignedDecimal(whole, digits);
    }
    assert 0.0 <= x && Round(x) <= IntMax by {
      DigitsBelowPow10(digits);
      assert x < ParseDigits(whole) as real + 1.0;
    }
    ParseSecondsOf(whole + "." + digits, x);
  }

  /** k digits denote less than 10^k. */
  lemma {:induction false} DigitsBelowPow10(s: string)
    requires AllDigits(s)
    ensures ParseDigits(s) < Pow10(|s|)
    decreases |s|
  {
    if s != [] {
      DigitsBelowPow10(s[..|s| - 1]);
    }
  }

  /** Digits, a point and digits, starting with a digit, read as their decimal value. */
  lemma UnsignedDecimal(whole: string, digits: string)
    requires whole != [] && AllDigits(whole) && AllDigits(digits)
    ensures ParseDecimal(whole + "." + digits) == Some(DecimalValue(whole, digits))
  {
    var text := whole + "." + digits;
    SplitDecimal(whole, digits);
    assert ParseUnsigned(text) == Some(DecimalValue(whole, digits));
    assert IsDigit(text[0]);
  }

  lemma SplitDecimal(whole: string, digits: string)
    requires AllDigits(whole) && AllDigits(digits)
    ensures SplitOn(whole + "." + digits, '.') == [whole, digits]
  {
    assert '.' !in whole && '.' !in digits;
    assert whole + "." + digits == Join([whole, digits], ".");
    SplitJoin([whole, digits], '.');
  }

  // --------------------------------------------------------- duration text

  /** The text `formatDuration` gives a whole number of seconds. */
  function DurationText(seconds: int): string
  {
    if seconds < 60 then IntToString(seconds) + " 秒"
    else if seconds < 3600 then IntToString(seconds / 60) + " 分钟"
    else IntToString(seconds / 3600) + " 小时 " + IntToString((seconds % 3600) / 60) + " 分钟"
  }

  /** `formatDuration` of a reply's duration string, None where the parser throws. */
  function FormatDuration(duration: string): Option<string>
  {
    var seconds := ParseDurationSeconds(duration);
    if seconds.None? then None else Some(DurationText(seconds.value))
  }

  /** Reads a duration text back as seconds. */
  function ReadDuration(text: string): Option<int>
  {
    var w := SplitOn(text, ' ');
    if |w| == 2 && w[1] == "秒" then ParseLong(w[0])
    else if |w| == 2 && w[0] != "" && AllDigits(w[0]) && w[1] == "分钟" then Some(60 * ParseDigits(w[0]))
    else if |w| == 4 && w[0] != "" && AllDigits(w[0]) && w[1] == "小时"
            && w[2] != "" && AllDigits(w[2]) && w[3] == "分钟"
    then Some(3600 * ParseDigits(w[0]) + 60 * ParseDigits(w[2]))
    else None
  }

  /**
   * The text keeps every second below a minute, and otherwise the whole
   * minutes: from an hour on, the minutes are always written, 0 included.
   */
  lemma DurationTextRoundTrip(seconds: int)
    requires IsInt32(seconds)
    ensures ReadDuration(DurationText(seconds)) == Some(if seconds < 60 then seconds else seconds - seconds % 60)
  {
    if seconds < 60 {
      SecondsRoundTrip(seconds);
    } else if seconds < 3600 {
      MinutesRoundTrip(seconds);
    } else {
      HoursRoundTrip(seconds);
    }
  }

  lemma SecondsRoundTrip(seconds: int)
    requires IsInt32(seconds) && seconds < 60
    ensures ReadDuration(DurationText(seconds)) == Some(seconds)
  {
    assert DurationText(seconds) == IntToString(seconds) + " 秒";
    ReadSecondsText(seconds);
  }

  lemma MinutesRoundTrip(seconds: int)
    requires 60 <= seconds < 3600
    ensures ReadDuration(DurationText(seconds)) == Some(seconds - seconds % 60)
  {
    var m := seconds / 60;
    assert DurationText(seconds) == NatToString(m) + " 分钟";
    ReadMinutesText(m);
  }

  lemma HoursRoundTrip(seconds: int)
    requires 3600 <= seconds
    ensures ReadDuration(DurationText(seconds)) == Some(seconds - seconds % 60)
  {
    var h, m := seconds / 3600, (seconds % 3600) / 60;
    assert DurationText(seconds) == NatToString(h) + " 小时 " + NatToString(m) + " 分钟";
    ReadHoursText(h, m);
    HoursAndMinutes(seconds);
  }

  lemma HoursAndMinutes(s: nat)
    ensures 3600 * (s / 3600) + 60 * ((s % 3600) / 60) == s - s % 60
  {
    var h, r := s / 3600, s % 3600;
    var m, q := r / 60, r % 60;
    assert s == 60 * (60 * h + m) + q;
    ModSixty(s, 60 * h + m, q);
  }

  lemma ModSixty(s: int, k: int, q: int)
    requires s == 60 * k + q && 0 <= q < 60
    ensures s % 60 == q
  {
  }

  lemma ReadSecondsText(seconds: int)
    requires IsInt32(seconds)
    ensures ReadDuration(IntToString(seconds) + " 秒") == Some(seconds)
  {
    var d := IntToString(seconds);
    IntTextHasNoSpace(seconds);
    assert d + " 秒" == d + [' '] + "秒";
    SplitTwo(d, "秒", ' ');
    ParseLongOfInt(seconds);
  }

  lemma ReadMinutesText(m: nat)
    ensures ReadDuration(NatToString(m) + " 分钟") == Some(60 * m)
  {
    var d := NatToString(m);
    IntTextHasNoSpace(m);
    assert d + " 分钟" == d + [' '] + "分钟";
    SplitTwo(d, "分钟", ' ');
    ParseNatToString(m);
    assert IsDigit(d[0]);
  }

  lemma ReadHoursWords(text: string, hd: string, md: string)
    requires hd != [] && AllDigits(hd) && md != [] && AllDigits(md)
    requires SplitOn(text, ' ') == [hd, "小时", md, "分钟"]
    ensures ReadDuration(text) == Some(3600 * ParseDigits(hd) + 60 * ParseDigits(md))
  {
  }

  lemma HoursWords(hd: string, md: string)
    requires ' ' !in hd && ' ' !in md
    ensures SplitOn(hd + " 小时 " + md + " 分钟", ' ') == [hd, "小时", md, "分钟"]
  {
    var tail := md + [' '] + "分钟";
    var rest := "小时" + [' '] + tail;
    assert hd + " 小时 " + md + " 分钟" == hd + [' '] + rest;
    SplitTwo(md, "分钟", ' ');
    SplitOnPiece("小时", ' ', tail);
    SplitOnPiece(hd, ' ', rest);
  }

  /** From an hour on, the minutes are always written, 0 included. */
  lemma ReadHoursText(h: nat, m: nat)
    ensures var text := NatToString(h) + " 小时 " + NatToString(m) + " 分钟";
      ReadDuration(text) == Some(3600 * h + 60 * m) && |SplitOn(text, ' ')| == 4
  {
    var hd, md := NatToString(h), NatToString(m);
    DigitsHaveNoSpace(hd);
    DigitsHaveNoSpace(md);
    var text := hd + " 小时 " + md + " 分钟";
    HoursWords(hd, md);
    assert ParseDigits(hd) == h && ParseDigits(md) == m by {
      ParseNatToString(h);
      ParseNatToString(m);
    }
    ReadHoursWords(text, hd, md);
  }

  // --------------------------------------------------------- distance text

  /**
   * `formatDistance`: whole metres below 1000, else kilometres with one
   * decimal; `oneDecimal` stands for String.format("%.1f").
   */
  function FormatDistance(meters: int, oneDecimal: real -> string): (text: string)
    ensures meters < 1000 ==> IsSuffix(" m", text)
    ensures meters >= 1000 ==> IsSuffix(" km", text)
  {
    if meters < 1000 then IntToString(meters) + " m" else oneDecimal(meters as real / 1000.0) + " km"
  }

  /** Below a kilometre the metre count is read back exactly. */
  lemma FormatDistanceMeters(meters: int, oneDecimal: real -> string)
    requires LongMin <= meters < 1000
    ensures var text := FormatDistance(meters, oneDecimal);
      ParseLong(text[..|text| - 2]) == Some(meters)
  {
    var text := FormatDistance(meters, oneDecimal);
    assert text[..|text| - 2] == IntToString(meters);
    ParseLongOfInt(meters);
  }

  // -------------------------------------------------------------- replies

  /** A leg end point as the reply gives it; either coordinate may be missing. */
  datatype Location = Location(latitude: Option<real>, longitude: Option<real>)

  datatype Leg = Leg(startLocation: Option<Location>, endLocation: Option<Location>)

  /** One route of a Routes API reply; every field may be missing. */
  datatype ReplyRoute = ReplyRoute(distanceMeters: Option<int>, duration: Option<string>,
                                   encodedPolyline: Option<string>, legs: Option<seq<Leg>>,
                                   description: Option<string>)

  /** The fields read from one route. */
  datatype RouteInfo = RouteInfo(distanceValue: Option<int>, distance: Option<string>,
                                 duration: Option<string>, durationValue: Option<int>,
                                 polyline: Option<string>, startLocation: Option<LatLng>,
                                 endLocation: Option<LatLng>, summary: Option<string>)

  /** The result of `processRoutesAPIResponse`. */
  datatype RoutesResult = RoutesResult(main: RouteInfo, alternatives: Option<seq<RouteInfo>>,
                                       routeCount: int, apiVersion: string)

  /** The distance and duration fields shared by the main route and the alternatives; None where parsing throws. */
  function BasicInfo(route: ReplyRoute, oneDecimal: real -> string): Option<RouteInfo>
  {
    var distanceText := if route.distanceMeters.Some? then Some(FormatDistance(route.distanceMeters.value, oneDecimal)) else None;
    if route.duration.None? then
      Some(RouteInfo(route.distanceMeters, distanceText, None, None, route.encodedPolyline, None, None, route.description))
    else
      var seconds := ParseDurationSeconds(route.duration.value);
      if seconds.None? then None
      else Some(RouteInfo(route.distanceMeters, distanceText, Some(DurationText(seconds.value)), Some(seconds.value),
                          route.encodedPolyline, None, None, route.description))
  }

  /**
   * A leg end point copied into an immutable map: None for no end point,
   * and Err where a coordinate is missing (Map.of throws on a null value).
   */
  function EndPoint(location: Option<Location>): Result<Option<LatLng>, string>
  {
    if location.None? then Ok(None)
    else if location.value.latitude.None? || location.value.longitude.None? then Err("null coordinate")
    else Ok(Some(LatLng(location.value.latitude.value, location.value.longitude.value)))
  }

  /** `processMainRoute`: the shared fields plus the first leg's end points. */
  function MainRouteInfo(route: ReplyRoute, oneDecimal: real -> string): Option<RouteInfo>
  {
    var basic := BasicInfo(route, oneDecimal);
    if basic.None? then None
    else if route.legs.None? || route.legs.value == [] then basic
    else
      var start := EndPoint(route.legs.value[0].startLocation);
      var end := EndPoint(route.legs.value[0].endLocation);
      if start.Err? || end.Err? then None
      else Some(basic.value.(startLocation := start.value, endLocation := end.value))
  }

  /** `processAlternativeRoute` over the routes after the first, in order; None where one throws. */
  function Alternatives(routes: seq<ReplyRoute>, oneDecimal: real -> string): (r: Option<seq<RouteInfo>>)
    ensures r.Some? ==> (|r.value| == |routes|
      && forall k :: 0 <= k < |routes| ==> BasicInfo(routes[k], oneDecimal) == Some(r.value[k]))
    ensures r.None? <==> exists k :: 0 <= k < |routes| && BasicInfo(routes[k], oneDecimal).None?
    decreases |routes|
  {
    if routes == [] then Some([])
    else
      var front := Alternatives(routes[..|routes| - 1], oneDecimal);
      var last := BasicInfo(routes[|routes| - 1], oneDecimal);
      if front.None? || last.None? then None else Some(front.value + [last.value])
  }

  /**
   * `processRoutesAPIResponse`: None (it throws) when the reply has no
   * routes or reading a route throws; otherwise the main route, the
   * alternatives only when there are several routes, and the route count.
   */
  function ProcessRoutes(routes: Option<seq<ReplyRoute>>, oneDecimal: real -> string): Option<RoutesResult>
  {
    if routes.None? || routes.value == [] then None
    else
      var main := MainRouteInfo(routes.value[0], oneDecimal);
      if main.None? then None
      else if |routes.value| > 1 then
        var alternatives := Alternatives(routes.value[1..], oneDecimal);
        if alternatives.None? then None
        else Some(RoutesResult(main.value, Some(alternatives.value), |routes.value|, "Routes_API_v2"))
      else Some(RoutesResult(main.value, None, |routes.value|, "Routes_API_v2"))
  }

  /** `processRoutesAPIResponse` as the source runs it, the alternatives collected by a loop. */
  method ProcessRoutesApiResponse(routes: Option<seq<ReplyRoute>>, oneDecimal: real -> string)
    returns (r: Option<RoutesResult>)
    ensures r == ProcessRoutes(routes, oneDecimal)
  {
    if routes.None? || routes.value == [] {
      return None;
    }
    var main := MainRouteInfo(routes.value[0], oneDecimal);
    if main.None? {
      return None;
    }
    var all := routes.value;
    var alternatives: Option<seq<RouteInfo>> := None;
    if |all| > 1 {
      var found: seq<RouteInfo> := [];
      for i := 1 to |all|
        invariant Alternatives(all[1..i], oneDecimal) == Some(found)
      {
        assert all[1..i + 1][..i - 1] == all[1..i];
        var info := BasicInfo(all[i], oneDecimal);
        if info.None? {
          AlternativesFailurePersists(all[1..], i, oneDecimal);
          return None;
        }
        found := found + [info.value];
      }
      assert all[1..|all|] == all[1..];
      alternatives := Some(found);
    }
    r := Some(RoutesResult(main.value, alternatives, |all|, "Routes_API_v2"));
  }

  lemma AlternativesFailurePersists(routes: seq<ReplyRoute>, i: nat, oneDecimal: real -> string)
    requires 1 <= i <= |routes|
    requires BasicInfo(routes[i - 1], oneDecimal).None?
    ensures Alternatives(routes, oneDecimal).None?
  {
  }

  /**
   * What the reply reading promises: it throws on a missing or empty route
   * list; a result counts the routes, reads the main route from the first,
   * and has alternatives exactly when there are several routes, holding
   * the routes after the first in order.
   */
  lemma ProcessRoutesShape(routes: Option<seq<ReplyRoute>>, oneDecimal: real -> string)
    ensures routes.None? || routes.value == [] ==> ProcessRoutes(routes, oneDecimal).None?
    ensures var r := ProcessRoutes(routes, oneDecimal);
      r.Some? ==>
        |routes.value| >= 1 && r.value.routeCount == |routes.value|
        && MainRouteInfo(routes.value[0], oneDecimal) == Some(r.value.main)
        && (r.value.alternatives.Some? <==> |routes.value| > 1)
        && (r.value.alternatives.Some? ==>
              |r.value.alternatives.value| == |routes.value| - 1
              && forall k :: 1 <= k < |routes.value| ==>
                   BasicInfo(routes.value[k], oneDecimal) == Some(r.value.alternatives.value[k - 1]))
  {
    var r := ProcessRoutes(routes, oneDecimal);
    if r.Some? && |routes.value| > 1 {
      var rest := routes.value[1..];
      forall k | 1 <= k < |routes.value|
        ensures BasicInfo(routes.value[k], oneDecimal) == Some(r.value.alternatives.value[k - 1])
      {
        assert rest[k - 1] == routes.value[k];
      }
    }
  }

  // ------------------------------------------------------------ fall-back

  /** The HTTP outcome of the Routes API call: an exception, or a status and an optional body. */
  datatype HttpReply = Threw | Reply(status: int, body: Option<Option<seq<ReplyRoute>>>)

  /** The route returned: from the Routes API, or the legacy service's. */
  datatype RouteOutcome<L> = Modern(result: RoutesResult) | Legacy(fallback: L)

  /**
   * `calculateRouteWithModernAPI`: the Routes API reply when the call gives
   * status 200 with a body that reads without throwing; the legacy route
   * `legacy` in every other case.
   */
  function CalculateRouteWithModernApi<L>(reply: HttpReply, legacy: L, oneDecimal: real -> string): (r: RouteOutcome<L>)
    ensures r.Modern? <==> reply.Reply? && reply.status == 200 && reply.body.Some?
                           && ProcessRoutes(reply.body.value, oneDecimal).Some?
    ensures r.Modern? ==> Some(r.result) == ProcessRoutes(reply.body.value, oneDecimal)
    ensures r.Legacy? ==> r.fallback == legacy
  {
    if reply.Threw? || reply.status != 200 || reply.body.None? then Legacy(legacy)
    else
      var processed := ProcessRoutes(reply.body.value, oneDecimal);
      if processed.None? then Legacy(legacy) else Modern(processed.value)
  }

  /** `isRoutesAPIAvailable`: the key is set and not blank. */
  function IsRoutesApiAvailable(apiKey: Option<string>): (available: bool)
    ensures available <==> apiKey.Some? && exists k :: 0 <= k < |apiKey.value| && !IsJavaSpace(apiKey.value[k])
  {
    apiKey.Some? && !JavaBlank(apiKey.value)
  }
}
