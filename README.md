# projectD delivery core in Dafny

This project models the core of projectD, a parcel-delivery application with a Spring backend and a React Native client, and proves properties of that model.

Backend (Java, `src/main/java/com/flagcamp/delivery/...`):
- `DeliveryTrackingService`: the map of active deliveries, the mock GPS simulator tick, progress, speed and ETA, the traffic buffer, and the mock polyline codec (`tracking.dfy`).
- `RoadsAPIService`: the snap-to-roads decisions, batching, smoothing and interpolation (`roads.dfy`).
- `ModernRouteService` (`modernroute.dfy`), `GeocodingService` and the service-area bounds (`geocoding.dfy`), and `DeliveryLocationService` (`location.dfy`).
- `AddressService`, `OrderService`, `PaymentService` and `UserService` over repositories held as maps (`addressservice.dfy`, `ordersvc.dfy`, `payment.dfy`, `user.dfy`).
- The recommendation rules of `DeliveryOptionsController` (`controller.dfy`), the `Address` entity (`address.dfy`) and the `GeoPoint` record (`geopoint.dfy`).

Client (TypeScript):
- The delivery simulator in `utils/deliverySimulation.ts` (`simulation.dfy`) and the pricing engine in `services/pricingEngine.ts` (`pricing.dfy`).
- The form validators (`validation.dfy`) and text formatters (`formatting.dfy`).
- `parseAddress` from the address autocomplete (`addressparser.dfy`).
- The order context (`ordercontext.dfy`) and the language context with its translation tables (`languagecontext.dfy`).

Shared modules:
- `Wrappers` holds Option and Result.
- `Strings` holds Java `trim`/`split`/`toLowerCase` and JS `trim`.
- `JavaMath` holds 32-bit wrap-around, truncating division, the saturating `(int)` cast, `Math.round` and `Math.ceil`.
- `Geo` holds coordinates and linear interpolation.

State the source mutates in place is modelled with classes whose methods carry `modifies` clauses. Loops are methods with invariants, proved against specification functions. Pure code is functions and lemmas.

The model takes these as parameters:
- Replies from Google's Roads, Routes, Geocoding and Places APIs.
- The haversine distance, as a function `dist` that is non-negative and zero on identical points.
- `Math.random` draws and clock readings.

Scheduled timers become explicit tick calls. Java and JavaScript doubles are modelled as `real`.

## Model

| member | source | states |
|---|---|---|
| DeliveryTracking.FormatEtaRoundTrip | src/main/java/com/flagcamp/delivery/service/DeliveryTrackingService.java:360-376 | the ETA text reads back as the minutes it was made from: positive m gives m exactly ("1 分钟", "m 分钟", "h 小时", "h 小时 r 分钟" with r = m mod 60 shown only when non-zero), and every m ≤ 0 reads as 0 ("即将送达") |
| DeliveryTracking.ReadMinutesText | src/main/java/com/flagcamp/delivery/service/DeliveryTrackingService.java:363-366 | the minutes form "m 分钟" reads back as m |
| DeliveryTracking.ReadHoursText | src/main/java/com/flagcamp/delivery/service/DeliveryTrackingService.java:368-371 | the whole-hours form "h 小时" reads back as 60·h minutes |
| DeliveryTracking.ReadHoursMinutesText | src/main/java/com/flagcamp/delivery/service/DeliveryTrackingService.java:368-373 | the hours-and-minutes form "h 小时 r 分钟" reads back as 60·h + r minutes |
| DeliveryTracking.InterpolateLocation | src/main/java/com/flagcamp/delivery/service/DeliveryTrackingService.java:151-172 | an empty route gives (0,0), progress ≤ 0 the first point, progress ≥ 1 the last point |
| DeliveryTracking.TargetBelowLast | src/main/java/com/flagcamp/delivery/service/DeliveryTrackingService.java:156-162 | below progress 1 the target index p·(n−1) lies strictly before the last point, so the index ≥ n−1 guard never fires |
| DeliveryTracking.TargetAtPoint | src/main/java/com/flagcamp/delivery/service/DeliveryTrackingService.java:156 | progress j/(n−1) targets exactly index j |
| DeliveryTracking.TargetNonNegative | src/main/java/com/flagcamp/delivery/service/DeliveryTrackingService.java:156-157 | non-negative progress gives a non-negative target index |
| DeliveryTracking.InterpolateAtPoint | src/main/java/com/flagcamp/delivery/service/DeliveryTrackingService.java:151-172 | at progress j/(n−1) the interpolated position is exactly route point j |
| DeliveryTracking.InterpolateOnSegment | src/main/java/com/flagcamp/delivery/service/DeliveryTrackingService.java:156-171 | for 0 < p < 1 the segment index floor(p·(n−1)) is a valid segment and the position lies within the box of that segment's two end points |
| DeliveryTracking.NearestFromIsFirstMinimum | src/main/java/com/flagcamp/delivery/service/DeliveryTrackingService.java:287-302 | the scan from any point of the loop ends at an index of minimum distance that no earlier index ties (strict "<" keeps the first) |
| DeliveryTracking.NearestFromKeepsMinimum | src/main/java/com/flagcamp/delivery/service/DeliveryTrackingService.java:298-301 | once a global minimum is held, the rest of the scan never replaces it |
| DeliveryTracking.FirstNearestIsFirstMinimum | src/main/java/com/flagcamp/delivery/service/DeliveryTrackingService.java:284-302 | the closest index is a minimum of the distances and strictly below every earlier one |
| DeliveryTracking.CalculateActualProgress | src/main/java/com/flagcamp/delivery/service/DeliveryTrackingService.java:284-306 | the loop computes the first-minimum index divided by n−1; for routes of two or more points the progress lies in [0, 1] |
| DeliveryTracking.ProgressAtOrigin | src/main/java/com/flagcamp/delivery/service/DeliveryTrackingService.java:284-306 | standing on the first route point gives progress 0 |
| DeliveryTracking.BlendBetween | src/main/java/com/flagcamp/delivery/service/DeliveryTrackingService.java:262-266 | the blend weight min(elapsed/60, 0.7) is in (0, 0.7], and the truncated blend lies between the planned and the speed-based remaining seconds |
| DeliveryTracking.AddTrafficBuffer | src/main/java/com/flagcamp/delivery/service/DeliveryTrackingService.java:321-337 | for non-negative seconds the buffered value (×1.2, ×1.1 or ×1.15 by progress band, then truncated) is never smaller and at most 1.2 times larger |
| DeliveryTracking.BlendedSecondsBounds | src/main/java/com/flagcamp/delivery/service/DeliveryTrackingService.java:248-270 | the adjusted remaining seconds are never negative, and without a positive average speed the blend is skipped |
| DeliveryTracking.EtaSecondsNonNegative | src/main/java/com/flagcamp/delivery/service/DeliveryTrackingService.java:245-316 | the buffered seconds (a Java `long`) are never negative; at or before the start they are the buffered max(0, total − elapsed). The `(int)` cast applied to their minutes is covered by the Findings row |
| DeliveryTracking.CalculateDynamicEta | src/main/java/com/flagcamp/delivery/service/DeliveryTrackingService.java:245-272 | the method computes the ETA text of its specification: the blend, the buffer, whole minutes floored at 0, the `(int)` cast that wraps above the int range, then formatETA. It requires d ≠ 0, which every tick meets; the catch fallback is not modelled |
| DeliveryTracking.EtaMinutesWrap | src/main/java/com/flagcamp/delivery/service/DeliveryTrackingService.java:272 | the cast turns 136799999996 seconds into −2014967297 minutes, which formatETA shows as "即将送达" |
| DeliveryTracking.EtaWrapsAtFirstTick | src/main/java/com/flagcamp/delivery/service/DeliveryTrackingService.java:97-127 | a 1900000000-minute delivery has a 3 s tick period, so it starts; its first tick, 3 s in, with the 8000 m mock distance and the position nearest the first route point, sends a location update whose ETA reads "即将送达" |
| DeliveryTracking.EtaMinutes | src/main/java/com/flagcamp/delivery/service/DeliveryTrackingService.java:272 | the intended minutes: never negative, and the whole minutes of non-negative seconds |
| DeliveryTracking.EtaMinutesAgree | src/main/java/com/flagcamp/delivery/service/DeliveryTrackingService.java:272 | with the intended minutes, a delivery at least a minute away is never reported as arriving; the as-written cast agrees with them whenever the minutes fit an int |
| DeliveryTracking.PointTexts | src/main/java/com/flagcamp/delivery/service/DeliveryTrackingService.java:511-519 | one "lat,lng" text per coordinate, in order |
| DeliveryTracking.EncodeMockPolyline | src/main/java/com/flagcamp/delivery/service/DeliveryTrackingService.java:511-519 | the loop builds the points' "lat,lng" texts joined by '|' |
| DeliveryTracking.DecodePolyline | src/main/java/com/flagcamp/delivery/service/DeliveryTrackingService.java:204-240 | the loop computes the decoding of its specification: mock segments split on '|' and ',', segments without exactly two parts skipped, a parse failure appending the two default coordinates, and the Google branch for text without '|' |
| DeliveryTracking.DecodeMockSegments | src/main/java/com/flagcamp/delivery/service/DeliveryTrackingService.java:209-219 | the segment loop equals the segment decoding specification, with the two default coordinates appended after a number that does not parse |
| DeliveryTracking.DecodeSegmentsOfTexts | src/main/java/com/flagcamp/delivery/service/DeliveryTrackingService.java:209-219 | when every coordinate's text reads back to it, the segment decoder reads the encoder's point texts back to the same points with no failure |
| DeliveryTracking.MockPolylineRoundTrip | src/main/java/com/flagcamp/delivery/service/DeliveryTrackingService.java:204-240 | when every coordinate's text reads back to it, decoding the mock encoding of two or more points gives the same points |
| DeliveryTracking.SinglePointGoesToGoogle | src/main/java/com/flagcamp/delivery/service/DeliveryTrackingService.java:209-228 | a one-point encoding whose texts hold no '|' goes to the Google decoder (or the default pair when that fails) |
| DeliveryTracking.MockRoute | src/main/java/com/flagcamp/delivery/service/DeliveryTrackingService.java:464-506 | each fixed mock route has at least six points |
| DeliveryTracking.StartRouteIsMockRoute | src/main/java/com/flagcamp/delivery/service/DeliveryTrackingService.java:61-70 | when the mock route's coordinates read back from their texts: without a Roads API key the route is the mock route, and with one it is never empty |
| DeliveryTracking.TallyTextShowsBack | src/main/java/com/flagcamp/delivery/service/DeliveryTrackingService.java:511-519 | for every route there is a number-text pair whose texts read back to each coordinate, so the round-trip lemmas cover every route |
| DeliveryTracking.DeriveRoute | src/main/java/com/flagcamp/delivery/service/DeliveryTrackingService.java:44-70 | the delivery task's polyline is the encoded mock route and its coordinates are the decoded route, smoothed only when the Roads API is available |
| DeliveryTracking.TickPeriodIsThirty | src/main/java/com/flagcamp/delivery/service/DeliveryTrackingService.java:97-98 | the tick period (60·d)/(2·d) is 30 seconds for every non-zero d, and undefined (division by zero) for d = 0 |
| DeliveryTracking.TickPeriodOverflows | src/main/java/com/flagcamp/delivery/service/DeliveryTrackingService.java:97-98 | with 32-bit arithmetic the period is 30 for d = 35791394 and −29 for d = 35791395 |
| DeliveryTracking.TickPeriodAgrees | src/main/java/com/flagcamp/delivery/service/DeliveryTrackingService.java:97-98 | while 60·d fits an int, the 32-bit period equals the intended one, 30 for every d ≠ 0 |
| DeliveryTracking.TrackingService.StartDeliveryTracking | src/main/java/com/flagcamp/delivery/service/DeliveryTrackingService.java:41-100 | an empty route emits DELIVERY_FAILED with no location and registers nothing. Otherwise the delivery task (re)places any entry under its id and DELIVERY_STARTED is emitted at route point 0 with formatETA(d). The 32-bit tick period then decides: d = 0 emits the division-by-zero failure, a period wrapped to 0 or less emits the failure with message null, and otherwise a timer is scheduled |
| DeliveryTracking.TrackingService.Tick | src/main/java/com/flagcamp/delivery/service/DeliveryTrackingService.java:101-133 | a timer whose id is not registered does nothing; at elapsed ≥ 60·d one DELIVERY_COMPLETED is emitted and the entry removed; otherwise one LOCATION_UPDATE is emitted and the registry is unchanged |
| DeliveryTracking.TrackingService.CompleteDelivery | src/main/java/com/flagcamp/delivery/service/DeliveryTrackingService.java:138-146 | emits DELIVERY_COMPLETED at the route's last point and removes the entry |
| DeliveryTracking.TrackingService.StopDeliveryTracking | src/main/java/com/flagcamp/delivery/service/DeliveryTrackingService.java:381-387 | removes the entry; DELIVERY_CANCELLED is emitted only when an entry existed |
| DeliveryTracking.TrackingService.GetActiveDeliveries | src/main/java/com/flagcamp/delivery/service/DeliveryTrackingService.java:392-394 | the listed ids are exactly the registered ones, each once |
| DeliveryTracking.StopThenTick | src/main/java/com/flagcamp/delivery/service/DeliveryTrackingService.java:102-104 | after a stop, a tick of that order's timer emits nothing more: the events grow by exactly the cancellation update when there was an entry and by nothing otherwise, the entry is gone, and the timers are kept |
| RoadsApi.RoadsApiAvailableIff | src/main/java/com/flagcamp/delivery/service/RoadsAPIService.java:209-211 | the Roads API counts as available iff a key is set and keeps a character after trimming, i.e. has a character above U+0020 |
| RoadsApi.ProcessSnapResponse | src/main/java/com/flagcamp/delivery/service/RoadsAPIService.java:107-134 | the result is the original point, or the first snapped point, which then has both coordinates and lies strictly under 500 m from the original |
| RoadsApi.SnapToRoads | src/main/java/com/flagcamp/delivery/service/RoadsAPIService.java:31-59 | without a usable key, or when the exchange throws, the point itself; otherwise either the point or a point strictly under 500 m away |
| RoadsApi.CompletePointsAllComplete | src/main/java/com/flagcamp/delivery/service/RoadsAPIService.java:147-158 | when every snapped point has both coordinates, all are kept, in order |
| RoadsApi.CompletePointsNoneComplete | src/main/java/com/flagcamp/delivery/service/RoadsAPIService.java:147-162 | when no snapped point has both coordinates, nothing survives the filter |
| RoadsApi.ProcessBatchResponse | src/main/java/com/flagcamp/delivery/service/RoadsAPIService.java:140-169 | the loop computes the points having both coordinates, in order, or the original list when none survive; a changed result is non-empty and no longer than the reply |
| RoadsApi.ChunksPartition | src/main/java/com/flagcamp/delivery/service/RoadsAPIService.java:178-183 | the 100-point chunks cover the list exactly, in order, each holding 1 to 100 points |
| RoadsApi.BatchOfChunks | src/main/java/com/flagcamp/delivery/service/RoadsAPIService.java:174-186 | the chunked result is the concatenation, in order, of snapToRoadsBatch applied to each chunk |
| RoadsApi.BatchFallsBack | src/main/java/com/flagcamp/delivery/service/RoadsAPIService.java:65-101 | when every exchange throws, a batch of any size comes back unchanged |
| RoadsApi.SnapToRoadsBatch | src/main/java/com/flagcamp/delivery/service/RoadsAPIService.java:65-101 | an empty list or a missing key returns the input; otherwise the specified batch result (single request up to 100 points, chunks above) |
| RoadsApi.SnapToRoadsInBatches | src/main/java/com/flagcamp/delivery/service/RoadsAPIService.java:174-186 | the loop concatenates the chunk results in order |
| RoadsApi.InsertCount | src/main/java/com/flagcamp/delivery/service/RoadsAPIService.java:252-253 | at most 5 points are inserted, none for segments up to 100 m, and at least 2 for longer ones |
| RoadsApi.LerpPrefixAt | src/main/java/com/flagcamp/delivery/service/RoadsAPIService.java:255-260 | the j-th inserted point is the interpolation at fraction (j+1)/(k+1) |
| RoadsApi.InterpolatePoints | src/main/java/com/flagcamp/delivery/service/RoadsAPIService.java:241-268 | the nested loops compute the densified list of the specification |
| RoadsApi.DensePrefixLength | src/main/java/com/flagcamp/delivery/service/RoadsAPIService.java:244-262 | after i rounds the output holds i points plus the inserted ones |
| RoadsApi.DensifiedShape | src/main/java/com/flagcamp/delivery/service/RoadsAPIService.java:241-268 | the densified list has n + Σk points, starts with the first input and ends with the last |
| RoadsApi.DensifiedKeeps | src/main/java/com/flagcamp/delivery/service/RoadsAPIService.java:244-265 | input point i sits at index i + (points inserted before it), so every input point appears, in order |
| RoadsApi.DensifiedInserts | src/main/java/com/flagcamp/delivery/service/RoadsAPIService.java:252-260 | right after input point i come its segment's k inserted points at fractions j/(k+1) |
| RoadsApi.SmoothPath | src/main/java/com/flagcamp/delivery/service/RoadsAPIService.java:273-297 | fewer than three points are returned unchanged; otherwise the same length and end points, each interior point 0.25·prev + 0.5·cur + 0.25·next of the input |
| RoadsApi.SmoothedShape | src/main/java/com/flagcamp/delivery/service/RoadsAPIService.java:273-297 | the smoothed list keeps the length and end points, and its interior points average the input's neighbours, not smoothed ones |
| RoadsApi.SmoothTrajectory | src/main/java/com/flagcamp/delivery/service/RoadsAPIService.java:217-236 | under two points the input is returned; otherwise densify, snap as a batch, then smooth, giving a non-empty list |
| RoadsApi.NonEmptySnap | src/main/java/com/flagcamp/delivery/service/RoadsAPIService.java:65-101 | snapping a non-empty batch never returns an empty list |
| RoadsApi.TrajectoryWithoutRoads | src/main/java/com/flagcamp/delivery/service/RoadsAPIService.java:217-236 | when every exchange throws, the trajectory is the smoothed densified input |
| ClientSimulation.BufferMinutes | utils/deliverySimulation.ts:51-52 | the preparation buffer is always between 5 and 10 minutes |
| ClientSimulation.CalculateDeliveryTime | utils/deliverySimulation.ts:42-57 | the speed-based delivery time is clamped to between 15 and 120 minutes |
| ClientSimulation.BaseMinutesMonotone | utils/deliverySimulation.ts:43-49 | the rounded-up travel minutes never decrease as the distance grows |
| ClientSimulation.DeliveryTimeMonotone | utils/deliverySimulation.ts:42-57 | a longer distance never gives a shorter delivery time for the same vehicle |
| ClientSimulation.DroneNotSlower | utils/deliverySimulation.ts:34-37 | at the same distance a drone (45 km/h) is never given more minutes than a robot (15 km/h) |
| ClientSimulation.DeliveryTimeExamples | utils/deliverySimulation.ts:42-57 | 5 km by robot is 25 minutes, by drone the 15-minute floor, and 100 km by robot the 120-minute ceiling |
| ClientSimulation.StatusMonotone | utils/deliverySimulation.ts:143-148 | the status never moves backwards (picked up, in transit, near destination, delivered) as the progress grows |
| ClientSimulation.StatusBands | utils/deliverySimulation.ts:143-148 | each status holds exactly on its band: below 10, 10 to 84, 85 to 99, and 100 or more |
| ClientSimulation.GenerateRoutePoints | utils/deliverySimulation.ts:109-140 | the fake route has max(numPoints, 2) points, starts at the start, ends at the end, and each inner point is the interpolated, curved and jittered point for its ratio |
| ClientSimulation.RoutePointInBox | utils/deliverySimulation.ts:116-122 | with no curve and a centred random draw, each inner point lies inside the bounding box of the start and end |
| ClientSimulation.EveryNthAt | utils/deliverySimulation.ts:86-87 | keeping the indices divisible by the step keeps exactly the points at multiples of the step, in order, up to the end of the list |
| ClientSimulation.SampleRouteShape | utils/deliverySimulation.ts:84-89 | routes of at most 50 points are kept whole; longer ones keep the first point and every (length div 50)-th point after it, in order |
| ClientSimulation.RealRoutePoints | utils/deliverySimulation.ts:71-106 | no route exactly when the reply failed, carried no data, or had neither a polyline nor both end points. A polyline gives its sampled decoding, or the empty route when decoding throws. Otherwise the route is the two end points |
| ClientSimulation.RealRouteEnds | utils/deliverySimulation.ts:71-106 | a route from a decoded polyline starts at its first point and is the whole polyline up to 50 points; an end-point route runs from start to end |
| ClientSimulation.PercentBounds | utils/deliverySimulation.ts:224-225 | the rounded progress percentage is between 0 and 100, is 100 at the last point, and stays below 100 before it on routes of at most 200 points |
| ClientSimulation.PercentEarlyOnLongRoute | utils/deliverySimulation.ts:224-225 | on a 201-point route, rounding already reports 100 one point before the end |
| ClientSimulation.ProgressOfBounds | utils/deliverySimulation.ts:223-240 | the reported progress is in 0..100, the remaining time is never negative, the location is the current route point, and at the last point the delivery is reported as delivered |
| ClientSimulation.Simulation.constructor | utils/deliverySimulation.ts:211-221 | a new simulation stores its order, route, times and distance, starts at the first point and is not completed |
| ClientSimulation.Simulation.Advance | utils/deliverySimulation.ts:242-250 | advancing moves one point on while one remains and reports true; at the last point it marks the simulation completed and reports false |
| ClientSimulation.Simulation.CurrentProgress | utils/deliverySimulation.ts:223-240 | the progress report of the current point, or None on an empty route, where the source throws a TypeError |
| ClientSimulation.DeliverySimulator.constructor | utils/deliverySimulation.ts:28-39 | a new simulator has no simulations, no subscribers and no running update loop |
| ClientSimulation.DeliverySimulator.AddSimulation | utils/deliverySimulation.ts:211-254 | the simulation is stored under its order id (replacing any earlier one, order of first insertion kept), starts at index 0, and the update loop is running |
| ClientSimulation.DeliverySimulator.CreateDeliverySimulation | utils/deliverySimulation.ts:169-254 | the route is the fetched real route when real routing is asked for with both addresses and the fetch succeeds, otherwise the 30-point fake route from start to end whose inner points are the curved, jittered straight-line points; the distance is the distance between the route's first and last points (the given start and end for an empty route); the time is the speed-based time when asked for, otherwise the given minutes; the start time is now; the simulation is stored under the id, other simulations and the callbacks are unchanged, and the id is appended to the order only when new |
| ClientSimulation.DeliverySimulator.RemoveDeliverySimulation | utils/deliverySimulation.ts:295-303 | the simulation is removed, the result says whether it existed, and the loop stops exactly when no simulation remains |
| ClientSimulation.DeliverySimulator.GetAllActiveDeliveries | utils/deliverySimulation.ts:306-316 | None (the TypeError) exactly when a stored simulation has an empty route; otherwise one progress report per stored simulation, in insertion order, each the current progress of that simulation |
| ClientSimulation.DeliverySimulator.Subscribe | utils/deliverySimulation.ts:319-321 | the key is registered once; an existing key keeps its place |
| ClientSimulation.DeliverySimulator.Unsubscribe | utils/deliverySimulation.ts:324-326 | the key is removed and every other subscriber is kept in order |
| ClientSimulation.DeliverySimulator.Cleanup | utils/deliverySimulation.ts:375-379 | the loop is stopped and all simulations and subscribers are cleared |
| ClientSimulation.DeliverySimulator.AdvanceAll | utils/deliverySimulation.ts:333-346 | every simulation that still has a next point moves one point on; every other one is marked completed and listed; the flag says whether any moved |
| ClientSimulation.DeliverySimulator.DropCompleted | utils/deliverySimulation.ts:348-362 | the completed simulations are deleted, exactly the advancing ones remain, and the loop stops exactly when none advanced |
| ClientSimulation.DeliverySimulator.UpdateSimulations | utils/deliverySimulation.ts:332-362 | one tick keeps exactly the simulations that advanced, each one point further and still on its route, and stops the loop exactly when none advanced |
| ClientSimulation.DeliverySimulator.Tick | utils/deliverySimulation.ts:329-364 | one timer tick advances and prunes as above, then hands every subscriber the progress of each remaining simulation |
| Pricing.TimeMultiplierTable | services/pricingEngine.ts:88-107 | weekends always pay 1.10; on weekdays each multiplier holds on exactly its hours: 1.35 at 7, 8, 12, 17 and 18, 1.20 at 9-11 and 13-16, 0.90 from 22 to 5, 1.00 at 6 and 19-21 |
| Pricing.TimeMultiplierRange | services/pricingEngine.ts:50-57 | the time multiplier always lies between 0.90 and 1.35 |
| Pricing.Applicable | services/pricingEngine.ts:111-112 | the tiers kept by the filter are exactly the listed tiers whose minimum order count is reached |
| Pricing.ApplicablePrefix | services/pricingEngine.ts:59-65 | when the count reaches the first k tiers and misses the rest, the filter keeps exactly those k tiers, in order |
| Pricing.BulkDiscountTable | services/pricingEngine.ts:59-65 | the discount is 20% from 20 orders, 15% from 10, 10% from 5, 5% from 3 and 0 below 3 (the 0 of the last tier falls back to 0) |
| Pricing.BulkDiscountMonotone | services/pricingEngine.ts:110-115 | more orders never give a smaller discount, and the discount stays between 0 and 20% |
| Pricing.DemandMultiplier | services/pricingEngine.ts:118-145 | the demand multiplier is clamped to between 0.8 and 1.5 |
| Pricing.DemandMonotoneInDraw | services/pricingEngine.ts:140-144 | a larger random draw never lowers the demand multiplier |
| Pricing.DemandAtDinner | services/pricingEngine.ts:124-144 | a drone at 17:00 in the business district pays at least 1.30 for any draw in [0, 1) |
| Pricing.Frac | services/pricingEngine.ts:168-172 | the fractional part of a non-negative number (the source's % 1) lies in [0, 1) |
| Pricing.EstimateSixtyMinutes | services/pricingEngine.ts:165-174 | as written, 22.425 km by standard robot takes 1.995 hours, which is reported as "1h 60m" |
| Pricing.PricedSixtyMinutes | services/pricingEngine.ts:248-254 | a priced standard robot option over 22.425 km quotes "1h 60m" |
| Pricing.EstimateMinutesBelowSixty | services/pricingEngine.ts:148-175 | in the corrected estimate of one hour or more the minutes are between 1 and 59, and hours and minutes add up to the rounded total minutes |
| Pricing.EstimateAgrees | services/pricingEngine.ts:148-175 | whenever the leftover minutes do not round up to 60, the corrected estimate is the one the source produces |
| Pricing.CentsMonotone | services/pricingEngine.ts:235-245 | rounding to cents never reverses the order of two amounts |
| Pricing.CentsExact | services/pricingEngine.ts:235-245 | amounts already in whole cents (5.00, 1.00, 2.50) are unchanged by rounding to cents |
| Pricing.PricingAvailability | services/pricingEngine.ts:181-192 | an option is available exactly when the weight is within its limit. An unavailable one has price 0, no breakdown and "Not available". An available one is priced at its breakdown's final price and quotes the as-written estimate |
| Pricing.PricingFloors | services/pricingEngine.ts:207-244 | an available price is at least 5.00, the insurance at least 1.00, the service fee 2.50, and the total discount is the bulk discount |
| Pricing.ScaleDistributes | services/pricingEngine.ts:203-204 | adding the premium a * (m - 1) to a gives a * m, the step that makes the time premium a multiplier |
| Pricing.FeesCombine | services/pricingEngine.ts:196-232 | before rounding, the fees add up as the source computes them: base fees times the time multiplier, plus insurance max(1, 1.5% of value) and service fee, less the bulk discount, times the demand multiplier, floored at 5.00 |
| Pricing.DemandChoice | services/pricingEngine.ts:223-227 | a given non-zero demand multiplier is used as is; a missing or zero one is replaced by the simulated one, which lies in [0.8, 1.5] |
| Pricing.PriceOptionsAt | services/pricingEngine.ts:298-305 | the i-th priced option is the i-th option with the pricing computed for it |
| Pricing.AllDeliveryOptions | services/pricingEngine.ts:259-306 | there are four options in the order robot standard, robot express, drone standard, drone express, with ids 1 to 4, each priced for its own vehicle and service level |
| Pricing.HeavyParcels | services/pricingEngine.ts:45-48 | over 10 kg neither drone option is available, and over 25 kg no option is available |
| DeliveryLocation.PriceNearExact | src/main/java/com/flagcamp/delivery/service/DeliveryLocationService.java:281-286 | the price is the base fare plus the per-km fare, rounded to cents: it is within half a cent of the exact amount |
| DeliveryLocation.PriceMonotone | src/main/java/com/flagcamp/delivery/service/DeliveryLocationService.java:281-286 | a longer route is never cheaper, and a robot never costs more than a drone over the same distance |
| DeliveryLocation.ReadMinutesText | src/main/java/com/flagcamp/delivery/service/DeliveryLocationService.java:288-291 | a duration under an hour is written as its minute count followed by " min", and reads back as that count |
| DeliveryLocation.ReadHoursText | src/main/java/com/flagcamp/delivery/service/DeliveryLocationService.java:292-295 | an "Nh Mmin" duration reads back as 60 * N + M minutes |
| DeliveryLocation.DurationTextRoundTrip | src/main/java/com/flagcamp/delivery/service/DeliveryLocationService.java:288-297 | every 32-bit minute count is written in a form that reads back as the same count, in both branches |
| DeliveryLocation.FormatDurationMinutes | src/main/java/com/flagcamp/delivery/service/DeliveryLocationService.java:288-297 | the text for a number of seconds reads back as the whole minutes it contains (the int cast truncates) |
| DeliveryLocation.StationsWithLocations | src/main/java/com/flagcamp/delivery/service/DeliveryLocationService.java:36-82 | without stored stations the three mock stations are listed; otherwise one entry per station, in order, with its id, name and vehicle counts, an address exactly when the station has one, and a location only when it has an address |
| DeliveryLocation.ScanStationsArgmin | src/main/java/com/flagcamp/delivery/service/DeliveryLocationService.java:153-170 | the scan fails exactly when a located station has an invalid point; otherwise the nearest station is a located one at the smallest distance, the first one at that distance, and none is reported when every distance is at least Double.MAX_VALUE |
| DeliveryLocation.ScanErrorPersists | src/main/java/com/flagcamp/delivery/service/DeliveryLocationService.java:156-161 | once a station's invalid point has aborted the scan, later stations do not change the outcome |
| DeliveryLocation.GetNearestStation | src/main/java/com/flagcamp/delivery/service/DeliveryLocationService.java:149-173 | the loop returns the same result as the scan specification |
| DeliveryLocation.NearestStationIsArgmin | src/main/java/com/flagcamp/delivery/service/DeliveryLocationService.java:149-173 | for valid points the nearest station is a located station at minimal distance (the first on ties), reported in km, and none is found only when no distance is below Double.MAX_VALUE |
| DeliveryLocation.NearestStationFails | src/main/java/com/flagcamp/delivery/service/DeliveryLocationService.java:151-161 | the lookup fails exactly when the user's point or some located station's point is outside the valid coordinate range |
| DeliveryLocation.Nearby | src/main/java/com/flagcamp/delivery/service/DeliveryLocationService.java:107-137 | the kept vehicles are no more than the idle vehicles, and each lies within the radius |
| DeliveryLocation.NearbyComplete | src/main/java/com/flagcamp/delivery/service/DeliveryLocationService.java:107-132 | every idle vehicle whose station location is known and lies within the radius is kept |
| DeliveryLocation.InsertByDistance | src/main/java/com/flagcamp/delivery/service/DeliveryLocationService.java:140-141 | inserting a vehicle into a distance-sorted list keeps it sorted and adds exactly that vehicle |
| DeliveryLocation.SortByDistance | src/main/java/com/flagcamp/delivery/service/DeliveryLocationService.java:140-141 | the vehicles are sorted by ascending distance and are a permutation of the input |
| DeliveryLocation.GetAvailableVehiclesNearLocation | src/main/java/com/flagcamp/delivery/service/DeliveryLocationService.java:87-144 | an invalid point fails; with no idle vehicles the three mock vehicles are returned; otherwise exactly the vehicles within the radius, sorted by distance |
| DeliveryLocation.DeliveryOptionsFallback | src/main/java/com/flagcamp/delivery/service/DeliveryLocationService.java:232-237 | when geocoding, routing or the station lookup fails, the result is the default robot option at 12.50 and drone option at 18.00, without route data |
| DeliveryLocation.DeliveryOptionsEligibility | src/main/java/com/flagcamp/delivery/service/DeliveryLocationService.java:178-231 | otherwise there are no options when no station is nearest, and else the options of the station nearest to the pickup point, carrying the route's distance and polyline |
| DeliveryLocation.StationOptionsEligibility | src/main/java/com/flagcamp/delivery/service/DeliveryLocationService.java:195-223 | a robot option is offered exactly when the station has robots, a drone option exactly when it has drones and the route is under 10 km, robot first |
| DeliveryLocation.StationOptionsFields | src/main/java/com/flagcamp/delivery/service/DeliveryLocationService.java:196-230 | each option carries the route summary, the station name, the vehicle's price for the route, and the duration scaled by 1.5 for robots and 0.5 for drones |
| ModernRoutes.RoundToLong | src/main/java/com/flagcamp/delivery/service/ModernRouteService.java:226 | Math.round to a long: the nearest integer with halves rounded up, saturated at the long range |
| ModernRoutes.ParseDurationSeconds | src/main/java/com/flagcamp/delivery/service/ModernRouteService.java:222-229 | a duration without the "s" suffix gives 0; any parsed duration fits a 32-bit int |
| ModernRoutes.ParseWholeSeconds | src/main/java/com/flagcamp/delivery/service/ModernRouteService.java:222-229 | "Ns" parses to N seconds, for N within the int range |
| ModernRoutes.ParseFractionalSeconds | src/main/java/com/flagcamp/delivery/service/ModernRouteService.java:222-229 | "W.Ds" parses to the decimal value W.D rounded half up, for a whole part W below the int maximum |
| ModernRoutes.ParseSecondsOf | src/main/java/com/flagcamp/delivery/service/ModernRouteService.java:224-226 | any non-negative numeric body followed by "s" parses to the body's value rounded half up, when that rounds within the int range |
| ModernRoutes.UnsignedDecimal | src/main/java/com/flagcamp/delivery/service/ModernRouteService.java:226 | a digits-dot-digits string parses as the decimal it denotes |
| ModernRoutes.DurationTextRoundTrip | src/main/java/com/flagcamp/delivery/service/ModernRouteService.java:206-220 | the duration text reads back as the seconds below a minute, and otherwise as the seconds truncated to whole minutes |
| ModernRoutes.SecondsRoundTrip | src/main/java/com/flagcamp/delivery/service/ModernRouteService.java:210-211 | under 60 seconds the text is the seconds followed by " 秒" and reads back exactly |
| ModernRoutes.MinutesRoundTrip | src/main/java/com/flagcamp/delivery/service/ModernRouteService.java:212-214 | from 60 to 3599 seconds the text gives whole minutes, which read back as the seconds less the leftover seconds |
| ModernRoutes.HoursRoundTrip | src/main/java/com/flagcamp/delivery/service/ModernRouteService.java:215-219 | from 3600 seconds the text gives hours and leftover minutes, which read back as the seconds less the leftover seconds |
| ModernRoutes.HoursAndMinutes | src/main/java/com/flagcamp/delivery/service/ModernRouteService.java:216-217 | hours times 3600 plus the minutes of the remainder times 60 is the seconds less the leftover seconds |
| ModernRoutes.FormatDistance | src/main/java/com/flagcamp/delivery/service/ModernRouteService.java:197-204 | under 1000 m the text ends in " m", otherwise in " km" |
| ModernRoutes.FormatDistanceMeters | src/main/java/com/flagcamp/delivery/service/ModernRouteService.java:198-199 | under 1000 m the text is the meter count itself followed by " m" |
| ModernRoutes.Alternatives | src/main/java/com/flagcamp/delivery/service/ModernRouteService.java:96-102 | the alternatives are built from every route, one each and in order, and the list fails exactly when one route cannot be read |
| ModernRoutes.AlternativesFailurePersists | src/main/java/com/flagcamp/delivery/service/ModernRouteService.java:98-100 | a route that cannot be read makes the whole alternatives list fail |
| ModernRoutes.ProcessRoutesApiResponse | src/main/java/com/flagcamp/delivery/service/ModernRouteService.java:83-108 | the loop over the routes produces the same result as the response specification |
| ModernRoutes.ProcessRoutesShape | src/main/java/com/flagcamp/delivery/service/ModernRouteService.java:86-108 | no routes, or an empty list, fails; otherwise the main route is the first one, there are alternatives exactly when there is more than one route, and they are the remaining routes in order, with the route count |
| ModernRoutes.CalculateRouteWithModernApi | src/main/java/com/flagcamp/delivery/service/ModernRouteService.java:51-61 | the Routes API result is used exactly when the reply is 200 with a body that can be processed; every other outcome is the legacy route |
| ModernRoutes.IsRoutesApiAvailable | src/main/java/com/flagcamp/delivery/service/ModernRouteService.java:234-236 | the API counts as available iff a key is set and keeps a character after trimming, i.e. has a character above U+0020 |
| Geocoding.ServiceAreaAgrees | src/main/java/com/flagcamp/delivery/controller/GeocodingController.java:93-99 | the controller's own service-area test agrees with the service's on every point, and any point inside the area is a valid geographic point |
| Geocoding.ServiceAreaCorners | src/main/java/com/flagcamp/delivery/service/GeocodingService.java:30-33 | the bounds 37.620 to 37.810 latitude and -122.520 to -122.357 longitude are inclusive, and any step past each bound is outside |
| Geocoding.GetGeoPointClassification | src/main/java/com/flagcamp/delivery/service/GeocodingService.java:46-76 | a failed lookup is a geocoding failure; no result or a partial first match is an invalid address; a first match outside the area is rejected as outside; otherwise the first match's point is returned, inside the area |
| Geocoding.IsInServiceArea | src/main/java/com/flagcamp/delivery/service/GeocodingService.java:263-275 | an address is in the service area exactly when its first geocoding result is an exact match inside the area; every failure answers false |
| AddressServices.Part | src/main/java/com/flagcamp/delivery/service/AddressService.java:210-211 | a field contributes one part exactly when it is present and not blank, and that part is the field trimmed |
| AddressServices.AppendPart | src/main/java/com/flagcamp/delivery/service/AddressService.java:213-220 | appending a field to the text built so far gives the join of the parts so far and that field's part, with ", " only between parts |
| AddressServices.BuildFullAddress | src/main/java/com/flagcamp/delivery/service/AddressService.java:208-222 | the full address is the non-blank trimmed address, city and postal code, in that order, joined by ", " |
| AddressServices.BuildFullAddressFromMap | src/main/java/com/flagcamp/delivery/service/AddressService.java:224-242 | the same full address, read from the "address", "city" and "postalCode" entries of a map |
| AddressServices.JoinedAddressShape | src/main/java/com/flagcamp/delivery/service/AddressService.java:208-222 | the full address is empty exactly when all three fields are missing or blank, and otherwise starts with the first part and ends with the last |
| AddressServices.FullAddressAllParts | src/main/java/com/flagcamp/delivery/service/AddressService.java:208-222 | with all three fields non-blank the full address is "address, city, postal code", each trimmed |
| AddressServices.GeocodeCheck | src/main/java/com/flagcamp/delivery/service/AddressService.java:57-64 | the address passes exactly when it is in the service area; outside it fails with "Address must be within San Francisco city limits", with no or a partial match with "Invalid or ambiguous address provided", and a geocoding failure passes through |
| AddressServices.ClearDefaults | src/main/java/com/flagcamp/delivery/service/AddressService.java:78-86 | unsetting a user's defaults touches only the default flag of that user's addresses and leaves every address of that user non-default |
| AddressServices.NewRow | src/main/java/com/flagcamp/delivery/service/AddressService.java:66-73 | the new address belongs to the user, is not yet default, and has the requested country or "United States" |
| AddressServices.AfterAdd | src/main/java/com/flagcamp/delivery/service/AddressService.java:75-90 | the new address is default when it is the user's first or default is requested; if requested, the user's other addresses lose their default flag; nothing else changes |
| AddressServices.AddKeepsOneDefault | src/main/java/com/flagcamp/delivery/service/AddressService.java:75-90 | after adding, every user with an address still has exactly one default address |
| AddressServices.AddKeepsDefaultPresent | src/main/java/com/flagcamp/delivery/service/AddressService.java:75-90 | after adding, every user with an address still has a default address |
| AddressServices.AddKeepsAtMostOneDefault | src/main/java/com/flagcamp/delivery/service/AddressService.java:75-90 | after adding, no user has two default addresses |
| AddressServices.UpdatedRow | src/main/java/com/flagcamp/delivery/service/AddressService.java:107-112 | the updated fields take the request, the country falls back to the stored one, and owner, id and default flag are kept |
| AddressServices.AfterUpdate | src/main/java/com/flagcamp/delivery/service/AddressService.java:107-128 | the address gets the requested fields and becomes default if asked; only when it becomes default do the owner's other addresses lose their flag |
| AddressServices.UpdateKeepsOneDefault | src/main/java/com/flagcamp/delivery/service/AddressService.java:114-126 | after an update every user with an address still has exactly one default address |
| AddressServices.AfterSetDefault | src/main/java/com/flagcamp/delivery/service/AddressService.java:153-169 | the chosen address becomes the owner's default, the owner's other addresses lose the flag, and other users' addresses do not change |
| AddressServices.SetDefaultKeepsOneDefault | src/main/java/com/flagcamp/delivery/service/AddressService.java:153-169 | after choosing a default every user with an address still has exactly one default address |
| AddressServices.SetDefaultRepairs | src/main/java/com/flagcamp/delivery/service/AddressService.java:153-169 | choosing a default repairs its owner: if no user has two defaults and every other user with addresses has one, afterwards every user with addresses has exactly one |
| AddressServices.FirstOther | src/main/java/com/flagcamp/delivery/service/AddressService.java:140-142 | the first listed address other than the deleted one; none exactly when the listing holds only the deleted one |
| AddressServices.AfterDelete | src/main/java/com/flagcamp/delivery/service/AddressService.java:131-151 | deleting removes the address, and when it was the default the first other listed address of the owner becomes default; nothing else changes |
| AddressServices.DeleteKeepsOneDefault | src/main/java/com/flagcamp/delivery/service/AddressService.java:131-151 | after a deletion every user who still has an address has exactly one default address |
| AddressServices.DeletePromotesNewest | src/main/java/com/flagcamp/delivery/service/AddressService.java:139-146 | in the repository's listing order (default first, then newest first) the address promoted on deleting the default is the newest remaining one |
| AddressServices.AddressService.constructor | src/main/java/com/flagcamp/delivery/service/AddressService.java:44-46 | a new service knows the given users and holds no addresses |
| AddressServices.AddressService.UnsetDefaults | src/main/java/com/flagcamp/delivery/service/AddressService.java:78-86 | the user's default flags are cleared as specified and nothing else changes |
| AddressServices.AddressService.AddAddress | src/main/java/com/flagcamp/delivery/service/AddressService.java:52-91 | an unknown user fails with "User not found"; a failed geocoding check fails with its error and changes nothing; otherwise the address is saved under the next id as specified. It accepts a user with addresses and no default, and keeps one default per user when that held before |
| AddressServices.AddressService.SaveNewAddress | src/main/java/com/flagcamp/delivery/service/AddressService.java:75-90 | the address is stored under the next id with the default rules of adding, and the id counter advances; one default per user is kept when it held before |
| AddressServices.AddressService.UpdateAddress | src/main/java/com/flagcamp/delivery/service/AddressService.java:93-129 | an unknown id fails with "Address not found"; a failed geocoding check fails with its error and changes nothing; otherwise the rows are updated as specified; one default per user is kept when it held before |
| AddressServices.AddressService.ApplyUpdate | src/main/java/com/flagcamp/delivery/service/AddressService.java:107-128 | the rows change exactly as the update specification says and the updated address is returned; one default per user is kept when it held before |
| AddressServices.AddressService.DeleteAddress | src/main/java/com/flagcamp/delivery/service/AddressService.java:131-151 | the result says whether the address existed; if so the rows change as the deletion specification says, otherwise not at all; one default per user is kept when it held before |
| AddressServices.AddressService.SetDefaultAddress | src/main/java/com/flagcamp/delivery/service/AddressService.java:153-169 | an address the user does not own fails with "Address not found" and changes nothing; otherwise the default changes as specified and the user has a default afterwards, including a user who had none; one default per user is kept when it held before |
| AddressServices.Matching | src/main/java/com/flagcamp/delivery/service/AddressService.java:265-303 | the kept addresses come from the list and pass the filter |
| AddressServices.MatchingComplete | src/main/java/com/flagcamp/delivery/service/AddressService.java:265-303 | every address in the list that passes the filter is kept |
| AddressServices.FirstFive | src/main/java/com/flagcamp/delivery/service/AddressService.java:278-309 | the first min(5, n) of the kept addresses |
| AddressServices.Tagged | src/main/java/com/flagcamp/delivery/service/AddressService.java:273-307 | each kept address is reported with the branch's confidence, in order |
| AddressServices.Picks | src/main/java/com/flagcamp/delivery/service/AddressService.java:265-279 | at most five suggestions, each a listed address that passes the filter with the given confidence; none exactly when no address passes; when at most five pass, all of them are suggested |
| AddressServices.Suggestions | src/main/java/com/flagcamp/delivery/service/AddressService.java:248-315 | a missing, blank or under-3-character query gives nothing; at most five suggestions; each is a Places prediction in the area at 0.95 or a local address containing the query at 0.85 |
| AddressServices.SuggestionsFallback | src/main/java/com/flagcamp/delivery/service/AddressService.java:288-312 | local suggestions appear only when the Places lookup failed or gave nothing in the area, and then every matching local address is suggested when at most five match |
| AddressServices.CollectFirstFive | src/main/java/com/flagcamp/delivery/service/AddressService.java:265-311 | the loop that stops at five suggestions returns exactly the first five matches, tagged |
| AddressServices.GetAddressSuggestions | src/main/java/com/flagcamp/delivery/service/AddressService.java:248-315 | the method returns the suggestions the specification gives for the fixed local address list |
| OrderServices.ValueOf | src/main/java/com/flagcamp/delivery/entity/DeliveryOrderStatus.java:3-6 | Enum.valueOf only succeeds on a constant's exact name, and then yields that constant |
| OrderServices.ValueOfName | src/main/java/com/flagcamp/delivery/entity/DeliveryOrderStatus.java:3-6 | every status is found again from its own name |
| OrderServices.Segment | src/main/java/com/flagcamp/delivery/service/OrderService.java:66 | the text before the first comma: a null text throws NullPointerException, a text made only of commas throws an index error (split drops trailing empty strings), otherwise a comma-free prefix of the text |
| OrderServices.Scan | src/main/java/com/flagcamp/delivery/service/OrderService.java:64-69 | the first listed address whose text contains the segment, in listing order; none when no address does, and the segment's error when the listing is not empty |
| OrderServices.PlaceholderAddress | src/main/java/com/flagcamp/delivery/service/OrderService.java:71-80 | a created address has the label "<contact>'s Address", the given text, city "Default City", postal code "00000", phone "0000000000", the owner if the user exists, and is not default |
| OrderServices.FindOrCreate | src/main/java/com/flagcamp/delivery/service/OrderService.java:62-83 | a found id is a listed one with the repository unchanged; a created one is the next id, and nothing else in the repository changes |
| OrderServices.ScanFindsOnly | src/main/java/com/flagcamp/delivery/service/OrderService.java:64-69 | a search where only one listed address holds the segment, and the others have texts, finds that address |
| OrderServices.FindOrCreateTwice | src/main/java/com/flagcamp/delivery/service/OrderService.java:37-48 | a pickup and delivery with the same text get the same address, and at most one is created |
| OrderServices.SegmentOfOwnText | src/main/java/com/flagcamp/delivery/service/OrderService.java:66 | an address always contains the first segment of its own text |
| OrderServices.CreatedIsFound | src/main/java/com/flagcamp/delivery/service/OrderService.java:64-69 | once an address for a text is listed, a later lookup of the same text finds an address instead of creating another |
| OrderServices.CreatedLeavesNoDefault | src/main/java/com/flagcamp/delivery/service/OrderService.java:71-81 | when a user's first address is created here, that user has an address but no default one |
| OrderServices.OrderNumber | src/main/java/com/flagcamp/delivery/service/OrderService.java:117 | an order number is "ORD" followed by the id |
| OrderServices.OrderIdOf | src/main/java/com/flagcamp/delivery/service/OrderService.java:105 | a parsed order id is always a 64-bit long |
| OrderServices.FindByOrderNumber | src/main/java/com/flagcamp/delivery/service/OrderService.java:102-110 | an order is found exactly when the number without "ORD" parses as a long that is a stored id, and then it is that order |
| OrderServices.OrderNumberRoundTrip | src/main/java/com/flagcamp/delivery/service/OrderService.java:105-117 | parsing "ORD" + id gives the id back |
| OrderServices.FindsByOwnNumber | src/main/java/com/flagcamp/delivery/service/OrderService.java:102-110 | every stored order is found by its own order number |
| OrderServices.FindsByBareId | src/main/java/com/flagcamp/delivery/service/OrderService.java:102-110 | every stored order is also found by its bare id, without "ORD" |
| OrderServices.StatusFilter | src/main/java/com/flagcamp/delivery/service/OrderService.java:86-93 | a status filter is only applied when the upper-cased text is a status name, and then it is that status |
| OrderServices.HistoryQueryFor | src/main/java/com/flagcamp/delivery/service/OrderService.java:85-100 | the history query is the user's orders by status exactly when the status filter applies, and otherwise all the user's orders |
| OrderServices.StatusFilterCaseInsensitive | src/main/java/com/flagcamp/delivery/service/OrderService.java:89 | a status name filters by that status in upper or lower case |
| OrderServices.BlankStatusUnfiltered | src/main/java/com/flagcamp/delivery/service/OrderService.java:87-98 | a blank status selects all of the user's orders |
| OrderServices.StandardDeliveryOptions | src/main/java/com/flagcamp/delivery/service/OrderService.java:185-210 | two fixed options: robot_standard at 12.50 with 3 available, and drone_express at 18.00 with 2 available and weather dependent |
| OrderServices.OrderService.constructor | src/main/java/com/flagcamp/delivery/service/OrderService.java:25-31 | a new service holds the given users and addresses and no orders |
| OrderServices.OrderService.Search | src/main/java/com/flagcamp/delivery/service/OrderService.java:64-69 | the loop over the listing returns the result of the scan specification |
| OrderServices.OrderService.FindOrCreateAddress | src/main/java/com/flagcamp/delivery/service/OrderService.java:62-83 | a failing segment fails and changes nothing; a found address is returned unchanged; otherwise a placeholder address is stored under the next id and returned. This is the FindOrCreate specification |
| OrderServices.OrderService.CreateOrder | src/main/java/com/flagcamp/delivery/service/OrderService.java:33-60 | an unknown user fails with "User not found", and a failure stores no order. Otherwise the pickup id is FindOrCreate over the user's listing, and the dropoff id is FindOrCreate over the listing after that step. A placeholder saved by either step carries that step's own creation stamp. A success stores a pending-payment order with those ids and the request's description and weight under the next id, and the addresses are those after both steps |
| OrderServices.OrderService.SelectDeliveryOption | src/main/java/com/flagcamp/delivery/service/OrderService.java:212-225 | an unknown number fails with "Order not found", an order not pending payment fails with "Order is not in pending payment state", and otherwise the order becomes paid and is saved |
| OrderServices.SelectOnceOnly | src/main/java/com/flagcamp/delivery/service/OrderService.java:212-225 | after an option is selected, the same number finds the paid order, so selecting again fails |
| Payments.CardOf | src/main/java/com/flagcamp/delivery/service/PaymentService.java:43-47 | a saved card's id is "card_" followed by the method id, with the method's last four digits, brand and default flag |
| Payments.SavedCards | src/main/java/com/flagcamp/delivery/service/PaymentService.java:40-50 | the saved cards come only from credit-card methods, at most one per method |
| Payments.SavedCardsComplete | src/main/java/com/flagcamp/delivery/service/PaymentService.java:41-49 | every active credit-card method appears as a saved card |
| Payments.NoCardsNoneSaved | src/main/java/com/flagcamp/delivery/service/PaymentService.java:41-49 | without credit-card methods no card is listed |
| Payments.AvailableMethods | src/main/java/com/flagcamp/delivery/service/PaymentService.java:53 | the available methods are credit_card, paypal and apple_pay, in that order |
| Payments.GetPaymentMethods | src/main/java/com/flagcamp/delivery/service/PaymentService.java:35-56 | the loop returns exactly the saved cards of the specification and the three available methods |
| Payments.DeviceId | src/main/java/com/flagcamp/delivery/service/PaymentService.java:95 | the assigned device is the lower-cased delivery type followed by "_r001" |
| Payments.Decide | src/main/java/com/flagcamp/delivery/service/PaymentService.java:58-96 | a missing order fails with "Order not found", an order not awaiting payment with "Order is not awaiting payment", the test card 4000000000000002 is declined, and otherwise the order is confirmed with its device assigned |
| Payments.PaidOnce | src/main/java/com/flagcamp/delivery/service/PaymentService.java:67-94 | an order that was paid once is refused as not awaiting payment when paid again |
| Payments.DeclineKeepsOrder | src/main/java/com/flagcamp/delivery/service/PaymentService.java:72-79 | paying an awaiting order with the test card 4000000000000002 is declined |
| Payments.PaymentFor | src/main/java/com/flagcamp/delivery/service/PaymentService.java:82-89 | the payment record is completed, by credit card, through stripe, for the order and amount, with a "PAY" id and a "txn_" transaction id, each made from its own clock reading |
| Payments.PaymentIdsReadBack | src/main/java/com/flagcamp/delivery/service/PaymentService.java:82-89 | the digits after "PAY" read back as the payment id's clock reading and the digits after "txn_" as the transaction id's, each taken separately (Payment.java:70 and PaymentService.java:88) |
| Payments.PaymentService.constructor | src/main/java/com/flagcamp/delivery/service/PaymentService.java:19-33 | a new service holds the given orders and no payments or history |
| Payments.PaymentService.ProcessPayment | src/main/java/com/flagcamp/delivery/service/PaymentService.java:58-119 | a refused payment returns its error and a declined one its reason, both changing nothing; an accepted one records the payment, with its id and transaction id taken from two separate clock readings, confirms the order with its device and logs the confirmation |
| Users.ResponseFor | src/main/java/com/flagcamp/delivery/service/UserService.java:76-82 | the login answer carries the user's id as text, email, names and the token |
| Users.HomeAddress | src/main/java/com/flagcamp/delivery/service/UserService.java:63-69 | the registration address is labelled "Home", in "Default City", with the user's phone, is default and belongs to the user |
| Users.HomeKeepsOneDefault | src/main/java/com/flagcamp/delivery/service/UserService.java:62-71 | adding the registration address keeps exactly one default address for every user who has addresses |
| Users.NewEmailKeepsUnique | src/main/java/com/flagcamp/delivery/service/UserService.java:47-49 | registering an email that no user has keeps emails unique |
| Users.Login | src/main/java/com/flagcamp/delivery/service/UserService.java:85-107 | given findByEmail's answer for the email: an unknown email or a wrong password fails with "Invalid credentials", a disabled account with "Account is disabled" only once the password matched, and otherwise the answer for the user holding that email |
| Users.ApplyProfile | src/main/java/com/flagcamp/delivery/service/UserService.java:195-205 | first name, last name and phone are replaced exactly when present in the data; email, password and enabled flag are kept |
| Users.ApplyNothing | src/main/java/com/flagcamp/delivery/service/UserService.java:195-205 | data without any of the three keys leaves the user unchanged |
| Users.ApplyIdempotent | src/main/java/com/flagcamp/delivery/service/UserService.java:195-205 | applying the same profile data twice is the same as applying it once |
| Users.UpdatedFields | src/main/java/com/flagcamp/delivery/service/UserService.java:156-183 | each profile field is listed exactly when it was in the profile data, "preferences" exactly when preferences were given, and then last |
| Users.AddressIdText | src/main/java/com/flagcamp/delivery/service/UserService.java:128 | an address id is "addr_" followed by the id |
| Users.AddressIdsDistinct | src/main/java/com/flagcamp/delivery/service/UserService.java:128 | different address ids give different texts |
| Users.AddressEntries | src/main/java/com/flagcamp/delivery/service/UserService.java:126-133 | one entry per listed address, in order, with its id text, default flag and full address |
| Users.UserService.constructor | src/main/java/com/flagcamp/delivery/service/UserService.java:22-35 | a new service has no users and no addresses |
| Users.UserService.Register | src/main/java/com/flagcamp/delivery/service/UserService.java:45-83 | a taken email fails with "Email already exists" and changes nothing; otherwise the user is stored with the encoded password, and a non-blank address becomes the user's default Home address |
| Users.UserService.UpdateProfile | src/main/java/com/flagcamp/delivery/service/UserService.java:191-208 | an unknown user fails with "User not found"; otherwise the profile data is applied and the user saved |
| Users.UserService.UpdateUserSettings | src/main/java/com/flagcamp/delivery/service/UserService.java:152-189 | an unknown user fails with "User not found". A null profile entry throws a NullPointerException. A profile that is not a map, or whose firstName, lastName or phone is neither a text nor null, throws a ClassCastException. Each failure leaves the users unchanged. Otherwise the cast profile data is applied and the updated fields are reported |
| Users.CastProfile | src/main/java/com/flagcamp/delivery/service/UserService.java:160-173 | the `(String)` casts fail exactly when firstName, lastName or phone holds a value that is neither a text nor null; otherwise every key is kept, a text as itself and null as null |
| Users.RegisterThenLogin | src/main/java/com/flagcamp/delivery/service/UserService.java:45-107 | after register saves a user under a fresh id with an email nobody had, emails stay unique, findByEmail for that email can only answer that id, and login with the registered password then succeeds with that user's answer |
| DeliveryOptionsControl.DeliveryOptions | src/main/java/com/flagcamp/delivery/controller/DeliveryOptionsController.java:14-58 | three fixed options in order: robot-1 at 8.99, drone-1 at 15.99 and weather dependent, standard-1 at 5.99 |
| DeliveryOptionsControl.WeightOf | src/main/java/com/flagcamp/delivery/controller/DeliveryOptionsController.java:67-79 | the weight is 5.0 when there is no package map or no weight entry, and an unparsable weight makes the request fail |
| DeliveryOptionsControl.RecommendationsFor | src/main/java/com/flagcamp/delivery/controller/DeliveryOptionsController.java:82-117 | the drone is recommended exactly for urgent parcels and first, the robot exactly for non-fragile parcels under 10 kg, and standard delivery always, last |
| DeliveryOptionsControl.GetRecommendations | src/main/java/com/flagcamp/delivery/controller/DeliveryOptionsController.java:60-132 | a request fails exactly when the weight cannot be parsed; otherwise the recommendations follow the rules above, the best option is the first recommendation, and the first of three factors reports the weight |
| DeliveryOptionsControl.BestOptionRule | src/main/java/com/flagcamp/delivery/controller/DeliveryOptionsController.java:120 | the best option is drone-1 for urgent parcels, else robot-1 for light non-fragile parcels, else standard-1 |
| DeliveryOptionsControl.NoPackageRecommendsRobot | src/main/java/com/flagcamp/delivery/controller/DeliveryOptionsController.java:67-117 | with no package information the 5 kg default makes the robot and standard delivery the recommendations |
| DeliveryOptionsControl.CalculateDeliveryOptions | src/main/java/com/flagcamp/delivery/controller/DeliveryOptionsController.java:134-171 | two options, robot-standard then drone-express, each totalling base price plus distance fee: 15.25 and 22.4 for the fixed 5.5 km |
| GeoPoints.MakeGeoPoint | src/main/java/com/flagcamp/delivery/model/GeoPoint.java:3-15 | a point is built exactly when the latitude is within [-90, 90] and the longitude within [-180, 180], keeping both; otherwise the latitude error is raised first, then the longitude error |
| GeoPoints.GeoPointBounds | src/main/java/com/flagcamp/delivery/model/GeoPoint.java:8-15 | the bounds are inclusive and any step past a bound is rejected with the error naming that coordinate |
| AddressEntity.BlankFields | src/main/java/com/flagcamp/delivery/entity/Address.java:37-72 | a new blank address has country "United States", is not default, and has empty place id and zip code and no formatted address |
| AddressEntity.FullAddressShape | src/main/java/com/flagcamp/delivery/entity/Address.java:216-218 | for trimmed fields the full address is "address, city postal code", or "address, city" when there is no postal code (the trailing space is trimmed) |
| AddressEntity.Address.Blank | src/main/java/com/flagcamp/delivery/entity/Address.java:72 | the no-argument constructor gives the blank address fields |
| AddressEntity.Address.constructor | src/main/java/com/flagcamp/delivery/entity/Address.java:75-85 | the six-argument constructor keeps its arguments, derives the formatted address, sets the zip code to the postal code or "", the place id to "", and leaves the defaults |
| AddressEntity.Address.SetId | src/main/java/com/flagcamp/delivery/entity/Address.java:92-94 | only the id changes |
| AddressEntity.Address.SetLabelText | src/main/java/com/flagcamp/delivery/entity/Address.java:100-102 | only the label changes |
| AddressEntity.Address.SetAddress | src/main/java/com/flagcamp/delivery/entity/Address.java:108-110 | only the street address changes |
| AddressEntity.Address.SetCity | src/main/java/com/flagcamp/delivery/entity/Address.java:116-118 | only the city changes |
| AddressEntity.Address.SetPostalCode | src/main/java/com/flagcamp/delivery/entity/Address.java:124-126 | only the postal code changes; the zip code and formatted address keep their old values |
| AddressEntity.Address.SetCountry | src/main/java/com/flagcamp/delivery/entity/Address.java:132-134 | only the country changes |
| AddressEntity.Address.SetPhone | src/main/java/com/flagcamp/delivery/entity/Address.java:140-142 | only the phone changes |
| AddressEntity.Address.SetDefault | src/main/java/com/flagcamp/delivery/entity/Address.java:148-150 | only the default flag changes |
| AddressEntity.Address.SetLatitude | src/main/java/com/flagcamp/delivery/entity/Address.java:156-158 | only the latitude changes |
| AddressEntity.Address.SetLongitude | src/main/java/com/flagcamp/delivery/entity/Address.java:164-166 | only the longitude changes |
| AddressEntity.Address.SetCreatedAt | src/main/java/com/flagcamp/delivery/entity/Address.java:172-174 | only the creation time changes |
| AddressEntity.Address.SetUser | src/main/java/com/flagcamp/delivery/entity/Address.java:188-190 | only the owner changes |
| AddressEntity.Address.SetFormattedAddress | src/main/java/com/flagcamp/delivery/entity/Address.java:196-198 | only the formatted address changes |
| AddressEntity.Address.SetPlaceId | src/main/java/com/flagcamp/delivery/entity/Address.java:205-207 | only the place id changes |
| AddressEntity.Address.SetZipCode | src/main/java/com/flagcamp/delivery/entity/Address.java:213-215 | only the zip code changes |
| Validation.RequiredIsTrim | utils/validation.ts:11-13 | a value counts as given exactly when trimming JavaScript whitespace from both ends leaves something |
| Validation.JsTrimLeftEmpty | utils/validation.ts:12 | trimming from the left leaves nothing exactly when every character is JavaScript whitespace |
| Validation.JsTrimRightEmpty | utils/validation.ts:12 | trimming from the right leaves nothing exactly when every character is JavaScript whitespace |
| Validation.ValidEmailShape | utils/validation.ts:1-4 | an accepted email contains no whitespace and exactly one '@', which is not its first character |
| Validation.ValidEmailExample | utils/validation.ts:1-4 | "ann@mail.com" is accepted and "ann@mail", which has no dot after the '@', is not |
| Validation.RemoveSpacesKeeps | utils/validation.ts:8 | removing whitespace leaves a whitespace-free text unchanged |
| Validation.RemoveSpacesAppend | utils/validation.ts:8 | removing whitespace works piecewise over a concatenation |
| Validation.PhoneIgnoresSpace | utils/validation.ts:6-9 | a space inside a phone number never changes whether it is accepted |
| Validation.PostalCodeExamples | utils/validation.ts:32-36 | "00000" and "94103-1234" are accepted postal codes and "94", under three characters, is not |
| Validation.ErrorFor | utils/validation.ts:47-101 | the error a failed check pushes names that field with its fixed message |
| Validation.ReportedMember | utils/validation.ts:43-86 | an error is reported exactly when the check for its field failed |
| Validation.ReportedSound | utils/validation.ts:43-86 | every reported error comes from a failed check |
| Validation.ReportedComplete | utils/validation.ts:43-86 | every failed check reports its error |
| Validation.ReportedEmpty | utils/validation.ts:43-86 | no errors are reported exactly when every check passed |
| Validation.ReportedOnce | utils/validation.ts:43-86 | with distinct fields, no field is reported twice |
| Validation.ReportedPush | utils/validation.ts:44-83 | one more check appends its error, if it failed, after the earlier ones |
| Validation.Step1Failures | utils/validation.ts:47-83 | there is one check per order field, eleven in all |
| Validation.Step1FieldsDistinct | utils/validation.ts:47-83 | the eleven order fields are distinct |
| Validation.Step1ReportMeaning | utils/validation.ts:43-86 | each field's error appears exactly when its check failed, none twice, and the list is empty exactly when every check passed |
| Validation.ValidateOrderStep1 | utils/validation.ts:43-86 | the form throws a TypeError exactly when any sender or recipient field, or the description, is missing; otherwise the errors reported are those of the failed checks, in field order |
| Validation.ParcelChecks | utils/validation.ts:74-83 | the parcel checks append the weight, value and description errors in order, and a missing description throws |
| Validation.PartyChecks | utils/validation.ts:46-72 | the checks of a sender or recipient append their four errors in order, and a missing party throws |
| Validation.Push | utils/validation.ts:47-83 | one check appends its field's error exactly when it failed |
| Validation.RegistrationErrorsMeaning | utils/validation.ts:88-105 | name, email, password and confirmation errors each appear exactly when their check fails, and none appear exactly when all pass |
| Validation.ValidateUserRegistration | utils/validation.ts:88-105 | registration throws exactly when the name or password is missing, and otherwise reports the registration errors |
| Validation.MissingEmailReported | utils/validation.ts:94-96 | a missing email (checked as the text "undefined") is reported as invalid |
| Formatting.DigitsOf | utils/formatting.ts:35 | removing every non-digit leaves only digits and never lengthens the text |
| Formatting.DigitsOfAppend | utils/formatting.ts:35 | removing non-digits works piecewise over a concatenation |
| Formatting.DigitsOfDigits | utils/formatting.ts:35 | a text of digits is left unchanged |
| Formatting.FormatPhoneNumber | utils/formatting.ts:33-49 | ten digits give "(XXX) XXX-XXXX", eleven digits starting with 1 give "+1 (XXX) XXX-XXXX", and anything else is returned as it was |
| Formatting.TenDigitLayout | utils/formatting.ts:39 | the ten-digit layout carries exactly its digits, in order |
| Formatting.ElevenDigitLayout | utils/formatting.ts:44 | the eleven-digit layout carries exactly the leading 1 and its digits, in order |
| Formatting.PhoneKeepsDigits | utils/formatting.ts:33-49 | formatting a phone number never adds, drops or reorders a digit |
| Formatting.FormatPhoneIdempotent | utils/formatting.ts:33-49 | formatting an already formatted number changes nothing |
| Formatting.FormatOrderId | utils/formatting.ts:64-66 | an order id is shown as '#' followed by the id in upper case |
| Formatting.OrderIdIgnoresCase | utils/formatting.ts:64-66 | lower- and upper-case ids are shown the same |
| Formatting.FormatEstimatedTime | utils/formatting.ts:68-81 | under an hour the text is the minutes followed by " mins"; from an hour on it starts with the whole hours |
| Formatting.EstimatedWholeHours | utils/formatting.ts:76-78 | whole hours are written "1 hour" or "N hours" |
| Formatting.EstimatedHoursAndMinutes | utils/formatting.ts:80 | hours with leftover minutes are written "Nh Mm" |
| Formatting.TruncateText | utils/formatting.ts:92-98 | text within the limit is kept; longer text becomes a prefix followed by "...", exactly the limit long when the limit is at least 3, and just "..." below that |
| Formatting.TruncateIdempotent | utils/formatting.ts:92-98 | truncating twice to the same limit of at least 3 is the same as truncating once |
| Formatting.CapitalizeFirstLetter | utils/formatting.ts:100-102 | only the first character is upper-cased, and the length is kept |
| Formatting.CapitalizeIdempotent | utils/formatting.ts:100-102 | capitalising twice is the same as capitalising once |
| Formatting.KeptParts | utils/formatting.ts:105-109 | the kept parts are the non-empty present ones; none are kept exactly when every part is missing or empty |
| Formatting.FormatAddressEmpty | utils/formatting.ts:104-112 | the formatted address is empty exactly when address, city and postal code are all missing or empty |
| Formatting.FormatAddressFull | utils/formatting.ts:104-112 | with all three parts given the address is "address, city, postal code" |
| Formatting.FormatAddressSkipsCity | utils/formatting.ts:104-112 | a missing or empty city is skipped without leaving an empty slot |
| AddressParsing.FirstMatch | components/AddressAutocomplete.tsx:88-131 | the first position from which the pattern matches, with no match before it; none when no position matches |
| AddressParsing.Cut | components/AddressAutocomplete.tsx:135 | removing a match of a given length shortens the text by exactly that length |
| AddressParsing.PostalCodeMeaning | components/AddressAutocomplete.tsx:88-132 | the postal code is empty exactly when no word-initial five-digit run exists; otherwise it is taken at the first such run and is five digits, or five digits, a dash and four digits |
| AddressParsing.PostalCodeLeading | components/AddressAutocomplete.tsx:88-89 | a leading five-digit code not followed by a dash is extracted as is |
| AddressParsing.PostalCodeExtended | components/AddressAutocomplete.tsx:88-89 | a leading ZIP+4 code is extracted with its extension |
| AddressParsing.WithoutPostalCodeMeaning | components/AddressAutocomplete.tsx:135 | removing the postal code leaves the text unchanged exactly when no whole-word code occurs in it |
| AddressParsing.WithoutCountryMeaning | components/AddressAutocomplete.tsx:135 | removing "USA" (any case) leaves the text unchanged exactly when no whole-word "USA" occurs in it |
| AddressParsing.StripPunctuation | components/AddressAutocomplete.tsx:101 | removing punctuation leaves no '.' or ',' |
| AddressParsing.StripTrailingPeriod | components/AddressAutocomplete.tsx:101 | a word followed by a period is compared as the word |
| AddressParsing.StripNothing | components/AddressAutocomplete.tsx:101 | a word without '.' or ',' is unchanged |
| AddressParsing.StreetSuffixIgnoresPeriod | components/AddressAutocomplete.tsx:98-102 | "Blvd." is recognised as a street suffix exactly when "Blvd" is |
| AddressParsing.StreetEnd | components/AddressAutocomplete.tsx:97-106 | the index of the first word that is a street suffix (ignoring case and punctuation), or -1 when there is none |
| AddressParsing.FindStreetEnd | components/AddressAutocomplete.tsx:97-106 | the loop with its early break returns the index of the specification |
| AddressParsing.SplitStreetCityMeaning | components/AddressAutocomplete.tsx:108-122 | after a suffix word the street is the words up to it and the city the rest, trimmed; without a suffix and at least three words the city is the last two words; otherwise the whole part is the street and the city is empty |
| AddressParsing.SuffixStreet | components/AddressAutocomplete.tsx:111 | the street is the words up to and including the suffix |
| AddressParsing.SuffixLast | components/AddressAutocomplete.tsx:111-112 | a suffix in last position leaves the city empty |
| AddressParsing.SuffixCity | components/AddressAutocomplete.tsx:111-112 | after the suffix the street is followed by a space and the city is the trimmed remainder |
| AddressParsing.LastTwoWordsCity | components/AddressAutocomplete.tsx:115-117 | without a suffix the last two words form the city and the rest the street, and they join back into the original |
| AddressParsing.SplitLastWordMeaning | components/AddressAutocomplete.tsx:138-140 | the state is the last word and the city the words before it; a one-word text is all state |
| AddressParsing.Parts | components/AddressAutocomplete.tsx:76 | there is one trimmed part per comma-separated piece |
| AddressParsing.ParseAddress | components/AddressAutocomplete.tsx:73-146 | without a comma the whole text is the street; with three or more parts the street and city come from the first part, the state is the second and the postal code is taken from the third; with two parts the street is the first and city, state and postal code come from the second |
| OrderContext.MergeEmpty | contexts/OrderContext.tsx:73-75 | merging an empty step changes nothing, and merging a step into an empty draft gives the step |
| OrderContext.MergeAssociative | contexts/OrderContext.tsx:73-75 | applying two steps one after the other is the same as applying their merge |
| OrderContext.MergeIdempotent | contexts/OrderContext.tsx:73-75 | applying the same step twice is the same as applying it once |
| OrderContext.NewOrder | contexts/OrderContext.tsx:78-88 | a confirmed order carries the draft's sender, recipient, parcel and option and has status confirmed. Each of the three clock readings gives its own field: the numeric id, the creation date, and a due date one day after the third reading, so at least a day after creation when the readings are in order |
| OrderContext.FindOrder | contexts/OrderContext.tsx:99-101 | the order found is the first with that id; none exactly when no order has the id |
| OrderContext.FindPrepended | contexts/OrderContext.tsx:90-100 | a newly prepended order is found by its id |
| OrderContext.FindPastPrepended | contexts/OrderContext.tsx:90-100 | prepending an order does not change the lookup of any other id |
| OrderContext.OrderProvider.constructor | contexts/OrderContext.tsx:69-71 | a new provider has an empty draft and no orders |
| OrderContext.OrderProvider.UpdateOrderStep | contexts/OrderContext.tsx:73-75 | the draft becomes the merge of the old draft and the step, later fields winning; the orders are unchanged |
| OrderContext.OrderProvider.ConfirmOrder | contexts/OrderContext.tsx:77-93 | a complete draft becomes a new order in front of the list and the draft is cleared, and the new order is found by its id; an incomplete draft changes nothing |
| OrderContext.OrderProvider.ClearCurrentOrder | contexts/OrderContext.tsx:95-97 | the draft is emptied and the orders are kept |
| OrderContext.OrderProvider.GetOrderById | contexts/OrderContext.tsx:99-101 | an order is returned only if it is stored under that id, and none exactly when no order has the id |
| LanguageContext.IndexOf | contexts/LanguageContext.tsx:112 | the position of a key among the names, or none exactly when the key is absent |
| LanguageContext.IndexOfDistinct | contexts/LanguageContext.tsx:112 | among distinct names each name is found at its own position |
| LanguageContext.CommonSections | contexts/LanguageContext.tsx:11-63 | the English and Chinese common sections are well formed and have the same keys in the same order |
| LanguageContext.AuthSections | contexts/LanguageContext.tsx:21-73 | the English and Chinese auth sections are well formed and have the same keys in the same order |
| LanguageContext.HomeSections | contexts/LanguageContext.tsx:31-79 | the English and Chinese home sections are well formed and have the same keys in the same order |
| LanguageContext.OrderSections | contexts/LanguageContext.tsx:37-95 | the English and Chinese order sections are well formed and have the same keys in the same order |
| LanguageContext.OrderNamesDistinct | contexts/LanguageContext.tsx:37-52 | the order section has no repeated key |
| LanguageContext.TablesAgree | contexts/LanguageContext.tsx:9-96 | both translation tables are well formed and have the same sections and keys |
| LanguageContext.WalkEntry | contexts/LanguageContext.tsx:107-115 | walking "section.key" through a table reaches that entry's text, which is not empty |
| LanguageContext.TranslateEntry | contexts/LanguageContext.tsx:107-116 | in English and Chinese every "section.key" of the table translates to its entry's text |
| LanguageContext.WalkUndefined | contexts/LanguageContext.tsx:111-113 | once a lookup is undefined it stays undefined for the remaining keys |
| LanguageContext.TranslateUnknownLanguage | contexts/LanguageContext.tsx:107-116 | for a language without a table every key is returned unchanged |
| LanguageContext.WalkShape | contexts/LanguageContext.tsx:111-113 | walking the same keys through two tables of the same shape ends at values of the same shape |
| LanguageContext.LanguagesAgree | contexts/LanguageContext.tsx:107-116 | a key is translated in English exactly when it is translated in Chinese |
| LanguageContext.LanguageProvider.constructor | contexts/LanguageContext.tsx:100-101 | the language starts as "en" |
| LanguageContext.LanguageProvider.SetLanguage | contexts/LanguageContext.tsx:103-105 | the language becomes the given one |
| LanguageContext.LanguageProvider.T | contexts/LanguageContext.tsx:107-116 | t returns the translation of the key in the current language |
| Strings.JavaTrim | src/main/java/com/flagcamp/delivery/service/AddressService.java:210-211 | String.trim removes every character up to U+0020 from both ends, and leaves nothing exactly when every character is one of those |
| Strings.JavaTrimKeeps | src/main/java/com/flagcamp/delivery/service/AddressService.java:211 | a text that does not start or end with such a character is unchanged by trim |
| Strings.JavaSplit | src/main/java/com/flagcamp/delivery/service/OrderService.java:66 | String.split returns a text without the separator as its only piece |
| Strings.DropTrailingEmpty | src/main/java/com/flagcamp/delivery/service/OrderService.java:66 | String.split drops the trailing empty pieces, keeping a prefix of the pieces that does not end in an empty one |
| Strings.JavaSplitJoin | src/main/java/com/flagcamp/delivery/service/OrderService.java:66 | splitting a join of non-empty separator-free pieces gives the pieces back |
| Strings.SplitHead | src/main/java/com/flagcamp/delivery/service/OrderService.java:66 | the first piece of String.split is missing exactly when the text is non-empty and made only of separators, and is otherwise a separator-free prefix that ends at the first separator |
| Strings.SplitJoin | contexts/LanguageContext.tsx:108 | JavaScript split undoes a join of separator-free pieces |
| Strings.JoinSplit | contexts/LanguageContext.tsx:108 | joining the pieces of a JavaScript split with the separator gives the text back |
| Strings.SplitOnSingle | contexts/LanguageContext.tsx:108 | a JavaScript split gives one piece exactly when the separator does not occur |
| Strings.ParseLongOfInt | src/main/java/com/flagcamp/delivery/service/OrderService.java:105 | Long.parseLong reads back every long written in decimal |
| Strings.JsTrim | utils/validation.ts:12 | JavaScript trim keeps a slice that does not start or end with JavaScript whitespace |
| JavaMath.Wrap32 | src/main/java/com/flagcamp/delivery/service/DeliveryTrackingService.java:97-98 | a Java int computation wraps into the 32-bit range and is unchanged when it already fits |
| JavaMath.JavaDiv | src/main/java/com/flagcamp/delivery/service/DeliveryLocationService.java:293-294 | Java's integer division agrees with the mathematical quotient on non-negative operands |
| JavaMath.DoubleToInt | src/main/java/com/flagcamp/delivery/service/DeliveryLocationService.java:289 | the (int) cast of a double truncates toward zero within the int range and saturates above it |
| JavaMath.Round | services/pricingEngine.ts:235-245 | Math.round gives the nearest integer, halves rounded up |
| JavaMath.Ceil | utils/deliverySimulation.ts:49 | Math.ceil gives the least integer not below its argument |
| Geo.LerpBetween | src/main/java/com/flagcamp/delivery/service/DeliveryTrackingService.java:168-169 | linear interpolation with a fraction in [0, 1] stays between the two end values |

## Left out

- Concurrency: the thread pool, `scheduleAtFixedRate`, `setInterval` and `ConcurrentHashMap` thread safety are left out. Each tick is a sequential method call.
- Network and foreign libraries are left out: the Google HTTP calls, RestTemplate, `PolylineEncoding.decode`, `@mapbox/polyline` and the WebSocket/messaging transport. Their replies are parameters, and a sent tracking update is recorded as an event.
- Haversine distance: every distance formula is the parameter `dist`, with only non-negativity and zero-on-identical assumed. The sin-curve offset in `generateRoutePoints` is a parameter as well.
- Floating point is modelled as exact `real`, so rounding error, NaN and infinities are left out. Java `Math.round`, `Math.ceil` and the `(int)` cast are written out on reals.
- Float-to-text formatting is left out: `toFixed`, `String.format("%.1f")`, `Intl.NumberFormat` and `toLocale*String`. Where the source prints a number, the model keeps the number. This covers formatCurrency, formatDate, formatDateTime, formatTime, formatWeight, formatDimensions and formatDistance in utils/formatting.ts.
- `validateNumeric` and `validatePositiveNumber` are left out: they depend on JS `Number()` coercion of text.
- Case conversion handles ASCII letters only: Java `toLowerCase`/`toUpperCase` and JS `toLowerCase`/`toUpperCase`. Strings are sequences of characters, so the JS UTF-16 code-unit length is not modelled.
- `formatEstimatedTime` takes whole minutes; fractional minutes are not modelled.
- `t` in the language context: a non-leaf key such as `common` is modelled as returning its section, but the lemmas about translations cover leaf keys only. Property lookups that reach a string's own properties or the object prototype are not modelled.
- `Date` objects become explicit hour-of-day, day-of-week and millisecond parameters. Object literals used as lookup tables become first-match sequences.
- Repositories are maps from id to record. Ordered `findBy...OrderBy...` listings are parameters required to list exactly the matching rows.
- `getActiveDeliveriesWithDetails` in DeliveryTrackingService is left out: it only assembles a presentation map.
- The other REST controllers, Spring configuration, DTOs, `ApiResponse` and all UI components are left out. They only parse requests, wrap responses or render screens.
- Entities other than `Address` are left out. The model uses only their initial states (Order PENDING_OPTIONS, DeliveryOrder PENDING_PAYMENT, Payment PENDING).
- The `async`/`await` in `createDeliverySimulation` is left out: route points are an input to the simulator.
- RoadsApi.InterpolatePoints: requires a non-empty list. The source throws on an empty list, and its only caller passes at least two points.
- ModernRoutes.ParseDecimal: accepts only an optional sign, digits and one optional '.' with digits. Java's `Double.parseDouble` also accepts exponents, surrounding whitespace, "Infinity", "NaN", hexadecimal forms and `d`/`f` suffixes, and the model reads those as a parse failure.
- Strings.ParseLong: accepts ASCII digits only. Java's `Long.parseLong` also accepts other Unicode decimal digits.
- `TestController` is left out. It calls `startDeliveryTracking` with a vehicle-type string that the service does not accept, so the model follows the service signature, its fixed mock routes and its fixed 8000 m distance.

## Findings

| source | as written | input that shows it | evidently intended | confidence | as-written member | corrected member |
|---|---|---|---|---|---|---|
| src/main/java/com/flagcamp/delivery/service/DeliveryTrackingService.java:97-98 | the tick period is `(d * 60) / (d * 2)` seconds in 32-bit `int` arithmetic, so `d * 60` wraps | `durationMinutes` d = 35791395 gives a period of -29, and `scheduleAtFixedRate` rejects a non-positive period, so tracking fails to start | a period of 30 seconds for every d > 0 | not executed | DeliveryTracking.TickPeriodOverflows | DeliveryTracking.TickPeriodIsThirty |
| src/main/java/com/flagcamp/delivery/service/DeliveryTrackingService.java:272 | the minutes are computed as `(int) Math.max(0, remainingSeconds / 60)` on a `long`, so the `int` cast comes after the floor at 0 and wraps large values to negative ones | `durationMinutes` d = 1900000000 (tick period 3 s in 32-bit arithmetic, so tracking starts); at the first tick, 3 s in, with the position nearest the first route point, the buffered minutes 2279999999 become −2014967297 and the ETA reads "即将送达" | the reported minutes are never negative, so a delivery still under way is never shown as arriving | not executed | DeliveryTracking.EtaWrapsAtFirstTick | DeliveryTracking.EtaMinutesAgree |
| services/pricingEngine.ts:165-174 | the leftover minutes are rounded on their own after the hours are floored | 22.425 km by standard robot takes 1.995 hours, which is shown as "1h 60m" | the minutes always stay below 60, and 1.995 hours is shown as "2 hours" | not executed | Pricing.EstimateSixtyMinutes | Pricing.EstimateMinutesBelowSixty |
