// The client-side pricing engine of pricingEngine.ts: rates by vehicle
// and service level, weight limits, time-of-day and bulk multipliers, the
// clamped demand multiplier, the fee breakdown with its floors, and the
// four priced delivery options.
module Pricing {
  import opened Wrappers
  import opened Geo
  import opened JavaMath
  import opened Strings

  datatype DeliveryType = Robot | Drone
  datatype ServiceLevel = Standard | Express

  datatype Rates = Rates(base: real, perKm: real, perKg: real)

  /** `BASE_RATES`. */
  function BaseRates(t: DeliveryType, l: ServiceLevel): Rates
  {
    match (t, l)
    case (Robot, Standard) => Rates(8.99, 1.20, 0.50)
    case (Robot, Express) => Rates(14.99, 1.80, 0.75)
    case (Drone, Standard) => Rates(18.99, 2.40, 1.20)
    case (Drone, Express) => Rates(28.99, 3.60, 1.80)
  }

  /** `WEIGHT_LIMITS`, in kg. */
  function WeightLimit(t: DeliveryType, l: ServiceLevel): real
  {
    match (t, l)
    case (Robot, Standard) => 25.0
    case (Robot, Express) => 20.0
    case (Drone, Standard) => 10.0
    case (Drone, Express) => 5.0
  }

  const ServiceFee: real := 2.50
  const MinInsuranceFee: real := 1.00
  const InsuranceRate: real := 0.015
  const MinimumPrice: real := 5.00

  // ------------------------------------------------------ time of day

  const RushHour: real := 1.35
  const PeakHour: real := 1.20
  const OffPeak: real := 1.00
  const LateNight: real := 0.90
  const Weekend: real := 1.10

  /**
   * `getTimeMultiplier` for the delivery time's hour (0..23) and day of
   * the week (0 = Sunday .. 6 = Saturday).
   */
  function TimeMultiplier(hour: int, day: int): real
  {
    if day == 0 || day == 6 then Weekend
    else if (7 <= hour < 9) || (12 <= hour < 13) || (17 <= hour < 19) then RushHour
    else if (9 <= hour < 12) || (13 <= hour < 17) then PeakHour
    else if hour >= 22 || hour < 6 then LateNight
    else OffPeak
  }

  /**
   * The weekday table hour by hour: rush at 7, 8, 12, 17, 18; peak at
   * 9-11 and 13-16; late night at 22, 23 and 0-5; off-peak at 6 and 19-21.
   * Weekends are 1.10 at every hour.
   */
  lemma TimeMultiplierTable(hour: int, day: int)
    requires 0 <= hour < 24
    ensures (day == 0 || day == 6) ==> TimeMultiplier(hour, day) == 1.10
    ensures day != 0 && day != 6 ==>
      (TimeMultiplier(hour, day) == 1.35 <==> hour in {7, 8, 12, 17, 18})
      && (TimeMultiplier(hour, day) == 1.20 <==> hour in {9, 10, 11, 13, 14, 15, 16})
      && (TimeMultiplier(hour, day) == 0.90 <==> hour in {22, 23, 0, 1, 2, 3, 4, 5})
      && (TimeMultiplier(hour, day) == 1.00 <==> hour in {6, 19, 20, 21})
  {
  }

  /** Every multiplier lies between the late-night discount and the rush-hour premium. */
  lemma TimeMultiplierRange(hour: int, day: int)
    ensures 0.90 <= TimeMultiplier(hour, day) <= 1.35
  {
  }

  // ----------------------------------------------------------- bulk tiers

  datatype Tier = Tier(minOrders: int, discount: real)

  /** `BULK_DISCOUNTS`, in ascending order of minimum order count. */
  const BulkTiers: seq<Tier> := [Tier(1, 0.0), Tier(3, 0.05), Tier(5, 0.10), Tier(10, 0.15), Tier(20, 0.20)]

  /** The tiers whose minimum the order count reaches, in order (the `filter`). */
  function Applicable(tiers: seq<Tier>, orderCount: real): (r: seq<Tier>)
    ensures forall t :: t in r <==> t in tiers && orderCount >= t.minOrders as real
  {
    if tiers == [] then []
    else (if orderCount >= tiers[0].minOrders as real then [tiers[0]] else [])
         + Applicable(tiers[1..], orderCount)
  }

  /** `getBulkDiscount`: the discount of the last applicable tier, or 0 if none applies. */
  function BulkDiscount(orderCount: real): real
  {
    var matching := Applicable(BulkTiers, orderCount);
    if matching == [] then 0.0 else matching[|matching| - 1].discount
  }

  /** The discount by order count, tier by tier. */
  lemma BulkDiscountTable(orderCount: real)
    ensures BulkDiscount(orderCount) ==
      if orderCount >= 20.0 then 0.20
      else if orderCount >= 10.0 then 0.15
      else if orderCount >= 5.0 then 0.10
      else if orderCount >= 3.0 then 0.05
      else 0.0
  {
    var c := orderCount;
    var k := if c >= 20.0 then 5 else if c >= 10.0 then 4 else if c >= 5.0 then 3
             else if c >= 3.0 then 2 else if c >= 1.0 then 1 else 0;
    ApplicablePrefix(BulkTiers, c, k);
  }

  /**
   * When the count reaches exactly the first k tiers, the filter keeps
   * those k tiers, in order.
   */
  lemma {:induction false} ApplicablePrefix(tiers: seq<Tier>, orderCount: real, k: nat)
    requires k <= |tiers|
    requires forall i :: 0 <= i < k ==> orderCount >= tiers[i].minOrders as real
    requires forall i :: k <= i < |tiers| ==> orderCount < tiers[i].minOrders as real
    ensures Applicable(tiers, orderCount) == tiers[..k]
  {
    if tiers != [] {
      var next := if k > 0 then k - 1 else 0;
      ApplicablePrefix(tiers[1..], orderCount, next);
      if k > 0 {
        assert tiers[..k] == [tiers[0]] + tiers[1..][..next];
      }
    }
  }

  /** More orders never get a smaller discount, and the discount is between 0 and 20%. */
  lemma BulkDiscountMonotone(a: real, b: real)
    requires a <= b
    ensures 0.0 <= BulkDiscount(a) <= BulkDiscount(b) <= 0.20
  {
    BulkDiscountTable(a);
    BulkDiscountTable(b);
  }

  // ---------------------------------------------------------------- demand

  /**
   * `getDemandMultiplier`: 1 plus the lunch (12-13h), dinner (17-18h),
   * business-district (latitude within 0.01 of 40.7589) and drone
   * surcharges and the market draw `random`·0.20 − 0.05, clamped to
   * [0.8, 1.5]. `random` is the value of Math.random().
   */
  function DemandMultiplier(hour: int, lat: real, t: DeliveryType, random: real): (m: real)
    ensures 0.8 <= m <= 1.5
  {
    var isBusinessDistrict := -0.01 < lat - 40.7589 < 0.01;
    var demandFactor :=
      (if 12 <= hour < 14 then 0.15 else 0.0)
      + (if 17 <= hour < 19 then 0.20 else 0.0)
      + (if isBusinessDistrict then 0.10 else 0.0)
      + (if t == Drone then 0.05 else 0.0)
      + (random * 0.20 - 0.05);
    MaxR(0.8, MinR(1.5, 1.0 + demandFactor))
  }

  /** A higher market draw never lowers the demand multiplier. */
  lemma DemandMonotoneInDraw(hour: int, lat: real, t: DeliveryType, r1: real, r2: real)
    requires r1 <= r2
    ensures DemandMultiplier(hour, lat, t, r1) <= DemandMultiplier(hour, lat, t, r2)
  {
  }

  /** At the default location, a drone at dinner time with any draw in [0, 1) pays at least 1.30. */
  lemma DemandAtDinner(random: real)
    requires 0.0 <= random < 1.0
    ensures DemandMultiplier(17, 40.7589, Drone, random) >= 1.30
  {
  }

  // ------------------------------------------------------- estimated time

  /** A delivery-time estimate, before it is written out. */
  datatype Estimate = Minutes(n: int) | Hours(h: int) | HoursMinutes(h: int, m: int)

  /** The text of an estimate. */
  function EstimateText(e: Estimate): string
  {
    match e
    case Minutes(n) => IntToString(n) + " minutes"
    case Hours(h) => if h == 1 then "1 hour" else IntToString(h) + " hours"
    case HoursMinutes(h, m) => IntToString(h) + "h " + IntToString(m) + "m"
  }

  /** The speeds of `getEstimatedTime`, in km/h. */
  function EstimateSpeed(t: DeliveryType, l: ServiceLevel): real
  {
    match (t, l)
    case (Robot, Standard) => 15.0
    case (Robot, Express) => 25.0
    case (Drone, Standard) => 45.0
    case (Drone, Express) => 65.0
  }

  /** Travel time plus handling (15 minutes express, 30 standard), in hours. */
  function TotalHours(distance: real, t: DeliveryType, l: ServiceLevel): real
  {
    distance / EstimateSpeed(t, l) + (if l == Express then 0.25 else 0.5)
  }

  /** The fractional part of a non-negative number (JavaScript's `x % 1`). */
  function Frac(x: real): (f: real)
    requires x >= 0.0
    ensures 0.0 <= f < 1.0
  {
    x - x.Floor as real
  }

  /**
   * `getEstimatedTime` as written: under an hour, the rounded minutes;
   * else the whole hours and the rounded minutes of the fraction, which
   * rounds up to 60 when the fraction is 59.5 minutes or more.
   */
  function EstimatedTimeAsWritten(distance: real, t: DeliveryType, l: ServiceLevel): Estimate
  {
    var totalHours := TotalHours(distance, t, l);
    if totalHours < 1.0 then Minutes(Round(totalHours * 60.0))
    else
      var hours := if totalHours < 2.0 then 1 else totalHours.Floor;
      var minutes := Round(Frac(totalHours) * 60.0);
      if minutes > 0 then HoursMinutes(hours, minutes) else Hours(hours)
  }

  /** A robot on standard service over 22.425 km is estimated at "1h 60m". */
  lemma EstimateSixtyMinutes()
    ensures EstimatedTimeAsWritten(22.425, Robot, Standard) == HoursMinutes(1, 60)
    ensures EstimateText(EstimatedTimeAsWritten(22.425, Robot, Standard)) == "1h 60m"
  {
    assert TotalHours(22.425, Robot, Standard) == 1.995;
    assert (1.995).Floor == 1;
    assert Round(Frac(1.995) * 60.0) == 60;
  }

  /**
   * The estimate with the minutes rounded before they are split into
   * hours, so that the minutes part is always below 60.
   */
  function EstimatedTime(distance: real, t: DeliveryType, l: ServiceLevel): Estimate
  {
    var totalHours := TotalHours(distance, t, l);
    if totalHours < 1.0 then Minutes(Round(totalHours * 60.0))
    else
      var total := Round(totalHours * 60.0);
      if total % 60 > 0 then HoursMinutes(total / 60, total % 60) else Hours(total / 60)
  }

  /**
   * From one hour on, the estimate is the rounded total minutes split
   * into whole hours (at least one) and a remainder of 1 to 59 minutes.
   */
  lemma EstimateMinutesBelowSixty(distance: real, t: DeliveryType, l: ServiceLevel)
    requires TotalHours(distance, t, l) >= 1.0
    ensures var e := EstimatedTime(distance, t, l);
      var total := Round(TotalHours(distance, t, l) * 60.0);
      match e
      case Minutes(_) => false
      case Hours(h) => h >= 1 && h * 60 == total
      case HoursMinutes(h, m) => h >= 1 && 1 <= m < 60 && h * 60 + m == total
  {
  }

  /** Where the minutes do not round up to a full hour, both estimates agree. */
  lemma EstimateAgrees(distance: real, t: DeliveryType, l: ServiceLevel)
    requires 1.0 <= TotalHours(distance, t, l)
    requires Frac(TotalHours(distance, t, l)) * 60.0 < 59.5
    ensures EstimatedTime(distance, t, l) == EstimatedTimeAsWritten(distance, t, l)
  {
    var x := TotalHours(distance, t, l);
    var whole := x.Floor;
    var m := Round(Frac(x) * 60.0);
    assert x * 60.0 == whole as real * 60.0 + Frac(x) * 60.0;
    assert Round(x * 60.0) == whole * 60 + m;
    assert 0 <= m < 60;
  }

  // -------------------------------------------------------------- pricing

  /** The `PricingFactors`: `hour` and `day` are those of the delivery time. */
  datatype Factors = Factors(
    distance: real, weight: real, packageValue: real,
    hour: int, day: int,
    deliveryType: DeliveryType, serviceLevel: ServiceLevel,
    orderCount: Option<real>, demandMultiplier: Option<real>)

  datatype Breakdown = Breakdown(
    baseFee: real, distanceFee: real, weightFee: real, timePremium: real,
    insuranceFee: real, serviceFee: real, bulkDiscount: real, demandAdjustment: real,
    totalBeforeDiscounts: real, totalDiscounts: real, finalPrice: real)

  /** `DeliveryPricing`; the empty breakdown of an unavailable option is None. */
  datatype DeliveryPricing = DeliveryPricing(
    price: real, breakdown: Option<Breakdown>, estimatedTime: string, available: bool)

  /** Rounding to cents: Math.round(x·100)/100. */
  function Cents(x: real): real
  {
    Round(Scale(x, 100.0)) as real / 100.0
  }

  lemma CentsMonotone(x: real, y: real)
    requires x <= y
    ensures Cents(x) <= Cents(y)
  {
    assert Round(Scale(x, 100.0)) <= Round(Scale(y, 100.0));
  }

  /** Whole cent amounts are kept by the rounding. */
  lemma CentsExact()
    ensures Cents(5.0) == 5.0 && Cents(1.0) == 1.0 && Cents(2.5) == 2.5
  {
    assert Scale(5.0, 100.0) == 500.0 && Round(500.0) == 500;
    assert Scale(1.0, 100.0) == 100.0 && Round(100.0) == 100;
    assert Scale(2.5, 100.0) == 250.0 && Round(250.0) == 250;
  }

  /**
   * The demand multiplier used: the given one unless it is absent or 0
   * (falsy), else a draw for the default New York location.
   */
  function ChosenDemand(f: Factors, random: real): real
  {
    match f.demandMultiplier
    case Some(d) => if d != 0.0 then d else DemandMultiplier(f.hour, 40.7589, f.deliveryType, random)
    case None => DemandMultiplier(f.hour, 40.7589, f.deliveryType, random)
  }

  /** The fees of an available option, before rounding. */
  function Fees(f: Factors, random: real): Breakdown
  {
    var rates := BaseRates(f.deliveryType, f.serviceLevel);
    var baseFee := rates.base;
    var distanceFee := Scale(f.distance, rates.perKm);
    var weightFee := Scale(f.weight, rates.perKg);
    var timePremium := Scale(baseFee + distanceFee + weightFee, TimeMultiplier(f.hour, f.day) - 1.0);
    var insuranceFee := MaxR(MinInsuranceFee, Scale(f.packageValue, InsuranceRate));
    var totalBeforeDiscounts := baseFee + distanceFee + weightFee + timePremium + insuranceFee + ServiceFee;
    var orderCount := match f.orderCount case Some(c) => c case None => 1.0;
    var bulkDiscount := Scale(totalBeforeDiscounts, BulkDiscount(orderCount));
    var afterDiscounts := totalBeforeDiscounts - bulkDiscount;
    var demandAdjustment := Scale(afterDiscounts, ChosenDemand(f, random) - 1.0);
    var finalPrice := MaxR(MinimumPrice, afterDiscounts + demandAdjustment);
    Breakdown(baseFee, distanceFee, weightFee, timePremium, insuranceFee, ServiceFee,
              bulkDiscount, demandAdjustment, totalBeforeDiscounts, bulkDiscount, finalPrice)
  }

  function RoundBreakdown(b: Breakdown): Breakdown
  {
    Breakdown(Cents(b.baseFee), Cents(b.distanceFee), Cents(b.weightFee), Cents(b.timePremium),
              Cents(b.insuranceFee), Cents(b.serviceFee), Cents(b.bulkDiscount), Cents(b.demandAdjustment),
              Cents(b.totalBeforeDiscounts), Cents(b.totalDiscounts), Cents(b.finalPrice))
  }

  /** `calculatePricing`, with `random` the draw used when no demand multiplier is given. */
  function CalculatePricing(f: Factors, random: real): DeliveryPricing
  {
    if !(f.weight <= WeightLimit(f.deliveryType, f.serviceLevel)) then
      DeliveryPricing(0.0, None, "Not available", false)
    else
      var breakdown := RoundBreakdown(Fees(f, random));
      DeliveryPricing(breakdown.finalPrice, Some(breakdown),
                      EstimateText(EstimatedTimeAsWritten(f.distance, f.deliveryType, f.serviceLevel)), true)
  }

  /**
   * An option is unavailable exactly when the weight exceeds its limit,
   * and then it has price 0, no breakdown and the text "Not available".
   */
  lemma PricingAvailability(f: Factors, random: real)
    ensures var p := CalculatePricing(f, random);
      (p.available <==> f.weight <= WeightLimit(f.deliveryType, f.serviceLevel))
      && (!p.available ==> p.price == 0.0 && p.breakdown == None && p.estimatedTime == "Not available")
      && (p.available ==> p.breakdown.Some? && p.price == p.breakdown.value.finalPrice)
      && (p.available ==> p.estimatedTime == EstimateText(EstimatedTimeAsWritten(f.distance, f.deliveryType, f.serviceLevel)))
  {
  }

  /** The quoted time of an available robot on standard service over 22.425 km is "1h 60m". */
  lemma PricedSixtyMinutes(f: Factors, random: real)
    requires f.distance == 22.425 && f.deliveryType == Robot && f.serviceLevel == Standard
    requires f.weight <= WeightLimit(Robot, Standard)
    ensures CalculatePricing(f, random).estimatedTime == "1h 60m"
  {
    EstimateSixtyMinutes();
  }

  /**
   * The floors hold for every available option: the price is at least
   * $5.00 and the insurance fee at least $1.00, also after rounding; the
   * discounts are exactly the bulk discount.
   */
  lemma PricingFloors(f: Factors, random: real)
    ensures var p := CalculatePricing(f, random);
      p.available ==>
        p.price >= 5.0 && p.breakdown.value.insuranceFee >= 1.0
        && p.breakdown.value.serviceFee == 2.5
        && p.breakdown.value.totalDiscounts == p.breakdown.value.bulkDiscount
  {
    var b := Fees(f, random);
    CentsMonotone(5.0, b.finalPrice);
    CentsMonotone(1.0, b.insuranceFee);
    CentsExact();
  }

  lemma ScaleDistributes(a: real, m: real)
    ensures a + Scale(a, m - 1.0) == Scale(a, m)
  {
  }

  /**
   * How the unrounded fees combine: the time premium scales the base,
   * distance and weight fees by (multiplier − 1); the total before
   * discounts is the sum of the six fees; and the final price is the
   * discounted total times the demand multiplier, or $5.00 if that is less.
   */
  lemma FeesCombine(f: Factors, random: real)
    ensures var b := Fees(f, random);
      var orderCount := match f.orderCount case Some(c) => c case None => 1.0;
      b.baseFee + b.distanceFee + b.weightFee + b.timePremium
        == Scale(b.baseFee + b.distanceFee + b.weightFee, TimeMultiplier(f.hour, f.day))
      && b.totalBeforeDiscounts
        == b.baseFee + b.distanceFee + b.weightFee + b.timePremium + b.insuranceFee + b.serviceFee
      && b.bulkDiscount == Scale(b.totalBeforeDiscounts, BulkDiscount(orderCount))
      && b.finalPrice
        == MaxR(5.0, Scale(b.totalBeforeDiscounts - b.bulkDiscount, ChosenDemand(f, random)))
      && b.insuranceFee == MaxR(1.0, Scale(f.packageValue, 0.015))
  {
    var b := Fees(f, random);
    ScaleDistributes(b.baseFee + b.distanceFee + b.weightFee, TimeMultiplier(f.hour, f.day));
    ScaleDistributes(b.totalBeforeDiscounts - b.bulkDiscount, ChosenDemand(f, random));
  }

  /** A non-zero supplied demand multiplier is used as is; absent or 0, a draw is used. */
  lemma DemandChoice(f: Factors, random: real)
    ensures f.demandMultiplier.Some? && f.demandMultiplier.value != 0.0 ==>
      ChosenDemand(f, random) == f.demandMultiplier.value
    ensures f.demandMultiplier == None || f.demandMultiplier == Some(0.0) ==>
      0.8 <= ChosenDemand(f, random) <= 1.5
  {
  }

  // -------------------------------------------------------------- options

  datatype PricedOption = PricedOption(
    id: string, deliveryType: DeliveryType, serviceLevel: ServiceLevel,
    name: string, description: string, pricing: DeliveryPricing)

  datatype OptionSpec = OptionSpec(
    id: string, deliveryType: DeliveryType, serviceLevel: ServiceLevel, name: string, description: string)

  const OptionSpecs: seq<OptionSpec> := [
    OptionSpec("1", Robot, Standard, "Ground Robot - Standard", "Reliable ground delivery robot for secure transport"),
    OptionSpec("2", Robot, Express, "Ground Robot - Express", "Priority ground delivery with faster service"),
    OptionSpec("3", Drone, Standard, "Drone - Standard", "Aerial delivery for urgent packages"),
    OptionSpec("4", Drone, Express, "Drone - Express", "Ultra-fast aerial delivery service")
  ]

  /** The option a spec describes, with the given pricing. */
  function WithPricing(s: OptionSpec, pricing: DeliveryPricing): (o: PricedOption)
    ensures o.id == s.id && o.deliveryType == s.deliveryType && o.serviceLevel == s.serviceLevel
    ensures o.name == s.name && o.description == s.description && o.pricing == pricing
  {
    PricedOption(s.id, s.deliveryType, s.serviceLevel, s.name, s.description, pricing)
  }

  /** The options of specs, the i-th priced by `price` as the (k + i)-th option priced. */
  function PriceOptions(specs: seq<OptionSpec>, price: (OptionSpec, nat) -> DeliveryPricing, k: nat)
    : (r: seq<PricedOption>)
    ensures |r| == |specs|
  {
    if specs == [] then []
    else [WithPricing(specs[0], price(specs[0], k))] + PriceOptions(specs[1..], price, k + 1)
  }

  /** The i-th option is the i-th spec, priced as the (k + i)-th option priced. */
  lemma {:induction false} PriceOptionsAt(specs: seq<OptionSpec>, price: (OptionSpec, nat) -> DeliveryPricing, k: nat)
    ensures forall i :: 0 <= i < |specs| ==>
      PriceOptions(specs, price, k)[i] == WithPricing(specs[i], price(specs[i], k + i))
  {
    if specs != [] {
      var r := PriceOptions(specs, price, k);
      var rest := PriceOptions(specs[1..], price, k + 1);
      PriceOptionsAt(specs[1..], price, k + 1);
      forall i | 1 <= i < |specs| ensures r[i] == WithPricing(specs[i], price(specs[i], k + i)) {
        assert r[i] == rest[i - 1] && specs[1..][i - 1] == specs[i] && k + 1 + (i - 1) == k + i;
      }
    }
  }

  /** The pricing of a spec's type and level, with the i-th random draw. */
  function SpecPricing(f: Factors, random: nat -> real): (OptionSpec, nat) -> DeliveryPricing
  {
    (s: OptionSpec, i: nat) => CalculatePricing(f.(deliveryType := s.deliveryType, serviceLevel := s.serviceLevel), random(i))
  }

  /** `getAllDeliveryOptions`. */
  function GetAllDeliveryOptions(f: Factors, random: nat -> real): seq<PricedOption>
  {
    PriceOptions(OptionSpecs, SpecPricing(f, random), 0)
  }

  /**
   * Exactly four options, ids "1" to "4", robot standard, robot express,
   * drone standard, drone express, each priced as its own type and level.
   */
  lemma AllDeliveryOptions(f: Factors, random: nat -> real)
    ensures var r := GetAllDeliveryOptions(f, random);
      |r| == 4
      && r[0].id == "1" && r[0].deliveryType == Robot && r[0].serviceLevel == Standard
      && r[1].id == "2" && r[1].deliveryType == Robot && r[1].serviceLevel == Express
      && r[2].id == "3" && r[2].deliveryType == Drone && r[2].serviceLevel == Standard
      && r[3].id == "4" && r[3].deliveryType == Drone && r[3].serviceLevel == Express
      && forall i :: 0 <= i < 4 ==>
        r[i].pricing == CalculatePricing(f.(deliveryType := r[i].deliveryType, serviceLevel := r[i].serviceLevel), random(i))
  {
    PriceOptionsAt(OptionSpecs, SpecPricing(f, random), 0);
  }

  /** The drone options are unavailable above 10 kg, and every option above 25 kg. */
  lemma HeavyParcels(f: Factors, random: nat -> real)
    ensures var r := GetAllDeliveryOptions(f, random);
      (f.weight > 10.0 ==> !r[2].pricing.available && !r[3].pricing.available)
      && (f.weight > 25.0 ==> forall i :: 0 <= i < 4 ==> !r[i].pricing.available)
  {
    AllDeliveryOptions(f, random);
  }
}
