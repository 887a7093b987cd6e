// DeliveryOptionsController: the fixed option list, the rule-based
// recommendations and the mock price calculation.
module DeliveryOptionsControl {
  import opened Wrappers
  import opened Strings
  import opened JavaMath

  /** One entry of the "/delivery/options" list. */
  datatype DeliveryChoice = DeliveryChoice(
    id: string, kind: string, name: string, price: real, estimatedTime: string, available: int,
    weatherDependent: bool, description: string)

  /** `getDeliveryOptions`: the robot, the drone and the standard service, whatever the order. */
  function DeliveryOptions(): (r: seq<DeliveryChoice>)
    ensures |r| == 3
    ensures r[0].id == "robot-1" && r[1].id == "drone-1" && r[2].id == "standard-1"
    ensures r[0].price == 8.99 && r[1].price == 15.99 && r[2].price == 5.99
    ensures r[1].weatherDependent && !r[0].weatherDependent && !r[2].weatherDependent
  {
    [DeliveryChoice("robot-1", "robot", "Ground Robot", 8.99, "60-90 min", 5, false,
                    "Autonomous ground robot delivery"),
     DeliveryChoice("drone-1", "drone", "Express Drone", 15.99, "30-45 min", 3, true, "Fast aerial drone delivery"),
     DeliveryChoice("standard-1", "standard", "Standard Delivery", 5.99, "2-3 hours", 10, false,
                    "Traditional delivery service")]
  }

  // --------------------------------------------------------- recommendations

  /** The "weight" entry: a value whose text parseDouble reads, or one it rejects. */
  datatype WeightValue = Parsed(kg: real) | Unparsable

  /**
   * The "packageInfo" entry: not a map (absent included), or a map with
   * its "type", whether "urgent" is the Boolean true, and its "weight"
   * (None when absent or null).
   */
  datatype PackageInfo = NotAMap | PackageMap(packageType: Option<string>, urgent: bool, weight: Option<WeightValue>)

  const DefaultWeight: real := 5.0

  /** Fragile means the type "fragile" or "electronics". */
  predicate IsFragile(p: PackageInfo)
  {
    p.PackageMap? && (p.packageType == Some("fragile") || p.packageType == Some("electronics"))
  }

  predicate IsUrgent(p: PackageInfo)
  {
    p.PackageMap? && p.urgent
  }

  /** The weight the rules use: the parsed weight, 5.0 when there is none; None where parseDouble throws. */
  function WeightOf(p: PackageInfo): (w: Option<real>)
    ensures w.None? <==> p.PackageMap? && p.weight == Some(Unparsable)
    ensures (p.NotAMap? || p.weight.None?) ==> w == Some(DefaultWeight)
  {
    if p.NotAMap? || p.weight.None? then Some(DefaultWeight)
    else if p.weight.value.Unparsable? then None
    else Some(p.weight.value.kg)
  }

  /** One recommendation. */
  datatype Recommendation = Recommendation(
    optionId: string, kind: string, name: string, price: real, estimatedTime: string, reason: string, score: int)

  const DroneRecommendation: Recommendation :=
    Recommendation("drone-1", "drone", "Express Drone - Recommended for urgent delivery", 15.99, "30-45 min",
                   "Fastest delivery option for urgent packages", 95)
  const RobotRecommendation: Recommendation :=
    Recommendation("robot-1", "robot", "Ground Robot - Best value", 8.99, "60-90 min",
                   "Cost-effective and reliable for standard packages", 85)
  const StandardRecommendation: Recommendation :=
    Recommendation("standard-1", "standard", "Standard Delivery", 5.99, "2-3 hours", "Most economical option", 70)

  /** The recommendations for a weight, a fragility and an urgency, in the order they are added. */
  function RecommendationsFor(weight: real, fragile: bool, urgent: bool): (r: seq<Recommendation>)
    ensures DroneRecommendation in r <==> urgent
    ensures RobotRecommendation in r <==> weight < 10.0 && !fragile
    ensures |r| >= 1 && r[|r| - 1] == StandardRecommendation
    ensures urgent ==> r[0] == DroneRecommendation
    ensures forall k :: 0 <= k < |r| - 1 ==> r[k] != StandardRecommendation
    ensures |r| == 1 + (if urgent then 1 else 0) + (if weight < 10.0 && !fragile then 1 else 0)
  {
    (if urgent then [DroneRecommendation] else [])
    + (if weight < 10.0 && !fragile then [RobotRecommendation] else [])
    + [StandardRecommendation]
  }

  /** The answer of getRecommendations. */
  datatype Recommendations = Recommendations(recommendations: seq<Recommendation>, bestOption: string, factors: seq<string>)

  /**
   * `getRecommendations`: the rules applied to the package's weight,
   * fragility and urgency; the best option is the first recommendation's
   * id; None where parsing the weight throws. `show` is Double.toString.
   */
  function GetRecommendations(p: PackageInfo, show: real -> string): (r: Option<Recommendations>)
    ensures r.None? <==> WeightOf(p).None?
    ensures r.Some? ==>
      r.value.recommendations == RecommendationsFor(WeightOf(p).value, IsFragile(p), IsUrgent(p))
      && r.value.bestOption == r.value.recommendations[0].optionId
      && |r.value.factors| == 3
      && r.value.factors[0] == "Package weight: " + show(WeightOf(p).value) + " kg"
  {
    var weight := WeightOf(p);
    if weight.None? then None
    else
      var recs := RecommendationsFor(weight.value, IsFragile(p), IsUrgent(p));
      Some(Recommendations(recs, if recs == [] then "standard-1" else recs[0].optionId,
                           ["Package weight: " + show(weight.value) + " kg",
                            if IsFragile(p) then "Fragile handling required" else "Standard handling",
                            if IsUrgent(p) then "Urgent delivery requested" else "Standard delivery timeframe"]))
  }

  /** The best option: the drone when urgent, else the robot for a light non-fragile package, else standard. */
  lemma BestOptionRule(p: PackageInfo, show: real -> string)
    requires WeightOf(p).Some?
    ensures GetRecommendations(p, show).value.bestOption ==
      if IsUrgent(p) then "drone-1"
      else if WeightOf(p).value < 10.0 && !IsFragile(p) then "robot-1"
      else "standard-1"
  {
  }

  /** Without package information the robot is recommended: the default weight is light and nothing is fragile. */
  lemma NoPackageRecommendsRobot(show: real -> string)
    ensures GetRecommendations(NotAMap, show).value.recommendations == [RobotRecommendation, StandardRecommendation]
  {
  }

  // ---------------------------------------------------------- price calculation

  /** The mock distance the calculation uses, in km. */
  const MockDistanceKm: real := 5.5

  /** One calculated option: base price, distance fee and their total. */
  datatype CalculatedOption = CalculatedOption(
    optionId: string, kind: string, name: string, basePrice: real, distanceFee: real, totalPrice: real,
    estimatedTime: string, availableCount: int, weatherDependent: bool)

  /** An option priced for a distance: the fee is distance × rate and the total adds the base price. */
  function Priced(optionId: string, kind: string, name: string, basePrice: real, ratePerKm: real, distance: real,
                  minutesPerKm: real, availableCount: int, weatherDependent: bool): (o: CalculatedOption)
    ensures o.totalPrice == o.basePrice + o.distanceFee && o.basePrice == basePrice
    ensures o.distanceFee == distance * ratePerKm
  {
    CalculatedOption(optionId, kind, name, basePrice, distance * ratePerKm, basePrice + distance * ratePerKm,
                     IntToString(Round(distance * minutesPerKm)) + " 分钟", availableCount, weatherDependent)
  }

  /**
   * `calculateDeliveryOptions`: the robot at 12.50 + 0.5/km and the drone
   * at 18.00 + 0.8/km over the mock distance, whatever the order.
   */
  function CalculateDeliveryOptions(): (r: seq<CalculatedOption>)
    ensures |r| == 2 && r[0].optionId == "robot-standard" && r[1].optionId == "drone-express"
    ensures forall k :: 0 <= k < |r| ==> r[k].totalPrice == r[k].basePrice + r[k].distanceFee
    ensures r[0].totalPrice == 15.25 && r[1].totalPrice == 22.4
  {
    [Priced("robot-standard", "robot", "机器人配送", 12.50, 0.5, MockDistanceKm, 4.0, 3, false),
     Priced("drone-express", "drone", "无人机配送", 18.00, 0.8, MockDistanceKm, 1.5, 2, true)]
  }
}
