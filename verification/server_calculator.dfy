/** The server's carbon calculator: the emission-factor table, the
    per-category emissions (each rounded to two decimals), the fold of a
    day's activity into a breakdown and total, and the 0-100 sustainability
    score against a 25 kg baseline. */
module ServerCalculator {
  import opened Wrappers
  import opened JsMath
  import opened Models

  /** `EMISSION_FACTORS`. */
  const EmissionFactors: FactorTable := FactorTable(
    map["walking" := 0.0, "cycling" := 0.0, "bus" := 0.089, "train" := 0.041,
        "car" := 0.21, "electric_vehicle" := 0.05],
    map["vegan" := 1.5, "vegetarian" := 2.0, "meat" := 5.0, "fish" := 3.5],
    0.004,
    0.036)

  /** Regional average daily emissions the score is measured against, in kg. */
  const BaselineEmissions: real := 25.0

  /** `calculateTransportationEmissions(type, distance)`. */
  function TransportationEmissions(kind: string, distance: real): (r: real)
    ensures IsCents(r)
    ensures var exact := Factor(EmissionFactors.transportation, kind) * distance;
              exact - 0.005 < r <= exact + 0.005
    ensures kind == "walking" || kind == "cycling" ==> r == 0.0
    ensures kind !in EmissionFactors.transportation ==> r == 0.0
  {
    Round2(Factor(EmissionFactors.transportation, kind) * distance)
  }

  /** `calculateMealEmissions(mealType, count)`. */
  function MealEmissions(kind: string, count: real): (r: real)
    ensures IsCents(r)
    ensures var exact := Factor(EmissionFactors.meals, kind) * count;
              exact - 0.005 < r <= exact + 0.005
    ensures kind !in EmissionFactors.meals ==> r == 0.0
  {
    Round2(Factor(EmissionFactors.meals, kind) * count)
  }

  /** `calculateDigitalEmissions(emailCount, streamingHours)`: the two terms
      are added first and the sum is rounded once. */
  function DigitalEmissions(emails: real, streamingHours: real): (r: real)
    ensures IsCents(r)
    ensures var exact := EmissionFactors.email * emails + EmissionFactors.streaming * streamingHours;
              exact - 0.005 < r <= exact + 0.005
  {
    Round2(EmissionFactors.email * emails + EmissionFactors.streaming * streamingHours)
  }

  /** `meal.count || 1`: an absent or zero count reads as one meal; any other
      count is used as given. */
  function CountOrOne(count: Option<real>): (r: real)
    ensures count.None? || count == Some(0.0) ==> r == 1.0
    ensures count.Some? && count.value != 0.0 ==> r == count.value
    ensures r != 0.0
  {
    match count
    case None => 1.0
    case Some(c) => if c == 0.0 then 1.0 else c
  }

  /** The unrounded price of a list of meals: the sum of factor × count,
      with `count || 1`. */
  function ExactMeals(meals: seq<Meal>): real {
    if |meals| == 0 then 0.0
    else Factor(EmissionFactors.meals, meals[0].kind) * CountOrOne(meals[0].count) + ExactMeals(meals[1..])
  }

  /** The meals fold of `calculateDailyFootprint`: the sum of each meal's
      rounded emissions, with `count || 1`. It is a whole number of
      hundredths, 0 for no meals, and off the unrounded price by at most
      half a hundredth per meal. */
  function MealsEmissions(meals: seq<Meal>): (r: real)
    ensures IsCents(r)
    ensures |meals| == 0 ==> r == 0.0
    ensures var n := |meals| as real;
            ExactMeals(meals) - 0.005 * n <= r <= ExactMeals(meals) + 0.005 * n
  {
    if |meals| == 0 then CentsZero(); 0.0
    else
      var head := MealEmissions(meals[0].kind, CountOrOne(meals[0].count));
      var rest := MealsEmissions(meals[1..]);
      CentsAdd(head, rest);
      head + rest
  }

  /** The fold in `reduce` order: appending a meal adds exactly that meal's
      rounded emissions. */
  lemma {:induction false} MealsEmissionsAppend(meals: seq<Meal>, m: Meal)
    ensures MealsEmissions(meals + [m]) == MealsEmissions(meals) + MealEmissions(m.kind, CountOrOne(m.count))
  {
    if |meals| == 0 {
      assert meals + [m] == [m];
      assert [m][1..] == [];
    } else {
      assert (meals + [m])[0] == meals[0];
      assert (meals + [m])[1..] == meals[1..] + [m];
      MealsEmissionsAppend(meals[1..], m);
    }
  }

  datatype Breakdown = Breakdown(
    transportation: Option<Transport>,
    meals: Option<seq<Meal>>,
    digital: Option<DigitalWaste>)

  /** The object `calculateDailyFootprint` returns. */
  datatype Footprint = Footprint(
    transportationEmissions: real,
    mealEmissions: real,
    digitalEmissions: real,
    totalEmissions: real,
    breakdown: Breakdown)

  /** The transport section's emissions, 0 when the section is missing. */
  function TransportPart(a: Activity): real {
    match a.transportation
    case None => 0.0
    case Some(t) => TransportationEmissions(t.kind, t.distance)
  }

  /** The meals section's emissions, 0 when the section is missing. */
  function MealsPart(a: Activity): real {
    match a.meals
    case None => 0.0
    case Some(ms) => MealsEmissions(ms)
  }

  /** The digital section's emissions (absent fields default to 0), 0 when
      the section is missing. */
  function DigitalPart(a: Activity): real {
    match a.digitalWaste
    case None => 0.0
    case Some(d) => DigitalEmissions(d.emails.GetOr(0.0), d.streamingHours.GetOr(0.0))
  }

  /** `calculateDailyFootprint(dailyData)`. Each component and the total are
      passed through `Round2` once more; because every component is already a
      whole number of hundredths, the total is exactly their sum. */
  function DailyFootprint(a: Activity): (r: Footprint)
    ensures r.breakdown == Breakdown(a.transportation, a.meals, a.digitalWaste)
    ensures IsCents(r.transportationEmissions) && IsCents(r.mealEmissions)
    ensures IsCents(r.digitalEmissions) && IsCents(r.totalEmissions)
    ensures r.totalEmissions == r.transportationEmissions + r.mealEmissions + r.digitalEmissions
    ensures a.transportation.None? ==> r.transportationEmissions == 0.0
    ensures a.meals.None? ==> r.mealEmissions == 0.0
    ensures a.digitalWaste.None? ==> r.digitalEmissions == 0.0
    ensures a.transportation.Some? ==>
              r.transportationEmissions
              == TransportationEmissions(a.transportation.value.kind, a.transportation.value.distance)
    ensures a.meals.Some? ==> r.mealEmissions == MealsEmissions(a.meals.value)
    ensures a.digitalWaste.Some? ==>
              r.digitalEmissions
              == DigitalEmissions(a.digitalWaste.value.emails.GetOr(0.0),
                                  a.digitalWaste.value.streamingHours.GetOr(0.0))
  {
    var t, m, d := TransportPart(a), MealsPart(a), DigitalPart(a);
    CentsZero();
    Round2OfCents(t);
    Round2OfCents(m);
    Round2OfCents(d);
    CentsAdd(t, m);
    CentsAdd(t + m, d);
    Round2OfCents(t + m + d);
    Footprint(Round2(t), Round2(m), Round2(d), Round2(t + m + d),
              Breakdown(a.transportation, a.meals, a.digitalWaste))
  }

  /** `calculateSustainabilityScore(totalEmissions)`. */
  function SustainabilityScore(totalEmissions: real): (r: int)
    ensures r >= 0
    ensures totalEmissions >= 0.0 ==> r <= 100
    ensures totalEmissions >= BaselineEmissions ==> r == 0
    ensures totalEmissions <= BaselineEmissions ==>
              var exact := 100.0 - 4.0 * totalEmissions;
              exact - 0.5 < r as real <= exact + 0.5
  {
    Round(Max(0.0, 100.0 - (totalEmissions / BaselineEmissions) * 100.0))
  }

  // ---------------------------------------------------------------------------
  // Properties
  // ---------------------------------------------------------------------------

  /** The factor table names exactly the transport modes and meal kinds the
      daily-log schema enumerates. */
  lemma TableCoversSchemaKinds()
    ensures EmissionFactors.transportation.Keys == TransportKinds
    ensures EmissionFactors.meals.Keys == MealKinds
  {
  }

  /** Worked values of the per-category calculators. */
  lemma CategoryExamples()
    ensures TransportationEmissions("car", 10.0) == 2.10
    ensures TransportationEmissions("bus", 10.0) == 0.89
    ensures TransportationEmissions("train", 10.0) == 0.41
    ensures MealEmissions("meat", 2.0) == 10.00
    ensures MealEmissions("vegan", 3.0) == 4.50
    ensures DigitalEmissions(100.0, 2.0) == 0.47
  {
  }

  /** Digital emissions round the sum, not each term: two emails and one
      hour give 0.04 kg, whereas rounding the terms separately would give
      0.01 + 0.04 = 0.05 kg. */
  lemma DigitalRoundsTheSumOnce()
    ensures DigitalEmissions(2.0, 1.0) == 0.04
    ensures Round2(EmissionFactors.email * 2.0) + Round2(EmissionFactors.streaming * 1.0) == 0.05
  {
  }

  /** An absent meal count and a zero meal count both count one meal. */
  lemma FalsyCountIsOneMeal(kind: string)
    ensures MealsEmissions([Meal(kind, None)]) == MealEmissions(kind, 1.0)
    ensures MealsEmissions([Meal(kind, Some(0.0))]) == MealEmissions(kind, 1.0)
  {
    assert [Meal(kind, None)][1..] == [];
    assert [Meal(kind, Some(0.0))][1..] == [];
  }

  /** The end-to-end day: 10 km by car, two meat meals, 100 emails and two
      hours of streaming give 12.57 kg and a score of 50. */
  lemma EndToEndDay()
    ensures var day := Activity(Some(Transport("car", 10.0)),
                                Some([Meal("meat", Some(2.0))]),
                                Some(DigitalWaste(Some(100.0), Some(2.0))));
            var fp := DailyFootprint(day);
            fp.totalEmissions == 12.57 && SustainabilityScore(fp.totalEmissions) == 50
  {
    var meals := [Meal("meat", Some(2.0))];
    assert meals[1..] == [];
    assert MealsEmissions(meals) == 10.0;
    CategoryExamples();
  }

  /** Worked values of the score. */
  lemma ScoreExamples()
    ensures SustainabilityScore(0.0) == 100
    ensures SustainabilityScore(12.5) == 50
    ensures SustainabilityScore(25.0) == 0
    ensures SustainabilityScore(50.0) == 0
  {
  }

  /** More emissions never raise the score. */
  lemma ScoreMonotone(e1: real, e2: real)
    requires e1 <= e2
    ensures SustainabilityScore(e2) <= SustainabilityScore(e1)
  {
    var s1 := Max(0.0, 100.0 - (e1 / BaselineEmissions) * 100.0);
    var s2 := Max(0.0, 100.0 - (e2 / BaselineEmissions) * 100.0);
    RoundMonotone(s2, s1);
  }
}
