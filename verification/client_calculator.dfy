/** The browser's copy of the carbon calculator, kept separately so that the
    preview can be computed before submission, plus the level rule. The
    lemmas at the end prove that the copy agrees with the server for every
    input. */
module ClientCalculator {
  import opened JsMath
  import opened Models
  import Server = ServerCalculator

  /** The client's own `EMISSION_FACTORS`. */
  const EmissionFactors: FactorTable := FactorTable(
    map["walking" := 0.0, "cycling" := 0.0, "bus" := 0.089, "train" := 0.041,
        "car" := 0.21, "electric_vehicle" := 0.05],
    map["vegan" := 1.5, "vegetarian" := 2.0, "meat" := 5.0, "fish" := 3.5],
    0.004,
    0.036)

  const BaselineEmissions: real := 25.0

  /** Points per level. */
  const PointsPerLevel: int := 100

  /** `calculateTransportationEmissions(type, distance)`. */
  function TransportationEmissions(kind: string, distance: real): (r: real)
    ensures IsCents(r)
    ensures var exact := Factor(EmissionFactors.transportation, kind) * distance;
              exact - 0.005 < r <= exact + 0.005
    ensures kind !in EmissionFactors.transportation ==> r == 0.0
  {
    Round2(Factor(EmissionFactors.transportation, kind) * distance)
  }

  /** `calculateMealEmissions(mealType, count)`. */
  function MealEmissions(kind: string, count: real): (r: real)
    ensures IsCents(r)
    ensures var exact := Factor(EmissionFactors.meals, kind) * count;
              exact - 0.005 < r <= exact + 0.005
    ensures kind !in EmissionFactors.meals ==> r == 0.0
  {
    Round2(Factor(EmissionFactors.meals, kind) * count)
  }

  /** `calculateDigitalEmissions(emailCount, streamingHours)`. */
  function DigitalEmissions(emails: real, streamingHours: real): (r: real)
    ensures IsCents(r)
    ensures var exact := EmissionFactors.email * emails + EmissionFactors.streaming * streamingHours;
              exact - 0.005 < r <= exact + 0.005
  {
    Round2(EmissionFactors.email * emails + EmissionFactors.streaming * streamingHours)
  }

  /** `calculateSustainabilityScore(totalEmissions)`. */
  function SustainabilityScore(totalEmissions: real): (r: int)
    ensures r >= 0
    ensures totalEmissions >= 0.0 ==> r <= 100
    ensures totalEmissions >= BaselineEmissions ==> r == 0
    ensures totalEmissions <= BaselineEmissions ==>
              var exact := 100.0 - 4.0 * totalEmissions;
              exact - 0.5 < r as real <= exact + 0.5
  {
    Round(Max(0.0, 100.0 - (totalEmissions / BaselineEmissions) * 100.0))
  }

  /** `getLevelFromPoints(points)` = `Math.floor(points / 100) + 1`. Dafny's
      integer division by a positive divisor rounds down, as `Math.floor`
      does, also for negative points. The contract says which band of 100
      points each level covers. */
  function LevelFromPoints(points: int): (r: int)
    ensures (r - 1) * PointsPerLevel <= points < r * PointsPerLevel
  {
    points / PointsPerLevel + 1
  }

  // ---------------------------------------------------------------------------
  // Agreement with the server
  // ---------------------------------------------------------------------------

  /** The two factor tables agree entry for entry. */
  lemma FactorTablesAgree()
    ensures EmissionFactors == Server.EmissionFactors
  {
  }

  lemma TransportationAgrees(kind: string, distance: real)
    ensures TransportationEmissions(kind, distance) == Server.TransportationEmissions(kind, distance)
  {
  }

  lemma MealAgrees(kind: string, count: real)
    ensures MealEmissions(kind, count) == Server.MealEmissions(kind, count)
  {
  }

  lemma DigitalAgrees(emails: real, streamingHours: real)
    ensures DigitalEmissions(emails, streamingHours) == Server.DigitalEmissions(emails, streamingHours)
  {
  }

  lemma ScoreAgrees(totalEmissions: real)
    ensures SustainabilityScore(totalEmissions) == Server.SustainabilityScore(totalEmissions)
  {
  }

  // ---------------------------------------------------------------------------
  // Levels
  // ---------------------------------------------------------------------------

  lemma LevelExamples()
    ensures LevelFromPoints(0) == 1
    ensures LevelFromPoints(99) == 1
    ensures LevelFromPoints(100) == 2
    ensures LevelFromPoints(250) == 3
  {
  }

  /** Non-negative points give a level of at least 1. */
  lemma LevelAtLeastOne(points: int)
    requires points >= 0
    ensures LevelFromPoints(points) >= 1
  {
  }

  /** More points never lower the level. */
  lemma LevelMonotone(p: int, q: int)
    requires p <= q
    ensures LevelFromPoints(p) <= LevelFromPoints(q)
  {
  }

  /** The level goes up by exactly one at each multiple of 100 and stays put
      in between. */
  lemma LevelSteps(k: int, p: int)
    ensures LevelFromPoints(k * PointsPerLevel) == LevelFromPoints(k * PointsPerLevel - 1) + 1
    ensures k * PointsPerLevel <= p < (k + 1) * PointsPerLevel ==> LevelFromPoints(p) == k + 1
  {
  }
}
