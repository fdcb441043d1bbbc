/**
 * The dog diet calculator: a daily calorie target from the average of the
 * current and goal weights and the activity level, the daily food volume
 * for a given caloric density, and a four-week plan that moves the daily
 * amount in equal steps from the current amount to that target.
 * Java doubles are modelled as exact reals.
 */
module DietCalculator {

  datatype ActivityLevel = Low | Moderate | High

  /**
   * The calculator's four final fields: weights in kilograms, the daily
   * food amount currently fed, in cups.
   */
  datatype Calculator = Calculator(
    currentWeight: real,
    goalWeight: real,
    activityLevel: ActivityLevel,
    currentFoodAmount: real)

  const LowActivityFactor: real := 0.8
  const HighActivityFactor: real := 1.2

  /** The plan spreads the change over this many weeks. */
  const PlanWeeks: int := 4

  /** The average of the two weights lies exactly halfway between them. */
  function AverageWeight(calculator: Calculator): (avg: real)
    ensures avg - calculator.currentWeight == calculator.goalWeight - avg
  {
    (calculator.currentWeight + calculator.goalWeight) / 2.0
  }

  /**
   * 30 calories per kilogram of average weight plus 70, that is 15 per
   * kilogram of the two weights together; above 70 exactly when they sum
   * to more than zero.
   */
  function BaseCalories(calculator: Calculator): (calories: real)
    ensures calories == 15.0 * (calculator.currentWeight + calculator.goalWeight) + 70.0
    ensures calories > 70.0 <==> calculator.currentWeight + calculator.goalWeight > 0.0
  {
    30.0 * AverageWeight(calculator) + 70.0
  }

  /**
   * calculateDailyCalories: the base figure for moderate activity, four
   * fifths of it for low and six fifths for high activity; positive
   * exactly when the base figure is.
   */
  function DailyCalories(calculator: Calculator): (calories: real)
    ensures calculator.activityLevel == Moderate ==> calories == BaseCalories(calculator)
    ensures calculator.activityLevel == Low ==> 5.0 * calories == 4.0 * BaseCalories(calculator)
    ensures calculator.activityLevel == High ==> 5.0 * calories == 6.0 * BaseCalories(calculator)
    ensures calories > 0.0 <==> BaseCalories(calculator) > 0.0
  {
    match calculator.activityLevel
    case Low => BaseCalories(calculator) * LowActivityFactor
    case High => BaseCalories(calculator) * HighActivityFactor
    case Moderate => BaseCalories(calculator)
  }

  /** calculateDailyFoodAmount: that many cups supply exactly the daily calories. */
  function DailyFoodAmount(calculator: Calculator, caloriesPerCup: real): (cups: real)
    requires caloriesPerCup != 0.0
    ensures cups * caloriesPerCup == DailyCalories(calculator)
  {
    DailyCalories(calculator) / caloriesPerCup
  }

  /** Four weekly adjustments close the gap between the current and the target amount. */
  function WeeklyAdjustment(calculator: Calculator, caloriesPerCup: real): (step: real)
    requires caloriesPerCup != 0.0
    ensures PlanWeeks as real * step == DailyFoodAmount(calculator, caloriesPerCup) - calculator.currentFoodAmount
  {
    (DailyFoodAmount(calculator, caloriesPerCup) - calculator.currentFoodAmount) / 4.0
  }

  /**
   * The amount fed in a given week of the plan (week 0 is the current
   * amount): the mix of current and target amounts in the proportion
   * (4 - week) to week.
   */
  function AmountAt(calculator: Calculator, caloriesPerCup: real, week: int): (cups: real)
    requires caloriesPerCup != 0.0
    ensures PlanWeeks as real * cups ==
      (PlanWeeks - week) as real * calculator.currentFoodAmount + week as real * DailyFoodAmount(calculator, caloriesPerCup)
  {
    calculator.currentFoodAmount + WeeklyAdjustment(calculator, caloriesPerCup) * week as real
  }

  datatype WeekEntry = WeekEntry(week: int, cups: real)

  /** The plan's week-by-week amounts and its final target, before any formatting. */
  datatype TitrationPlan = TitrationPlan(weeks: seq<WeekEntry>, finalTarget: real)

  /**
   * calculateTitrationPlan: four entries for weeks 1 to 4, each one weekly
   * adjustment further from the current amount, the last one on the target.
   */
  method CalculateTitrationPlan(calculator: Calculator, caloriesPerCup: real) returns (plan: TitrationPlan)
    requires caloriesPerCup != 0.0
    ensures |plan.weeks| == PlanWeeks
    ensures forall i :: 0 <= i < |plan.weeks| ==> plan.weeks[i].week == i + 1
    ensures forall i :: 0 <= i < |plan.weeks| ==>
      plan.weeks[i].cups == AmountAt(calculator, caloriesPerCup, plan.weeks[i].week)
    ensures plan.finalTarget == DailyFoodAmount(calculator, caloriesPerCup)
    ensures plan.weeks[PlanWeeks - 1].cups == plan.finalTarget
    ensures plan.weeks[0].cups - calculator.currentFoodAmount == WeeklyAdjustment(calculator, caloriesPerCup)
    ensures forall i :: 0 < i < |plan.weeks| ==>
      plan.weeks[i].cups - plan.weeks[i - 1].cups == WeeklyAdjustment(calculator, caloriesPerCup)
  {
    var targetFoodAmount := DailyFoodAmount(calculator, caloriesPerCup);
    var weeklyAdjustment := (targetFoodAmount - calculator.currentFoodAmount) / 4.0;
    var weeks: seq<WeekEntry> := [];
    var week := 1;
    while week <= PlanWeeks
      invariant 1 <= week <= PlanWeeks + 1
      invariant |weeks| == week - 1
      invariant forall i :: 0 <= i < |weeks| ==>
        weeks[i] == WeekEntry(i + 1, AmountAt(calculator, caloriesPerCup, i + 1))
    {
      var adjustedAmount := calculator.currentFoodAmount + weeklyAdjustment * week as real;
      weeks := weeks + [WeekEntry(week, adjustedAmount)];
      week := week + 1;
    }
    plan := TitrationPlan(weeks, targetFoodAmount);
    FinalWeekReachesTarget(calculator, caloriesPerCup);
    AmountAtOrigin(calculator, caloriesPerCup);
    forall i | 0 < i < |weeks|
      ensures weeks[i].cups - weeks[i - 1].cups == WeeklyAdjustment(calculator, caloriesPerCup)
    {
      ConsecutiveWeeks(calculator, caloriesPerCup, i);
    }
  }

  /** Week 0 of the schedule is the amount fed now. */
  lemma AmountAtOrigin(calculator: Calculator, caloriesPerCup: real)
    requires caloriesPerCup != 0.0
    ensures AmountAt(calculator, caloriesPerCup, 0) == calculator.currentFoodAmount
  {
  }

  /** The week-4 amount is exactly the daily food amount. */
  lemma FinalWeekReachesTarget(calculator: Calculator, caloriesPerCup: real)
    requires caloriesPerCup != 0.0
    ensures AmountAt(calculator, caloriesPerCup, PlanWeeks) == DailyFoodAmount(calculator, caloriesPerCup)
  {
  }

  /** Consecutive weeks differ by exactly the weekly adjustment. */
  lemma ConsecutiveWeeks(calculator: Calculator, caloriesPerCup: real, week: int)
    requires caloriesPerCup != 0.0
    ensures AmountAt(calculator, caloriesPerCup, week + 1) - AmountAt(calculator, caloriesPerCup, week)
      == WeeklyAdjustment(calculator, caloriesPerCup)
  {
  }

  /**
   * Over any span of weeks the amount moves in the direction of the target:
   * up when the target exceeds the current amount, down when it is below,
   * and not at all when they are equal.
   */
  lemma {:induction false} PlanDirection(calculator: Calculator, caloriesPerCup: real, v: int, w: int)
    requires caloriesPerCup != 0.0
    requires v < w
    ensures var target := DailyFoodAmount(calculator, caloriesPerCup);
      (AmountAt(calculator, caloriesPerCup, v) < AmountAt(calculator, caloriesPerCup, w) <==> target > calculator.currentFoodAmount) &&
      (AmountAt(calculator, caloriesPerCup, v) > AmountAt(calculator, caloriesPerCup, w) <==> target < calculator.currentFoodAmount) &&
      (AmountAt(calculator, caloriesPerCup, v) == AmountAt(calculator, caloriesPerCup, w) <==> target == calculator.currentFoodAmount)
    decreases w - v
  {
    ConsecutiveWeeks(calculator, caloriesPerCup, v);
    if v + 1 < w {
      PlanDirection(calculator, caloriesPerCup, v + 1, w);
    }
  }

  /** Every amount of the plan lies between the current amount and the target. */
  lemma WeekWithinRange(calculator: Calculator, caloriesPerCup: real, week: int)
    requires caloriesPerCup != 0.0
    requires 0 <= week <= PlanWeeks
    ensures var target := DailyFoodAmount(calculator, caloriesPerCup);
      var cups := AmountAt(calculator, caloriesPerCup, week);
      (calculator.currentFoodAmount <= cups <= target) || (target <= cups <= calculator.currentFoodAmount)
  {
    AmountAtOrigin(calculator, caloriesPerCup);
    FinalWeekReachesTarget(calculator, caloriesPerCup);
    if 0 < week {
      PlanDirection(calculator, caloriesPerCup, 0, week);
    }
    if week < PlanWeeks {
      PlanDirection(calculator, caloriesPerCup, week, PlanWeeks);
    }
  }

  /** With moderate activity the daily calories are 30 per average kilogram plus 70. */
  lemma ModerateCalories(calculator: Calculator)
    requires calculator.activityLevel == Moderate
    ensures DailyCalories(calculator) == 30.0 * ((calculator.currentWeight + calculator.goalWeight) / 2.0) + 70.0
  {
  }

  /** Low activity is 0.8 times, high activity 1.2 times the moderate figure for the same weights. */
  lemma ActivityRatios(calculator: Calculator)
    ensures DailyCalories(calculator.(activityLevel := Low)) == 0.8 * DailyCalories(calculator.(activityLevel := Moderate))
    ensures DailyCalories(calculator.(activityLevel := High)) == 1.2 * DailyCalories(calculator.(activityLevel := Moderate))
  {
  }

  /**
   * The calorie target is positive exactly when the weights sum to more than
   * -14/3 kg, whatever the activity level; in particular for positive weights.
   */
  lemma CaloriesPositive(calculator: Calculator)
    ensures DailyCalories(calculator) > 0.0 <==> 3.0 * (calculator.currentWeight + calculator.goalWeight) > -14.0
    ensures calculator.currentWeight > 0.0 && calculator.goalWeight > 0.0 ==> DailyCalories(calculator) > 0.0
  {
  }

  /** When the base figure is positive, more activity means strictly more calories. */
  lemma CaloriesOrderedByActivity(calculator: Calculator)
    requires BaseCalories(calculator) > 0.0
    ensures DailyCalories(calculator.(activityLevel := Low)) < DailyCalories(calculator.(activityLevel := Moderate))
    ensures DailyCalories(calculator.(activityLevel := Moderate)) < DailyCalories(calculator.(activityLevel := High))
  {
  }

  /** For the same activity level, a larger weight sum gives strictly more calories. */
  lemma CaloriesIncreaseWithWeight(a: Calculator, b: Calculator)
    requires a.activityLevel == b.activityLevel
    requires a.currentWeight + a.goalWeight < b.currentWeight + b.goalWeight
    ensures DailyCalories(a) < DailyCalories(b)
  {
  }

  /** With a positive caloric density, the food amount has the sign of the calorie target. */
  lemma FoodAmountPositive(calculator: Calculator, caloriesPerCup: real)
    requires caloriesPerCup > 0.0
    ensures DailyFoodAmount(calculator, caloriesPerCup) > 0.0 <==> DailyCalories(calculator) > 0.0
  {
    var cups := DailyFoodAmount(calculator, caloriesPerCup);
    if cups <= 0.0 {
      assert cups * caloriesPerCup <= 0.0;
    }
  }

  /**
   * Weights 30 kg and 25 kg, moderate activity, 3 cups now, 350 calories
   * per cup: 895 calories, 895/350 = 179/70 cups, and a plan falling from
   * 3 cups by 31/280 cup a week: 809/280, 778/280, 747/280 and 716/280 cups.
   */
  lemma ExampleScenario()
    ensures var calculator := Calculator(30.0, 25.0, Moderate, 3.0);
      AverageWeight(calculator) == 27.5 &&
      DailyCalories(calculator) == 895.0 &&
      DailyFoodAmount(calculator, 350.0) == 895.0 / 350.0 &&
      WeeklyAdjustment(calculator, 350.0) == (895.0 / 350.0 - 3.0) / 4.0 &&
      AmountAt(calculator, 350.0, 1) == 809.0 / 280.0 &&
      AmountAt(calculator, 350.0, 2) == 778.0 / 280.0 &&
      AmountAt(calculator, 350.0, 3) == 747.0 / 280.0 &&
      AmountAt(calculator, 350.0, 4) == 895.0 / 350.0
  {
  }
}
