/**
 * The accept/reject decision of one attempt at each console prompt. The
 * prompts repeat until an attempt is accepted; only the decision is
 * modelled. Number parsing (Double.parseDouble, Integer.parseInt) is a
 * parameter: None stands for a NumberFormatException.
 */
module InputRules {
  import opened Wrappers
  import opened JavaStrings
  import opened DietCalculator

  /** Why an attempt is rejected. */
  datatype InputError =
    | InvalidFormat  // the weight line is not two space-separated parts
    | InvalidNumber  // the number text does not parse
    | InvalidUnit    // a weight unit other than "kg" or "lbs"
    | InvalidChoice  // an activity number other than 1, 2 or 3
    | NotPositive    // a food amount or caloric density that is not above zero

  /** Kilograms per pound. */
  const PoundsToKg: real := 0.453592

  /**
   * The text the weight prompt splits: the line trimmed, then lower-cased.
   * It never ends with a space and has the spaces of the trimmed line.
   */
  function NormalizeWeightInput(input: string): (s: string)
    ensures |s| == |Trim(input)|
    ensures s == [] || s[|s| - 1] != ' '
    ensures Count(s, ' ') == Count(Trim(input), ' ')
  {
    ToLowerCaseKeepsSpaces(Trim(input));
    ToLowerCase(Trim(input))
  }

  /**
   * getDogWeight, one attempt: exactly two parts separated by a space, a
   * number and then "kg" or "lbs"; pounds are converted to kilograms. The
   * number is parsed before the unit is looked at, and its sign is not checked.
   * The line is rejected for its format exactly when, trimmed, it does not
   * hold exactly one space.
   */
  function ReadWeight(input: string, parseDouble: string -> Option<real>): (r: Result<real, InputError>)
    ensures r == Err(InvalidFormat) <==> Count(Trim(input), ' ') != 1
    ensures r.Ok? ==> Count(Trim(input), ' ') == 1
  {
    SplitCount(NormalizeWeightInput(input), ' ');
    var parts := Split(NormalizeWeightInput(input), ' ');
    if |parts| != 2 then Err(InvalidFormat)
    else
      match parseDouble(parts[0])
      case None => Err(InvalidNumber)
      case Some(weight) =>
        if parts[1] == "lbs" then Ok(weight * PoundsToKg)
        else if parts[1] == "kg" then Ok(weight)
        else Err(InvalidUnit)
  }

  /**
   * A line that normalises to number, one space, unit is decided by the
   * number alone when the unit is "kg" or "lbs", and otherwise rejected;
   * an unparsable number is reported before a wrong unit.
   */
  lemma WeightDecision(input: string, parseDouble: string -> Option<real>, number: string, unit: string)
    requires NormalizeWeightInput(input) == number + " " + unit
    requires ' ' !in number && ' ' !in unit
    ensures ReadWeight(input, parseDouble) ==
      match parseDouble(number)
      case None => Err(InvalidNumber)
      case Some(weight) =>
        if unit == "kg" then Ok(weight)
        else if unit == "lbs" then Ok(weight * PoundsToKg)
        else Err(InvalidUnit)
  {
    LastOfJoined(number, ' ', unit);
    SplitOfPair(number, unit, ' ');
    var parts := Split(NormalizeWeightInput(input), ' ');
    assert parts[0] == number && parts[1] == unit;
  }

  /** An accepted weight line holds one space after trimming, and its value is the number, in kg or converted from lbs. */
  lemma WeightAccepted(input: string, parseDouble: string -> Option<real>)
    requires ReadWeight(input, parseDouble).Ok?
    ensures Count(Trim(input), ' ') == 1
    ensures var parts := Split(NormalizeWeightInput(input), ' ');
      |parts| == 2 && NormalizeWeightInput(input) == parts[0] + " " + parts[1] &&
      parseDouble(parts[0]).Some? &&
      ((parts[1] == "kg" && ReadWeight(input, parseDouble).value == parseDouble(parts[0]).value) ||
       (parts[1] == "lbs" && ReadWeight(input, parseDouble).value == parseDouble(parts[0]).value * PoundsToKg))
  {
    SplitPair(NormalizeWeightInput(input), ' ');
  }

  /** "66 lbs" is 66 times 0.453592, that is 29.937072 kg. */
  lemma PoundsExample(parseDouble: string -> Option<real>)
    requires parseDouble("66") == Some(66.0)
    ensures ReadWeight("66 lbs", parseDouble) == Ok(29.937072)
  {
    assert SkipLeading("66 lbs", 0) == 0;
    assert SkipTrailing("66 lbs", 0, 6) == 6;
    assert Trim("66 lbs") == "66 lbs";
    assert ToLowerCase("66 lbs") == "66 lbs";
    assert NormalizeWeightInput("66 lbs") == "66" + " " + "lbs";
    assert ' ' !in "66" && ' ' !in "lbs";
    WeightDecision("66 lbs", parseDouble, "66", "lbs");
    assert 66.0 * PoundsToKg == 29.937072;
  }

  /** A negative weight in kilograms is accepted as it is; the unit may be written in capitals. */
  lemma NegativeWeightAccepted(parseDouble: string -> Option<real>)
    requires parseDouble("-5") == Some(-5.0)
    ensures ReadWeight(" -5 KG", parseDouble) == Ok(-5.0)
  {
    assert SkipLeading(" -5 KG", 1) == 1;
    assert SkipLeading(" -5 KG", 0) == 1;
    assert SkipTrailing(" -5 KG", 1, 6) == 6;
    assert Trim(" -5 KG") == "-5 KG";
    assert ToLowerCase("-5 KG") == "-5 kg";
    MinusFiveKgLine(" -5 KG", parseDouble);
  }

  /** A line that normalises to "-5 kg" is accepted as -5 kg. */
  lemma MinusFiveKgLine(input: string, parseDouble: string -> Option<real>)
    requires NormalizeWeightInput(input) == "-5 kg"
    requires parseDouble("-5") == Some(-5.0)
    ensures ReadWeight(input, parseDouble) == Ok(-5.0)
  {
    assert "-5 kg" == "-5" + " " + "kg";
    WeightDecision(input, parseDouble, "-5", "kg");
  }

  /** The number the activity menu shows for each level. */
  function MenuNumber(level: ActivityLevel): (choice: int)
    ensures 1 <= choice <= 3
  {
    match level
    case Low => 1
    case Moderate => 2
    case High => 3
  }

  /** getDogActivityLevel's switch: 1, 2 and 3 select a level, every other number none. */
  function ActivityFromChoice(choice: int): (r: Option<ActivityLevel>)
    ensures r.Some? <==> 1 <= choice <= 3
    ensures r.Some? ==> MenuNumber(r.value) == choice
  {
    if choice == 1 then Some(Low)
    else if choice == 2 then Some(Moderate)
    else if choice == 3 then Some(High)
    else None
  }

  /** Choosing a level's menu number selects that level. */
  lemma ChoiceRoundTrip(level: ActivityLevel)
    ensures ActivityFromChoice(MenuNumber(level)) == Some(level)
  {
  }

  /** getDogActivityLevel, one attempt: the trimmed line parsed as an integer, then the menu choice. */
  function ReadActivityLevel(input: string, parseInt: string -> Option<int>): (r: Result<ActivityLevel, InputError>)
    ensures r == Err(InvalidNumber) <==> parseInt(Trim(input)).None?
    ensures r == Err(InvalidChoice) <==>
      parseInt(Trim(input)).Some? && !(1 <= parseInt(Trim(input)).value <= 3)
    ensures r.Ok? <==> parseInt(Trim(input)).Some? && 1 <= parseInt(Trim(input)).value <= 3
    ensures r.Ok? ==> parseInt(Trim(input)) == Some(MenuNumber(r.value))
  {
    match parseInt(Trim(input))
    case None => Err(InvalidNumber)
    case Some(choice) =>
      match ActivityFromChoice(choice)
      case None => Err(InvalidChoice)
      case Some(level) => Ok(level)
  }

  /**
   * getCurrentFoodAmount and getFoodCaloricDensity, one attempt: the
   * trimmed line parsed as a number and accepted only when above zero.
   */
  function ReadPositive(input: string, parseDouble: string -> Option<real>): (r: Result<real, InputError>)
    ensures r.Ok? <==> parseDouble(Trim(input)).Some? && parseDouble(Trim(input)).value > 0.0
    ensures r.Ok? ==> r.value == parseDouble(Trim(input)).value
    ensures r == Err(InvalidNumber) <==> parseDouble(Trim(input)).None?
    ensures r == Err(NotPositive) <==>
      parseDouble(Trim(input)).Some? && parseDouble(Trim(input)).value <= 0.0
  {
    match parseDouble(Trim(input))
    case None => Err(InvalidNumber)
    case Some(x) => if x > 0.0 then Ok(x) else Err(NotPositive)
  }

  /**
   * With an accepted food amount and caloric density, and weights whose
   * calorie target is positive, every amount of the plan is above zero.
   */
  lemma AcceptedInputsGivePositivePlan(
      current: real, goal: real, level: ActivityLevel,
      foodInput: string, densityInput: string, parseDouble: string -> Option<real>, week: int)
    requires ReadPositive(foodInput, parseDouble).Ok?
    requires ReadPositive(densityInput, parseDouble).Ok?
    requires 3.0 * (current + goal) > -14.0
    requires 0 <= week <= PlanWeeks
    ensures var calculator := Calculator(current, goal, level, ReadPositive(foodInput, parseDouble).value);
      AmountAt(calculator, ReadPositive(densityInput, parseDouble).value, week) > 0.0
  {
    var calculator := Calculator(current, goal, level, ReadPositive(foodInput, parseDouble).value);
    var density := ReadPositive(densityInput, parseDouble).value;
    CaloriesPositive(calculator);
    FoodAmountPositive(calculator, density);
    WeekWithinRange(calculator, density, week);
  }
}
