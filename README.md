# Dog diet calculator, modelled in Dafny

`DogDietCalculator` works out a dog's daily calorie target from the average
of its current and goal weights (30 kcal per kg plus 70, scaled by 0.8 for low
and 1.2 for high activity), turns it into cups of food for a given caloric
density, and builds a four-week titration plan that moves the daily amount in
four equal steps from what the dog eats now to that target. Around this core,
console prompts collect the inputs: a weight with a unit ("kg" or "lbs", pounds
converted at 0.453592 kg each), an activity choice 1 to 3, and a food amount
and caloric density that must be positive.

The model is in four modules:

- `DietCalculator` (`diet_calculator.dfy`): the activity level, the
  calculator's four final fields as the value `Calculator`, the calorie and
  food-amount formulas as functions, and the titration plan as a method whose
  `while` loop builds the sequence of (week, cups) entries, with lemmas on the
  closed-form weekly amount `AmountAt`.
- `InputRules` (`input_rules.dfy`): the accept/reject decision of one attempt
  at each prompt, as functions returning a `Result`. The number parsers
  (`Double.parseDouble`, `Integer.parseInt`) are parameters; `None` stands for
  the `NumberFormatException` path.
- `JavaStrings` (`java_strings.dfy`): `String.trim()`, `toLowerCase()` and
  `split(" ")` as the weight prompt uses them, including the removal of
  trailing empty fields and the no-separator case of `split`.
- `Wrappers` (`wrappers.dfy`): `Option` and `Result`.

Java `double`s are modelled as exact reals, so the linear identities hold
exactly: four weekly steps reach the target, `cups * caloriesPerCup` equals the
calorie target, and the low/high figures are exactly 0.8 and 1.2 times the
moderate one.

The weight prompt does not check the sign of the weight: zero and negative
weights are accepted (`DogDietCalculator.java:118-127`), while the food amount
and caloric density must be above zero. The model follows the code, which is
why `CaloriesPositive` states exactly when the calorie target is positive
instead of assuming positive weights.

## Model

| member | source | states |
|---|---|---|
| DietCalculator.AverageWeight | DogDietCalculator.java:40 | the average weight lies exactly halfway between current and goal weight |
| DietCalculator.BaseCalories | DogDietCalculator.java:40-41 | the base figure is 15 kcal per kilogram of the two weights together plus 70, and exceeds 70 exactly when the weights sum to more than zero |
| DietCalculator.DailyCalories | DogDietCalculator.java:38-49 | the base figure for moderate activity, 4/5 of it for low and 6/5 of it for high; positive exactly when the base figure is |
| DietCalculator.ModerateCalories | DogDietCalculator.java:38-49 | with moderate activity (the default arm) daily calories are 30 × ((current + goal) / 2) + 70 |
| DietCalculator.ActivityRatios | DogDietCalculator.java:44-48 | for the same weights, low activity gives 0.8 times and high activity 1.2 times the moderate calories |
| DietCalculator.CaloriesPositive | DogDietCalculator.java:40-48 | daily calories are positive exactly when 3 × (current + goal) > -14, at every activity level; so positive weights give positive calories |
| DietCalculator.CaloriesOrderedByActivity | DogDietCalculator.java:44-48 | when the base figure is positive, low < moderate < high calories |
| DietCalculator.CaloriesIncreaseWithWeight | DogDietCalculator.java:40-41 | at one activity level a larger weight sum gives strictly more calories |
| DietCalculator.DailyFoodAmount | DogDietCalculator.java:56-59 | the food amount times the caloric density is exactly the daily calorie target |
| DietCalculator.FoodAmountPositive | DogDietCalculator.java:56-59 | for a positive density, the food amount is positive exactly when the calorie target is |
| DietCalculator.WeeklyAdjustment | DogDietCalculator.java:67-68 | four weekly adjustments add up to the target amount minus the current amount |
| DietCalculator.AmountAt | DogDietCalculator.java:67-73 | the week-w amount is the mix (4 - w)/4 of the current amount and w/4 of the daily food amount |
| DietCalculator.CalculateTitrationPlan | DogDietCalculator.java:66-79 | exactly four entries with weeks 1, 2, 3, 4 in order; entry w is current + adjustment × w; the final target is the daily food amount and equals the week-4 entry; the first entry is one adjustment from the current amount and consecutive entries differ by exactly the adjustment |
| DietCalculator.AmountAtOrigin | DogDietCalculator.java:73 | the closed form at week 0 is the current amount |
| DietCalculator.FinalWeekReachesTarget | DogDietCalculator.java:67-76 | the week-4 amount equals the daily food amount, the plan's final target |
| DietCalculator.ConsecutiveWeeks | DogDietCalculator.java:72-74 | the amounts of consecutive weeks differ by exactly the weekly adjustment |
| DietCalculator.PlanDirection | DogDietCalculator.java:68-74 | for any weeks v < w: the amount rises iff target > current, falls iff target < current, and stays equal iff they are equal |
| DietCalculator.WeekWithinRange | DogDietCalculator.java:72-76 | every amount from week 0 to week 4 lies between the current amount and the target |
| DietCalculator.ExampleScenario | DogDietCalculator.java:38-76 | 30 kg and 25 kg, moderate, 3 cups, 350 kcal per cup: average 27.5, 895 kcal, 895/350 cups, a weekly step of (895/350 - 3)/4, weeks 1 to 3 at 809/280, 778/280 and 747/280 cups, week 4 on the target |
| InputRules.NormalizeWeightInput | DogDietCalculator.java:106 | the trimmed, lower-cased line is as long as the trimmed line, never ends with a space, and has as many spaces as the trimmed line |
| InputRules.ReadWeight | DogDietCalculator.java:104-133 | a weight line is rejected for its format exactly when the trimmed line does not contain exactly one space (so, as a corollary spelled out, an accepted line has exactly one) |
| InputRules.WeightDecision | DogDietCalculator.java:106-129 | a line normalising to number + " " + unit gives the number for "kg", the number × 0.453592 for "lbs", an invalid-unit rejection otherwise, and a number-format rejection first when the number does not parse |
| InputRules.WeightAccepted | DogDietCalculator.java:106-129 | an accepted weight line has one space after trimming, splits into exactly two parts that rebuild it, its number parses, and the result is that number ("kg") or that number × 0.453592 ("lbs") |
| InputRules.PoundsExample | DogDietCalculator.java:119-123 | "66 lbs" is accepted as 29.937072 kg |
| InputRules.NegativeWeightAccepted | DogDietCalculator.java:114-127 | " -5 KG" is accepted as -5 kg: the unit is case-insensitive and the sign is not checked |
| InputRules.MenuNumber | DogDietCalculator.java:141-144 | every level's menu number is one of 1, 2, 3 |
| InputRules.ActivityFromChoice | DogDietCalculator.java:150-164 | a level is selected exactly for choices 1 to 3, and the selected level's menu number is the choice |
| InputRules.ChoiceRoundTrip | DogDietCalculator.java:141-162 | choosing a level's menu number (1 low, 2 moderate, 3 high) selects that level |
| InputRules.ReadActivityLevel | DogDietCalculator.java:146-167 | accepted exactly when the trimmed line parses to 1..3; rejected as not a number exactly when it does not parse, as an invalid choice exactly when it parses outside 1..3; an accepted level's menu number is the parsed value |
| InputRules.ReadPositive | DogDietCalculator.java:172-212 | accepted exactly when the trimmed line parses to a number above zero, with that number; rejected as not a number or as not positive in exactly the other two cases |
| InputRules.AcceptedInputsGivePositivePlan | DogDietCalculator.java:85-94 | with an accepted food amount and density and weights whose calorie target is positive, every plan amount from week 0 to week 4 is above zero |
| JavaStrings.SkipLeading | DogDietCalculator.java:106 | the scan from an index stops at the first character above U+0020, and every character it passes is at or below U+0020 |
| JavaStrings.SkipTrailing | DogDietCalculator.java:106 | the backward scan stops after the last character above U+0020 (or at the start index), and every character it passes is at or below U+0020 |
| JavaStrings.Trim | DogDietCalculator.java:106 | the trimmed text is the slice of the line that starts at its first character above U+0020; every character dropped before or after it is at or below U+0020, neither end of the result is, and the result is empty exactly when the whole line is such characters |
| JavaStrings.AllTrimmableWhenEmpty | DogDietCalculator.java:106 | the two trimmed ends meet exactly when every character of the line is at or below U+0020 |
| JavaStrings.ToLowerCase | DogDietCalculator.java:106 | the lower-cased text has the same length, and each character is the lower-cased character at the same position |
| JavaStrings.LowerChar | DogDietCalculator.java:106 | an ASCII capital becomes the lower-case letter at the same distance from 'a' as the capital from 'A'; every other character is left as it is; so a space stays a space, and the result is a lower-case letter exactly for the ASCII letters |
| JavaStrings.ToLowerCaseKeepsSpaces | DogDietCalculator.java:106 | lower-casing keeps the number of spaces |
| JavaStrings.Pieces | DogDietCalculator.java:108 | a string has one more field around a separator than it has separators |
| JavaStrings.Split | DogDietCalculator.java:108 | without the separator the result is the string itself; otherwise its fields with exactly the trailing empty ones removed: a prefix of the fields whose last field is not empty, and every field dropped is empty |
| JavaStrings.DropTrailingEmpty | DogDietCalculator.java:108 | a prefix of the fields, not ending in an empty field, and every field dropped is empty |
| JavaStrings.SplitCount | DogDietCalculator.java:108-109 | a string not ending in the separator splits into one more part than it has separators |
| JavaStrings.SplitPair | DogDietCalculator.java:108-116 | with exactly one separator and none at the end, the two parts joined by the separator give the string back, and the second part is not empty |
| JavaStrings.SplitOfPair | DogDietCalculator.java:108-116 | a + " " + b with no space in a or b and b non-empty splits into exactly [a, b] |
| JavaStrings.JoinPieces | DogDietCalculator.java:108 | joining the fields of a string with the separator gives the string back |

## Left out

- Console I/O: `main`'s prompts and reads, `displayResults`, every `System.out` message and the `Scanner` (DogDietCalculator.java:81-98, 214-220); only `main`'s composition of the accepted inputs into a plan is stated, by `AcceptedInputsGivePositivePlan`.
- The `while (!validInput)` re-prompt loops: they run until the user types an acceptable line and need not end; the model gives the decision for one attempt.
- `Double.parseDouble` and `Integer.parseInt`: foreign library parsing, passed in as functions; `None` is the `NumberFormatException` path.
- `String.format("%.2f", …)` and the text of the plan: the plan is a sequence of (week, cups) entries plus the final target.
- IEEE-754 rounding, infinities and NaN: doubles are exact reals, so the model shows no rounding error, and `parseDouble` in the model yields only finite values. In Java, "Infinity" and "NaN" also parse. "Infinity" passes the `> 0` tests at DogDietCalculator.java:181 and :202. As a caloric density it makes the target 0 cups; as a food amount it makes every plan amount NaN (infinity plus an infinite negative step). "NaN" fails those tests and is rejected.
- DailyFoodAmount: requires a non-zero caloric density, because Java's division by zero yields Infinity or NaN, which reals do not have; the prompt only ever passes a positive density.
- CalculateTitrationPlan: requires a non-zero caloric density, for the same reason.
- WeeklyAdjustment: requires a non-zero caloric density, for the same reason.
- AmountAt: requires a non-zero caloric density, for the same reason.
- JavaStrings.ToLowerCase: maps only the ASCII letters, as in a default locale where ASCII capitals become ASCII lower-case letters; Java's lower-casing of other characters (such as the Kelvin sign becoming "k") is not modelled, nor the Turkish and Azeri locales, where 'I' becomes U+0131 rather than 'i' (neither "kg" nor "lbs" holds an 'i', so no weight line changes outcome).
