# Calorie tracker: food-logging pipeline

This project models the logic of the Streamlit calorie tracker
(`calorie_tracker_app.py`). It has four steps:

1. **Ingredient choices.** The selector offers the reference table's Ingredient
   names. Missing names are dropped, duplicates removed and the rest sorted in
   Python's code-point string order.
2. **Submission.** The handler looks up the first reference row for the chosen
   name. It checks that the five coerced values (Protein_per_g, Carbs_per_g,
   Fats_per_g, Calories, Intake_g) are all present. If they are, it computes:
   - protein, carbs and fats as per-gram rate × quantity;
   - calories as reference Calories × (quantity / Intake_g).
3. **Food log.** This is a session list. A valid submission appends exactly one
   entry. An invalid one stops before the append.
4. **Day view.** When the log is non-empty, the entries dated on the selected
   day are summed column by column. This includes the quantity column, because
   `sum(numeric_only=True)` covers every numeric column. An alert is raised for
   Calories, Protein, Carbs and Fats, in that order, exactly when the day's
   total is strictly above the target (2000, 150, 200, 70).

Modules:
- `Wrappers` holds `Option`. A cell that is missing or that coercion turns into
  NaN is `None`.
- `ReferenceTable` holds the rows, the string order, the choice list and the
  first-row lookup.
- `Calculator` holds the validation and the arithmetic.
- `Records` holds the log entry.
- `DayView` holds the date filter, the column sums, the targets and the alert loop.
- `Session` holds the `FoodLog` class with the session list and its two interactions.

Numbers are Dafny `real`s.

Two cases the program does not handle become preconditions:
- An unknown name cannot be submitted: the selector offers only table names,
  and line 63 indexes the first match. The model requires the name to be in
  the table. `ReferenceTable.IngredientChoices` proves that every offered name
  meets this.
- Line 77 has no guard for a zero reference portion. The model requires
  Intake_g ≠ 0 only when the row passes validation. A row that fails
  validation is rejected at lines 70-72 before any division, whatever its
  Intake_g.

## Model

| member | source | states |
|---|---|---|
| `ReferenceTable.Below` | calorie_tracker_app.py:57 | the string order `sorted` uses: a proper prefix sorts before the longer string, and when `a` sorts before `b` the first character of `a` is at most that of `b`. |
| `ReferenceTable.BelowIrreflexive` | calorie_tracker_app.py:57 | no string sorts before itself. |
| `ReferenceTable.BelowTransitive` | calorie_tracker_app.py:57 | the string order is transitive. |
| `ReferenceTable.BelowTotal` | calorie_tracker_app.py:57 | of two different strings, one sorts before the other. |
| `ReferenceTable.Insert` | calorie_tracker_app.py:57 | adding a name to a strictly ascending list keeps it strictly ascending. The result holds exactly the old names plus the new one. |
| `ReferenceTable.IngredientChoices` | calorie_tracker_app.py:57 | the choices are strictly ascending, so they have no duplicates. A name is a choice if and only if some row carries it, so missing names are excluded. |
| `ReferenceTable.AscendingDeterminedByElements` | calorie_tracker_app.py:57 | two strictly ascending lists with the same elements are equal. |
| `ReferenceTable.ChoicesAreSortedUniqueNames` | calorie_tracker_app.py:57 | any strictly ascending list of exactly the present names is the choice list. So the choices are the sorted unique names and nothing else. |
| `ReferenceTable.FirstRowIndex` | calorie_tracker_app.py:63 | the lookup picks a row carrying the name, and no earlier row carries it. |
| `ReferenceTable.Lookup` | calorie_tracker_app.py:63 | the row used carries the name, and no earlier row carries it: it is the first match. |
| `ReferenceTable.ChoiceHasRow` | calorie_tracker_app.py:57-63 | every offered choice has a row, and the lookup returns a row with that name. |
| `Calculator.Usable` | calorie_tracker_app.py:70 | the null check over the list of five coerced values passes if and only if each of Protein_per_g, Carbs_per_g, Fats_per_g, Calories and Intake_g is present. |
| `Calculator.ComputeNutrients` | calorie_tracker_app.py:64-77 | the result is present if and only if all five coerced values are present. On success, protein, carbs and fats are rate × quantity. Calories × Intake_g equals reference Calories × quantity. |
| `Calculator.InvalidZeroPortionRejected` | calorie_tracker_app.py:70-72 | a row with Intake_g 0 and a missing Protein_per_g is rejected for every quantity, before any division. |
| `Calculator.ReferencePortionCalories` | calorie_tracker_app.py:77 | exactly one reference portion yields exactly the reference Calories. |
| `Calculator.CaloriesNotPerGram` | calorie_tracker_app.py:77 | for non-zero Calories and a non-zero quantity, calories equal Calories × quantity if and only if Intake_g is 1. So calories are scaled by portion, not used as a per-gram rate. |
| `Calculator.SplitPortion` | calorie_tracker_app.py:74-77 | the nutrients of a + b grams equal the nutrients of a grams plus those of b grams. |
| `Calculator.RiceExample` | calorie_tracker_app.py:62-77 | 200 g of rice (0.027, 0.28, 0.003, 130 kcal per 100 g) gives 5.4, 56, 0.6 and 260. |
| `Records.NewEntry` | calorie_tracker_app.py:79-88 | the appended record carries the submitted date, ingredient, quantity and meal type, and its nutrient columns read back as the computed nutrients. |
| `DayView.DayEntries` | calorie_tracker_app.py:93 | an entry is kept if and only if it is in the log and has the selected date, and the result is no longer than the log. |
| `DayView.DayEntriesCounts` | calorie_tracker_app.py:93 | each entry with the selected date is kept as many times as the log holds it, and every other entry is dropped. |
| `DayView.Sum` | calorie_tracker_app.py:96 | each column of the sum is the total of that column over every entry of the list, added up independently from the last entry back. |
| `DayView.DailyTotals` | calorie_tracker_app.py:93-96 | each daily total equals an independent running sum of that column over exactly the log entries dated that day. The quantity column is included. |
| `DayView.DayColumnTotal` | calorie_tracker_app.py:93-96 | filtering to the day and then totalling a column equals totalling that column over the whole log while skipping other dates. |
| `DayView.DailyTotalsAppend` | calorie_tracker_app.py:93-96 | appending an entry raises its own date's totals by exactly its columns. It leaves every other date's totals unchanged. |
| `DayView.DailyTotalsWithoutMatch` | calorie_tracker_app.py:93-96 | a date with no entries has all-zero totals. |
| `DayView.SumRemove` | calorie_tracker_app.py:96 | removing one entry from a list removes exactly its columns from the sum. |
| `DayView.SumPermutation` | calorie_tracker_app.py:96 | two lists holding the same entries, in any order, have the same sum. |
| `DayView.DailyTotalsPermutation` | calorie_tracker_app.py:93-96 | reordering the log leaves every day's totals unchanged. |
| `DayView.Alerts` | calorie_tracker_app.py:104-106 | a column is alerted if and only if it is one of Calories, Protein, Carbs, Fats and its total is strictly above its target, so a total equal to its target raises no alert. Alerts come in loop order, with no repeats. |
| `DayView.TwoEntriesExample` | calorie_tracker_app.py:93-96 | two entries of 260 and 300 kcal on one day total 560 kcal. |
| `DayView.TwoEntriesAlert` | calorie_tracker_app.py:93-106 | running that day through the alert loop with a 500 kcal target alerts Calories. |
| `DayView.MacroTargetsCoverAlertOrder` | calorie_tracker_app.py:30-35 | the fixed targets are 2000, 150, 200 and 70, and they cover every column the alert loop visits. So they meet the precondition of `DayView.Alerts` and `Session.FoodLog.Today`. |
| `Session.FoodLog.constructor` | calorie_tracker_app.py:22-23 | a new session starts with an empty food log. |
| `Session.FoodLog.Submit` | calorie_tracker_app.py:62-88 | a submission succeeds if and only if the first row for the name passes validation. On failure the log is unchanged. On success exactly one entry is appended, holding the date, ingredient, quantity, meal type and computed nutrients, and earlier entries are unchanged. The submitted date's totals rise by that entry's columns; other dates' totals stay the same. |
| `Session.FoodLog.Today` | calorie_tracker_app.py:90-106 | the day view is shown if and only if the log is non-empty. When shown, each total is the column sum over that day's entries, and the alerts are exactly the macros strictly above target, in loop order. |

## Left out

- Streamlit presentation is not modelled. This covers page setup, styling,
  titles, tabs, widgets, the displayed dataframe, the metric formatting
  (`:.0f` / `:.1f`), warning texts, the download button and the hosting notes.
- Loading the reference CSV is not modelled: the existence check, the read,
  caching and the stop on a missing file. The table is a parameter: an
  immutable sequence of rows whose cells are already coerced.
- The pandas coercion calls are replaced by their outcome, `Some(value)` or
  `None`. Sorting a column that mixes strings and non-strings is not modelled:
  it raises an error in Python, and Ingredient names are modelled as strings.
- Floating-point rounding, infinities and NaN arithmetic are not modelled,
  because numbers are exact reals.
- `Calculator.ComputeNutrients`: requires Intake_g ≠ 0 when the row passes
  validation, rather than modelling the infinite calories numpy would produce
  there.
- `Session.FoodLog.Submit`: requires the submitted name to be in the table,
  because the selector only offers such names.
- `Session.FoodLog.Submit`: requires the looked-up row's Intake_g to be other
  than 0 when that row passes validation. This precondition comes from
  `Calculator.ComputeNutrients`, because line 77 has no guard for a zero
  portion.
- The quantity widget's minimum of 1 g is not modelled. The model accepts any
  quantity, because the arithmetic does not depend on the minimum.
- When validation fails, `st.stop()` also ends that script run, so the day view
  is not rendered in that run. In the model, `Submit` and `Today` are separate
  interactions.
- `supplement_log` and `weight_log` are not modelled: they are created but
  never used.
- The CSV export of the day's entries is not modelled. `DayView.DayEntries`
  does not state that the filter keeps log order. That order matters only to
  the displayed table and the export.
- The date widget is replaced by a `Date` value, and only date equality is used.
