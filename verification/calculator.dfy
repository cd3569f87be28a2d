/**
 * The arithmetic of a food submission: validate the five coerced reference
 * values of the looked-up row, then scale them by the quantity consumed.
 * Protein, carbs and fats are per-gram rates; calories are given per
 * reference portion of Intake_g grams and are scaled by the ratio of the
 * quantity to that portion.
 */
module Calculator {
  import opened Wrappers
  import opened ReferenceTable

  /** The four nutrient amounts one log entry contributes. */
  datatype Nutrients = Nutrients(protein: real, carbs: real, fats: real, calories: real)

  /** The five coerced values the submission checks together, in the order it lists them. */
  function CoercedValues(row: RefRow): seq<Option<real>>
  {
    [row.proteinPerG, row.carbsPerG, row.fatsPerG, row.calories, row.intakeG]
  }

  /**
   * The validation of a looked-up row: no entry of the checked list is null.
   * It passes exactly when each of the five fields the arithmetic reads is present.
   */
  predicate Usable(row: RefRow): (ok: bool)
    ensures ok <==> row.proteinPerG.Some? && row.carbsPerG.Some? && row.fatsPerG.Some?
                    && row.calories.Some? && row.intakeG.Some?
  {
    var values := CoercedValues(row);
    assert |values| == 5 && values[0] == row.proteinPerG && values[1] == row.carbsPerG
           && values[2] == row.fatsPerG && values[3] == row.calories && values[4] == row.intakeG;
    !exists i :: 0 <= i < |values| && values[i].None?
  }

  function AddNutrients(a: Nutrients, b: Nutrients): Nutrients
  {
    Nutrients(a.protein + b.protein, a.carbs + b.carbs, a.fats + b.fats, a.calories + b.calories)
  }

  /**
   * The nutrients of `qty` grams of the ingredient of `row`, or `None` when the
   * row fails validation (the script then warns and stops before logging).
   */
  function ComputeNutrients(row: RefRow, qty: real): (r: Option<Nutrients>)
    requires Usable(row) ==> row.intakeG.value != 0.0
    ensures r.Some? <==> Usable(row)
    ensures r.Some? ==>
      && r.value.protein == row.proteinPerG.value * qty
      && r.value.carbs == row.carbsPerG.value * qty
      && r.value.fats == row.fatsPerG.value * qty
      && r.value.calories * row.intakeG.value == row.calories.value * qty
  {
    if !Usable(row) then None
    else
      var portion := row.intakeG.value;
      Some(Nutrients(
        row.proteinPerG.value * qty,
        row.carbsPerG.value * qty,
        row.fatsPerG.value * qty,
        row.calories.value * (qty / portion)))
  }

  /** A row that fails validation is rejected even when its reference portion is zero. */
  lemma InvalidZeroPortionRejected(qty: real)
    ensures ComputeNutrients(RefRow(Some("x"), None, Some(1.0), Some(1.0), Some(100.0), Some(0.0)), qty)
            == None
  {
  }

  /** Eating exactly one reference portion yields exactly the reference calories. */
  lemma ReferencePortionCalories(row: RefRow)
    requires Usable(row) && row.intakeG.value != 0.0
    ensures ComputeNutrients(row, row.intakeG.value).value.calories == row.calories.value
  {
  }

  /**
   * Calories are not a per-gram rate: for a non-zero reference value and a
   * non-zero quantity, they equal Calories times the quantity exactly when the
   * reference portion is one gram.
   */
  lemma CaloriesNotPerGram(row: RefRow, qty: real)
    requires Usable(row) && row.intakeG.value != 0.0
    requires row.calories.value != 0.0 && qty != 0.0
    ensures ComputeNutrients(row, qty).value.calories == row.calories.value * qty
            <==> row.intakeG.value == 1.0
  {
    var cal, portion := row.calories.value, row.intakeG.value;
    var c := ComputeNutrients(row, qty).value.calories;
    assert c * portion == cal * qty;
    assert cal * qty != 0.0;
    if c == cal * qty {
      assert c * portion == c * 1.0;
      assert c * (portion - 1.0) == 0.0;
    }
  }

  /**
   * Logging `a` grams and then `b` grams of one ingredient adds up to the same
   * nutrients as logging `a + b` grams at once.
   */
  lemma SplitPortion(row: RefRow, a: real, b: real)
    requires Usable(row) && row.intakeG.value != 0.0
    ensures ComputeNutrients(row, a + b).value
            == AddNutrients(ComputeNutrients(row, a).value, ComputeNutrients(row, b).value)
  {
  }

  /** 200 g of rice, using the reference row below (130 kcal per 100 g portion). */
  lemma RiceExample()
    ensures ComputeNutrients(
              RefRow(Some("Rice"), Some(0.027), Some(0.28), Some(0.003), Some(130.0), Some(100.0)),
              200.0)
            == Some(Nutrients(5.4, 56.0, 0.6, 260.0))
  {
  }
}
