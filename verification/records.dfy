/** The record the food log holds for one submitted meal item. */
module Records {
  import opened Calculator

  /** A calendar date; only equality between dates matters here. */
  datatype Date = Date(year: int, month: int, day: int)

  /** The choices of the meal-type radio button. */
  datatype Meal = Breakfast | Lunch | Dinner | Snack

  /** One row of the food log: what was eaten, when, and its computed nutrients. */
  datatype LogEntry = LogEntry(
    date: Date,
    ingredient: string,
    qtyG: real,
    meal: Meal,
    protein: real,
    carbs: real,
    fats: real,
    calories: real)

  /** The four nutrient columns of an entry. */
  function NutrientsOf(e: LogEntry): Nutrients
  {
    Nutrients(e.protein, e.carbs, e.fats, e.calories)
  }

  /**
   * The entry a successful submission appends: it carries the submitted date,
   * ingredient, quantity and meal type, and its nutrient columns read back as
   * the computed nutrients.
   */
  function NewEntry(date: Date, ingredient: string, qty: real, meal: Meal, n: Nutrients): (e: LogEntry)
    ensures e.date == date && e.ingredient == ingredient && e.qtyG == qty && e.meal == meal
    ensures NutrientsOf(e) == n
  {
    LogEntry(date, ingredient, qty, meal, n.protein, n.carbs, n.fats, n.calories)
  }
}
