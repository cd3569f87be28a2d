/**
 * The session's food log and the two interactions that touch it: a form
 * submission, which appends at most one entry, and the day view, which reads
 * the log for the selected date.
 */
module Session {
  import opened Wrappers
  import opened ReferenceTable
  import opened Calculator
  import opened Records
  import opened DayView

  /** The list kept in the session state under `food_log`. */
  class FoodLog {
    var entries: seq<LogEntry>

    /** The first run of the script in a session starts with an empty log. */
    constructor ()
      ensures entries == []
    {
      entries := [];
    }

    /**
     * The submit handler: look up the first row for `ingredient`, validate the
     * five coerced values, and append one entry holding the date, ingredient,
     * quantity, meal type and computed nutrients. When validation fails the
     * handler stops before the append and the log is as it was.
     */
    method Submit(table: seq<RefRow>, date: Date, ingredient: string, qty: real, meal: Meal)
      returns (ok: bool)
      requires HasName(table, ingredient)
      requires Usable(Lookup(table, ingredient)) ==> Lookup(table, ingredient).intakeG.value != 0.0
      modifies this
      ensures ok <==> Usable(Lookup(table, ingredient))
      ensures !ok ==> entries == old(entries)
      ensures ok ==>
        var n := ComputeNutrients(Lookup(table, ingredient), qty).value;
        entries == old(entries) + [NewEntry(date, ingredient, qty, meal, n)]
      ensures ok ==> DailyTotals(entries, date)
                     == AddTotals(old(DailyTotals(entries, date)), Contribution(entries[|entries| - 1]))
      ensures forall d :: d != date ==> DailyTotals(entries, d) == old(DailyTotals(entries, d))
    {
      var row := Lookup(table, ingredient);
      var computed := ComputeNutrients(row, qty);
      if computed.None? {
        return false;
      }
      var entry := NewEntry(date, ingredient, qty, meal, computed.value);
      forall d ensures DailyTotals(entries + [entry], d)
                       == if d == date then AddTotals(DailyTotals(entries, d), Contribution(entry))
                          else DailyTotals(entries, d) {
        DailyTotalsAppend(entries, entry, d);
      }
      entries := entries + [entry];
      ok := true;
    }

    /**
     * The day view. Nothing is shown while the log is empty; otherwise it
     * shows the totals of the entries dated `date` and the alerts for them.
     */
    method Today(date: Date, targets: map<Column, real>)
      returns (shown: bool, daily: Totals, alerts: seq<Column>)
      requires forall c :: c in ALERT_ORDER ==> c in targets
      ensures shown <==> entries != []
      ensures shown ==> forall c :: Get(daily, c) == ColumnSum(entries, date, c)
      ensures forall c :: c in alerts <==> shown && c in ALERT_ORDER && Get(daily, c) > targets[c]
      ensures forall i, j :: 0 <= i < j < |alerts| ==> Rank(alerts[i]) < Rank(alerts[j])
    {
      shown, daily, alerts := entries != [], ZERO, [];
      if shown {
        daily := DailyTotals(entries, date);
        alerts := Alerts(daily, targets);
      }
    }
  }
}
