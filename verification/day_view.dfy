/**
 * The day view: the log filtered to the selected date, the sum of its numeric
 * columns, and the target alerts raised from those sums.
 */
module DayView {
  import opened Records

  /** The numeric columns of the log, which the day's sum covers. */
  datatype Column = Qty | Protein | Carbs | Fats | Calories

  /** The sums of the numeric columns over one day's entries. */
  datatype Totals = Totals(qtyG: real, protein: real, carbs: real, fats: real, calories: real)

  const ZERO: Totals := Totals(0.0, 0.0, 0.0, 0.0, 0.0)

  /** The columns the alert loop visits, in its order. */
  const ALERT_ORDER: seq<Column> := [Calories, Protein, Carbs, Fats]

  /** The fixed daily targets of the tracker. */
  const MACRO_TARGETS: map<Column, real> :=
    map[Calories := 2000.0, Protein := 150.0, Carbs := 200.0, Fats := 70.0]

  function Get(t: Totals, c: Column): real
  {
    match c
    case Qty => t.qtyG
    case Protein => t.protein
    case Carbs => t.carbs
    case Fats => t.fats
    case Calories => t.calories
  }

  /** The value an entry holds in a numeric column. */
  function Value(e: LogEntry, c: Column): real
  {
    match c
    case Qty => e.qtyG
    case Protein => e.protein
    case Carbs => e.carbs
    case Fats => e.fats
    case Calories => e.calories
  }

  function AddTotals(a: Totals, b: Totals): Totals
  {
    Totals(a.qtyG + b.qtyG, a.protein + b.protein, a.carbs + b.carbs, a.fats + b.fats,
           a.calories + b.calories)
  }

  /** One entry's numeric columns, as a row of totals. */
  function Contribution(e: LogEntry): Totals
  {
    Totals(e.qtyG, e.protein, e.carbs, e.fats, e.calories)
  }

  /** The log rows whose Date equals `d`, in log order. */
  function DayEntries(log: seq<LogEntry>, d: Date): (r: seq<LogEntry>)
    ensures |r| <= |log|
    ensures forall e :: e in r <==> e in log && e.date == d
  {
    if log == [] then []
    else
      var rest := DayEntries(log[1..], d);
      assert log == [log[0]] + log[1..];
      if log[0].date == d then [log[0]] + rest else rest
  }

  /** The filter keeps every entry dated `d` as often as the log holds it, and no other entry. */
  lemma {:induction false} DayEntriesCounts(log: seq<LogEntry>, d: Date)
    ensures forall e :: multiset(DayEntries(log, d))[e] == if e.date == d then multiset(log)[e] else 0
  {
    if log != [] {
      DayEntriesCounts(log[1..], d);
      assert log == [log[0]] + log[1..];
    }
  }

  /** Column `c` added up over every entry of `s`, from the last entry back. */
  function ColumnTotal(s: seq<LogEntry>, c: Column): real
  {
    if s == [] then 0.0 else ColumnTotal(s[..|s| - 1], c) + Value(s[|s| - 1], c)
  }

  lemma {:induction false} ColumnTotalCons(x: LogEntry, s: seq<LogEntry>, c: Column)
    ensures ColumnTotal([x] + s, c) == Value(x, c) + ColumnTotal(s, c)
    decreases |s|
  {
    if s != [] {
      assert ([x] + s)[..|s|] == [x] + s[..|s| - 1];
      ColumnTotalCons(x, s[..|s| - 1], c);
    } else {
      assert ([x] + s)[..0] == [];
    }
  }

  /** The column-wise sum of a list of entries: each column of it is that column's total. */
  function Sum(s: seq<LogEntry>): (r: Totals)
    ensures forall c :: Get(r, c) == ColumnTotal(s, c)
  {
    if s == [] then ZERO
    else
      var rest := Sum(s[1..]);
      assert s == [s[0]] + s[1..];
      assert forall c :: ColumnTotal(s, c) == Value(s[0], c) + ColumnTotal(s[1..], c) by {
        forall c ensures ColumnTotal(s, c) == Value(s[0], c) + ColumnTotal(s[1..], c) {
          ColumnTotalCons(s[0], s[1..], c);
        }
      }
      AddTotals(Contribution(s[0]), rest)
  }

  /**
   * The totals shown for date `d`: each column is the sum of that column over
   * exactly the log entries dated `d`.
   */
  function DailyTotals(log: seq<LogEntry>, d: Date): (t: Totals)
    ensures forall c :: Get(t, c) == ColumnSum(log, d, c)
  {
    assert forall c :: ColumnTotal(DayEntries(log, d), c) == ColumnSum(log, d, c) by {
      forall c ensures ColumnTotal(DayEntries(log, d), c) == ColumnSum(log, d, c) {
        DayColumnTotal(log, d, c);
      }
    }
    Sum(DayEntries(log, d))
  }

  /**
   * An independent reading of "the total of column `c` on day `d`": walk the
   * log from its end, adding the column of each entry dated `d` and nothing
   * for any other entry.
   */
  function ColumnSum(log: seq<LogEntry>, d: Date, c: Column): real
  {
    if log == [] then 0.0
    else
      var last := log[|log| - 1];
      ColumnSum(log[..|log| - 1], d, c) + (if last.date == d then Value(last, c) else 0.0)
  }

  lemma {:induction false} SumConcat(x: seq<LogEntry>, y: seq<LogEntry>)
    ensures Sum(x + y) == AddTotals(Sum(x), Sum(y))
  {
    if x != [] {
      assert (x + y)[1..] == x[1..] + y;
      SumConcat(x[1..], y);
    } else {
      assert x + y == y;
    }
  }

  lemma {:induction false} DayEntriesAppend(log: seq<LogEntry>, e: LogEntry, d: Date)
    ensures DayEntries(log + [e], d) == DayEntries(log, d) + (if e.date == d then [e] else [])
  {
    if log == [] {
      assert log + [e] == [e];
    } else {
      assert (log + [e])[1..] == log[1..] + [e];
      DayEntriesAppend(log[1..], e, d);
    }
  }

  /**
   * Appending an entry moves the totals of its own date by exactly its
   * columns and leaves the totals of every other date unchanged.
   */
  lemma DailyTotalsAppend(log: seq<LogEntry>, e: LogEntry, d: Date)
    ensures DailyTotals(log + [e], d)
            == if e.date == d then AddTotals(DailyTotals(log, d), Contribution(e)) else DailyTotals(log, d)
  {
    DayEntriesAppend(log, e, d);
    if e.date == d {
      SumConcat(DayEntries(log, d), [e]);
      assert Sum([e]) == AddTotals(Contribution(e), ZERO);
    } else {
      assert DayEntries(log + [e], d) == DayEntries(log, d);
    }
  }

  /**
   * Filtering to day `d` and then adding up column `c` gives the same value as
   * adding up column `c` over the whole log while skipping other dates.
   */
  lemma {:induction false} DayColumnTotal(log: seq<LogEntry>, d: Date, c: Column)
    ensures ColumnTotal(DayEntries(log, d), c) == ColumnSum(log, d, c)
  {
    if log != [] {
      var init, last := log[..|log| - 1], log[|log| - 1];
      assert log == init + [last];
      DayColumnTotal(init, d, c);
      DayEntriesAppend(init, last, d);
      var before := DayEntries(init, d);
      if last.date == d {
        var r := before + [last];
        assert DayEntries(log, d) == r;
        assert r[..|r| - 1] == before;
        assert ColumnTotal(r, c) == ColumnTotal(before, c) + Value(last, c);
        assert ColumnSum(log, d, c) == ColumnSum(init, d, c) + Value(last, c);
      } else {
        assert DayEntries(log, d) == before;
        assert ColumnSum(log, d, c) == ColumnSum(init, d, c);
      }
    }
  }

  /** A date with no entries has all-zero totals. */
  lemma DailyTotalsWithoutMatch(log: seq<LogEntry>, d: Date)
    requires forall i :: 0 <= i < |log| ==> log[i].date != d
    ensures DailyTotals(log, d) == ZERO
  {
  }

  /** Taking one entry out of a list takes exactly its columns out of the sum. */
  lemma SumRemove(b: seq<LogEntry>, k: nat)
    requires k < |b|
    ensures Sum(b) == AddTotals(Contribution(b[k]), Sum(b[..k] + b[k + 1..]))
  {
    var pre, x, post := b[..k], b[k], b[k + 1..];
    assert b == pre + ([x] + post);
    SumConcat(pre, [x] + post);
    assert ([x] + post)[1..] == post;
    assert Sum([x] + post) == AddTotals(Contribution(x), Sum(post));
    SumConcat(pre, post);
  }

  /** The sum does not depend on the order of the entries. */
  lemma {:induction false} SumPermutation(a: seq<LogEntry>, b: seq<LogEntry>)
    requires multiset(a) == multiset(b)
    ensures Sum(a) == Sum(b)
    decreases |a|
  {
    if a == [] {
      assert |b| == |multiset(b)| == 0;
    } else {
      var x := a[0];
      assert x in multiset(b);
      var k :| 0 <= k < |b| && b[k] == x;
      var rest := b[..k] + b[k + 1..];
      assert multiset(a[1..]) == multiset(rest) by {
        assert a == [x] + a[1..];
        assert multiset(a[1..]) == multiset(a) - multiset{x};
        assert b == b[..k] + [x] + b[k + 1..];
        assert multiset(b) == multiset(b[..k]) + multiset{x} + multiset(b[k + 1..]);
      }
      SumPermutation(a[1..], rest);
      SumRemove(b, k);
    }
  }

  /** Reordering the log leaves every day's totals unchanged. */
  lemma DailyTotalsPermutation(a: seq<LogEntry>, b: seq<LogEntry>, d: Date)
    requires multiset(a) == multiset(b)
    ensures DailyTotals(a, d) == DailyTotals(b, d)
  {
    var ra, rb := DayEntries(a, d), DayEntries(b, d);
    DayEntriesCounts(a, d);
    DayEntriesCounts(b, d);
    assert multiset(ra) == multiset(rb) by {
      forall e ensures multiset(ra)[e] == multiset(rb)[e] {
      }
    }
    SumPermutation(ra, rb);
  }

  /** Position of a column in the alert loop. */
  function Rank(c: Column): nat
  {
    match c
    case Calories => 0
    case Protein => 1
    case Carbs => 2
    case Fats => 3
    case Qty => 4
  }

  /**
   * The alert loop: visits Calories, Protein, Carbs and Fats in turn and raises
   * an alert for a column exactly when its total is strictly above its target.
   */
  method Alerts(daily: Totals, targets: map<Column, real>) returns (alerts: seq<Column>)
    requires forall c :: c in ALERT_ORDER ==> c in targets
    ensures forall c :: c in alerts <==> c in ALERT_ORDER && Get(daily, c) > targets[c]
    ensures forall i, j :: 0 <= i < j < |alerts| ==> Rank(alerts[i]) < Rank(alerts[j])
  {
    alerts := [];
    for k := 0 to |ALERT_ORDER|
      invariant forall c :: c in alerts <==> c in ALERT_ORDER[..k] && Get(daily, c) > targets[c]
      invariant forall i, j :: 0 <= i < j < |alerts| ==> Rank(alerts[i]) < Rank(alerts[j])
      invariant forall i :: 0 <= i < |alerts| ==> Rank(alerts[i]) < k
    {
      var c := ALERT_ORDER[k];
      assert Rank(c) == k;
      assert ALERT_ORDER[..k + 1] == ALERT_ORDER[..k] + [c];
      if Get(daily, c) > targets[c] {
        alerts := alerts + [c];
      }
    }
    assert ALERT_ORDER[..|ALERT_ORDER|] == ALERT_ORDER;
  }

  /** Two entries of 260 and 300 kcal on one day total 560 kcal, above a 500 kcal target. */
  lemma TwoEntriesExample(d: Date, e1: LogEntry, e2: LogEntry)
    requires e1.date == d && e2.date == d
    requires e1.calories == 260.0 && e2.calories == 300.0
    ensures DailyTotals([e1, e2], d).calories == 560.0 > 500.0
  {
    assert [e1, e2][1..] == [e2] && [e2][1..] == [];
    assert DayEntries([e2], d) == [e2];
    assert DayEntries([e1, e2], d) == [e1, e2];
    assert Sum([e2]).calories == 300.0;
  }

  /** The fixed targets cover every column the alert loop visits, so they meet its precondition. */
  lemma MacroTargetsCoverAlertOrder()
    ensures forall c :: c in ALERT_ORDER ==> c in MACRO_TARGETS
    ensures MACRO_TARGETS[Calories] == 2000.0 && MACRO_TARGETS[Protein] == 150.0
    ensures MACRO_TARGETS[Carbs] == 200.0 && MACRO_TARGETS[Fats] == 70.0
  {
  }

  /** The two-entry day above, run through the alert loop with a 500 kcal target: Calories is alerted. */
  method TwoEntriesAlert(d: Date, e1: LogEntry, e2: LogEntry) returns (alerts: seq<Column>)
    requires e1.date == d && e2.date == d
    requires e1.calories == 260.0 && e2.calories == 300.0
    ensures Calories in alerts
  {
    TwoEntriesExample(d, e1, e2);
    var targets := map[Calories := 500.0, Protein := 150.0, Carbs := 200.0, Fats := 70.0];
    alerts := Alerts(DailyTotals([e1, e2], d), targets);
  }
}
