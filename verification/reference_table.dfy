/**
 * The nutrition reference table as the script sees it once it is loaded: an
 * immutable sequence of rows whose cells have already been through coercion.
 * This module gives the ingredient choices offered by the form (the names,
 * missing ones dropped, made unique and sorted) and the lookup of the row a
 * submission uses (the first row carrying the chosen name).
 */
module ReferenceTable {
  import opened Wrappers

  /** One row of the reference table. A missing cell is `None`. */
  datatype RefRow = RefRow(
    ingredient: Option<string>,
    proteinPerG: Option<real>,
    carbsPerG: Option<real>,
    fatsPerG: Option<real>,
    calories: Option<real>,
    intakeG: Option<real>)

  /** Some row of the table carries `name` in its Ingredient column. */
  predicate HasName(rows: seq<RefRow>, name: string)
  {
    exists i :: 0 <= i < |rows| && rows[i].ingredient == Some(name)
  }

  // ---------------------------------------------------------------------------
  // The order Python uses on strings: lexicographic by code point.
  // ---------------------------------------------------------------------------

  /**
   * `a` sorts strictly before `b`: the first differing character decides, and
   * a proper prefix sorts before the longer string.
   */
  predicate Below(a: string, b: string): (r: bool)
    decreases |a|
    ensures |a| < |b| && a == b[..|a|] ==> r
    ensures r ==> |b| > 0 && (|a| > 0 ==> a[0] <= b[0])
  {
    assert |a| > 0 && |a| < |b| && a == b[..|a|] ==> a[1..] == b[1..][..|a| - 1];
    |b| > 0 && (|a| == 0 || a[0] < b[0] || (a[0] == b[0] && Below(a[1..], b[1..])))
  }

  lemma {:induction false} BelowIrreflexive(a: string)
    ensures !Below(a, a)
  {
    if |a| > 0 {
      BelowIrreflexive(a[1..]);
    }
  }

  lemma {:induction false} BelowTransitive(a: string, b: string, c: string)
    requires Below(a, b) && Below(b, c)
    ensures Below(a, c)
    decreases |a|
  {
    if |a| > 0 && a[0] == b[0] && b[0] == c[0] {
      BelowTransitive(a[1..], b[1..], c[1..]);
    }
  }

  lemma {:induction false} BelowTotal(a: string, b: string)
    requires a != b
    ensures Below(a, b) || Below(b, a)
    decreases |a|
  {
    if |a| > 0 && |b| > 0 && a[0] == b[0] {
      assert a == [a[0]] + a[1..] && b == [b[0]] + b[1..];
      BelowTotal(a[1..], b[1..]);
    }
  }

  lemma BelowAsymmetric(a: string, b: string)
    requires Below(a, b)
    ensures !Below(b, a)
  {
  }

  /** Every element sorts strictly before every later one: sorted and duplicate-free. */
  predicate StrictlyAscending(s: seq<string>)
  {
    forall i, j :: 0 <= i < j < |s| ==> Below(s[i], s[j])
  }

  /** Adds `x` to a strictly ascending list at its place, unless it is already there. */
  function Insert(x: string, s: seq<string>): (r: seq<string>)
    requires StrictlyAscending(s)
    ensures StrictlyAscending(r)
    ensures forall y :: y in r <==> y == x || y in s
  {
    if s == [] then [x]
    else if x == s[0] then s
    else if Below(x, s[0]) then
      assert forall j :: 0 < j < |s| ==> Below(x, s[j]) by {
        forall j | 0 < j < |s| ensures Below(x, s[j]) {
          BelowTransitive(x, s[0], s[j]);
        }
      }
      [x] + s
    else
      var t := Insert(x, s[1..]);
      assert Below(s[0], x) by { BelowTotal(x, s[0]); }
      assert forall y :: y in t ==> Below(s[0], y);
      [s[0]] + t
  }

  /**
   * The options of the ingredient selector: the table's Ingredient column with
   * missing names dropped, duplicates removed and the rest sorted.
   */
  function IngredientChoices(rows: seq<RefRow>): (r: seq<string>)
    ensures StrictlyAscending(r)
    ensures forall n :: n in r <==> HasName(rows, n)
  {
    if rows == [] then []
    else
      var rest := IngredientChoices(rows[1..]);
      assert forall n :: HasName(rows[1..], n) ==> HasName(rows, n) by {
        forall n | HasName(rows[1..], n) ensures HasName(rows, n) {
          var i :| 0 <= i < |rows[1..]| && rows[1..][i].ingredient == Some(n);
          assert rows[i + 1].ingredient == Some(n);
        }
      }
      assert forall n :: HasName(rows, n) ==> rows[0].ingredient == Some(n) || HasName(rows[1..], n) by {
        forall n | HasName(rows, n) && rows[0].ingredient != Some(n) ensures HasName(rows[1..], n) {
          var i :| 0 <= i < |rows| && rows[i].ingredient == Some(n);
          assert rows[1..][i - 1].ingredient == Some(n);
        }
      }
      match rows[0].ingredient
      case None => rest
      case Some(name) => Insert(name, rest)
  }

  lemma EmptyWithoutMembers(s: seq<string>)
    ensures (forall y :: y !in s) ==> s == []
  {
    if s != [] {
      assert s[0] in s;
    }
  }

  /** A strictly ascending list is fixed by the set of its elements. */
  lemma {:induction false} AscendingDeterminedByElements(a: seq<string>, b: seq<string>)
    requires StrictlyAscending(a) && StrictlyAscending(b)
    requires forall y :: y in a <==> y in b
    ensures a == b
    decreases |a|
  {
    if a == [] {
      EmptyWithoutMembers(b);
    } else {
      assert a[0] in b && b != [];
      var j :| 0 <= j < |b| && b[j] == a[0];
      assert b[0] in a;
      var k :| 0 <= k < |a| && a[k] == b[0];
      if j > 0 && k > 0 {
        BelowAsymmetric(a[0], b[0]);
        assert false;
      }
      assert a[0] == b[0];
      forall y | y in a[1..] ensures y in b[1..] {
        var i :| 0 <= i < |a[1..]| && a[1..][i] == y;
        BelowIrreflexive(a[0]);
        assert a[i + 1] == y && y in b;
        assert Below(a[0], y) && y != b[0];
        var m :| 0 <= m < |b| && b[m] == y;
        assert b[1..][m - 1] == y;
      }
      forall y | y in b[1..] ensures y in a[1..] {
        var i :| 0 <= i < |b[1..]| && b[1..][i] == y;
        BelowIrreflexive(b[0]);
        assert b[i + 1] == y && y in a;
        assert Below(b[0], y) && y != a[0];
        var m :| 0 <= m < |a| && a[m] == y;
        assert a[1..][m - 1] == y;
      }
      AscendingDeterminedByElements(a[1..], b[1..]);
      assert a == [a[0]] + a[1..] && b == [b[0]] + b[1..];
    }
  }

  /**
   * The choice list is THE sorted, duplicate-free list of the present names:
   * any strictly ascending list holding exactly those names equals it.
   */
  lemma ChoicesAreSortedUniqueNames(rows: seq<RefRow>, s: seq<string>)
    requires StrictlyAscending(s)
    requires forall n :: n in s <==> HasName(rows, n)
    ensures s == IngredientChoices(rows)
  {
    AscendingDeterminedByElements(s, IngredientChoices(rows));
  }

  /** The position of the row `food_df[food_df["Ingredient"] == name].iloc[0]` selects. */
  function FirstRowIndex(rows: seq<RefRow>, name: string): (i: nat)
    requires HasName(rows, name)
    ensures i < |rows| && rows[i].ingredient == Some(name)
    ensures forall j :: 0 <= j < i ==> rows[j].ingredient != Some(name)
  {
    if rows[0].ingredient == Some(name) then 0
    else
      assert HasName(rows[1..], name) by {
        var k :| 0 <= k < |rows| && rows[k].ingredient == Some(name);
        assert rows[1..][k - 1] == rows[k];
      }
      1 + FirstRowIndex(rows[1..], name)
  }

  /** The reference row a submission for `name` uses: the first row carrying that name. */
  function Lookup(rows: seq<RefRow>, name: string): (r: RefRow)
    requires HasName(rows, name)
    ensures r.ingredient == Some(name)
    ensures exists i :: 0 <= i < |rows| && rows[i] == r
                        && forall j :: 0 <= j < i ==> rows[j].ingredient != Some(name)
  {
    rows[FirstRowIndex(rows, name)]
  }

  /** Every name the selector offers has a row, so the lookup of a submitted choice succeeds. */
  lemma ChoiceHasRow(rows: seq<RefRow>, name: string)
    requires name in IngredientChoices(rows)
    ensures Lookup(rows, name).ingredient == Some(name)
  {
  }
}
