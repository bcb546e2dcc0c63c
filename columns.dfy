/** The "smart column finder" `find_col` of Streamlit_App.py, Model_Training.py
    and EDA_Analyst_Tasks.py: the first name of a priority list that is a column
    of the frame. */
module ColumnFinder {
  import opened Wrappers

  /** `find_col(possible_names)` against the column names `columns`. */
  function FindCol(candidates: seq<string>, columns: set<string>): (r: Option<string>)
    ensures r.None? <==> forall i :: 0 <= i < |candidates| ==> candidates[i] !in columns
    ensures r.Some? ==> r.value in columns && r.value in candidates
    decreases |candidates|
  {
    if candidates == [] then None
    else if candidates[0] in columns then Some(candidates[0])
    else FindCol(candidates[1..], columns)
  }

  /** The candidate at position `i` is found when it is a column and no earlier
      candidate is. */
  lemma {:induction false} FindColIsFirst(candidates: seq<string>, columns: set<string>, i: nat)
    requires i < |candidates| && candidates[i] in columns
    requires forall j :: 0 <= j < i ==> candidates[j] !in columns
    ensures FindCol(candidates, columns) == Some(candidates[i])
    decreases i
  {
    if i > 0 {
      assert candidates[0] !in columns;
      FindColIsFirst(candidates[1..], columns, i - 1);
    }
  }

  /** Conversely, a found name sits at a position before which no candidate is
      a column: it is the earliest present candidate. */
  lemma {:induction false} FindColPosition(candidates: seq<string>, columns: set<string>) returns (i: nat)
    requires FindCol(candidates, columns).Some?
    ensures i < |candidates| && candidates[i] == FindCol(candidates, columns).value
    ensures candidates[i] in columns
    ensures forall j :: 0 <= j < i ==> candidates[j] !in columns
    decreases |candidates|
  {
    if candidates[0] in columns {
      i := 0;
    } else {
      var k := FindColPosition(candidates[1..], columns);
      i := k + 1;
    }
  }

  /** Some candidate of the list is a column. */
  predicate AnyPresent(candidates: seq<string>, columns: set<string>)
  {
    exists i :: 0 <= i < |candidates| && candidates[i] in columns
  }

  /** Position `i` holds the earliest candidate that is a column. */
  predicate EarliestAt(candidates: seq<string>, columns: set<string>, i: int)
  {
    0 <= i < |candidates| && candidates[i] in columns &&
    forall j :: 0 <= j < i ==> candidates[j] !in columns
  }

  /** `r` is what a first-match lookup of `candidates` must give: nothing when
      no candidate is a column, otherwise the earliest candidate that is one. */
  predicate ResolvedFrom(r: Option<string>, candidates: seq<string>, columns: set<string>)
  {
    (r.Some? <==> AnyPresent(candidates, columns)) &&
    (r.Some? ==> exists i :: 0 <= i < |candidates| && EarliestAt(candidates, columns, i) && candidates[i] == r.value)
  }

  /** `find_col` resolves a role to its earliest present candidate. */
  lemma FindColResolved(candidates: seq<string>, columns: set<string>)
    ensures ResolvedFrom(FindCol(candidates, columns), candidates, columns)
  {
    if FindCol(candidates, columns).Some? {
      var i := FindColPosition(candidates, columns);
      assert EarliestAt(candidates, columns, i);
    }
  }
}
