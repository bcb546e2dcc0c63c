/** A pandas data frame as the scripts use it: named columns, rows of cells, and
    boolean-mask selection of rows. */
module Frames {
  import opened Wrappers
  import opened Strings

  /** One cell as read from the CSV file: a missing value (NaN), text, an
      integer, a float or a boolean. */
  datatype Value = Missing | Text(s: string) | Int(i: int) | Real(x: real) | Bool(b: bool)

  /** One candidate record: column name to cell. A column absent from the map
      reads as missing. */
  type Row = map<string, Value>

  datatype Frame = Frame(columns: seq<string>, rows: seq<Row>)

  function Cell(r: Row, c: string): Value
  {
    if c in r then r[c] else Missing
  }

  function ColumnSet(f: Frame): set<string>
  {
    set c | c in f.columns
  }

  /** The number a cell holds for a comparison such as `col < 40`: booleans
      compare as 0 and 1. A missing cell (NaN) makes every comparison false. */
  function NumOf(v: Value): Option<real>
  {
    match v
    case Int(i) => Some(i as real)
    case Real(x) => Some(x)
    case Bool(b) => Some(if b then 1.0 else 0.0)
    case _ => None
  }

  /** The text `astype(str)` gives a cell. `None` stands for the text of a
      float, which always holds a '.', an 'e', "inf" or "nan". */
  function AsText(v: Value): Option<string>
  {
    match v
    case Missing => Some("nan")
    case Text(s) => Some(s)
    case Int(i) => Some(IntText(i))
    case Bool(b) => Some(if b then "True" else "False")
    case Real(_) => None
  }

  /** Element-wise `==` between a column and a scalar, as a mask: NaN equals
      nothing, numbers compare by value, text only equals text. */
  predicate SameValue(a: Value, b: Value)
  {
    !a.Missing? && !b.Missing? &&
    if NumOf(a).Some? && NumOf(b).Some? then NumOf(a).value == NumOf(b).value else a == b
  }

  /** `df[col] = values` for a list as long as the frame: the column is set in
      every row and appended to the column list if it is new. */
  function AddColumn(f: Frame, name: string, values: seq<Value>): (g: Frame)
    requires |values| == |f.rows|
    ensures name in g.columns
    ensures name in f.columns ==> g.columns == f.columns
    ensures name !in f.columns ==> g.columns == f.columns + [name]
    ensures |g.rows| == |f.rows|
    ensures forall i :: 0 <= i < |g.rows| ==> Cell(g.rows[i], name) == values[i]
    ensures forall i, c :: 0 <= i < |g.rows| && c != name ==> Cell(g.rows[i], c) == Cell(f.rows[i], c)
  {
    Frame(if name in f.columns then f.columns else f.columns + [name],
          seq(|f.rows|, i requires 0 <= i < |f.rows| => f.rows[i][name := values[i]]))
  }

  /** `s[mask]`: the elements satisfying `p`, in their original order. */
  function Select<T(==,!new)>(s: seq<T>, p: T -> bool): (r: seq<T>)
    ensures |r| <= |s|
    ensures forall i :: 0 <= i < |r| ==> p(r[i])
  {
    if |s| == 0 then []
    else
      var init, last := s[..|s| - 1], s[|s| - 1];
      Select(init, p) + (if p(last) then [last] else [])
  }

  /** `s[mask].shape[0]`. */
  function Count<T(==,!new)>(s: seq<T>, p: T -> bool): nat
  {
    |Select(s, p)|
  }

  function Not<T>(p: T -> bool): T -> bool
  {
    x => !p(x)
  }

  /** The mask `p & q`. */
  function Both<T>(p: T -> bool, q: T -> bool): T -> bool
  {
    x => p(x) && q(x)
  }

  /** Some cell of column `col` in `rows` holds text. */
  predicate HoldsText(rows: seq<Row>, col: string)
  {
    exists i :: 0 <= i < |rows| && Cell(rows[i], col).Text?
  }

  /** Elements `i` and `j` of `r` occur in `s` at positions `a < b`. */
  predicate InOrderFrom<T(==)>(s: seq<T>, r: seq<T>, i: int, j: int)
    requires 0 <= i < |r| && 0 <= j < |r|
  {
    exists a, b :: 0 <= a < b < |s| && s[a] == r[i] && s[b] == r[j]
  }

  // ---------------------------------------------------------------------------
  // Lemmas
  // ---------------------------------------------------------------------------

  /** Extending a sequence by one element extends its selection by that element
      when the element passes. */
  lemma SelectSnoc<T(!new)>(s: seq<T>, x: T, p: T -> bool)
    ensures Select(s + [x], p) == Select(s, p) + (if p(x) then [x] else [])
  {
    assert (s + [x])[..|s|] == s;
  }

  /** The count over a sequence extended by one element, as a loop accumulates it. */
  function CountSnoc<T(==,!new)>(s: seq<T>, x: T, p: T -> bool): (step: nat)
    ensures Count(s + [x], p) == Count(s, p) + step
    ensures step == 1 <==> p(x)
    ensures step <= 1
  {
    SelectSnoc(s, x, p);
    if p(x) then 1 else 0
  }

  /** Selection keeps every passing element exactly as often as it occurs, and
      no other element. */
  lemma {:induction false} SelectMultiset<T(!new)>(s: seq<T>, p: T -> bool)
    ensures forall x :: multiset(Select(s, p))[x] == if p(x) then multiset(s)[x] else 0
    decreases |s|
  {
    if |s| > 0 {
      var init, last := s[..|s| - 1], s[|s| - 1];
      assert s == init + [last];
      SelectMultiset(init, p);
    }
  }

  /** Selection distributes over concatenation. */
  lemma {:induction false} SelectAppend<T(!new)>(a: seq<T>, b: seq<T>, p: T -> bool)
    ensures Select(a + b, p) == Select(a, p) + Select(b, p)
    decreases |b|
  {
    if |b| > 0 {
      var init, last := b[..|b| - 1], b[|b| - 1];
      assert b == init + [last];
      assert a + b == (a + init) + [last];
      SelectAppend(a, init, p);
      SelectSnoc(a + init, last, p);
      SelectSnoc(init, last, p);
    } else {
      assert a + b == a;
    }
  }

  /** Selection looks at its test only on the elements: two tests that agree
      on every element select the same elements. */
  lemma {:induction false} SelectAgrees<T(!new)>(s: seq<T>, p: T -> bool, q: T -> bool)
    requires forall i :: 0 <= i < |s| ==> p(s[i]) == q(s[i])
    ensures Select(s, p) == Select(s, q)
    decreases |s|
  {
    if |s| > 0 {
      SelectAgrees(s[..|s| - 1], p, q);
    }
  }

  /** A test every element passes keeps the whole sequence. */
  lemma {:induction false} SelectAll<T(!new)>(s: seq<T>, p: T -> bool)
    requires forall i :: 0 <= i < |s| ==> p(s[i])
    ensures Select(s, p) == s
    decreases |s|
  {
    if |s| > 0 {
      SelectAll(s[..|s| - 1], p);
    }
  }

  /** Masking twice, `s[p][q]`, is masking once by `p & q`, order included. */
  lemma {:induction false} SelectSelect<T(!new)>(s: seq<T>, p: T -> bool, q: T -> bool)
    ensures Select(Select(s, p), q) == Select(s, Both(p, q))
    decreases |s|
  {
    if |s| > 0 {
      var init, last := s[..|s| - 1], s[|s| - 1];
      SelectSelect(init, p, q);
      assert Select(s, p) == Select(init, p) + (if p(last) then [last] else []);
      assert Select(s, Both(p, q)) == Select(init, Both(p, q)) + (if p(last) && q(last) then [last] else []);
      if p(last) {
        SelectSnoc(Select(init, p), last, q);
      } else {
        assert Select(s, p) == Select(init, p);
        assert Select(s, Both(p, q)) == Select(init, Both(p, q));
      }
    }
  }

  /** Every selected element is an element of the sequence. */
  lemma SelectFrom<T(!new)>(s: seq<T>, p: T -> bool)
    ensures forall x :: x in Select(s, p) ==> x in s
  {
    SelectMultiset(s, p);
    forall x | x in Select(s, p) ensures x in s {
      assert multiset(Select(s, p))[x] > 0;
    }
  }

  /** Selection keeps the order of the elements: of two selected elements, the
      earlier one comes from an earlier position. */
  lemma {:induction false} SelectOrder<T(!new)>(s: seq<T>, p: T -> bool)
    ensures forall i, j :: 0 <= i < j < |Select(s, p)| ==> InOrderFrom(s, Select(s, p), i, j)
    decreases |s|
  {
    if |s| > 0 {
      var init, last := s[..|s| - 1], s[|s| - 1];
      var r, q := Select(s, p), Select(init, p);
      SelectOrder(init, p);
      SelectFrom(init, p);
      assert r == q + (if p(last) then [last] else []);
      forall i, j | 0 <= i < j < |r| ensures InOrderFrom(s, r, i, j) {
        assert r[i] == q[i];
        if j < |q| {
          assert r[j] == q[j];
          assert InOrderFrom(init, q, i, j);
          var a, b :| 0 <= a < b < |init| && init[a] == q[i] && init[b] == q[j];
          assert s[a] == r[i] && s[b] == r[j];
        } else {
          assert r[j] == last;
          assert q[i] in init;
          var a :| 0 <= a < |init| && init[a] == q[i];
          assert s[a] == r[i] && s[|s| - 1] == r[j];
        }
      }
    }
  }

  /** An element put in front of an ordered selection leaves the rest in order. */
  lemma ConsOrder<T(!new)>(s: seq<T>, r: seq<T>, x: T)
    requires forall i, j :: 0 <= i < j < |r| ==> InOrderFrom(s, r, i, j)
    ensures forall i, j :: 1 <= i < j < |[x] + r| ==> InOrderFrom(s, [x] + r, i, j)
  {
    forall i, j | 1 <= i < j < |[x] + r| ensures InOrderFrom(s, [x] + r, i, j) {
      assert InOrderFrom(s, r, i - 1, j - 1);
      assert ([x] + r)[i] == r[i - 1] && ([x] + r)[j] == r[j - 1];
    }
  }

  /** Selecting from a selection selects by both tests. */
  lemma SelectRefines<T(!new)>(s: seq<T>, a: seq<T>, p: T -> bool, q: T -> bool)
    requires forall x :: multiset(a)[x] == if p(x) then multiset(s)[x] else 0
    ensures forall x :: multiset(Select(a, q))[x] == if p(x) && q(x) then multiset(s)[x] else 0
  {
    SelectMultiset(a, q);
  }

  /** Whatever a characterised selection holds passes its test. */
  lemma SelectedPass<T(!new)>(s: seq<T>, a: seq<T>, p: T -> bool)
    requires forall x :: multiset(a)[x] == if p(x) then multiset(s)[x] else 0
    ensures forall i :: 0 <= i < |a| ==> p(a[i])
  {
    forall i | 0 <= i < |a| ensures p(a[i]) {
      assert multiset(a)[a[i]] > 0;
    }
  }

  /** Selection by a weaker test keeps at least as many elements. */
  lemma {:induction false} CountMonotone<T(!new)>(s: seq<T>, p: T -> bool, q: T -> bool)
    requires forall x :: p(x) ==> q(x)
    ensures Count(s, p) <= Count(s, q)
    decreases |s|
  {
    if |s| > 0 {
      CountMonotone(s[..|s| - 1], p, q);
    }
  }

  /** Every element is either selected or selected by the negated test. */
  lemma {:induction false} CountComplement<T(!new)>(s: seq<T>, p: T -> bool)
    ensures Count(s, p) + Count(s, Not(p)) == |s|
    decreases |s|
  {
    if |s| > 0 {
      CountComplement(s[..|s| - 1], p);
    }
  }
}
