/** Preparation of the model's training input: the target column, the feature
    columns, the target encoding and the removal of rows without a target. */
module ModelTraining {
  import opened Wrappers
  import opened Frames
  import opened ColumnFinder

  const TargetCandidates: seq<string> := [
    "job_acceptance", "accepted_offer", "offer_acceptance", "final_decision",
    "joining_status", "placed", "status", "target", "label"]
  const InterviewCandidates: seq<string> := ["interview_score", "interview_rating", "technical_score"]
  const SkillsCandidates: seq<string> := ["skills_match_percentage", "skills_match", "skills_score"]
  const DegreeCandidates: seq<string> := ["degree_percentage", "degree_p", "degree_percent"]

  /** The two `ValueError`s the script raises before training. */
  datatype TrainError = NoTargetColumn | NotEnoughFeatures

  /** What is handed to the train/test split: feature matrix and target vector. */
  datatype TrainingData = TrainingData(target: string, features: seq<string>, x: seq<seq<Value>>, y: seq<Value>)

  /** `[c for c in found if c]`: the found names, in order, missing ones skipped. */
  function PresentNames(found: seq<Option<string>>): (names: seq<string>)
    ensures |names| <= |found|
    ensures forall c :: c in names <==> Some(c) in found
  {
    if found == [] then []
    else (if found[0].Some? then [found[0].value] else []) + PresentNames(found[1..])
  }

  /** The test `if c` of the comprehension: the lookup found a column. */
  function Found(): Option<string> -> bool
  {
    (o: Option<string>) => o.Some?
  }

  /** The lookups for interview, skills and degree, in that order. */
  function FeatureLookups(columns: set<string>): seq<Option<string>>
  {
    [FindCol(InterviewCandidates, columns), FindCol(SkillsCandidates, columns),
     FindCol(DegreeCandidates, columns)]
  }

  /** The feature columns: one name per lookup that found a column, in the
      order interview, skills, degree. */
  function FeatureColumns(columns: set<string>): (fs: seq<string>)
    ensures forall c :: c in fs ==> c in columns
    ensures |fs| == Count(FeatureLookups(columns), Found())
    ensures forall i, j :: 0 <= i < j < |fs| ==> FromEntriesInOrder(FeatureLookups(columns), fs, i, j)
  {
    PresentNamesCount(FeatureLookups(columns));
    PresentNamesOrder(FeatureLookups(columns));
    PresentNames(FeatureLookups(columns))
  }

  const TargetMap: map<string, int> := map[
    "yes" := 1, "placed" := 1, "accepted" := 1,
    "no" := 0, "not placed" := 0, "rejected" := 0]

  /** `y_raw.dtype == "object"`, taken to mean: the column holds some text. */
  predicate IsTextColumn(df: Frame, col: string)
  {
    HoldsText(df.rows, col)
  }

  /** The target encoding of one cell. A text column is mapped by exact match
      and anything else in it becomes missing; other columns pass through. */
  function EncodeTarget(v: Value, textColumn: bool): (y: Value)
    ensures !textColumn ==> y == v
    ensures textColumn ==> (y == Int(1) <==> v in {Text("yes"), Text("placed"), Text("accepted")})
    ensures textColumn ==> (y == Int(0) <==> v in {Text("no"), Text("not placed"), Text("rejected")})
    ensures textColumn ==> y == Int(0) || y == Int(1) || y == Missing
  {
    if !textColumn then v
    else match v
      case Text(s) => if s in TargetMap then Int(TargetMap[s]) else Missing
      case _ => Missing
  }

  /** `y.notna()` for one row. */
  function Labelled(target: string, textColumn: bool): Row -> bool
  {
    r => EncodeTarget(Cell(r, target), textColumn) != Missing
  }

  function Project(r: Row, features: seq<string>): (x: seq<Value>)
    ensures |x| == |features|
    ensures forall k :: 0 <= k < |features| ==> x[k] == Cell(r, features[k])
  {
    seq(|features|, k requires 0 <= k < |features| => Cell(r, features[k]))
  }

  /** `X[mask]` and `y[mask]` with `mask = y.notna()`: the feature values and
      encoded target of each row whose target is mapped, in row order. */
  method DropUnlabelled(rows: seq<Row>, target: string, textColumn: bool, features: seq<string>)
    returns (x: seq<seq<Value>>, y: seq<Value>)
    ensures var kept := Select(rows, Labelled(target, textColumn));
            |x| == |y| == |kept| &&
            forall k :: 0 <= k < |kept| ==>
              x[k] == Project(kept[k], features) &&
              y[k] == EncodeTarget(Cell(kept[k], target), textColumn)
  {
    var mapped := Labelled(target, textColumn);
    x, y := [], [];
    ghost var kept: seq<Row> := [];
    for i := 0 to |rows|
      invariant kept == Select(rows[..i], mapped)
      invariant |x| == |y| == |kept|
      invariant forall k :: 0 <= k < |kept| ==>
                  x[k] == Project(kept[k], features) &&
                  y[k] == EncodeTarget(Cell(kept[k], target), textColumn)
    {
      var r := rows[i];
      assert rows[..i + 1] == rows[..i] + [r];
      SelectSnoc(rows[..i], r, mapped);
      var encoded := EncodeTarget(Cell(r, target), textColumn);
      if encoded != Missing {
        x, y := x + [Project(r, features)], y + [encoded];
        kept := kept + [r];
      }
    }
    assert rows[..|rows|] == rows;
  }

  /** The training-input preparation, from target detection to the masked
      `X` and `y`. */
  method PrepareTrainingData(df: Frame) returns (res: Result<TrainingData, TrainError>)
    ensures res == Failure(NoTargetColumn) <==> !AnyPresent(TargetCandidates, ColumnSet(df))
    ensures res == Failure(NotEnoughFeatures) <==>
              AnyPresent(TargetCandidates, ColumnSet(df)) && |FeatureColumns(ColumnSet(df))| < 2
    ensures res.Success? ==>
              var d := res.value;
              var textColumn := IsTextColumn(df, d.target);
              var kept := Select(df.rows, Labelled(d.target, textColumn));
              Some(d.target) == FindCol(TargetCandidates, ColumnSet(df)) &&
              d.features == FeatureColumns(ColumnSet(df)) && |d.features| >= 2 &&
              |d.x| == |d.y| == |kept| &&
              forall k :: 0 <= k < |kept| ==>
                d.x[k] == Project(kept[k], d.features) &&
                d.y[k] == EncodeTarget(Cell(kept[k], d.target), textColumn) &&
                d.y[k] != Missing
  {
    var columns := ColumnSet(df);
    var targetCol := FindCol(TargetCandidates, columns);
    if targetCol.None? {
      return Failure(NoTargetColumn);
    }
    var target := targetCol.value;
    var features := FeatureColumns(columns);
    if |features| < 2 {
      return Failure(NotEnoughFeatures);
    }
    var textColumn := IsTextColumn(df, target);
    var x, y := DropUnlabelled(df.rows, target, textColumn, features);
    res := Success(TrainingData(target, features, x, y));
  }

  // ---------------------------------------------------------------------------
  // Lemmas
  // ---------------------------------------------------------------------------

  /** Dropping unlabelled rows keeps every labelled row, each as often as before,
      and leaves a text target with only 0 and 1. */
  lemma DropKeepsLabelled(df: Frame, target: string)
    ensures var textColumn := IsTextColumn(df, target);
            var kept := Select(df.rows, Labelled(target, textColumn));
            (forall r :: Labelled(target, textColumn)(r) ==> multiset(kept)[r] == multiset(df.rows)[r]) &&
            (forall r :: r in kept ==> r in df.rows) &&
            (textColumn ==> forall k :: 0 <= k < |kept| ==>
               EncodeTarget(Cell(kept[k], target), true) in {Int(0), Int(1)})
  {
    var textColumn := IsTextColumn(df, target);
    var kept := Select(df.rows, Labelled(target, textColumn));
    SelectMultiset(df.rows, Labelled(target, textColumn));
    forall r | r in kept ensures r in df.rows {
      assert multiset(kept)[r] > 0;
    }
  }

  /** `[c for c in found if c]` keeps one name per found entry. */
  lemma {:induction false} PresentNamesCount(found: seq<Option<string>>)
    ensures |PresentNames(found)| == Count(found, Found())
    decreases |found|
  {
    if found != [] {
      PresentNamesCount(found[1..]);
      assert found == [found[0]] + found[1..];
      SelectAppend([found[0]], found[1..], Found());
      assert [found[0]][..0] == [];
    }
  }

  /** Names `i` and `j` come from entries `a < b` of `found`. */
  predicate FromEntriesInOrder(found: seq<Option<string>>, names: seq<string>, i: int, j: int)
    requires 0 <= i < |names| && 0 <= j < |names|
  {
    exists a, b :: 0 <= a < b < |found| && found[a] == Some(names[i]) && found[b] == Some(names[j])
  }

  /** `[c for c in found if c]` keeps the order of the entries: of two names,
      the earlier comes from an earlier entry. */
  lemma {:induction false} PresentNamesOrder(found: seq<Option<string>>)
    ensures forall i, j :: 0 <= i < j < |PresentNames(found)| ==> FromEntriesInOrder(found, PresentNames(found), i, j)
    decreases |found|
  {
    if found != [] {
      var names, rest := PresentNames(found), PresentNames(found[1..]);
      PresentNamesOrder(found[1..]);
      var head := if found[0].Some? then [found[0].value] else [];
      assert names == head + rest;
      forall i, j | 0 <= i < j < |names|
        ensures FromEntriesInOrder(found, names, i, j)
      {
        if |head| == 1 && i == 0 {
          assert names[j] == rest[j - 1];
          assert Some(rest[j - 1]) in found[1..];
          var b' :| 0 <= b' < |found[1..]| && found[1..][b'] == Some(rest[j - 1]);
          assert found[0] == Some(names[0]) && found[b' + 1] == Some(names[j]);
        } else {
          var i', j' := i - |head|, j - |head|;
          assert names[i] == rest[i'] && names[j] == rest[j'];
          assert FromEntriesInOrder(found[1..], rest, i', j');
          var a', b' :| 0 <= a' < b' < |found[1..]| && found[1..][a'] == Some(rest[i']) && found[1..][b'] == Some(rest[j']);
          assert found[a' + 1] == Some(names[i]) && found[b' + 1] == Some(names[j]);
        }
      }
    }
  }

  /** There is one feature per role (interview, skills, degree) with a column
      among its candidates, so `NotEnoughFeatures` means at most one such role. */
  lemma FeatureCountByRole(columns: set<string>)
    ensures |FeatureColumns(columns)| ==
              (if AnyPresent(InterviewCandidates, columns) then 1 else 0) +
              (if AnyPresent(SkillsCandidates, columns) then 1 else 0) +
              (if AnyPresent(DegreeCandidates, columns) then 1 else 0)
  {
    var found := FeatureLookups(columns);
    var step1 := CountSnoc([], found[0], Found());
    var step2 := CountSnoc([found[0]], found[1], Found());
    var step3 := CountSnoc([found[0], found[1]], found[2], Found());
    assert [found[0]] == [] + [found[0]];
    assert [found[0], found[1]] == [found[0]] + [found[1]];
    assert found == [found[0], found[1]] + [found[2]];
  }

  /** "job_acceptance" is the preferred target whenever it is a column. */
  lemma TargetPrefersJobAcceptance(columns: set<string>)
    requires "job_acceptance" in columns
    ensures FindCol(TargetCandidates, columns) == Some("job_acceptance")
  {
    FindColIsFirst(TargetCandidates, columns, 0);
  }

  /** The encoding is case-sensitive: "Yes" is not a recognised label. */
  lemma EncodingIsCaseSensitive()
    ensures EncodeTarget(Text("Yes"), true) == Missing
    ensures EncodeTarget(Text("yes"), true) == Int(1)
  {
  }
}
