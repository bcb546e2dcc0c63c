/** The interactive dashboard: column resolution, the synthetic acceptance
    column, the sidebar row filters and the KPI arithmetic. */
module Dashboard {
  import opened Wrappers
  import opened Strings
  import opened Frames
  import opened ColumnFinder

  // ---------------------------------------------------------------------------
  // Column mapping
  // ---------------------------------------------------------------------------

  const NameCandidates: seq<string> := ["candidate_name", "name", "student_name"]
  const StatusCandidates: seq<string> := ["status", "placement_status", "placed"]
  const AcceptCandidates: seq<string> := ["job_acceptance", "accepted_offer", "joining_status"]
  const InterviewCandidates: seq<string> := ["interview_score", "interview_rating", "technical_score"]
  const SkillsCandidates: seq<string> := ["skills_match_percentage", "skills_match", "skills_score"]
  const OfferCandidates: seq<string> := ["offer_status", "offer_outcome"]
  const DegreeCandidates: seq<string> := ["degree_percentage", "degree_p", "degree_percent"]

  /** The column each role was mapped to, if any. */
  datatype Columns = Columns(
    name: Option<string>, status: Option<string>, accept: Option<string>,
    interview: Option<string>, skills: Option<string>, offer: Option<string>,
    degree: Option<string>)

  function ResolveColumns(columns: set<string>): (c: Columns)
    ensures ResolvedFrom(c.name, NameCandidates, columns)
    ensures ResolvedFrom(c.status, StatusCandidates, columns)
    ensures ResolvedFrom(c.accept, AcceptCandidates, columns)
    ensures ResolvedFrom(c.interview, InterviewCandidates, columns)
    ensures ResolvedFrom(c.skills, SkillsCandidates, columns)
    ensures ResolvedFrom(c.offer, OfferCandidates, columns)
    ensures ResolvedFrom(c.degree, DegreeCandidates, columns)
  {
    FindColResolved(NameCandidates, columns);
    FindColResolved(StatusCandidates, columns);
    FindColResolved(AcceptCandidates, columns);
    FindColResolved(InterviewCandidates, columns);
    FindColResolved(SkillsCandidates, columns);
    FindColResolved(OfferCandidates, columns);
    FindColResolved(DegreeCandidates, columns);
    Columns(FindCol(NameCandidates, columns), FindCol(StatusCandidates, columns),
            FindCol(AcceptCandidates, columns), FindCol(InterviewCandidates, columns),
            FindCol(SkillsCandidates, columns), FindCol(OfferCandidates, columns),
            FindCol(DegreeCandidates, columns))
  }

  // ---------------------------------------------------------------------------
  // Synthetic acceptance column
  // ---------------------------------------------------------------------------

  const SyntheticColumn := "job_acceptance"

  predicate IsYesNo(v: Value)
  {
    v == Text("Yes") || v == Text("No")
  }

  /** The frame after the acceptance step and the acceptance column to use. When
      no acceptance column was found, a "job_acceptance" column of Yes/No values
      is added; `coins[i]` is the random draw for row `i` (true for "Yes"). */
  function WithAcceptance(df: Frame, coins: seq<bool>): (res: (Frame, string))
    requires |coins| == |df.rows|
    ensures res.1 in res.0.columns
    ensures df.columns <= res.0.columns && |res.0.rows| == |df.rows|
    ensures FindCol(AcceptCandidates, ColumnSet(df)).Some? ==>
              res.0 == df && res.1 == FindCol(AcceptCandidates, ColumnSet(df)).value
    ensures FindCol(AcceptCandidates, ColumnSet(df)).None? ==>
              res.1 == SyntheticColumn && res.0.columns == df.columns + [SyntheticColumn] &&
              forall i :: 0 <= i < |res.0.rows| ==> IsYesNo(Cell(res.0.rows[i], res.1))
    ensures forall i, c :: 0 <= i < |df.rows| && c != res.1 ==> Cell(res.0.rows[i], c) == Cell(df.rows[i], c)
  {
    match FindCol(AcceptCandidates, ColumnSet(df))
    case Some(col) => (df, col)
    case None =>
      var values := seq(|coins|, i requires 0 <= i < |coins| => if coins[i] then Text("Yes") else Text("No"));
      (AddColumn(df, SyntheticColumn, values), SyntheticColumn)
  }

  // ---------------------------------------------------------------------------
  // Sidebar filters
  // ---------------------------------------------------------------------------

  /** The values chosen in the sidebar widgets. */
  datatype Widgets = Widgets(candidate: Value, status: Value, degreeLow: int, degreeHigh: int)

  const AllCandidates := Text("All Candidates")
  const AllStatuses := Text("All")

  function ValueIs(col: string, v: Value): Row -> bool
  {
    r => SameValue(Cell(r, col), v)
  }

  /** The degree slider's mask: both bounds inclusive, a missing value fails. */
  predicate InRange(v: Value, low: int, high: int)
  {
    NumOf(v).Some? && low as real <= NumOf(v).value <= high as real
  }

  function DegreeWithin(col: string, low: int, high: int): Row -> bool
  {
    r => InRange(Cell(r, col), low, high)
  }

  /** The status and degree conditions of the all-candidates view: the picked
      status (unless "All") and a degree within the slider range. */
  predicate PassesStatusAndDegree(r: Row, cols: Columns, w: Widgets)
  {
    (cols.status.Some? && w.status != AllStatuses ==> ValueIs(cols.status.value, w.status)(r)) &&
    (cols.degree.Some? ==> DegreeWithin(cols.degree.value, w.degreeLow, w.degreeHigh)(r))
  }

  /** Which rows the sidebar lets through: with one candidate picked, exactly
      that candidate's rows; otherwise the rows with the picked status (unless
      "All") whose degree lies within the slider range. */
  predicate Admits(r: Row, cols: Columns, w: Widgets)
  {
    if cols.name.Some? && w.candidate != AllCandidates then
      SameValue(Cell(r, cols.name.value), w.candidate)
    else
      PassesStatusAndDegree(r, cols, w)
  }

  function PassesIn(cols: Columns, w: Widgets): Row -> bool
  {
    r => PassesStatusAndDegree(r, cols, w)
  }

  function AdmitsIn(cols: Columns, w: Widgets): Row -> bool
  {
    r => Admits(r, cols, w)
  }

  /** The status and degree filter steps, taken only in the all-candidates view:
      the rows with the picked status and an in-range degree, in their order. */
  method FilterStatusAndDegree(rows: seq<Row>, cols: Columns, w: Widgets) returns (filtered: seq<Row>)
    ensures filtered == Select(rows, PassesIn(cols, w))
    ensures forall x :: multiset(filtered)[x] == if PassesStatusAndDegree(x, cols, w) then multiset(rows)[x] else 0
  {
    var byStatus := cols.status.Some? && w.status != AllStatuses;
    var statusMask := if byStatus then ValueIs(cols.status.value, w.status) else _ => true;
    filtered := rows;
    if byStatus {
      filtered := Select(filtered, statusMask);
    } else {
      SelectAll(rows, statusMask);
    }
    if cols.degree.Some? {
      var degreeMask := DegreeWithin(cols.degree.value, w.degreeLow, w.degreeHigh);
      filtered := Select(filtered, degreeMask);
      SelectSelect(rows, statusMask, degreeMask);
      SelectAgrees(rows, Both(statusMask, degreeMask), PassesIn(cols, w));
    } else {
      SelectAgrees(rows, statusMask, PassesIn(cols, w));
    }
    SelectMultiset(rows, PassesIn(cols, w));
  }

  /** The three filter steps applied one after another to a copy of the rows:
      the rows the sidebar admits, in their order, each as often as it occurred. */
  method FilterRows(rows: seq<Row>, cols: Columns, w: Widgets) returns (filtered: seq<Row>)
    ensures filtered == Select(rows, AdmitsIn(cols, w))
    ensures forall x :: multiset(filtered)[x] == if Admits(x, cols, w) then multiset(rows)[x] else 0
    ensures forall i :: 0 <= i < |filtered| ==> Admits(filtered[i], cols, w)
  {
    var selected := if cols.name.Some? then w.candidate else AllCandidates;
    if selected != AllCandidates {
      var mask := ValueIs(cols.name.value, selected);
      filtered := Select(rows, mask);
      SelectAgrees(rows, mask, AdmitsIn(cols, w));
    } else {
      filtered := FilterStatusAndDegree(rows, cols, w);
      SelectAgrees(rows, PassesIn(cols, w), AdmitsIn(cols, w));
    }
    SelectMultiset(rows, AdmitsIn(cols, w));
  }

  // ---------------------------------------------------------------------------
  // KPI arithmetic
  // ---------------------------------------------------------------------------

  /** `safe_rate(n, d)`: n as a percentage of d, and 0 when d is not positive. */
  function SafeRate(n: int, d: int): (r: real)
    ensures d <= 0 ==> r == 0.0
    ensures d > 0 ==> r * (d as real) == 100.0 * (n as real)
    ensures 0 <= n <= d ==> 0.0 <= r <= 100.0
  {
    if d > 0 then (n as real / d as real) * 100.0 else 0.0
  }

  /** What `format_kpi` shows: the text "N/A" for a missing value, otherwise
      the value with two decimals (and a percent sign when asked). */
  datatype KpiText = NotAvailable | Fixed(value: real, percent: bool)

  function FormatKpi(value: Option<real>, isPercentage: bool): (t: KpiText)
    ensures t.NotAvailable? <==> value.None?
    ensures t.Fixed? ==> t.value == value.value && t.percent == isPercentage
  {
    match value
    case None => NotAvailable
    case Some(x) => Fixed(x, isPercentage)
  }

  const AcceptedTokens: set<string> := {"yes", "accepted", "1", "true"}
  const PlacedTokens: set<string> := {"placed", "yes", "1"}
  const DroppedTokens: set<string> := {"dropped", "rejected", "no"}

  /** `normalize_acceptance` for one cell: its text, stripped and lower-cased,
      is one of the accepting tokens. */
  predicate IsAccepted(v: Value)
  {
    AsText(v).Some? && Lower(Strip(AsText(v).value)) in AcceptedTokens
  }

  /** The placement mask: lower-cased text (not stripped) is a placed token. */
  predicate IsPlaced(v: Value)
  {
    AsText(v).Some? && Lower(AsText(v).value) in PlacedTokens
  }

  /** The dropout mask: lower-cased text (not stripped) is a dropped token. */
  predicate IsDropped(v: Value)
  {
    AsText(v).Some? && Lower(AsText(v).value) in DroppedTokens
  }

  /** `col < bound` for one cell. */
  predicate Below(v: Value, bound: real)
  {
    NumOf(v).Some? && NumOf(v).value < bound
  }

  predicate IsHighRisk(interview: Value, skills: Value)
  {
    Below(interview, 40.0) || Below(skills, 50.0)
  }

  function AcceptedIn(col: string): Row -> bool
  {
    r => IsAccepted(Cell(r, col))
  }

  function PlacedIn(col: Option<string>): Row -> bool
  {
    r => col.Some? && IsPlaced(Cell(r, col.value))
  }

  function DroppedIn(col: Option<string>): Row -> bool
  {
    r => col.Some? && IsDropped(Cell(r, col.value))
  }

  /** `df[col].notna()`. */
  function OfferIn(col: Option<string>): Row -> bool
  {
    r => col.Some? && !Cell(r, col.value).Missing?
  }

  function HighRiskIn(interview: Option<string>, skills: Option<string>): Row -> bool
  {
    r => interview.Some? && skills.Some? &&
         IsHighRisk(Cell(r, interview.value), Cell(r, skills.value))
  }

  datatype Kpis = Kpis(
    totalCandidates: nat, placementRate: real, acceptedCount: nat,
    notAcceptedCount: int, jobAcceptanceRate: real, offerDropoutRate: real,
    highRiskPct: real)

  /** The KPI values of a set of filtered rows, as the dashboard defines them. */
  function KpisOf(rows: seq<Row>, cols: Columns, accept: string): Kpis
  {
    var total := |rows|;
    var accepted := Count(rows, AcceptedIn(accept));
    Kpis(
      total,
      if cols.status.Some? then SafeRate(Count(rows, PlacedIn(cols.status)), total) else 0.0,
      accepted,
      total - accepted,
      SafeRate(accepted, total),
      if cols.offer.Some? then SafeRate(Count(rows, DroppedIn(cols.offer)), Count(rows, OfferIn(cols.offer))) else 0.0,
      if cols.interview.Some? && cols.skills.Some? then SafeRate(Count(rows, HighRiskIn(cols.interview, cols.skills)), total) else 0.0)
  }

  /** `df[mask].shape[0]`: the rows passing one mask, counted in one pass. */
  method CountMatching(rows: seq<Row>, p: Row -> bool) returns (n: nat)
    ensures n == Count(rows, p)
  {
    n := 0;
    for i := 0 to |rows|
      invariant n == Count(rows[..i], p)
    {
      assert rows[..i + 1] == rows[..i] + [rows[i]];
      var step := CountSnoc(rows[..i], rows[i], p);
      n := n + step;
    }
    assert rows[..|rows|] == rows;
  }

  /** The KPI section of the page: each count of the filtered rows, then the rates. */
  method ComputeKpis(rows: seq<Row>, cols: Columns, accept: string) returns (k: Kpis)
    ensures k == KpisOf(rows, cols, accept)
  {
    var total := |rows|;
    var placed := CountMatching(rows, PlacedIn(cols.status));
    var placementRate := if cols.status.Some? then SafeRate(placed, total) else 0.0;
    var accepted := CountMatching(rows, AcceptedIn(accept));
    var notAccepted := total - accepted;
    var acceptanceRate := SafeRate(accepted, total);
    var dropped := CountMatching(rows, DroppedIn(cols.offer));
    var offers := CountMatching(rows, OfferIn(cols.offer));
    var dropoutRate := if cols.offer.Some? then SafeRate(dropped, offers) else 0.0;
    var risky := CountMatching(rows, HighRiskIn(cols.interview, cols.skills));
    var riskPct := if cols.interview.Some? && cols.skills.Some? then SafeRate(risky, total) else 0.0;
    k := Kpis(total, placementRate, accepted, notAccepted, acceptanceRate, dropoutRate, riskPct);
  }

  // ---------------------------------------------------------------------------
  // Table shown under "Candidate Data"
  // ---------------------------------------------------------------------------

  /** The column order with the name column moved to the front. */
  function NameFirst(columns: seq<string>, name: string): (r: seq<string>)
    ensures |r| > 0 && r[0] == name
    ensures multiset(r)[name] == 1
    ensures forall c :: c != name ==> multiset(r)[c] == multiset(columns)[c]
    ensures multiset(columns)[name] == 1 ==> multiset(r) == multiset(columns)
    ensures forall i, j :: 1 <= i < j < |r| ==> InOrderFrom(columns, r, i, j)
  {
    var others := Select(columns, c => c != name);
    SelectMultiset(columns, c => c != name);
    SelectOrder(columns, c => c != name);
    ConsOrder(columns, others, name);
    [name] + others
  }

  // ---------------------------------------------------------------------------
  // The whole page
  // ---------------------------------------------------------------------------

  datatype View = View(acceptColumn: string, rows: seq<Row>, columns: seq<string>, kpis: Kpis)

  /** The exceptions that stop the page: while building the sidebar, `sorted`
      of a name or status column mixing text and numbers (`TypeError`), and
      `int(min)` of a degree column with no number to take (`ValueError`) or a
      text cell to compare (`TypeError`); then `.mean()` of an interview or
      skills column whose filtered rows hold text (`TypeError`). */
  datatype PageError =
    | NameOptionsUnsortable | StatusOptionsUnsortable | DegreeBoundsUndefined
    | InterviewMeanUndefined | SkillsMeanUndefined

  predicate IsNumber(v: Value)
  {
    v.Int? || v.Real? || v.Bool?
  }

  /** `sorted(col.dropna().unique())` raises: the column holds both text and
      numbers, which Python cannot order against each other. */
  predicate MixesTextAndNumbers(rows: seq<Row>, col: string)
  {
    HoldsText(rows, col) && exists j :: 0 <= j < |rows| && IsNumber(Cell(rows[j], col))
  }

  /** The degree slider cannot be built: the column has no value at all (no
      rows, or only NaN, so `int(NaN)` raises), or it holds text, which either
      `min`, `int` or the range comparison rejects. */
  predicate NoDegreeBounds(rows: seq<Row>, col: string)
  {
    (forall i :: 0 <= i < |rows| ==> Cell(rows[i], col).Missing?) || HoldsText(rows, col)
  }

  /** The page once the sidebar is built and the rows are filtered: the KPIs of
      those rows, and every column with the name column moved first. */
  method ShowPage(frame: Frame, cols: Columns, accept: string, filtered: seq<Row>) returns (v: View)
    requires accept in frame.columns
    ensures v.acceptColumn == accept && v.rows == filtered
    ensures v.kpis == KpisOf(filtered, cols, accept)
    ensures v.columns == if cols.name.Some? then NameFirst(frame.columns, cols.name.value) else frame.columns
    ensures v.acceptColumn in v.columns
  {
    var kpis := ComputeKpis(filtered, cols, accept);
    var shown := frame.columns;
    if cols.name.Some? {
      shown := NameFirst(frame.columns, cols.name.value);
      assert accept in multiset(frame.columns);
      assert accept in multiset(shown);
    }
    v := View(accept, filtered, shown, kpis);
  }

  /** One run of the dashboard script on a loaded frame, for the given widget
      choices and random draws: the page shown, or the exception that stops it. */
  method RunDashboard(df: Frame, w: Widgets, coins: seq<bool>) returns (res: Result<View, PageError>)
    requires |coins| == |df.rows|
    ensures var cols := ResolveColumns(ColumnSet(df));
            var frame := WithAcceptance(df, coins).0;
            var allView := cols.name.None? || w.candidate == AllCandidates;
            var nameFails := cols.name.Some? && MixesTextAndNumbers(frame.rows, cols.name.value);
            var statusFails := allView && cols.status.Some? && MixesTextAndNumbers(frame.rows, cols.status.value);
            var degreeFails := allView && cols.degree.Some? && NoDegreeBounds(frame.rows, cols.degree.value);
            var admitted := Select(frame.rows, AdmitsIn(cols, w));
            var interviewFails := cols.interview.Some? && HoldsText(admitted, cols.interview.value);
            var skillsFails := cols.skills.Some? && HoldsText(admitted, cols.skills.value);
            (res == Failure(NameOptionsUnsortable) <==> nameFails) &&
            (res == Failure(StatusOptionsUnsortable) <==> !nameFails && statusFails) &&
            (res == Failure(DegreeBoundsUndefined) <==> !nameFails && !statusFails && degreeFails) &&
            (res == Failure(InterviewMeanUndefined) <==>
               !nameFails && !statusFails && !degreeFails && interviewFails) &&
            (res == Failure(SkillsMeanUndefined) <==>
               !nameFails && !statusFails && !degreeFails && !interviewFails && skillsFails)
    ensures res.Success? ==>
              var cols := ResolveColumns(ColumnSet(df));
              var (frame, accept) := WithAcceptance(df, coins);
              var v := res.value;
              v.acceptColumn == accept &&
              v.rows == Select(frame.rows, AdmitsIn(cols, w)) &&
              v.kpis == KpisOf(v.rows, cols, accept) &&
              v.columns == (if cols.name.Some? then NameFirst(frame.columns, cols.name.value) else frame.columns) &&
              v.acceptColumn in v.columns
  {
    var cols := ResolveColumns(ColumnSet(df));
    var prepared := WithAcceptance(df, coins);
    var frame, accept := prepared.0, prepared.1;
    if cols.name.Some? && MixesTextAndNumbers(frame.rows, cols.name.value) {
      return Failure(NameOptionsUnsortable);
    }
    var allView := cols.name.None? || w.candidate == AllCandidates;
    if allView && cols.status.Some? && MixesTextAndNumbers(frame.rows, cols.status.value) {
      return Failure(StatusOptionsUnsortable);
    }
    if allView && cols.degree.Some? && NoDegreeBounds(frame.rows, cols.degree.value) {
      return Failure(DegreeBoundsUndefined);
    }
    var filtered := FilterRows(frame.rows, cols, w);
    if cols.interview.Some? && HoldsText(filtered, cols.interview.value) {
      return Failure(InterviewMeanUndefined);
    }
    if cols.skills.Some? && HoldsText(filtered, cols.skills.value) {
      return Failure(SkillsMeanUndefined);
    }
    var v := ShowPage(frame, cols, accept, filtered);
    res := Success(v);
  }

  // ---------------------------------------------------------------------------
  // Lemmas
  // ---------------------------------------------------------------------------

  /** The counts behind the KPIs fit together, and every rate is a percentage. */
  lemma KpisConsistent(rows: seq<Row>, cols: Columns, accept: string)
    ensures var k := KpisOf(rows, cols, accept);
            k.acceptedCount + k.notAcceptedCount == k.totalCandidates &&
            k.notAcceptedCount == Count(rows, Not(AcceptedIn(accept))) &&
            k.acceptedCount <= k.totalCandidates &&
            Count(rows, PlacedIn(cols.status)) <= k.totalCandidates &&
            Count(rows, HighRiskIn(cols.interview, cols.skills)) <= k.totalCandidates &&
            Count(rows, DroppedIn(cols.offer)) <= Count(rows, OfferIn(cols.offer)) &&
            0.0 <= k.placementRate <= 100.0 &&
            0.0 <= k.jobAcceptanceRate <= 100.0 &&
            0.0 <= k.offerDropoutRate <= 100.0 &&
            0.0 <= k.highRiskPct <= 100.0
  {
    CountComplement(rows, AcceptedIn(accept));
    forall r | DroppedIn(cols.offer)(r) ensures OfferIn(cols.offer)(r) {
      DroppedIsPresent(Cell(r, cols.offer.value));
    }
    CountMonotone(rows, DroppedIn(cols.offer), OfferIn(cols.offer));
  }

  /** The high-risk cut points are strict, and a missing score is never low. */
  lemma HighRiskBoundary()
    ensures !IsHighRisk(Int(40), Int(50))
    ensures IsHighRisk(Int(39), Int(100)) && IsHighRisk(Int(100), Real(49.5))
    ensures !IsHighRisk(Missing, Missing)
  {
  }

  /** Only an actual offer value can read as dropped: a missing one renders as
      "nan". */
  lemma DroppedIsPresent(v: Value)
    ensures IsDropped(v) ==> !v.Missing?
  {
    if v.Missing? {
      assert Lower("nan") == "nan";
    }
  }

  /** Acceptance ignores letter case and white space around the value. */
  lemma AcceptanceIgnoresCaseAndPadding(s: string, t: string, pre: string, post: string)
    requires Lower(s) == Lower(t)
    requires AllSpace(pre) && AllSpace(post)
    ensures IsAccepted(Text(pre + s + post)) == IsAccepted(Text(t))
  {
    var padded := pre + s + post;
    assert AsText(Text(padded)) == Some(padded) && AsText(Text(t)) == Some(t);
    StripPadding(pre, s, post);
    StripLower(s);
    StripLower(t);
    assert Lower(Strip(padded)) == Lower(Strip(t));
  }

  /** A text starting with a digit or a minus sign is a token only when it is "1". */
  lemma NumeralTokens(t: string)
    requires |t| > 0 && (IsDigit(t[0]) || t[0] == '-')
    ensures t in AcceptedTokens <==> t == "1"
    ensures t in PlacedTokens <==> t == "1"
  {
    assert t != "yes" by { assert "yes"[0] == 'y'; }
    assert t != "accepted" by { assert "accepted"[0] == 'a'; }
    assert t != "true" by { assert "true"[0] == 't'; }
    assert t != "placed" by { assert "placed"[0] == 'p'; }
  }

  /** An integer cell counts as accepted exactly when it is 1. */
  lemma IntegerAccepted(i: int)
    ensures IsAccepted(Int(i)) <==> i == 1
  {
    var t := IntText(i);
    assert AsText(Int(i)) == Some(t);
    IntTextNormal(i);
    IntTextIsOne(i);
    NumeralTokens(t);
  }

  /** An integer cell counts as placed exactly when it is 1. */
  lemma IntegerPlaced(i: int)
    ensures IsPlaced(Int(i)) <==> i == 1
  {
    var t := IntText(i);
    assert AsText(Int(i)) == Some(t);
    IntTextNormal(i);
    IntTextIsOne(i);
    NumeralTokens(t);
  }
}
