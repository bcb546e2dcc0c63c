/** Which sections of the exploratory analysis run, given the columns the
    column finder resolves. */
module EdaAnalyst {
  import opened Wrappers
  import opened Frames
  import opened ColumnFinder

  const StatusCandidates: seq<string> := ["status", "placement_status"]
  const DegreeCandidates: seq<string> := ["degree_percentage", "degree_p", "degree_percent"]
  const InterviewCandidates: seq<string> := [
    "interview_score", "interviewmarks", "interview_rating", "interview_performance", "technical_score"]
  const SkillsCandidates: seq<string> := [
    "skills_match_percentage", "skills_match", "skill_match", "skills_score"]

  /** A section either is skipped or runs on the columns it resolved. */
  datatype Section = Skipped | Runs(columns: seq<string>)

  datatype Plan = Plan(degreeVsStatus: Section, interviewSummary: Section,
                       skillsVsStatus: Section, correlation: bool)

  /** A column `select_dtypes(include="number")` keeps: every cell is an
      integer, a float or missing. */
  predicate IsNumericColumn(df: Frame, col: string)
  {
    forall i :: 0 <= i < |df.rows| ==>
      Cell(df.rows[i], col).Int? || Cell(df.rows[i], col).Real? || Cell(df.rows[i], col).Missing?
  }

  /** The sections the script runs: each plot only when every column it needs
      was found, the heat map only when the numeric part of the frame is not
      empty (it has a row and a column). */
  function PlanSections(df: Frame): (p: Plan)
    ensures var cols := ColumnSet(df);
            (p.degreeVsStatus.Runs? <==> AnyPresent(StatusCandidates, cols) && AnyPresent(DegreeCandidates, cols)) &&
            (p.interviewSummary.Runs? <==> AnyPresent(InterviewCandidates, cols)) &&
            (p.skillsVsStatus.Runs? <==> AnyPresent(SkillsCandidates, cols) && AnyPresent(StatusCandidates, cols))
    ensures p.correlation <==> |df.rows| > 0 && exists c :: c in df.columns && IsNumericColumn(df, c)
  {
    var cols := ColumnSet(df);
    var status := FindCol(StatusCandidates, cols);
    var degree := FindCol(DegreeCandidates, cols);
    var interview := FindCol(InterviewCandidates, cols);
    var skills := FindCol(SkillsCandidates, cols);
    Plan(
      if status.Some? && degree.Some? then Runs([status.value, degree.value]) else Skipped,
      if interview.Some? then Runs([interview.value]) else Skipped,
      if skills.Some? && status.Some? then Runs([status.value, skills.value]) else Skipped,
      |df.rows| > 0 && exists c :: c in df.columns && IsNumericColumn(df, c))
  }

  // ---------------------------------------------------------------------------
  // Lemmas
  // ---------------------------------------------------------------------------

  /** Every section that runs uses only columns of the frame. */
  lemma PlanUsesFrameColumns(df: Frame)
    ensures var p := PlanSections(df);
            (forall s :: s in [p.degreeVsStatus, p.interviewSummary, p.skillsVsStatus] && s.Runs? ==>
               forall c :: c in s.columns ==> c in df.columns)
  {
  }

  /** Each section that runs plots the columns the first-match lookup gives for
      its roles: status and degree, interview, status and skills. */
  lemma PlanUsesResolvedColumns(df: Frame)
    ensures var p, cols := PlanSections(df), ColumnSet(df);
            (p.degreeVsStatus.Runs? ==>
               |p.degreeVsStatus.columns| == 2 &&
               ResolvedFrom(Some(p.degreeVsStatus.columns[0]), StatusCandidates, cols) &&
               ResolvedFrom(Some(p.degreeVsStatus.columns[1]), DegreeCandidates, cols)) &&
            (p.interviewSummary.Runs? ==>
               |p.interviewSummary.columns| == 1 &&
               ResolvedFrom(Some(p.interviewSummary.columns[0]), InterviewCandidates, cols)) &&
            (p.skillsVsStatus.Runs? ==>
               |p.skillsVsStatus.columns| == 2 &&
               ResolvedFrom(Some(p.skillsVsStatus.columns[0]), StatusCandidates, cols) &&
               ResolvedFrom(Some(p.skillsVsStatus.columns[1]), SkillsCandidates, cols))
  {
    var cols := ColumnSet(df);
    FindColResolved(StatusCandidates, cols);
    FindColResolved(DegreeCandidates, cols);
    FindColResolved(InterviewCandidates, cols);
    FindColResolved(SkillsCandidates, cols);
  }

  /** "interview_score" is used whenever it exists, whatever else exists. */
  lemma InterviewScoreWins(columns: set<string>)
    requires "interview_score" in columns
    ensures FindCol(InterviewCandidates, columns) == Some("interview_score")
  {
    FindColIsFirst(InterviewCandidates, columns, 0);
  }

  /** "technical_score", the last choice, is used only when no other interview
      column exists. */
  lemma TechnicalScoreIsLastResort(columns: set<string>)
    requires "technical_score" in columns
    requires forall i :: 0 <= i < 4 ==> InterviewCandidates[i] !in columns
    ensures FindCol(InterviewCandidates, columns) == Some("technical_score")
  {
    FindColIsFirst(InterviewCandidates, columns, 4);
  }

  /** A frame without rows gets no correlation heat map, whatever its columns. */
  lemma NoRowsNoCorrelation(df: Frame)
    requires |df.rows| == 0
    ensures !PlanSections(df).correlation
  {
  }
}
