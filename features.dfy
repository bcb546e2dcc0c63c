/** Rule-based feature bands and the placement probability score added to the
    cleaned candidate table. */
module FeatureEngineering {

  /** The cleaned columns the derived features are computed from. */
  datatype CleanRow = CleanRow(
    yearsOfExperience: real, sscPercentage: real, hscPercentage: real,
    degreePercentage: real, skillsMatchPercentage: real, technicalScore: real,
    aptitudeScore: real, communicationScore: real)

  datatype ExperienceCategory = Fresher | Junior | Senior {
    function Rank(): nat { match this case Fresher => 0 case Junior => 1 case Senior => 2 }
  }

  /** The labels of `academic_band` and `skills_level`. */
  datatype Band = Low | Medium | High {
    function Rank(): nat { match this case Low => 0 case Medium => 1 case High => 2 }
  }

  datatype InterviewCategory = Poor | Average | Excellent {
    function Rank(): nat { match this case Poor => 0 case Average => 1 case Excellent => 2 }
  }

  /** A cleaned row with the seven columns the script appends. */
  datatype FeatureRow = FeatureRow(
    base: CleanRow, experienceCategory: ExperienceCategory, academicAvg: real,
    academicPerformanceBand: Band, skillsMatchLevel: Band, interviewAvgScore: real,
    interviewPerformanceCategory: InterviewCategory, placementProbabilityScore: real)

  /** `experience_category`: no experience is a fresher, up to three years a
      junior, more a senior. */
  function ExperienceCategoryOf(years: real): (c: ExperienceCategory)
    ensures c == Fresher <==> years == 0.0
    ensures c == Junior <==> years != 0.0 && years <= 3.0
    ensures c == Senior <==> years > 3.0
  {
    if years == 0.0 then Fresher else if years <= 3.0 then Junior else Senior
  }

  /** `academic_band`: below 60 low, 60 to 75 inclusive medium, above 75 high. */
  function AcademicBand(score: real): (b: Band)
    ensures b == Low <==> score < 60.0
    ensures b == Medium <==> 60.0 <= score <= 75.0
    ensures b == High <==> score > 75.0
  {
    if score < 60.0 then Low else if score <= 75.0 then Medium else High
  }

  /** `skills_level`: below 50 low, 50 to 75 inclusive medium, above 75 high. */
  function SkillsLevel(score: real): (b: Band)
    ensures b == Low <==> score < 50.0
    ensures b == Medium <==> 50.0 <= score <= 75.0
    ensures b == High <==> score > 75.0
  {
    if score < 50.0 then Low else if score <= 75.0 then Medium else High
  }

  /** `interview_category`: the cut points of `academic_band`. */
  function InterviewCategoryOf(score: real): (c: InterviewCategory)
    ensures c == Poor <==> score < 60.0
    ensures c == Average <==> 60.0 <= score <= 75.0
    ensures c == Excellent <==> score > 75.0
  {
    if score < 60.0 then Poor else if score <= 75.0 then Average else Excellent
  }

  /** The mean of three component scores. */
  function Average3(a: real, b: real, c: real): (m: real)
    ensures 3.0 * m == a + b + c
    ensures (a <= b && a <= c ==> a <= m) && (b <= a && b <= c ==> b <= m) && (c <= a && c <= b ==> c <= m)
    ensures (a >= b && a >= c ==> m <= a) && (b >= a && b >= c ==> m <= b) && (c >= a && c >= b ==> m <= c)
  {
    (a + b + c) / 3.0
  }

  function Indicator(b: bool): real
  {
    if b then 1.0 else 0.0
  }

  /** `placement_probability_score`: 0.3, 0.4, 0.2 and 0.1 for a high skills
      match, an excellent interview, a senior candidate and a high academic
      band, added up. */
  function PlacementProbabilityScore(skills: Band, interview: InterviewCategory,
                                     experience: ExperienceCategory, academic: Band): (s: real)
    ensures 0.0 <= s <= 1.0
    ensures s == 1.0 <==> skills == High && interview == Excellent && experience == Senior && academic == High
    ensures s == 0.0 <==> skills != High && interview != Excellent && experience != Senior && academic != High
    ensures interview == Excellent ==> s >= 0.4
  {
    0.3 * Indicator(skills == High) + 0.4 * Indicator(interview == Excellent) +
    0.2 * Indicator(experience == Senior) + 0.1 * Indicator(academic == High)
  }

  /** All derived columns of one row. */
  function Engineer(r: CleanRow): FeatureRow
  {
    var experience := ExperienceCategoryOf(r.yearsOfExperience);
    var academicAvg := Average3(r.sscPercentage, r.hscPercentage, r.degreePercentage);
    var academic := AcademicBand(academicAvg);
    var skills := SkillsLevel(r.skillsMatchPercentage);
    var interviewAvg := Average3(r.technicalScore, r.aptitudeScore, r.communicationScore);
    var interview := InterviewCategoryOf(interviewAvg);
    FeatureRow(r, experience, academicAvg, academic, skills, interviewAvg, interview,
               PlacementProbabilityScore(skills, interview, experience, academic))
  }

  /** The script's column assignments, applied to every row of the table. */
  method EngineerFeatures(rows: seq<CleanRow>) returns (out: seq<FeatureRow>)
    ensures |out| == |rows|
    ensures forall k :: 0 <= k < |out| ==> out[k] == Engineer(rows[k])
  {
    out := [];
    for i := 0 to |rows|
      invariant |out| == i
      invariant forall k :: 0 <= k < i ==> out[k] == Engineer(rows[k])
    {
      out := out + [Engineer(rows[i])];
    }
  }

  // ---------------------------------------------------------------------------
  // Lemmas
  // ---------------------------------------------------------------------------

  /** The derived columns leave the cleaned columns as they were, the averages
      are true means, and the score is 1 exactly when all four raw measures
      clear their top cut point. */
  lemma EngineerSound(r: CleanRow)
    ensures var e := Engineer(r);
            e.base == r &&
            3.0 * e.academicAvg == r.sscPercentage + r.hscPercentage + r.degreePercentage &&
            3.0 * e.interviewAvgScore == r.technicalScore + r.aptitudeScore + r.communicationScore &&
            0.0 <= e.placementProbabilityScore <= 1.0 &&
            (e.placementProbabilityScore == 1.0 <==>
               r.skillsMatchPercentage > 75.0 &&
               r.technicalScore + r.aptitudeScore + r.communicationScore > 225.0 &&
               r.yearsOfExperience > 3.0 &&
               r.sscPercentage + r.hscPercentage + r.degreePercentage > 225.0)
  {
  }

  /** A longer experience never gives a lower category, for non-negative years. */
  lemma ExperienceMonotone(a: real, b: real)
    requires 0.0 <= a <= b
    ensures ExperienceCategoryOf(a).Rank() <= ExperienceCategoryOf(b).Rank()
  {
  }

  /** Below zero the rule is not monotone: a negative experience is "Junior". */
  lemma ExperienceNegativeIsJunior()
    ensures ExperienceCategoryOf(-1.0) == Junior && ExperienceCategoryOf(0.0) == Fresher
  {
  }

  /** A higher score never gives a lower band. */
  lemma BandsMonotone(a: real, b: real)
    requires a <= b
    ensures AcademicBand(a).Rank() <= AcademicBand(b).Rank()
    ensures SkillsLevel(a).Rank() <= SkillsLevel(b).Rank()
    ensures InterviewCategoryOf(a).Rank() <= InterviewCategoryOf(b).Rank()
  {
  }

  /** A better band never lowers the score. */
  lemma ScoreMonotone(s1: Band, i1: InterviewCategory, e1: ExperienceCategory, a1: Band,
                      s2: Band, i2: InterviewCategory, e2: ExperienceCategory, a2: Band)
    requires s1.Rank() <= s2.Rank() && i1.Rank() <= i2.Rank()
    requires e1.Rank() <= e2.Rank() && a1.Rank() <= a2.Rank()
    ensures PlacementProbabilityScore(s1, i1, e1, a1) <= PlacementProbabilityScore(s2, i2, e2, a2)
  {
  }
}
