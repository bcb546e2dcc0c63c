# HR job-placement scripts: the rule layer, in Dafny

The repository is a chain of pandas scripts over a table of job candidates. This
project models the parts of those scripts that follow exact rules rather than
library statistics:

- the column finder `find_col`, which Streamlit_App.py, Model_Training.py and
  EDA_Analyst_Tasks.py each define: a first-match search of a priority list of
  column names;
- the dashboard (`Streamlit_App.py`): column mapping, the synthetic
  "job_acceptance" column, the three sidebar filters, the KPI counts and rates,
  `safe_rate`, `format_kpi`, `normalize_acceptance`, and the name-first column
  order of the data table;
- feature engineering (`Feature_Engineering.py`): the four banding rules, the
  two three-score averages and the rule-based placement probability score;
- training-input preparation (`Model_Training.py`): target and feature column
  detection with the two errors, the exact-match target encoding and the
  removal of rows without a target;
- exploratory analysis (`EDA_Analyst_Tasks.py`): the candidate lists and which
  sections run.

Modules: `Wrappers` (Option, Result), `Strings` (`str.strip`, `str.lower`,
`str(int)`), `Frames` (cells, rows, frames, mask selection and counting),
`ColumnFinder`, `Dashboard`, `FeatureEngineering`, `ModelTraining`,
`EdaAnalyst`.

A cell is `Missing` (NaN), `Text`, `Int`, `Real` or `Bool`; a row maps column
names to cells; a frame is its column list and its rows. Mask selection
`df[mask]` is `Frames.Select`. It keeps the passing rows in order, each as often
as it occurred. `Frames.Count` is `df[mask].shape[0]`. Rates are exact
rationals (`real`).

The random "Yes"/"No" draws of the synthetic acceptance column are a parameter
`coins` (one boolean per row), so the model holds for every outcome of the
draw. The sidebar choices are a parameter `Widgets`: the candidate, the status
and the two slider bounds.

An order comparison (`<`, `>=`, `<=`) of a text cell with a number is false in
the model. pandas raises `TypeError` there instead, but on the dashboard the
page has stopped before any such comparison runs: a degree column holding text
stops the sidebar, and text in the filtered interview or skills column stops
`.mean()`. The `==` masks raise nothing: text equals only text, and numbers and
booleans compare by numeric value, as `==` does on a column.

## Model

| member | source | states |
|---|---|---|
| `ColumnFinder.FindCol` | Streamlit_App.py:21-25 | the result is None exactly when no candidate is a column; a found name is a column and one of the candidates |
| `ColumnFinder.FindColIsFirst` | EDA_Analyst_Tasks.py:18-24 | a candidate that is a column, with no earlier candidate a column, is the one returned |
| `ColumnFinder.FindColPosition` | Model_Training.py:18-24 | a returned name sits at a position before which no candidate is a column (it is the earliest present one) |
| `ColumnFinder.FindColResolved` | Streamlit_App.py:21-25 | a lookup gives nothing exactly when no candidate is a column, and otherwise the candidate at the earliest position that is a column |
| `Frames.AsText` | Streamlit_App.py:57 | definition of `astype(str)` for one cell (NaN reads "nan", an integer its decimal numeral); see `IntegerAccepted`, `DroppedIsPresent` |
| `Frames.SameValue` | Streamlit_App.py:77 | definition of the `==` mask for one cell; see `FilterRows` |
| `Strings.Strip` | Streamlit_App.py:57 | definition of `str.strip` as `TrimLeft` then `TrimRight`; see `StripPadding`, `StripLower` |
| `Dashboard.ResolveColumns` | Streamlit_App.py:28-34 | each role (name, status, acceptance, interview, skills, offer, degree) is resolved iff one of its candidates is a column, and then to the earliest of its own candidates that is a column |
| `Dashboard.WithAcceptance` | Streamlit_App.py:39-41 | afterwards the acceptance column is always a column of the frame; a found acceptance column is the one used and leaves the frame as it was; when none was found it is "job_acceptance", the frame gains exactly that column at the end, and every row holds "Yes" or "No"; other cells and the row count never change |
| `Frames.AddColumn` | Streamlit_App.py:40 | `df[name] = values` sets that column in every row and keeps every other cell; the column list is unchanged when the name exists and gains the name at the end otherwise |
| `Dashboard.FilterRows` | Streamlit_App.py:66-98 | the filtered rows are exactly the rows `Admits` lets through, in their original order, each as often as it occurred; with a candidate picked only the name filter applies; otherwise the picked status (unless "All") and the inclusive degree range |
| `Dashboard.FilterStatusAndDegree` | Streamlit_App.py:80-98 | in the all-candidates view the rows kept are exactly those with the picked status (unless "All") and a degree within the inclusive range, in their original order |
| `Dashboard.Admits` | Streamlit_App.py:69-98 | definition of the rows the sidebar lets through; see `FilterRows` |
| `Frames.SelectedPass` | Streamlit_App.py:77 | every row left by a characterised mask passes it |
| `Frames.Select` | Streamlit_App.py:77 | a mask keeps no more rows than it had and every kept row passes the mask |
| `Frames.SelectMultiset` | Streamlit_App.py:77 | a mask keeps each passing row exactly as often as it occurs, and no failing row |
| `Frames.SelectRefines` | Streamlit_App.py:84-98 | masking an already masked frame keeps exactly the rows passing both masks |
| `Frames.SelectSelect` | Streamlit_App.py:84-98 | masking by one mask and then another, `df[p][q]`, gives the same rows in the same order as masking once by `p & q` |
| `Frames.SelectOrder` | Streamlit_App.py:198 | of two selected elements, the earlier comes from an earlier position: selection keeps order |
| `Frames.SelectAgrees` | Streamlit_App.py:77 | two masks that agree on every row select the same rows |
| `Dashboard.SafeRate` | Streamlit_App.py:47-48 | 0 when the denominator is not positive; otherwise rate × d = 100 × n; within [0, 100] when 0 ≤ n ≤ d |
| `Dashboard.FormatKpi` | Streamlit_App.py:50-53 | the KPI shows "N/A" exactly when the value is None, otherwise the value with the requested percent flag |
| `Dashboard.IsAccepted` | Streamlit_App.py:56-59 | definition of `normalize_acceptance` for one cell; see `AcceptanceIgnoresCaseAndPadding`, `IntegerAccepted` |
| `Dashboard.IsPlaced` | Streamlit_App.py:107 | definition of the placement mask for one cell; see `IntegerPlaced` |
| `Dashboard.IsDropped` | Streamlit_App.py:126 | definition of the dropout mask for one cell; see `DroppedIsPresent` |
| `Dashboard.IsHighRisk` | Streamlit_App.py:133-137 | definition of the high-risk mask for one row; see `HighRiskBoundary` |
| `Dashboard.KpisOf` | Streamlit_App.py:100-138 | definition of the KPI values of the filtered rows; see `ComputeKpis`, `KpisConsistent` |
| `Strings.TrimLeft` | Streamlit_App.py:57 | `lstrip` removes a prefix made only of white space and leaves a result that is empty or starts with a non-space |
| `Strings.TrimRight` | Streamlit_App.py:57 | `rstrip` removes a suffix made only of white space and leaves a result that is empty or ends with a non-space |
| `Strings.Lower` | Streamlit_App.py:57 | lower-casing keeps the length and maps each character on its own |
| `Strings.StripPadding` | Streamlit_App.py:57 | `strip` ignores any white space added on either side |
| `Strings.StripLower` | Streamlit_App.py:57 | stripping and lower-casing commute |
| `Dashboard.AcceptanceIgnoresCaseAndPadding` | Streamlit_App.py:56-59 | whether a value counts as accepted does not depend on letter case or surrounding white space |
| `Dashboard.IntegerAccepted` | Streamlit_App.py:56-59 | an integer cell counts as accepted iff it is 1 |
| `Dashboard.IntegerPlaced` | Streamlit_App.py:107 | an integer status counts as placed iff it is 1 |
| `Dashboard.NumeralTokens` | Streamlit_App.py:58 | a text starting with a digit or a minus sign matches an accepting or placed token only when it is "1" |
| `Strings.IntTextIsOne` | Streamlit_App.py:107 | the text of an integer is "1" iff the integer is 1 |
| `Strings.IntTextNormal` | Streamlit_App.py:57 | an integer's text has nothing for `strip` or `lower` to change |
| `Dashboard.CountMatching` | Streamlit_App.py:107 | the one-pass count of the rows passing a mask equals the size of the masked frame |
| `Frames.CountSnoc` | Streamlit_App.py:107 | one more row adds 1 to a mask count exactly when it passes the mask |
| `Dashboard.ComputeKpis` | Streamlit_App.py:100-140 | total, placement rate, accepted and not-accepted counts, acceptance rate, dropout rate and high-risk percentage are those of `KpisOf`, with each rate 0 when its column is missing |
| `Dashboard.KpisConsistent` | Streamlit_App.py:100-138 | accepted + not accepted = total, and not accepted counts exactly the non-accepted rows; placed, accepted and high-risk counts are at most the total; dropped ≤ non-null offers; every rate lies in [0, 100] |
| `Frames.CountComplement` | Streamlit_App.py:113-115 | the rows passing a mask and the rows failing it add up to all rows |
| `Frames.CountMonotone` | Streamlit_App.py:126-127 | a mask implied by another never counts fewer rows |
| `Dashboard.DroppedIsPresent` | Streamlit_App.py:126-127 | a value read as dropped is never missing (NaN reads as "nan") |
| `Dashboard.HighRiskBoundary` | Streamlit_App.py:133-137 | the high-risk cut points are strict (interview 40 and skills 50 are not high-risk), and missing scores are never high-risk |
| `Dashboard.NameFirst` | Streamlit_App.py:197-199 | the name column comes first and occurs once; every other column keeps its multiplicity and its order in the frame, so a list holding the name once is permuted |
| `Dashboard.RunDashboard` | Streamlit_App.py:27-201 | one run: it stops with the name error iff a name column mixes text and numbers; otherwise, in the all-candidates view, with the status error iff a status column does, and then with the degree error iff the degree column has no value at all or holds text; then with the interview error iff the admitted rows hold text in the interview column, and then with the skills error iff they hold text in the skills column; a page that is shown has the acceptance column of `WithAcceptance`, exactly the admitted rows in order, the KPIs of these rows, and all columns with the name first |
| `Dashboard.ShowPage` | Streamlit_App.py:100-201 | the page for the filtered rows: the KPIs of those rows, every column of the frame with the name column moved first, the acceptance column among them |
| `Dashboard.MixesTextAndNumbers` | Streamlit_App.py:70 | definition of the columns whose `sorted` option list raises; see `RunDashboard` |
| `Dashboard.NoDegreeBounds` | Streamlit_App.py:88 | definition of the degree columns for which the slider bounds raise; see `RunDashboard` |
| `Frames.HoldsText` | Streamlit_App.py:119-122 | definition of a column holding text, for which `.mean()` raises; see `RunDashboard` |
| `FeatureEngineering.ExperienceCategoryOf` | Feature_Engineering.py:23-29 | Fresher iff 0 years, Junior iff not 0 and at most 3 (3 is Junior), Senior iff above 3 |
| `FeatureEngineering.AcademicBand` | Feature_Engineering.py:42-48 | Low iff below 60, Medium iff 60 to 75 inclusive, High iff above 75 |
| `FeatureEngineering.SkillsLevel` | Feature_Engineering.py:55-61 | Low iff below 50, Medium iff 50 to 75 inclusive, High iff above 75 |
| `FeatureEngineering.InterviewCategoryOf` | Feature_Engineering.py:74-80 | Poor iff below 60, Average iff 60 to 75 inclusive, Excellent iff above 75 |
| `FeatureEngineering.ExperienceMonotone` | Feature_Engineering.py:23-29 | for non-negative years, more experience never gives a lower category |
| `FeatureEngineering.ExperienceNegativeIsJunior` | Feature_Engineering.py:23-29 | the rule is not monotone below zero: -1 is Junior while 0 is Fresher |
| `FeatureEngineering.BandsMonotone` | Feature_Engineering.py:42-80 | a higher score never gives a lower academic, skills or interview band |
| `FeatureEngineering.Average3` | Feature_Engineering.py:36-40 | three times the mean is the sum of the three scores, and the mean lies between the smallest and the largest |
| `FeatureEngineering.PlacementProbabilityScore` | Feature_Engineering.py:87-92 | the score lies in [0, 1]; it is 1 iff all four indicators hold and 0 iff none does; an excellent interview alone gives at least 0.4 |
| `FeatureEngineering.ScoreMonotone` | Feature_Engineering.py:87-92 | better bands never lower the score |
| `FeatureEngineering.EngineerFeatures` | Feature_Engineering.py:31-92 | one engineered row per input row, each with all derived columns of that row |
| `FeatureEngineering.Engineer` | Feature_Engineering.py:31-92 | definition of the derived columns of one row; see `EngineerSound` |
| `FeatureEngineering.EngineerSound` | Feature_Engineering.py:36-92 | the cleaned columns are unchanged, both averages are true means, and the score is 1 iff skills > 75, both three-score sums > 225 and experience > 3 |
| `ModelTraining.PresentNames` | Model_Training.py:65 | a name is kept iff some entry found it |
| `ModelTraining.FeatureColumns` | Model_Training.py:47-65 | every feature is a column of the frame; there is one feature per lookup that found a column, and two features keep the order interview, skills, degree of their lookups |
| `ModelTraining.PresentNamesCount` | Model_Training.py:65 | `[c for c in found if c]` keeps exactly one name per entry that found a column |
| `ModelTraining.PresentNamesOrder` | Model_Training.py:65 | of two kept names, the earlier comes from an earlier entry |
| `ModelTraining.FeatureCountByRole` | Model_Training.py:47-67 | the number of features is the number of roles (interview, skills, degree) with a column among their candidates, so the "not enough features" error means at most one such role |
| `ModelTraining.IsTextColumn` | Model_Training.py:77 | definition of the `dtype == "object"` test; see `PrepareTrainingData`, `DropKeepsLabelled` |
| `ModelTraining.EncodeTarget` | Model_Training.py:77-87 | for a text target, yes/placed/accepted give 1, no/not placed/rejected give 0, anything else is missing; other targets pass through unchanged |
| `ModelTraining.EncodingIsCaseSensitive` | Model_Training.py:78-85 | "Yes" is not a recognised label, while "yes" gives 1 |
| `ModelTraining.DropUnlabelled` | Model_Training.py:90-92 | X and y have one entry per row with a mapped target, in row order, taken from the same row |
| `ModelTraining.PrepareTrainingData` | Model_Training.py:29-92 | the "no target" error iff no target candidate is a column; the "not enough features" error iff a target exists but fewer than 2 features do; otherwise the first present target, the features in order, and X and y aligned over the rows whose target is mapped, with no y missing |
| `ModelTraining.DropKeepsLabelled` | Model_Training.py:90-92 | every row with a mapped target survives as often as it occurred, no row appears from nowhere, and a text target keeps only 0 and 1 |
| `ModelTraining.TargetPrefersJobAcceptance` | Model_Training.py:29-39 | "job_acceptance" is the target whenever it is a column |
| `EdaAnalyst.PlanSections` | EDA_Analyst_Tasks.py:27-103 | degree-vs-status runs iff a status and a degree column exist, the interview summary iff an interview column does, skills-vs-status iff a skills and a status column do; the heat map iff the frame has a row and a numeric column; for the columns each section plots see `PlanUsesResolvedColumns` |
| `EdaAnalyst.PlanUsesFrameColumns` | EDA_Analyst_Tasks.py:55-90 | every section that runs uses only columns of the frame |
| `EdaAnalyst.PlanUsesResolvedColumns` | EDA_Analyst_Tasks.py:18-90 | each section that runs plots, for each of its roles, the earliest candidate of that role that is a column |
| `EdaAnalyst.IsNumericColumn` | EDA_Analyst_Tasks.py:101 | definition of the columns `select_dtypes(include="number")` keeps; see `PlanSections` |
| `EdaAnalyst.InterviewScoreWins` | EDA_Analyst_Tasks.py:29-35 | "interview_score" is used whenever it exists, even beside "technical_score" |
| `EdaAnalyst.TechnicalScoreIsLastResort` | EDA_Analyst_Tasks.py:29-35 | "technical_score" is used when the four earlier interview names are absent |
| `EdaAnalyst.NoRowsNoCorrelation` | EDA_Analyst_Tasks.py:101-103 | a frame without rows gets no heat map |

The heat-map guard at EDA_Analyst_Tasks.py:103 tests `numeric_df.empty`. That is
true for a frame without rows as well as for one without numeric columns. The
model follows the code: the heat map needs at least one row and at least one
numeric column.

## Left out

- Reading and writing CSV files, `print` output, Streamlit layout and widget wiring, and all matplotlib/seaborn charts.
- Lower-casing of column names at load (Streamlit_App.py:16, Model_Training.py:10, EDA_Analyst_Tasks.py:9). Column names are taken as already lower-case, because two names that collide after lower-casing have no counterpart in a row map.
- The widget option lists (sorted unique names and statuses) and the slider's default range. The chosen values are parameters, so a picked candidate or status need not be one of the options. Only the exceptions raised while building them are modelled.
- The 30/70 weighting of `random.choices`. The draws are an arbitrary parameter.
- The average interview and skills KPIs (float means) and the two-decimal text of `format_kpi`; only its "N/A" case is modelled.
- `Dashboard.FormatKpi`: returns which text is shown ("N/A" or the value with its percent flag), not the formatted digits.
- Text of float cells: `Frames.AsText` gives no text for a float. A float's text is a numeral holding "." or "e", which starts with a digit or "-" and is never "1" (so `Dashboard.NumeralTokens` rules it out), or it is "inf", "-inf" or "nan". No matcher token is any of these.
- Lower-casing of non-ASCII letters. The only non-ASCII letters whose lower case contains an ASCII letter give "k" or "i", and no matcher token holds either letter.
- `ModelTraining.IsTextColumn`: pandas' `dtype == "object"` is approximated by "some cell holds text". A column of booleans with NaN, which pandas also stores as object, is treated as a non-text column.
- `Dashboard.RunDashboard`: the `.mean()` errors follow pandas 2, which refuses to average text (even numerals). The averages themselves are not modelled.
- `EdaAnalyst.PlanSections`: the plan gives the sections whose guards hold. It does not model an exception inside a section that would end the script before the later sections run. Examples: the group means at EDA_Analyst_Tasks.py:57 and :87 raise `TypeError` on a degree or skills column holding text, and the seaborn plots may reject text columns. The plan assumes the score columns hold numbers.
- `train_test_split`, `RandomForestClassifier` and `accuracy_score` (Model_Training.py:97-107).
- Data_Clean_Preprocess.py, EDA_Competition_Level.py, EDA_Company_Tier.py and EDA_Correlation.py: imputation, scaling, encoding and plots done by library calls.
- `FeatureEngineering.EngineerFeatures`: the script assigns the derived columns one whole column at a time. The model computes them row by row. Each derived value depends only on its own row, so the result is the same. Missing columns (a `KeyError`) and NaN scores in the cleaned table are not modelled. All eight inputs are numbers.
- `FeatureEngineering.PlacementProbabilityScore`: weights are exact decimals. In binary floating point the script's sum of all four weights evaluates to 0.9999999999999999, not 1. So the "equals 1 iff all four indicators" clause holds only of exact arithmetic.
- `FeatureEngineering.Average3`: the mean is exact. The script sums and divides in binary floating point, which rounds. For example, 0.1, 0.1 and 0.1 give 0.10000000000000002, just above the largest score, so the bounds clause holds only in exact arithmetic.
- `FeatureEngineering.Engineer`: the two means and their 60/75 cut-point tests are exact. Near a cut point the script's rounded mean can fall on the other side. For example, 60.2, 67.9 and 96.9 have exact mean 75, which is "Medium", while the floating-point mean is 75.00000000000001, which is "High" and raises the score by 0.1.
- `FeatureEngineering.EngineerSound`: "both averages are true means" and "the score is 1 iff all four thresholds are cleared" hold of exact arithmetic only. The script's means round as under `FeatureEngineering.Engineer`, and its four weights sum to 0.9999999999999999, as under `FeatureEngineering.PlacementProbabilityScore`.
- `FeatureEngineering.ExperienceMonotone`: holds only for non-negative years, because the rule maps negative values to "Junior".
- The `if c` tests of Model_Training.py:41 and :65 also treat an empty column name as absent. No candidate list contains the empty name, so the model tests only presence.
- Cell kinds must follow the dtype pandas gives the column. An integer column with any blank cell is read as float64, so its cells are `Real` (with text such as "1.0") and never `Int`. `Dashboard.IntegerAccepted` and `Dashboard.IntegerPlaced` describe integer columns without missing values; a 0/1 column with a blank is a float column and counts nobody as placed or accepted.
- `Dashboard.RunDashboard`: a degree column holding text always stops the page. pandas does go on in one corner case: every text cell is an integer numeral, and the status filter removes every row holding text before the range comparison.
- `Dashboard.RunDashboard`: `int()` of an infinite float degree bound (`OverflowError`) is not modelled, because a cell here holds a finite number.
