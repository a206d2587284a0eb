# Exam portal core, modelled in Dafny

The portal keeps the mock-exam scores of the students of a paramedic
training course (救急救命士養成学科). Each score row holds one student's
sections A-D, the two totals AD (general) and BC (mandatory) and the total
score of one exam. An exam is the pair (test name, test date). A score passes
when AD >= 132 and BC >= 44. The portal has these parts:

- **Score statistics** (`RankingUtils`): `getStudentScoresWithStats` merges a
  student's rows with each exam's averages and rank, the overall rank, and
  the change against the previous exam of the same name. The database and
  its stored procedures are inputs, and each of their answers is either an
  error or a list of rows.
- **Dashboard** (`StudentDashboard`): the trend of the last two exams, the
  pass status of the latest one, the achievement counters, the study level
  and the sort menu of the detail table.
- **Exam list** (`TestResultsList`): one section per exam, newest first, with
  the exam's rows sorted by the chosen column and the column averages.
- **Ranking page** (`RankingPage`): the exams in the select box, the encoding
  and decoding of the selected value, the medals, the pass rule, and the page
  state.
- **Predictions**:
  - `MlPrediction`: the rule-based graduation and national-exam estimate,
    which looks at the three newest exams, and its chart data.
  - `TfFeatures`: the 15-entry feature vector of the neural predictor and
    its confidence.
  - `TfPredictionRoute`: the rules that the prediction route applies around
    the network's output. The output itself is an input.
- **Qyan advice** (`GeminiService`): the section analysis and the fallback
  message shown when the language model fails. The model's reply is an
  input.
- **Imports**:
  - `ImportTestResults`: the test-result CSV route, with column resolution,
    per-row errors, skipping already stored (student, exam) keys, and the
    insert.
  - `RosterImport`: the three student-roster routes, which upsert on the
    student ID.
  - `TestResultsImport`: the upload form, with its quote-aware preview
    splitter.
  - `CsvInspector`: the CSV inspector page.
- **Admin page** (`AdminPage`): the two CSV exports and the manual score
  form.
- **Request gating** (`Auth`): the middleware and the API checks, which
  accept a request in production only when its referer contains its host.

Helper modules:

- `Text`: trim, split, join, contains, and code-point order.
- `Numbers`: `parseFloat`, `parseInt` and decimal printing.
- `Sorting`: an insertion sort standing for `Array.prototype.sort`. It is proved to give a sorted permutation; stability is proved only for the cases the model needs (an always-equal comparator, and the four equal section shares).
- `Scores`: the score row, the pass rule and the exam key.
- `Rules`: "push the message if the condition holds" lists.
- `Wrappers`: `Option`.

Number columns are `real`. A missing value (`null`) is `None`, and `x || 0`
is `OrZero`. Dates are their ISO text (`YYYY-MM-DD`), so `new Date(a) - new
Date(b)` compares them in text order.

Where the code does something step by step, the model does too. The loops
(`CollectFirstRows`, `PreviousScores`, `Scan`, `CollectRows`,
`ComputeMetrics`, …) and the push sequences (`CollectPositive`,
`CollectNegative`, …) are methods proved against specification functions. The page state and the database tables are classes
(`RankingPageState`, `InspectorPage`, `UploadForm`, `ScoreForm`,
`ScoreTable`, `StudentTable`, `PredictionRoute`) whose methods state the
whole new state.

## Model

| member | source | states |
|---|---|---|
| Scores.PassBoundary | lib/ml-prediction-service.ts:62 | The pass rule holds at 132/44 and fails at 131/44 and at 132/43. |
| Scores.TestKeyInjective | components/test-results-list.tsx:47 | When neither date contains "_", two exams with the same `${test_name}_${test_date}` text are the same exam. |
| Rules.Fired | lib/ml-prediction-service.ts:107-121 | The messages of the rules that hold, in rule order, at most one per rule. |
| Rules.OrDefault | lib/ml-prediction-service.ts:142-144 | An empty list becomes the single default. A non-empty list is kept. |
| Rules.FiredIff | lib/ml-prediction-service.ts:107-121 | A message is listed exactly when some rule with that message holds. |
| Rules.FiredNoneHolds | lib/ml-prediction-service.ts:107-121 | When no rule holds, nothing is listed. |
| Rules.FiredSnoc | lib/ml-prediction-service.ts:107-121 | Adding a rule at the end pushes its message iff it holds, after the earlier ones. |
| Sorting.Sort | lib/ranking-utils.ts:151-153 | The sort returns a permutation of its input (same length, same multiset). |
| Sorting.SortSorted | lib/ranking-utils.ts:151-153 | Under a total preorder, the result is ordered. |
| Sorting.ByTextAscIsTotalPreorder | lib/ranking-utils.ts:152 | Ascending date order is total and transitive. |
| Sorting.ByTextDescIsTotalPreorder | components/test-results-list.tsx:58-60 | Descending date order is total and transitive. |
| Sorting.ByKeyDescIsTotalPreorder | components/test-results-list.tsx:83-95 | Descending order of a number column is total and transitive. |
| Sorting.SortedDescEnds | lib/gemini-service.ts:66-72 | In a list sorted by descending key, the first element has the largest key and the last the smallest. |
| Sorting.SortKeepOrder | components/student-dashboard.tsx:506 | The always-0 comparator leaves the list unchanged. |
| Numbers.ParseFloatOfNatToDecimal | app/api/import-test-results/route.ts:83-89 | `parseFloat` of a printed whole number gives that number back. |
| Numbers.FloatOrZeroWithoutDigits | app/api/import-test-results/route.ts:83-89 | `parseFloat(x) \|\| 0` is 0 for a cell without digits. |
| Numbers.ParseIntOfNatToDecimal | app/admin/page.tsx:216-217 | `parseInt` of a printed whole number gives that number back. |
| Numbers.ParseIntStopsAtPoint | app/admin/page.tsx:216-217 | `parseInt` stops at the decimal point and drops the fractional part. |
| MlPrediction.Clamp01 | lib/ml-prediction-service.ts:100-101 | The result lies in [0, 1], and equals the input when the input already does. |
| MlPrediction.Window | lib/ml-prediction-service.ts:47 | The newest min(3, n) rows, as a prefix of the list. |
| MlPrediction.PassingRate | lib/ml-prediction-service.ts:62-63 | The share of passing exams in the window, between 0 and 1. |
| MlPrediction.AboveAverageRate | lib/ml-prediction-service.ts:66 | The share of window rows at or above their exam average, between 0 and 1. |
| MlPrediction.MetricsOf | lib/ml-prediction-service.ts:46-66 | Averages, trend and rates of the window; the rates lie in [0, 1]. |
| MlPrediction.ScoreAdjustment | lib/ml-prediction-service.ts:72-75 | The average-score step: +0.3, +0.2 or +0.1 at 180, 150 and 120; otherwise -0.2. |
| MlPrediction.PassRateAdjustment | lib/ml-prediction-service.ts:78-80 | The pass-rate step, including the gap between 0.3 and 0.6 where nothing is added. |
| MlPrediction.TrendAdjustment | lib/ml-prediction-service.ts:83-84 | ±0.15 beyond a trend of ±5, and 0 in between. |
| MlPrediction.RankAdjustment | lib/ml-prediction-service.ts:87-89 | The average-rank step at 10, 20 and 50. |
| MlPrediction.Predict | lib/ml-prediction-service.ts:30-153 | No scores gives the fixed 0.5/0.5/0.1 answer. Otherwise both probabilities lie in [0, 1]; confidence is min(0.9, 0.3 + 0.1n), so at least 0.4; there is at least one recommendation. |
| MlPrediction.PredictStudentOutcomes | lib/ml-prediction-service.ts:30-153 | The method computes exactly `Predict`. |
| MlPrediction.ComputeMetrics | lib/ml-prediction-service.ts:46-66 | One pass over the newest three exams accumulates the two sums and the two counts; the result is `MetricsOf`. |
| MlPrediction.AdjustGraduation | lib/ml-prediction-service.ts:69-89 | The four adjustment steps, applied in order to 0.5. |
| MlPrediction.CollectPositive | lib/ml-prediction-service.ts:107-114 | The positive factors whose thresholds hold, in source order. |
| MlPrediction.CollectNegative | lib/ml-prediction-service.ts:116-121 | The negative factors whose thresholds hold, in source order. |
| MlPrediction.CollectRecommendations | lib/ml-prediction-service.ts:124-144 | The recommendations whose thresholds hold, or the single "keep the pace" default. |
| MlPrediction.NationalStricterWithoutBonus | lib/ml-prediction-service.ts:91-101 | Without the latest-exam bonus, the national-exam probability never exceeds the graduation probability. |
| MlPrediction.NationalWithBonus | lib/ml-prediction-service.ts:91-101 | With the bonus (AD >= 140, BC >= 47), the national-exam probability is at least the graduation probability and at most 0.1 above it. |
| MlPrediction.PredictReadsOnlyWindow | lib/ml-prediction-service.ts:47 | Rows after the third change nothing but the confidence. |
| MlPrediction.TrendScenario | lib/ml-prediction-service.ts:55-63 | A worked case of the trend and the passing rate over three exams. |
| MlPrediction.PreprocessDataForML | lib/ml-prediction-service.ts:156-165 | One five-entry vector per row: total/200, AD/150, BC/50, rank/100 and (total - average)/50. |
| MlPrediction.PreprocessIsInvertible | lib/ml-prediction-service.ts:158-164 | The row's scores and rank can be recovered from its vector. |
| MlPrediction.GeneratePredictionVisualization | lib/ml-prediction-service.ts:168-184 | Two chart entries with the probabilities in percent, colour bands at 0.7 and 0.5, and the confidence in percent. |
| MlPrediction.ColorMonotone | lib/ml-prediction-service.ts:174 | A higher probability never gets a worse colour. |
| MlPrediction.VisualizationOfPredictionInRange | lib/ml-prediction-service.ts:168-184 | For any prediction, every chart value lies in [0, 100]. |
| TfFeatures.SquaredDeviations | lib/tensorflow-ml-service.ts:37-38 | The sum of squared deviations is non-negative. |
| TfFeatures.InvertedRank | lib/tensorflow-ml-service.ts:51 | `max(0, 1 - rank/100)` is at least 0, and at most 1 for a non-negative rank. |
| TfFeatures.InvertedRankFalls | lib/tensorflow-ml-service.ts:51 | Higher is better: a larger rank never gives a larger inverted rank. |
| TfFeatures.ExtractFeatures | lib/tensorflow-ml-service.ts:20-73 | No scores gives 15 zeros. Otherwise it gives 15 features over the newest five rows; the rates lie in [0, 1], both inverted ranks are at least 0, and the latest one is at most 1 when the latest rank is not negative. |
| TfFeatures.ProgressionAndLatest | lib/tensorflow-ml-service.ts:33-52 | The progression feature is (newest - oldest)/(k - 1)/50, and the latest-row entries come from row 0. |
| TfFeatures.FeaturesReadOnlyWindow | lib/tensorflow-ml-service.ts:23 | Beyond the fifth row, only the two data-volume features change. |
| TfFeatures.PassRateAgreesWithPredictor | lib/tensorflow-ml-service.ts:41 | On three or fewer rows, feature 6 equals the rule-based passing rate. |
| TfFeatures.PredictConfidence | lib/tensorflow-ml-service.ts:215-217 | Confidence lies in [0.5, 1] and is 1 exactly when there are at least 10 rows. |
| TfFeatures.ConfidenceGrowsWithData | lib/tensorflow-ml-service.ts:215 | More rows never lower the confidence. |
| TfPredictionRoute.RouteMetricsOf | app/api/tensorflow-prediction/route.ts:79-85 | Average score and passing rate of the newest three rows; the rate lies in [0, 1]. |
| TfPredictionRoute.Analysis | app/api/tensorflow-prediction/route.ts:78-141 | The route's factors and recommendations for given network outputs, with at least one recommendation. |
| TfPredictionRoute.ApplyRules | app/api/tensorflow-prediction/route.ts:78-141 | The factor and recommendation lists the route's `if` chain builds equal `Analysis`. |
| TfPredictionRoute.CollectPositive | app/api/tensorflow-prediction/route.ts:88-96 | The six positive factors whose conditions hold, in order. |
| TfPredictionRoute.CollectNegative | app/api/tensorflow-prediction/route.ts:98-102 | The five negative factors whose conditions hold, in order. |
| TfPredictionRoute.CollectRecommendations | app/api/tensorflow-prediction/route.ts:105-125 | The recommendations whose conditions hold, or the single default. |
| TfPredictionRoute.GraduationFactorIff | app/api/tensorflow-prediction/route.ts:91 | "High graduation chance" is listed iff the network's graduation output exceeds 0.7; "graduation risk" iff it is below 0.4. |
| TfPredictionRoute.DefaultRecommendationIff | app/api/tensorflow-prediction/route.ts:107-125 | The default recommendation appears iff none of the five conditions holds. |
| TfPredictionRoute.PredictionRoute.constructor | app/api/tensorflow-prediction/route.ts:12-13 | No model and not trained. |
| TfPredictionRoute.PredictionRoute.InitializeModel | app/api/tensorflow-prediction/route.ts:16-44 | A trained model is reused. Otherwise a new one is built and trained, and it is kept. |
| TfPredictionRoute.PredictionRoute.Post | app/api/tensorflow-prediction/route.ts:46-162 | No scores gives the fallback answer and changes nothing. An error gives the 500 fallback. Otherwise the network's output with `Analysis`. With scores, a trained model is reused untouched; otherwise one more model is created, the old one is disposed, and the new one is kept only if training succeeds. |
| RankingUtils.CollectFirstRows | lib/ranking-utils.ts:77-100 | The table holds a key iff some row's call for it answered. A row whose answer is not overwritten by a later row with the same key has its first answered row stored. |
| RankingUtils.PreviousScores | lib/ranking-utils.ts:154-158 | Each test name that appears after position 0 maps to the row just before its last appearance. |
| RankingUtils.Changes | lib/ranking-utils.ts:176-182 | Each of the seven changes plus the previous value equals the current value, with nulls as 0. |
| RankingUtils.Merge | lib/ranking-utils.ts:161-194 | One merged row per fetched row, in order. Missing averages and ranks are 0. Changes are present iff the test name is in the previous-exam table, and are then taken against that entry. |
| RankingUtils.TotalRankOf | lib/ranking-utils.ts:130-148 | Both overall ranks stay 0 unless the call answers a row. |
| RankingUtils.GetStudentScoresWithStats | lib/ranking-utils.ts:44-199 | A failed query gives []. Otherwise one row per fetched row, with the stored averages and ranks, the overall ranks, and changes present exactly when the row's test name occurs at some date-ordered position from 1 on. The changes are taken against the exam just before the last such position, which may be an exam of another name. |
| RankingUtils.RowsOrEmpty | lib/ranking-utils.ts:202-228 | The answered rows, or [] on an error or an empty answer. |
| StudentDashboard.ClassifyDifference | components/student-dashboard.tsx:146-167 | Up iff the difference is above 5, down iff below -5, neutral otherwise. |
| StudentDashboard.GetTrend | components/student-dashboard.tsx:136-137 | Fewer than two scores is neutral. |
| StudentDashboard.TrendOfLastTwo | components/student-dashboard.tsx:136-146 | Fewer than two scores is neutral. Otherwise the trend of the last two in date order. |
| StudentDashboard.TrendBoundary | components/student-dashboard.tsx:148-167 | A difference of exactly ±5 is neutral. |
| StudentDashboard.PassStatusOf | components/student-dashboard.tsx:172-184 | Pass iff AD >= 132 and BC >= 44. On a fail, the shortfalls are the non-negative distances to 132 and 44. |
| StudentDashboard.RunEndingAtMeans | components/student-dashboard.tsx:235-246 | The run ending at i is the number of consecutive passes up to i. |
| StudentDashboard.ConsecutivePassing | components/student-dashboard.tsx:235-246 | The forEach loop computes the largest ⌊run/3⌋ over date order. |
| StudentDashboard.CalculateAchievementCounts | components/student-dashboard.tsx:227-259 | Pass count, top-10 count, consecutive-passing count, and the count of rows above average in all six sections; each is at most the number of rows. |
| StudentDashboard.StudyLevel | components/student-dashboard.tsx:280-286 | At least 1, and equal to the sum of the counters when that is positive. |
| StudentDashboard.SortDetails | components/student-dashboard.tsx:495-508 | A permutation of the rows, ordered by the chosen column; any other choice keeps the order. |
| StudentDashboard.DetailOrderIsTotalPreorder | components/student-dashboard.tsx:496-507 | Each sort choice is a total preorder. |
| TestResultsList.DedupeDistinct | components/test-results-list.tsx:43-55 | The listed exams have distinct keys. |
| TestResultsList.DedupeCovers | components/test-results-list.tsx:43-55 | Every row's exam key is listed. |
| TestResultsList.DedupeFromFirst | components/test-results-list.tsx:43-55 | Each listed exam is taken from the first row carrying its key, in first-appearance order. |
| TestResultsList.UniqueTests | components/test-results-list.tsx:44-55 | The forEach loop computes the de-duplicated exam list. |
| TestResultsList.TestInfos | components/test-results-list.tsx:43-61 | The de-duplicated exams, newest date first. |
| TestResultsList.TextKeyAgreesWithPairKey | components/test-results-list.tsx:47 | When no date contains "_", the text key lists the same exams, in the same order, as the (name, date) pair. |
| TestResultsList.TextKeyDropsRows | components/test-results-list.tsx:47 | A date containing "_" would let ("a_b", "c") and ("a", "b_c") share a key and drop the second exam's rows. |
| TestResultsList.ScoresOfCounts | components/test-results-list.tsx:69-71 | The rows of an exam are exactly the rows whose name and date match, in order. |
| TestResultsList.GroupScores | components/test-results-list.tsx:64-76 | Each listed exam's key maps to that exam's rows. |
| TestResultsList.ScoreOrderIsTotalPreorder | components/test-results-list.tsx:80-97 | Each sort option is a total preorder. |
| TestResultsList.SortScores | components/test-results-list.tsx:79-98 | A permutation of the exam's rows, ordered by the option. |
| TestResultsList.Averages | components/test-results-list.tsx:132-140 | Each column's sum, with nulls as 0, divided by the row count. |
| TestResultsList.SumOfPermutation | components/test-results-list.tsx:133-139 | A column sum does not depend on the row order. |
| TestResultsList.AveragesIgnoreSortOrder | components/test-results-list.tsx:128-140 | The averages of a sorted table equal those of the unsorted one. |
| TestResultsList.MakeSection | components/test-results-list.tsx:125-140 | One exam's section: its rows sorted, their count, and the averages. |
| TestResultsList.BuildSections | components/test-results-list.tsx:125-140 | One section per listed exam, in list order, built from the rows grouped under that exam's key. |
| TestResultsList.ListsEachKeyOnceAfterPermutation | components/test-results-list.tsx:44-60 | The sorted exam list has no two exams with one key, lists every row's key, and holds only exams of the rows. |
| TestResultsList.DistinctAfterPermutation | components/test-results-list.tsx:58-60 | Sorting the exam list keeps its keys distinct. |
| TestResultsList.PlainRowsHaveSections | components/test-results-list.tsx:47 | When no date holds "_", every row's exam has its own section. |
| TestResultsList.TestResultsList | components/test-results-list.tsx:38-140 | One section per exam text key of the rows, newest first, each holding all rows of its exam's name and date, sorted, with averages that ignore the sort. Every row's key has a section, and when no date holds "_" every row's exam has one. |
| RankingPage.PutSpec | app/ranking/page.tsx:39-41 | `Map.set` replaces the entry with the same key in place, or appends a new key. |
| RankingPage.MapValuesDistinct | app/ranking/page.tsx:39-41 | The de-duplicated tests have distinct keys. |
| RankingPage.PutKeys | app/ranking/page.tsx:39-41 | After `Map.set`, a key is present iff it was before or is the new row's. |
| RankingPage.MapValuesKeys | app/ranking/page.tsx:39-41 | A key is listed iff some fetched row carries it. |
| RankingPage.MapValuesLastWins | app/ranking/page.tsx:39-41 | Each listed entry is the last row with its key. |
| RankingPage.MapValuesFirstAppearanceOrder | app/ranking/page.tsx:39-41 | Entries follow the first appearance of their key. |
| RankingPage.CollidingTestsMerge | app/ranking/page.tsx:40 | Were a date to contain "_", two tests whose texts collide would be merged into the later one. |
| RankingPage.DecodeEncodeWithoutUnderscore | app/ranking/page.tsx:73 | `split("_")` gives the test back when neither its name nor its date contains "_". |
| RankingPage.DecodeSplitsName | app/ranking/page.tsx:73 | `split("_")` decodes "第1回_模試" of 2024-05-01 as the test "第1回" of date "模試". |
| RankingPage.DecodeTakesFirstTwoPieces | app/ranking/page.tsx:73 | For a value "a_b_c" whose a and b hold no "_", `split("_")` requests the test a of date b, whatever c is. |
| RankingPage.DecodeAtLastUnderscoreEncode | app/ranking/page.tsx:155-156 | Splitting at the last "_" gives back every test whose date has no "_". |
| RankingPage.DecodingsAgreeWithoutUnderscore | app/ranking/page.tsx:73 | Both decodings agree on tests without "_". |
| RankingPage.RankMedal | app/ranking/page.tsx:85-90 | Crown for 1, medals for 2 and 3, nothing otherwise. |
| RankingPage.PassRuleAgreesWithDashboard | app/ranking/page.tsx:93-95 | The table's pass rule is the dashboard's rule. |
| RankingPage.RankingPageState.constructor | app/ranking/page.tsx:15-20 | The initial page state. |
| RankingPage.RankingPageState.FetchData | app/ranking/page.tsx:23-63 | A failed query shows the error and keeps the lists. Otherwise the de-duplicated tests are listed, the first is selected and its ranking shown, and the total ranking is shown. |
| RankingPage.RankingPageState.HandleTestChange | app/ranking/page.tsx:68-82 | The value becomes the selection, and the ranking of the test that `split("_")` decodes is shown; the error and the lists are unchanged. |
| RankingPage.ChoosingListedTestAsWritten | app/ranking/page.tsx:73 | With `split("_")`, choosing a listed test whose name and date hold no "_" requests that test's ranking. |
| RankingPage.ChoosingListedTestRequestsIt | app/ranking/page.tsx:39-47 | With the decoding corrected to split at the last "_", choosing any listed test requests that test's ranking. |
| GeminiService.SectionsOf | lib/gemini-service.ts:59-64 | Sections A-D with maxima 60, 40, 20 and 80. |
| GeminiService.RankedSections | lib/gemini-service.ts:66-69 | A permutation of the four sections, sorted by descending share. |
| GeminiService.StatusOf | lib/gemini-service.ts:54-55 | "Passed" iff the section meets its line; otherwise the missing points, which are positive. |
| GeminiService.Analyse | lib/gemini-service.ts:30-72 | The changes against the previous exam (0 without one), the pass flags, and the strongest and weakest sections. |
| GeminiService.StrongestAndWeakest | lib/gemini-service.ts:66-72 | The strongest section's share is the largest and the weakest's the smallest. |
| GeminiService.EqualSharesKeepListOrder | lib/gemini-service.ts:66-72 | With equal shares, A is strongest and D weakest. |
| GeminiService.OutcomeLines | lib/gemini-service.ts:109-116 | The pass line or the missing-points lines, chosen by the pass flags. |
| GeminiService.FallbackMessage | lib/gemini-service.ts:106-126 | The greeting, the outcome, the strongest and weakest sections, the rank line iff the rank improved, and the closing line. |
| GeminiService.GenerateQyanAnalysis | lib/gemini-service.ts:26-128 | The model's text when it answers; otherwise the fallback message. |
| ImportTestResults.FindIndex | app/api/import-test-results/route.ts:26-34 | The first index whose header equals the name, or -1 when there is none. |
| ImportTestResults.ResolveColumns | app/api/import-test-results/route.ts:22-77 | Without a `student_id` header, the fixed columns 2-10 apply and reading starts at line 0. Otherwise the header's indices apply and reading starts at line 1. |
| ImportTestResults.ParseRowFacts | app/api/import-test-results/route.ts:55-109 | A blank line is skipped. Fewer than 3 columns, or an empty ID, is a row error. Otherwise a record with this exam's name and date is produced. |
| ImportTestResults.OutcomesBy | app/api/import-test-results/route.ts:55-114 | One outcome per line read, in order. |
| ImportTestResults.Outcomes | app/api/import-test-results/route.ts:55-114 | The parse loop computes the outcome list. |
| ImportTestResults.OutcomeStep | app/api/import-test-results/route.ts:55-114 | One more line adds its own outcome at the end. |
| ImportTestResults.BatchFacts | app/api/import-test-results/route.ts:96-109 | Each batch record comes from a parsed line, in order, with a non-empty ID and this exam. |
| ImportTestResults.FileBatchFacts | app/api/import-test-results/route.ts:96-109 | The same facts, for a whole file. |
| ImportTestResults.ErrorLines | app/api/import-test-results/route.ts:64 | Row errors carry 1-based line numbers of lines read, in increasing order. |
| ImportTestResults.ParserNumbersLines | app/api/import-test-results/route.ts:92 | Every line's error names that line. |
| ImportTestResults.FileErrorLines | app/api/import-test-results/route.ts:55-94 | The file's errors name lines of the file, in order. |
| ImportTestResults.ParseRows | app/api/import-test-results/route.ts:55-114 | The loop computes the batch and the errors. |
| ImportTestResults.FirstLineIsDataWithoutHeader | app/api/import-test-results/route.ts:38-50 | Without a `student_id` header, line 0 is read as data. |
| ImportTestResults.ParseText | app/api/import-test-results/route.ts:18-114 | The batch and the errors of an uploaded text. |
| ImportTestResults.FateOf | app/api/import-test-results/route.ts:132-147 | A failed lookup drops the record. An existing key skips it. Otherwise it is new. |
| ImportTestResults.PartitionAccounts | app/api/import-test-results/route.ts:123-148 | New, existing and dropped records add up to the batch. |
| ImportTestResults.NewOfWithoutFailures | app/api/import-test-results/route.ts:123-148 | Without lookup failures, the new records are those whose key is not stored. |
| ImportTestResults.ReimportInsertsNothing | app/api/import-test-results/route.ts:119-148 | Importing a stored batch again inserts nothing. |
| ImportTestResults.NothingNewWhenAllPresent | app/api/import-test-results/route.ts:137-143 | When every key is stored, every record is reported as existing. |
| ImportTestResults.DuplicatesInOneBatchAreBothNew | app/api/import-test-results/route.ts:123-148 | Two records with one new key in the same batch are both inserted, because the lookup sees only stored rows. |
| ImportTestResults.ScoreTable.Contains | app/api/import-test-results/route.ts:125-130 | True iff some stored row has the key. |
| ImportTestResults.ScoreTable.Partition | app/api/import-test-results/route.ts:123-148 | The loop splits the batch into the new and the existing records. |
| ImportTestResults.ScoreTable.Insert | app/api/import-test-results/route.ts:151-165 | The new records are appended, or the table is unchanged on an error. |
| ImportTestResults.ImportedOf | app/api/import-test-results/route.ts:168-174 | One result per inserted row, in order. |
| ImportTestResults.RowProblems | app/api/import-test-results/route.ts:64 | The row errors, in line order. |
| ImportTestResults.Skipped | app/api/import-test-results/route.ts:178-184 | One warning per existing record, in order. |
| ImportTestResults.ErrorsField | app/api/import-test-results/route.ts:201 | `null` for no errors; otherwise the row errors followed by the skip warnings. |
| ImportTestResults.ImportTestResults | app/api/import-test-results/route.ts:5-213 | Missing parameters give 400, and only then. An insert error gives 500 with an unchanged table. Otherwise the new records are stored and reported, with the errors. |
| Auth.CheckApiAuth | lib/auth-utils.ts:4-29 | Refused iff in production and the referer does not contain the host. The response is present iff refused. |
| Auth.CheckAdminApiAuth | lib/auth-utils.ts:32-45 | Same verdict as the basic check; on refusal, the basic check's own object. |
| Auth.AdminCheckIsBasicCheck | lib/auth-utils.ts:32-45 | The admin check equals the basic check. |
| Auth.MissingHostAuthenticates | lib/auth-utils.ts:6-14 | A request without a host header always passes. |
| Auth.Middleware | middleware.ts:4-31 | Blocks iff the path is an API path other than login and logout, in production, and cross-origin. |
| Auth.NeverBlocksOutsideProduction | middleware.ts:15-27 | Outside production, nothing is blocked. |
| Auth.PagePathsPass | middleware.ts:9-11 | /admin and /dashboard paths always pass. |
| Auth.LoginAndLogoutPass | middleware.ts:11 | The login and logout endpoints always pass. |
| Auth.MiddlewareAgreesWithCheckApiAuth | middleware.ts:15-27 | On API paths, the middleware blocks iff `checkApiAuth` refuses. |
| Auth.MissingHostPasses | middleware.ts:17-21 | A request without a host header passes on every path. |
| RosterImport.QuotedRowKeptIff | app/api/import-students/route.ts:30-46 | A line is kept iff its trimmed text has at least two commas. |
| RosterImport.QuotedRowOfColumns | app/api/import-students/route.ts:35-44 | The first three cleaned columns are the student; the rest are ignored. |
| RosterImport.HeaderDetection | app/api/import-students/route.ts:26 | Line 0 is skipped iff it contains "ID" or "PASS"; every other line is read. |
| RosterImport.UnmarkedFirstLineIsImported | app/api/import-students/route.ts:26 | A first line without "ID" or "PASS" is imported as a student. |
| RosterImport.CollectMembers | app/api/import-students/route.ts:30-46 | A student is collected iff some line of the range parses to it, and each line gives at most one student. |
| RosterImport.CollectRows | app/api/import-students/route.ts:30-46 | The row loop computes `Collect`. |
| RosterImport.PlainRowKeptIff | app/api/import-csv/route.ts:26-42 | A line is kept iff its trimmed text has at least two commas. |
| RosterImport.PlainRowOfColumns | app/api/import-csv/route.ts:31-40 | The first three trimmed columns are the student. |
| RosterImport.QuotesStrippedOnlyByQuotedRow | app/api/import-csv/route.ts:31-40 | import-csv keeps quotes that import-students strips. |
| RosterImport.ClassifyAgreesWithQuotedRow | app/api/import-csv-fixed/route.ts:53-94 | A line is accepted iff import-students would keep it with a non-empty ID and password. A missing name becomes "名前なし". |
| RosterImport.ScanCounts | app/api/import-csv-fixed/route.ts:53-94 | Processed plus skipped equals the number of lines after line 0. Errors are at most the skips and name data lines in increasing order. |
| RosterImport.Scan | app/api/import-csv-fixed/route.ts:37-94 | The loop computes the students and `debugInfo`. |
| RosterImport.StripBom | app/api/import-csv-fixed/route.ts:24-26 | Removes exactly one leading U+FEFF, and only when one is there. |
| RosterImport.BomStripChangesNoOutcome | app/api/import-csv-fixed/route.ts:24-53 | Stripping the BOM changes neither the students nor any counter, because line 0 is never read. |
| RosterImport.DebugInfoAddsUp | app/api/import-csv-fixed/route.ts:37-94 | The reported counters add up for every text. |
| RosterImport.FixedStudentsComplete | app/api/import-csv-fixed/route.ts:76-89 | Every accepted student has a name, an ID and a password. |
| RosterImport.UpsertAllKeys | app/api/import-students/route.ts:53 | The table holds exactly the old IDs and the batch's IDs. |
| RosterImport.UpsertAllLastWins | app/api/import-students/route.ts:53 | The last batch row for an ID is stored. |
| RosterImport.UpsertAllUntouched | app/api/import-students/route.ts:53 | IDs not in the batch keep their rows. |
| RosterImport.UpsertTwiceIsUpsertOnce | app/api/import-students/route.ts:53 | The upsert is idempotent. |
| RosterImport.StudentTable.Upsert | app/api/import-students/route.ts:53-58 | The upsert is applied and the batch returned, or the table is unchanged on an error. |
| RosterImport.ImportStudents | app/api/import-students/route.ts:6-73 | The auth check's 401; no file; no valid rows; a store error; or the upsert of the parsed students with their count. |
| RosterImport.ImportCsv | app/api/import-csv/route.ts:5-71 | A fetch failure; no valid rows; a store error; or the upsert of the students after line 0. |
| RosterImport.ImportCsvFixed | app/api/import-csv-fixed/route.ts:5-160 | A fetch failure; no valid rows; a table-check error; a store error with up to 3 sample rows; or the upsert, each answer with `debugInfo`. |
| TestResultsImport.SplitQuoted | components/test-results-import.tsx:36-57 | The character loop computes `SplitLine`. |
| TestResultsImport.ScanPrefixInvariant | components/test-results-import.tsx:40-51 | The fields so far plus the current field equal the prefix's characters minus quotes and separating commas. |
| TestResultsImport.FieldCount | components/test-results-import.tsx:36-57 | One field more than the number of commas outside quotes. |
| TestResultsImport.QuotesNeverCopied | components/test-results-import.tsx:43-44 | No field contains a quote. |
| TestResultsImport.NoQuotesIsPlainSplit | components/test-results-import.tsx:36-57 | Without quotes, the preview splitter is `split(",")`. |
| TestResultsImport.CommaInsideQuotesIsKept | components/test-results-import.tsx:43-47 | A quoted comma stays inside its field. |
| TestResultsImport.NonBlankLines | components/test-results-import.tsx:31-33 | The lines that are not blank, in order. |
| TestResultsImport.NonBlankLinesSpec | components/test-results-import.tsx:31-33 | A line is kept iff it is not blank. |
| TestResultsImport.ParsedLines | components/test-results-import.tsx:34-57 | One field list per kept line. |
| TestResultsImport.PreviewOf | components/test-results-import.tsx:31-59 | At most five rows: the first kept lines, split. |
| TestResultsImport.Preview | components/test-results-import.tsx:31-59 | The preview method computes `PreviewOf`. |
| TestResultsImport.FailureMessage | components/test-results-import.tsx:118 | The server's error text, or the default message when there is none. |
| TestResultsImport.UploadForm.constructor | components/test-results-import.tsx:15-19 | The initial form state. |
| TestResultsImport.UploadForm.HandleFileChange | components/test-results-import.tsx:23-64 | No file changes nothing. Otherwise the name is shown, with the preview, or with an empty preview when `file.text()` rejects. |
| TestResultsImport.UploadForm.HandleImport | components/test-results-import.tsx:66-130 | Missing inputs only raise a toast. Success shows the counts and clears the form iff there are no errors. Failure shows the error. |
| CsvInspector.HexByte | app/csv-inspector/page.tsx:38 | Two lower-case hexadecimal digits. |
| CsvInspector.HexDigitValue | app/csv-inspector/page.tsx:38 | Each digit reads back as its value. |
| CsvInspector.ByteOfHexByte | app/csv-inspector/page.tsx:38 | The two digits read back as the byte. |
| CsvInspector.JoinPairs | app/csv-inspector/page.tsx:37-39 | Pairs joined by spaces: three characters per byte, minus one. |
| CsvInspector.HexDumpLayout | app/csv-inspector/page.tsx:35-40 | The dump shows the first min(100, n) bytes, each at its own offset. |
| CsvInspector.HeaderKeys | app/csv-inspector/page.tsx:44-53 | The header fields, trimmed. |
| CsvInspector.ColumnValues | app/csv-inspector/page.tsx:53 | The value of column j, trimmed, or "" when the line is shorter. |
| CsvInspector.AssignmentsKeys | app/csv-inspector/page.tsx:52-54 | A record has exactly the trimmed header names as keys. |
| CsvInspector.AssignmentsLastWins | app/csv-inspector/page.tsx:52-54 | For a repeated header, the last column wins. |
| CsvInspector.RecordKeys | app/csv-inspector/page.tsx:52-54 | The record's keys are the trimmed headers. |
| CsvInspector.RecordValues | app/csv-inspector/page.tsx:52-54 | The record's values come from the last column with each key. |
| CsvInspector.RecordsCount | app/csv-inspector/page.tsx:47-58 | One record per non-blank line among lines 1-9. |
| CsvInspector.RecordsAtMostNine | app/csv-inspector/page.tsx:47 | At most nine records. |
| CsvInspector.BuildRecord | app/csv-inspector/page.tsx:50-54 | The forEach loop builds `RecordOf`. |
| CsvInspector.ParseRecords | app/csv-inspector/page.tsx:43-58 | The parse loop computes `Records`. |
| CsvInspector.ReadText | app/csv-inspector/page.tsx:31 | Succeeds iff the body was not read before, and leaves it read. |
| CsvInspector.ReadBytes | app/csv-inspector/page.tsx:35 | Succeeds iff the body was not read before, and leaves it read. |
| CsvInspector.SecondReadRejects | app/csv-inspector/page.tsx:31-35 | After `text()`, `arrayBuffer()` on the same body rejects, and the other way round. |
| CsvInspector.InspectorPage.FetchCsvAsWritten | app/csv-inspector/page.tsx:17-67 | A bad status shows its error. An OK response keeps the text but ends in the TypeError, with neither dump nor records. |
| CsvInspector.InspectorPage.FetchCsv | app/csv-inspector/page.tsx:17-67 | A bad status shows its error. An OK body shows the text, the hex dump and the records. |
| AdminPage.TextOrEmpty | app/admin/page.tsx:258 | A present name is kept; a missing one becomes "". |
| AdminPage.ExportStudentsCsv | app/admin/page.tsx:251-265 | Nothing for an empty list; otherwise the CSV text. |
| AdminPage.NumberOrEmpty | app/admin/page.tsx:291-297 | Null and 0 print as ""; any other value through the number printer. |
| AdminPage.ScoreFields | app/admin/page.tsx:286-298 | Eleven fields, as many as the header. |
| AdminPage.ExportScoresCsv | app/admin/page.tsx:267-305 | Nothing for an empty list; otherwise the CSV text. |
| AdminPage.HeadersUnbroken | app/admin/page.tsx:255-283 | No header field contains a comma or a newline. |
| AdminPage.CsvLines | app/admin/page.tsx:261 | The text's lines are the header line and one line per row, in order. |
| AdminPage.ScoresExportShape | app/admin/page.tsx:267-301 | Every line of the scores export splits back into its fields. |
| AdminPage.ZeroScoreExportsEmpty | app/admin/page.tsx:297 | A total of 0 exports as "", like a missing one. |
| AdminPage.StudentsExportRoundTrip | app/admin/page.tsx:251-261 | import-students reads the export back as every student, in order, with a missing name as "". |
| AdminPage.ScoreForm.constructor | app/admin/page.tsx:40-44 | Empty fields, with the maximum score "100". |
| AdminPage.ScoreForm.Row | app/admin/page.tsx:212-218 | The row to insert, with both numbers through `parseInt`. |
| AdminPage.ScoreForm.HandleAddScore | app/admin/page.tsx:183-248 | An incomplete form only shows an error. An unknown student or an insert error keeps the form. Success stores the row and clears the form. |
| AdminPage.TypedScoreIsStored | app/admin/page.tsx:216 | A typed whole number is stored as itself, and a fractional part is cut off. |

## Left out

- Database and network access (Supabase queries, stored procedures, `fetch`) are not modelled. Their answers are parameters: a row list or an error.
- The stored procedures `get_test_averages`, `get_student_rank`, `get_student_total_rank`, `get_test_rankings` and `get_total_rankings` run inside the database. They are inputs.
- Network creation, training and model saving, and the network's output, in lib/tensorflow-ml-service.ts are not modelled. The output of `predict` is an input to the prediction route.
- `generateMockTrainingData` is left out, because it draws from `Math.random`.
- The language-model call in lib/gemini-service.ts is an input, and the prompt text is not modelled.
- Floating-point rounding and NaN are not modelled: numbers are exact reals. `parseFloat` reads digits with an optional sign and decimal point, but no exponent.
- `toFixed`, `toLocaleDateString` and number-to-text printing are a `show` parameter where they matter.
- `localeCompare` is modelled as code-point order, and `new Date(...)` comparison as ISO text order.
- The exact comparator numbers are not modelled, only their sign.
- JSX rendering, toasts, icons and the DOM are not modelled. The admin page's `downloadCSV` (app/admin/page.tsx:307-317) is browser I/O and is left out.
- Re-fetching lists after an admin action is not modelled.
- The middleware's `matcher` configuration is not modelled. The model classifies every path itself.
- Console logging is not modelled.
- `TextDecoder` decoding is not modelled. import-csv-fixed starts from the decoded text.
- The `catch` blocks around single rows cannot be reached, because nothing in a row can throw. They are not modelled.
- app/api/import-csv/route.ts has no auth check, and the model keeps it that way.
- `expectedHeaders` and `headerRow` in import-csv-fixed are computed but unused.
- RosterImport.StudentTable.Upsert: the rows returned by `.select()` are modelled as the batch. When the database rejects a batch, for example one holding the same ID twice, the model gets that rejection as the input `upsertFails`.
- TfFeatures.PredictConfidence: the feature-quality term is taken as 1, because every feature is a finite number once NaN is left out.
- AdminPage.NumberOrEmpty: a number's printed text comes from the `show` parameter, not from JavaScript's number-to-string rules.
- RankingPage.RankingPageState.FetchData: the `limit(100)` of the test query is the caller's part. `testsData` is the list the query returns.
- TfPredictionRoute.PredictionRoute.Post: the success answer's `timestamp` (the clock) and the 500 answer's `error` text (the thrown exception's message) are not fields of `Response`.
- ImportTestResults.ImportTestResults: each entry of `results` omits `resultId`, the row id the database assigns. The entries are built from the inserted records in order, not from the rows that `insert(...).select()` returns; the model takes the database to return the inserted rows in insertion order.

## Findings

| source | as written | input that shows it | evidently intended | confidence | as-written member | corrected member |
|---|---|---|---|---|---|---|
| app/csv-inspector/page.tsx:31-35 | `response.text()` consumes the body, then `response.arrayBuffer()` reads the same response again | any OK response, e.g. the body "名前,ID\n山田,1" | read the body once, or read a `clone()`, so that the hex dump and the records are shown | high (the Fetch standard rejects a second read); not executed | CsvInspector.InspectorPage.FetchCsvAsWritten | CsvInspector.InspectorPage.FetchCsv |
| app/ranking/page.tsx:73 | `value.split("_")` takes the text before the first "_" as the test name | the test "第1回_模試" of 2024-05-01 is requested as the test "第1回" of date "模試" | split at the last "_", since a date never contains one | medium (needs a test name containing "_"); not executed | RankingPage.DecodeSplitsName | RankingPage.DecodeAtLastUnderscoreEncode |
