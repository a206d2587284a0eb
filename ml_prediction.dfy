/**
 * The rule-based outcome predictor of lib/ml-prediction-service.ts: from a
 * student's score history (most recent first) it derives metrics over the
 * latest three exams, adds one adjustment per tier table to a base
 * graduation probability of 0.5, derives a stricter national-exam
 * probability, clamps both into [0, 1], and lists explanatory factors and
 * recommendations from fixed, ordered rule tables. Also the feature rows of
 * `preprocessDataForML` and the chart data of `generatePredictionVisualization`.
 */
module MlPrediction {
  import opened Rules
  import Scores

  /** One exam of the history, with its rank and that exam's average total. */
  datatype PredictionScore = PredictionScore(
    test_date: string,
    total_score: real,
    section_ad: real,
    section_bc: real,
    rank: real,
    avg_total_score: real)

  datatype Factors = Factors(positive: seq<string>, negative: seq<string>)

  datatype PredictionResult = PredictionResult(
    graduationProbability: real,
    nationalExamProbability: real,
    confidence: real,
    factors: Factors,
    recommendations: seq<string>)

  const NoData := "データ不足"
  const FirstRecommendation := "まずは模擬試験を受けてデータを蓄積しましょう"
  const DefaultRecommendation := "現在の学習ペースを維持しましょう"

  /** The defined low-confidence answer for an empty history. */
  const EmptyPrediction := PredictionResult(0.5, 0.5, 0.1, Factors([], [NoData]), [FirstRecommendation])

  function Min(a: real, b: real): real { if a <= b then a else b }
  function Max(a: real, b: real): real { if a >= b then a else b }

  /** `x` clamped to the range 0 to 1. */
  function Clamp01(x: real): (r: real)
    ensures 0.0 <= r <= 1.0
    ensures 0.0 <= x <= 1.0 ==> r == x
  {
    Max(0.0, Min(1.0, x))
  }

  /** The first `size` scores, or all of them when there are fewer. */
  function Window(scores: seq<PredictionScore>, size: nat): (w: seq<PredictionScore>)
    ensures |w| == if |scores| < size then |scores| else size
    ensures w == scores[..|w|]
  {
    if |scores| < size then scores else scores[..size]
  }

  function Sum(w: seq<PredictionScore>, f: PredictionScore -> real): real {
    if w == [] then 0.0 else f(w[0]) + Sum(w[1..], f)
  }

  /** The mean of `f` over the scores of the window. */
  function Mean(w: seq<PredictionScore>, f: PredictionScore -> real): real
    requires |w| > 0
  {
    Sum(w, f) / |w| as real
  }

  /** How many scores of the window satisfy `p`. */
  function CountWhere(w: seq<PredictionScore>, p: PredictionScore -> bool): (n: nat)
    ensures n <= |w|
  {
    if w == [] then 0 else (if p(w[0]) then 1 else 0) + CountWhere(w[1..], p)
  }

  function TotalOf(s: PredictionScore): real { s.total_score }
  function RankOf(s: PredictionScore): real { s.rank }

  predicate PassesExam(s: PredictionScore) {
    Scores.Passes(s.section_ad, s.section_bc)
  }

  predicate AtOrAboveAverage(s: PredictionScore) {
    s.total_score >= s.avg_total_score
  }

  /** Fraction of the window's exams that pass. */
  function PassingRate(w: seq<PredictionScore>): (r: real)
    requires |w| > 0
    ensures 0.0 <= r <= 1.0
  {
    CountWhere(w, PassesExam) as real / |w| as real
  }

  /** Fraction of the window's exams at or above that exam's average. */
  function AboveAverageRate(w: seq<PredictionScore>): (r: real)
    requires |w| > 0
    ensures 0.0 <= r <= 1.0
  {
    CountWhere(w, AtOrAboveAverage) as real / |w| as real
  }

  /** Points gained per exam from the oldest to the newest exam of the window; 0 with one exam. */
  function TrendScore(w: seq<PredictionScore>): real
    requires |w| > 0
  {
    if |w| >= 2 then (w[0].total_score - w[|w| - 1].total_score) / (|w| - 1) as real else 0.0
  }

  /** The metrics the rules read, all over the latest three exams. */
  datatype Metrics = Metrics(
    averageScore: real,
    averageRank: real,
    trendScore: real,
    passingRate: real,
    aboveAverageRate: real,
    latest: PredictionScore)

  function MetricsOf(scores: seq<PredictionScore>): (m: Metrics)
    requires |scores| > 0
    ensures m.latest == scores[0]
    ensures 0.0 <= m.passingRate <= 1.0 && 0.0 <= m.aboveAverageRate <= 1.0
  {
    var w := Window(scores, 3);
    Metrics(
      Mean(w, TotalOf),
      Mean(w, RankOf),
      TrendScore(w),
      PassingRate(w),
      AboveAverageRate(w),
      w[0])
  }

  /** Tier table for the average total score. */
  function ScoreAdjustment(averageScore: real): (d: real)
    ensures averageScore >= 180.0 <==> d == 0.3
    ensures d == -0.2 <==> averageScore < 120.0
  {
    if averageScore >= 180.0 then 0.3
    else if averageScore >= 150.0 then 0.2
    else if averageScore >= 120.0 then 0.1
    else -0.2
  }

  /** Tier table for the pass rate; a rate in [0.3, 0.6) adds nothing. */
  function PassRateAdjustment(rate: real): (d: real)
    ensures d > 0.0 <==> rate >= 0.6
    ensures d < 0.0 <==> rate < 0.3
  {
    if rate >= 0.8 then 0.2
    else if rate >= 0.6 then 0.1
    else if rate < 0.3 then -0.3
    else 0.0
  }

  /** Tier table for the trend; within ±5 points per exam it adds nothing. */
  function TrendAdjustment(trend: real): (d: real)
    ensures d > 0.0 <==> trend > 5.0
    ensures d < 0.0 <==> trend < -5.0
  {
    if trend > 5.0 then 0.15 else if trend < -5.0 then -0.15 else 0.0
  }

  /** Tier table for the average rank; ranks 21 to 50 add nothing. */
  function RankAdjustment(averageRank: real): (d: real)
    ensures d > 0.0 <==> averageRank <= 20.0
    ensures d < 0.0 <==> averageRank > 50.0
  {
    if averageRank <= 10.0 then 0.15
    else if averageRank <= 20.0 then 0.1
    else if averageRank > 50.0 then -0.1
    else 0.0
  }

  /** The graduation probability before clamping: the base plus one adjustment per tier table. */
  function RawGraduation(m: Metrics): real {
    0.5 + ScoreAdjustment(m.averageScore) + PassRateAdjustment(m.passingRate)
    + TrendAdjustment(m.trendScore) + RankAdjustment(m.averageRank)
  }

  /** The national-exam bonus: the latest exam has AD at least 140 and BC at least 47. */
  predicate NationalBonus(latest: PredictionScore) {
    latest.section_ad >= 140.0 && latest.section_bc >= 47.0
  }

  function RawNational(m: Metrics): real {
    Max(0.0, RawGraduation(m) - 0.1) + (if NationalBonus(m.latest) then 0.1 else 0.0)
  }

  function PositiveRules(m: Metrics): seq<Rule> {
    [ Rule(m.averageScore >= 160.0, "総合成績が優秀"),
      Rule(m.passingRate >= 0.7, "高い合格率を維持"),
      Rule(m.trendScore > 3.0, "成績が上昇傾向"),
      Rule(m.averageRank <= 15.0, "順位が上位をキープ"),
      Rule(m.aboveAverageRate >= 0.7, "平均を上回る安定した成績") ]
  }

  function NegativeRules(m: Metrics): seq<Rule> {
    [ Rule(m.averageScore < 130.0, "総合成績の向上が必要"),
      Rule(m.passingRate < 0.5, "合格率が低い"),
      Rule(m.trendScore < -3.0, "成績が下降傾向"),
      Rule(m.averageRank > 40.0, "順位の改善が必要"),
      Rule(m.latest.section_bc < 40.0, "必修問題の強化が必要"),
      Rule(m.latest.section_ad < 120.0, "一般問題の基礎力向上が必要") ]
  }

  function RecommendationRules(m: Metrics): seq<Rule> {
    [ Rule(m.latest.section_bc < 44.0, "必修問題の徹底復習を行いましょう"),
      Rule(m.latest.section_ad < 132.0, "一般問題の演習量を増やしましょう"),
      Rule(m.trendScore < 0.0, "学習方法を見直し、苦手分野を特定しましょう"),
      Rule(m.averageRank > 30.0, "定期的な模擬試験で実力確認を行いましょう"),
      Rule(m.passingRate < 0.6, "基礎知識の定着を重点的に行いましょう") ]
  }

  /**
   * The prediction as the rule tables define it. Both probabilities lie in
   * [0, 1], confidence grows by 0.1 per exam from 0.3 up to 0.9, and there is
   * always at least one recommendation.
   */
  function Predict(scores: seq<PredictionScore>): (r: PredictionResult)
    ensures 0.0 <= r.graduationProbability <= 1.0
    ensures 0.0 <= r.nationalExamProbability <= 1.0
    ensures 0.1 <= r.confidence <= 0.9
    ensures |scores| > 0 ==> 0.4 <= r.confidence
    ensures |r.recommendations| >= 1
  {
    if scores == [] then EmptyPrediction
    else
      var m := MetricsOf(scores);
      PredictionResult(
        Clamp01(RawGraduation(m)),
        Clamp01(RawNational(m)),
        Min(0.9, 0.3 + 0.1 * |scores| as real),
        Factors(Fired(PositiveRules(m)), Fired(NegativeRules(m))),
        OrDefault(Fired(RecommendationRules(m)), DefaultRecommendation))
  }

  /** `predictStudentOutcomes`, step by step as the service computes it. */
  method PredictStudentOutcomes(scores: seq<PredictionScore>) returns (r: PredictionResult)
    ensures r == Predict(scores)
  {
    if |scores| == 0 {
      return EmptyPrediction;
    }
    var m := ComputeMetrics(scores);
    var graduationProbability := AdjustGraduation(m);
    var nationalExamProbability := Max(0.0, graduationProbability - 0.1);
    if m.latest.section_ad >= 140.0 && m.latest.section_bc >= 47.0 {
      nationalExamProbability := nationalExamProbability + 0.1;
    }
    graduationProbability := Max(0.0, Min(1.0, graduationProbability));
    nationalExamProbability := Max(0.0, Min(1.0, nationalExamProbability));
    var confidence := Min(0.9, 0.3 + |scores| as real * 0.1);
    var positive := CollectPositive(m);
    var negative := CollectNegative(m);
    var recommendations := CollectRecommendations(m);
    r := PredictionResult(graduationProbability, nationalExamProbability, confidence,
      Factors(positive, negative), recommendations);
  }

  /** Appending one score adds its value to the sum. */
  lemma {:induction false} SumSnoc(w: seq<PredictionScore>, x: PredictionScore, f: PredictionScore -> real)
    ensures Sum(w + [x], f) == Sum(w, f) + f(x)
  {
    if w != [] {
      assert (w + [x])[1..] == w[1..] + [x];
      SumSnoc(w[1..], x, f);
    }
  }

  /** Appending one score counts it when it satisfies `p`. */
  lemma {:induction false} CountWhereSnoc(w: seq<PredictionScore>, x: PredictionScore, p: PredictionScore -> bool)
    ensures CountWhere(w + [x], p) == CountWhere(w, p) + (if p(x) then 1 else 0)
  {
    if w != [] {
      assert (w + [x])[1..] == w[1..] + [x];
      CountWhereSnoc(w[1..], x, p);
    }
  }

  /**
   * The metrics over the latest three exams, computed as the service does:
   * one pass over the window accumulates the two sums and the two counts.
   */
  method ComputeMetrics(scores: seq<PredictionScore>) returns (m: Metrics)
    requires |scores| > 0
    ensures m == MetricsOf(scores)
  {
    var recentScores := Window(scores, 3);
    var latestScore := recentScores[0];
    var totalSum, rankSum := 0.0, 0.0;
    var passingTests, aboveAverage := 0, 0;
    for i := 0 to |recentScores|
      invariant totalSum == Sum(recentScores[..i], TotalOf)
      invariant rankSum == Sum(recentScores[..i], RankOf)
      invariant passingTests == CountWhere(recentScores[..i], PassesExam)
      invariant aboveAverage == CountWhere(recentScores[..i], AtOrAboveAverage)
    {
      var s := recentScores[i];
      assert recentScores[..i + 1] == recentScores[..i] + [s];
      SumSnoc(recentScores[..i], s, TotalOf);
      SumSnoc(recentScores[..i], s, RankOf);
      CountWhereSnoc(recentScores[..i], s, PassesExam);
      CountWhereSnoc(recentScores[..i], s, AtOrAboveAverage);
      totalSum := totalSum + s.total_score;
      rankSum := rankSum + s.rank;
      if Scores.Passes(s.section_ad, s.section_bc) {
        passingTests := passingTests + 1;
      }
      if s.total_score >= s.avg_total_score {
        aboveAverage := aboveAverage + 1;
      }
    }
    assert recentScores[..|recentScores|] == recentScores;
    var n := |recentScores| as real;
    var trendScore := 0.0;
    if |recentScores| >= 2 {
      var trend := recentScores[0].total_score - recentScores[|recentScores| - 1].total_score;
      trendScore := trend / (|recentScores| - 1) as real;
    }
    m := Metrics(totalSum / n, rankSum / n, trendScore, passingTests as real / n, aboveAverage as real / n, latestScore);
  }

  /** The four tier tables applied in turn to the base probability 0.5. */
  method AdjustGraduation(m: Metrics) returns (graduationProbability: real)
    ensures graduationProbability == RawGraduation(m)
  {
    graduationProbability := 0.5;
    if m.averageScore >= 180.0 { graduationProbability := graduationProbability + 0.3; }
    else if m.averageScore >= 150.0 { graduationProbability := graduationProbability + 0.2; }
    else if m.averageScore >= 120.0 { graduationProbability := graduationProbability + 0.1; }
    else { graduationProbability := graduationProbability - 0.2; }

    if m.passingRate >= 0.8 { graduationProbability := graduationProbability + 0.2; }
    else if m.passingRate >= 0.6 { graduationProbability := graduationProbability + 0.1; }
    else if m.passingRate < 0.3 { graduationProbability := graduationProbability - 0.3; }

    if m.trendScore > 5.0 { graduationProbability := graduationProbability + 0.15; }
    else if m.trendScore < -5.0 { graduationProbability := graduationProbability - 0.15; }

    if m.averageRank <= 10.0 { graduationProbability := graduationProbability + 0.15; }
    else if m.averageRank <= 20.0 { graduationProbability := graduationProbability + 0.1; }
    else if m.averageRank > 50.0 { graduationProbability := graduationProbability - 0.1; }
  }

  method CollectPositive(m: Metrics) returns (positive: seq<string>)
    ensures positive == Fired(PositiveRules(m))
  {
    positive := [];
    var t := PositiveRules(m);
    // After each `if`, the list is the rules so far pushed in order.
    ghost var pushed: seq<string> := [];
    if m.averageScore >= 160.0 { positive := positive + ["総合成績が優秀"]; }
    pushed := Push(pushed, t[0]);
    assert positive == pushed;
    if m.passingRate >= 0.7 { positive := positive + ["高い合格率を維持"]; }
    pushed := Push(pushed, t[1]);
    assert positive == pushed;
    if m.trendScore > 3.0 { positive := positive + ["成績が上昇傾向"]; }
    pushed := Push(pushed, t[2]);
    assert positive == pushed;
    if m.averageRank <= 15.0 { positive := positive + ["順位が上位をキープ"]; }
    pushed := Push(pushed, t[3]);
    assert positive == pushed;
    if m.aboveAverageRate >= 0.7 { positive := positive + ["平均を上回る安定した成績"]; }
    pushed := Push(pushed, t[4]);
    assert positive == pushed;
    FiredOfFive(t[0], t[1], t[2], t[3], t[4]);
  }

  method CollectNegative(m: Metrics) returns (negative: seq<string>)
    ensures negative == Fired(NegativeRules(m))
  {
    negative := [];
    var t := NegativeRules(m);
    // After each `if`, the list is the rules so far pushed in order.
    ghost var pushed: seq<string> := [];
    if m.averageScore < 130.0 { negative := negative + ["総合成績の向上が必要"]; }
    pushed := Push(pushed, t[0]);
    assert negative == pushed;
    if m.passingRate < 0.5 { negative := negative + ["合格率が低い"]; }
    pushed := Push(pushed, t[1]);
    assert negative == pushed;
    if m.trendScore < -3.0 { negative := negative + ["成績が下降傾向"]; }
    pushed := Push(pushed, t[2]);
    assert negative == pushed;
    if m.averageRank > 40.0 { negative := negative + ["順位の改善が必要"]; }
    pushed := Push(pushed, t[3]);
    assert negative == pushed;
    if m.latest.section_bc < 40.0 { negative := negative + ["必修問題の強化が必要"]; }
    pushed := Push(pushed, t[4]);
    assert negative == pushed;
    if m.latest.section_ad < 120.0 { negative := negative + ["一般問題の基礎力向上が必要"]; }
    pushed := Push(pushed, t[5]);
    assert negative == pushed;
    FiredOfSix(t[0], t[1], t[2], t[3], t[4], t[5]);
  }

  method CollectRecommendations(m: Metrics) returns (recommendations: seq<string>)
    ensures recommendations == OrDefault(Fired(RecommendationRules(m)), DefaultRecommendation)
  {
    recommendations := [];
    var t := RecommendationRules(m);
    // After each `if`, the list is the rules so far pushed in order.
    ghost var pushed: seq<string> := [];
    if m.latest.section_bc < 44.0 { recommendations := recommendations + ["必修問題の徹底復習を行いましょう"]; }
    pushed := Push(pushed, t[0]);
    assert recommendations == pushed;
    if m.latest.section_ad < 132.0 { recommendations := recommendations + ["一般問題の演習量を増やしましょう"]; }
    pushed := Push(pushed, t[1]);
    assert recommendations == pushed;
    if m.trendScore < 0.0 { recommendations := recommendations + ["学習方法を見直し、苦手分野を特定しましょう"]; }
    pushed := Push(pushed, t[2]);
    assert recommendations == pushed;
    if m.averageRank > 30.0 { recommendations := recommendations + ["定期的な模擬試験で実力確認を行いましょう"]; }
    pushed := Push(pushed, t[3]);
    assert recommendations == pushed;
    if m.passingRate < 0.6 { recommendations := recommendations + ["基礎知識の定着を重点的に行いましょう"]; }
    pushed := Push(pushed, t[4]);
    assert recommendations == pushed;
    FiredOfFive(t[0], t[1], t[2], t[3], t[4]);
    if |recommendations| == 0 {
      recommendations := recommendations + [DefaultRecommendation];
    }
  }

  /** Without the latest-exam bonus the national-exam estimate never exceeds the graduation estimate. */
  lemma NationalStricterWithoutBonus(scores: seq<PredictionScore>)
    requires |scores| > 0 && !NationalBonus(scores[0])
    ensures Predict(scores).nationalExamProbability <= Predict(scores).graduationProbability
  {
  }

  /**
   * With the bonus the national-exam estimate is at least the graduation
   * estimate and at most 0.1 above it.
   */
  lemma NationalWithBonus(scores: seq<PredictionScore>)
    requires |scores| > 0 && NationalBonus(scores[0])
    ensures Predict(scores).graduationProbability <= Predict(scores).nationalExamProbability
    ensures Predict(scores).nationalExamProbability <= Predict(scores).graduationProbability + 0.1
  {
  }

  /**
   * Only the latest three exams feed the probabilities, factors and
   * recommendations; the rest of the history only raises the confidence.
   */
  lemma PredictReadsOnlyWindow(a: seq<PredictionScore>, b: seq<PredictionScore>)
    requires |a| > 0 && |b| > 0 && Window(a, 3) == Window(b, 3)
    ensures Predict(a).graduationProbability == Predict(b).graduationProbability
    ensures Predict(a).nationalExamProbability == Predict(b).nationalExamProbability
    ensures Predict(a).factors == Predict(b).factors
    ensures Predict(a).recommendations == Predict(b).recommendations
  {
    assert MetricsOf(a) == MetricsOf(b);
  }

  /**
   * The trend and pass-rate scenario: totals 190, 160, 145 (most recent
   * first), of which only the first passes.
   */
  lemma TrendScenario()
    ensures var w := [PredictionScore("2024-03-01", 190.0, 140.0, 48.0, 5.0, 150.0),
                      PredictionScore("2024-02-01", 160.0, 125.0, 40.0, 20.0, 150.0),
                      PredictionScore("2024-01-01", 145.0, 110.0, 35.0, 30.0, 150.0)];
      PassingRate(w) == 1.0 / 3.0 && TrendScore(w) == 22.5
  {
    var w := [PredictionScore("2024-03-01", 190.0, 140.0, 48.0, 5.0, 150.0),
              PredictionScore("2024-02-01", 160.0, 125.0, 40.0, 20.0, 150.0),
              PredictionScore("2024-01-01", 145.0, 110.0, 35.0, 30.0, 150.0)];
    assert w[1..][1..][1..] == [];
    assert CountWhere(w, PassesExam) == 1;
  }

  /** `preprocessDataForML`: five normalised features per exam. */
  function PreprocessDataForML(scores: seq<PredictionScore>): (rows: seq<seq<real>>)
    ensures |rows| == |scores|
    ensures forall i | 0 <= i < |rows| :: |rows[i]| == 5
  {
    seq(|scores|, i requires 0 <= i < |scores| =>
      var s := scores[i];
      [s.total_score / 200.0, s.section_ad / 150.0, s.section_bc / 50.0, s.rank / 100.0,
       (s.total_score - s.avg_total_score) / 50.0])
  }

  /** The normalisation loses nothing: each exam's fields can be read back from its row. */
  lemma PreprocessIsInvertible(scores: seq<PredictionScore>, i: nat)
    requires i < |scores|
    ensures var row := PreprocessDataForML(scores)[i];
      && row[0] * 200.0 == scores[i].total_score
      && row[1] * 150.0 == scores[i].section_ad
      && row[2] * 50.0 == scores[i].section_bc
      && row[3] * 100.0 == scores[i].rank
      && row[0] * 200.0 - row[4] * 50.0 == scores[i].avg_total_score
  {
  }

  /** The three colours of the chart: at least 0.7, at least 0.5, below. */
  function ColorFor(p: real): string {
    if p >= 0.7 then "#10B981" else if p >= 0.5 then "#F59E0B" else "#EF4444"
  }

  /** How good a colour is: 2 for green, 1 for amber, 0 for red. */
  function ColorLevel(color: string): nat {
    if color == "#10B981" then 2 else if color == "#F59E0B" then 1 else 0
  }

  /** One bar of the chart; `caption` holds the source's `label`, a word Dafny reserves. */
  datatype ChartEntry = ChartEntry(caption: string, value: real, color: string)
  datatype Visualization = Visualization(chartData: seq<ChartEntry>, confidenceLevel: real)

  /** `generatePredictionVisualization`: both probabilities and the confidence as percentages. */
  function GeneratePredictionVisualization(result: PredictionResult): (v: Visualization)
    ensures |v.chartData| == 2
    ensures v.chartData[0].value / 100.0 == result.graduationProbability
    ensures v.chartData[1].value / 100.0 == result.nationalExamProbability
  {
    Visualization(
      [ ChartEntry("卒業確率", result.graduationProbability * 100.0, ColorFor(result.graduationProbability)),
        ChartEntry("国家試験合格確率", result.nationalExamProbability * 100.0, ColorFor(result.nationalExamProbability)) ],
      result.confidence * 100.0)
  }

  /** A higher probability never gets a worse colour. */
  lemma ColorMonotone(p: real, q: real)
    requires p <= q
    ensures ColorLevel(ColorFor(p)) <= ColorLevel(ColorFor(q))
  {
  }

  /** The chart of any prediction shows percentages between 0 and 100 and a confidence of 10 to 90. */
  lemma VisualizationOfPredictionInRange(scores: seq<PredictionScore>)
    ensures var v := GeneratePredictionVisualization(Predict(scores));
      && (forall k | 0 <= k < 2 :: 0.0 <= v.chartData[k].value <= 100.0)
      && 10.0 <= v.confidenceLevel <= 90.0
  {
    var r := Predict(scores);
    var v := GeneratePredictionVisualization(r);
    assert v.chartData[0].value == r.graduationProbability * 100.0;
    assert v.chartData[1].value == r.nationalExamProbability * 100.0;
  }
}
