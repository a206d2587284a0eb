/**
 * `extractFeatures` of lib/tensorflow-ml-service.ts: a fixed 15-element
 * feature vector over the latest five exams (most recent first). `Math.sqrt`
 * is a parameter: only its use, not its value, is modelled.
 */
module TfFeatures {
  import opened MlPrediction

  const FeatureCount := 15

  /** Sum of squared deviations of the totals from `mean`. */
  function SquaredDeviations(w: seq<PredictionScore>, mean: real): (d: real)
    ensures d >= 0.0
  {
    if w == [] then 0.0
    else
      var x := w[0].total_score - mean;
      assert x * x >= 0.0 by {
        if x < 0.0 {
          assert x * x == (-x) * (-x);
        }
      }
      x * x + SquaredDeviations(w[1..], mean)
  }

  /** `Math.max(0, 1 - rank / 100)`: a rank turned into "higher is better". */
  function InvertedRank(rank: real): (f: real)
    ensures f >= 0.0
    ensures rank >= 0.0 ==> f <= 1.0
  {
    Max(0.0, 1.0 - rank / 100.0)
  }

  /** Higher is better: a larger rank never gets a larger inverted rank. */
  lemma InvertedRankFalls(a: real, b: real)
    requires a <= b
    ensures InvertedRank(b) <= InvertedRank(a)
  {
  }

  function ExtractFeatures(scores: seq<PredictionScore>, sqrt: real -> real): (f: seq<real>)
    ensures |f| == FeatureCount
    ensures scores == [] ==> forall i | 0 <= i < FeatureCount :: f[i] == 0.0
    ensures scores != [] ==>
      && f[3] >= 0.0 && f[11] >= 0.0
      && f[5] <= 1.0
      && 0.0 <= f[6] <= 1.0 && 0.0 <= f[7] <= 1.0
      && 0.0 < f[13] <= 0.5
      && 0.0 < f[14] <= 1.0
    ensures scores != [] && scores[0].rank >= 0.0 ==> f[11] <= 1.0
  {
    if scores == [] then seq(FeatureCount, _ => 0.0)
    else
      var recent := Window(scores, 5);
      var latest := recent[0];
      var avgTotal := Mean(recent, TotalOf);
      var avgAD := Mean(recent, AdOf);
      var avgBC := Mean(recent, BcOf);
      var avgRank := Mean(recent, RankOf);
      var progression := TrendScore(recent);
      var totalStd := sqrt(SquaredDeviations(recent, avgTotal) / |recent| as real);
      [ avgTotal / 200.0,
        avgAD / 150.0,
        avgBC / 50.0,
        InvertedRank(avgRank),
        progression / 50.0,
        Min(1.0, totalStd / 50.0),
        PassingRate(recent),
        AboveAverageRate(recent),
        latest.total_score / 200.0,
        latest.section_ad / 150.0,
        latest.section_bc / 50.0,
        InvertedRank(latest.rank),
        (latest.total_score - latest.avg_total_score) / 100.0,
        |recent| as real / 10.0,
        Min(1.0, |scores| as real / 20.0) ]
  }

  function AdOf(s: PredictionScore): real { s.section_ad }
  function BcOf(s: PredictionScore): real { s.section_bc }

  /**
   * Index 4 is the per-exam progression from the oldest to the newest exam of
   * the five-exam window, divided by 50; 0 when there is one exam. Index 8 to
   * 12 describe `scores[0]` alone.
   */
  lemma ProgressionAndLatest(scores: seq<PredictionScore>, sqrt: real -> real)
    requires |scores| > 0
    ensures var f := ExtractFeatures(scores, sqrt);
      var n := if |scores| < 5 then |scores| else 5;
      && (n >= 2 ==> f[4] == (scores[0].total_score - scores[n - 1].total_score) / (n - 1) as real / 50.0)
      && (n == 1 ==> f[4] == 0.0)
      && f[8] * 200.0 == scores[0].total_score
      && f[9] * 150.0 == scores[0].section_ad
      && f[10] * 50.0 == scores[0].section_bc
  {
  }

  /**
   * Only the five-exam window feeds the vector, except the last entry, which
   * counts the whole history.
   */
  lemma FeaturesReadOnlyWindow(a: seq<PredictionScore>, b: seq<PredictionScore>, sqrt: real -> real)
    requires |a| > 0 && |b| > 0 && Window(a, 5) == Window(b, 5)
    ensures ExtractFeatures(a, sqrt)[..14] == ExtractFeatures(b, sqrt)[..14]
  {
  }

  /**
   * With at most three exams the window of the feature vector and that of
   * the rule-based predictor coincide, so their pass rates agree.
   */
  lemma PassRateAgreesWithPredictor(scores: seq<PredictionScore>, sqrt: real -> real)
    requires 0 < |scores| <= 3
    ensures ExtractFeatures(scores, sqrt)[6] == MetricsOf(scores).passingRate
    ensures ExtractFeatures(scores, sqrt)[7] == MetricsOf(scores).aboveAverageRate
  {
    assert Window(scores, 5) == Window(scores, 3) == scores;
  }
  /**
   * The confidence `predict` reports: the mean of the data quality
   * `min(1, n / 10)` and the share of features that are numbers, which is 1
   * here since no feature of this model is NaN.
   */
  function PredictConfidence(scores: seq<PredictionScore>): (c: real)
    ensures 0.5 <= c <= 1.0
    ensures c == 1.0 <==> |scores| >= 10
  {
    var dataQuality := Min(1.0, |scores| as real / 10.0);
    var featureQuality := 1.0;
    (dataQuality + featureQuality) / 2.0
  }

  /** A longer history never lowers the confidence. */
  lemma ConfidenceGrowsWithData(a: seq<PredictionScore>, b: seq<PredictionScore>)
    requires |a| <= |b|
    ensures PredictConfidence(a) <= PredictConfidence(b)
  {
  }
}
