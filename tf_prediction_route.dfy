/**
 * The `POST` handler of app/api/tensorflow-prediction/route.ts and its
 * module-level model cache. The network's output is an input here: the
 * handler is modelled from the prediction it receives onwards, and model
 * creation and training are opaque steps that either succeed or throw.
 */
module TfPredictionRoute {
  import opened Wrappers
  import opened Rules
  import MlPrediction
  import TfFeatures

  type PredictionScore = MlPrediction.PredictionScore
  type Factors = MlPrediction.Factors

  /** What `predict(model, scores)` returns. */
  datatype MlResult = MlResult(graduationProb: real, nationalExamProb: real, confidence: real)

  /** A created network, identified by its creation number. */
  type ModelId = nat

  datatype MlDetails = MlDetails(featureVector: seq<real>, modelAccuracy: real, trainingDataSize: nat)

  datatype Response = Response(
    status: nat,
    success: bool,
    graduationProbability: real,
    nationalExamProbability: real,
    confidence: real,
    modelType: string,
    factors: Factors,
    recommendations: seq<string>,
    mlDetails: Option<MlDetails>)

  const TrainingDataSize := 2000
  const DefaultRecommendation := "現在の学習ペースを維持し、更なる向上を目指しましょう"

  /** The answer to a request without scores; the model is not touched. */
  const NoDataResponse := Response(200, false, 0.5, 0.5, 0.1, "fallback",
    MlPrediction.Factors([], ["データ不足"]), ["まずは模擬試験を受けてデータを蓄積しましょう"], None)

  /** The answer when anything in the handler throws. */
  const ErrorResponse := Response(500, false, 0.5, 0.5, 0.3, "fallback",
    MlPrediction.Factors([], ["AI分析エラー - ルールベース分析を使用"]),
    ["システムエラーのため、担当教員にご相談ください"], None)

  /** The two quantities the handler computes itself over the latest three exams. */
  datatype RouteMetrics = RouteMetrics(avgScore: real, passingRate: real, latest: PredictionScore)

  function RouteMetricsOf(scores: seq<PredictionScore>): (m: RouteMetrics)
    requires |scores| > 0
    ensures m.latest == scores[0]
    ensures 0.0 <= m.passingRate <= 1.0
  {
    var recent := MlPrediction.Window(scores, 3);
    RouteMetrics(MlPrediction.Mean(recent, MlPrediction.TotalOf), MlPrediction.PassingRate(recent), recent[0])
  }

  function PositiveRules(ml: MlResult, m: RouteMetrics, features: seq<real>): seq<Rule>
    requires |features| == TfFeatures.FeatureCount
  {
    [ Rule(ml.graduationProb > 0.7, "AI分析: 高い卒業可能性"),
      Rule(ml.nationalExamProb > 0.7, "AI分析: 高い国家試験合格可能性"),
      Rule(m.avgScore >= 160.0, "継続的な高得点"),
      Rule(m.passingRate >= 0.8, "安定した合格ライン突破"),
      Rule(features[4] > 0.1, "成績上昇傾向"),
      Rule(features[6] > 0.7, "高い合格率維持") ]
  }

  function NegativeRules(ml: MlResult, m: RouteMetrics, features: seq<real>): seq<Rule>
    requires |features| == TfFeatures.FeatureCount
  {
    [ Rule(ml.graduationProb < 0.4, "AI分析: 卒業リスクあり"),
      Rule(ml.nationalExamProb < 0.4, "AI分析: 国家試験対策要強化"),
      Rule(m.avgScore < 130.0, "基礎学力の向上が必要"),
      Rule(features[4] < -0.1, "成績下降傾向"),
      Rule(m.latest.section_bc < 40.0, "必修問題の基礎固めが必要") ]
  }

  function RecommendationRules(ml: MlResult, m: RouteMetrics, features: seq<real>): seq<Rule>
    requires |features| == TfFeatures.FeatureCount
  {
    [ Rule(ml.graduationProb < 0.6, "総合的な学習計画の見直しをお勧めします"),
      Rule(ml.nationalExamProb < 0.6, "国家試験対策の強化が必要です"),
      Rule(features[5] > 0.5, "学習ペースを一定に保つよう心がけましょう"),
      Rule(m.latest.section_ad < 120.0, "一般問題の基礎知識を強化しましょう"),
      Rule(m.latest.section_bc < 42.0, "必修問題の重点的な復習を行いましょう") ]
  }

  /**
   * The success answer for non-empty scores and the model's prediction: the
   * model's numbers are passed through unchanged, and the factor and
   * recommendation lists are the rules of the tables that hold, in order.
   */
  function Analysis(scores: seq<PredictionScore>, ml: MlResult, trained: bool, sqrt: real -> real): (r: Response)
    requires |scores| > 0
    ensures r.status == 200 && r.success && r.modelType == "tensorflow"
    ensures r.graduationProbability == ml.graduationProb
    ensures r.nationalExamProbability == ml.nationalExamProb
    ensures r.confidence == ml.confidence
    ensures |r.recommendations| >= 1
    ensures r.mlDetails.Some? && r.mlDetails.value.featureVector == TfFeatures.ExtractFeatures(scores, sqrt)
  {
    var m := RouteMetricsOf(scores);
    var features := TfFeatures.ExtractFeatures(scores, sqrt);
    Response(200, true, ml.graduationProb, ml.nationalExamProb, ml.confidence, "tensorflow",
      MlPrediction.Factors(Fired(PositiveRules(ml, m, features)), Fired(NegativeRules(ml, m, features))),
      OrDefault(Fired(RecommendationRules(ml, m, features)), DefaultRecommendation),
      Some(MlDetails(features, if trained then 0.85 else 0.5, TrainingDataSize)))
  }

  /** The parsed request body: malformed JSON, or a body whose `scores` may be missing. */
  datatype Request = Malformed | Body(scores: Option<seq<PredictionScore>>)

  /**
   * The route's module state: `globalModel` and `modelTrained`. `created`
   * counts the networks built so far and `disposed` lists those released.
   */
  class PredictionRoute {
    var globalModel: Option<ModelId>
    var modelTrained: bool
    var created: nat
    var disposed: seq<ModelId>

    constructor ()
      ensures globalModel == None && !modelTrained && created == 0 && disposed == []
    {
      globalModel := None;
      modelTrained := false;
      created := 0;
      disposed := [];
    }

    /**
     * `initializeModel`: the cached network once one is trained; otherwise
     * the old one (if any) is disposed and a new one is created and trained.
     * `None` is a training that throws, which leaves no model behind.
     */
    method InitializeModel(trainingSucceeds: bool) returns (model: Option<ModelId>)
      modifies this
      ensures old(globalModel.Some? && modelTrained) ==>
        model == old(globalModel) && globalModel == old(globalModel) && modelTrained
        && created == old(created) && disposed == old(disposed)
      ensures !old(globalModel.Some? && modelTrained) ==>
        && created == old(created) + 1
        && disposed == old(disposed) + (if old(globalModel).Some? then [old(globalModel).value] else [])
        && (trainingSucceeds ==> model == Some(old(created)) && globalModel == model && modelTrained)
        && (!trainingSucceeds ==> model == None && globalModel == None && modelTrained == old(modelTrained))
    {
      if globalModel.Some? && modelTrained {
        return globalModel;
      }
      if globalModel.Some? {
        disposed := disposed + [globalModel.value];
        globalModel := None;
      }
      var newModel := created;
      created := created + 1;
      if !trainingSucceeds {
        return None;
      }
      globalModel := Some(newModel);
      modelTrained := true;
      model := Some(newModel);
    }

    /**
     * `POST`. `trainingSucceeds` is the outcome of training should one be
     * needed; `prediction` is what the network returns for the scores, or
     * `None` when it throws.
     */
    method Post(request: Request, trainingSucceeds: bool, prediction: Option<MlResult>, sqrt: real -> real)
      returns (r: Response)
      modifies this
      ensures request.Malformed? ==> r == ErrorResponse && unchanged(this)
      ensures request.Body? && (request.scores.None? || request.scores.value == []) ==>
        r == NoDataResponse && unchanged(this)
      ensures request.Body? && request.scores.Some? && request.scores.value != [] ==>
        if old(globalModel.Some? && modelTrained) || trainingSucceeds then
          && globalModel.Some? && modelTrained
          && (prediction.Some? ==> r == Analysis(request.scores.value, prediction.value, true, sqrt))
          && (prediction.None? ==> r == ErrorResponse)
        else r == ErrorResponse
      ensures request.Body? && request.scores.Some? && request.scores.value != [] ==>
        if old(globalModel.Some? && modelTrained) then
          globalModel == old(globalModel) && modelTrained && created == old(created) && disposed == old(disposed)
        else
          && created == old(created) + 1
          && disposed == old(disposed) + (if old(globalModel).Some? then [old(globalModel).value] else [])
          && (trainingSucceeds ==> globalModel == Some(old(created)) && modelTrained)
          && (!trainingSucceeds ==> globalModel == None && modelTrained == old(modelTrained))
    {
      if request.Malformed? {
        return ErrorResponse;
      }
      if request.scores.None? || |request.scores.value| == 0 {
        return NoDataResponse;
      }
      var scores := request.scores.value;
      var model := InitializeModel(trainingSucceeds);
      if model.None? || prediction.None? {
        return ErrorResponse;
      }
      var mlResult := prediction.value;
      r := ApplyRules(scores, mlResult, modelTrained, sqrt);
    }
  }

  /** The handler's analysis step, pushing one message per rule that holds. */
  method ApplyRules(scores: seq<PredictionScore>, mlResult: MlResult, trained: bool, sqrt: real -> real)
    returns (r: Response)
    requires |scores| > 0
    ensures r == Analysis(scores, mlResult, trained, sqrt)
  {
    var recentScores := MlPrediction.Window(scores, 3);
    var latestScore := recentScores[0];
    var features := TfFeatures.ExtractFeatures(scores, sqrt);
    var avgScore := MlPrediction.Mean(recentScores, MlPrediction.TotalOf);
    var passingRate := MlPrediction.PassingRate(recentScores);
    var m := RouteMetrics(avgScore, passingRate, latestScore);
    var positive := CollectPositive(mlResult, m, features);
    var negative := CollectNegative(mlResult, m, features);
    var recommendations := CollectRecommendations(mlResult, m, features);
    r := Response(200, true, mlResult.graduationProb, mlResult.nationalExamProb, mlResult.confidence, "tensorflow",
      MlPrediction.Factors(positive, negative), recommendations,
      Some(MlDetails(features, if trained then 0.85 else 0.5, TrainingDataSize)));
  }

  method CollectPositive(mlResult: MlResult, m: RouteMetrics, features: seq<real>) returns (positive: seq<string>)
    requires |features| == TfFeatures.FeatureCount
    ensures positive == Fired(PositiveRules(mlResult, m, features))
  {
    positive := [];
    var t := PositiveRules(mlResult, m, features);
    // After each `if`, the list is the rules so far pushed in order.
    ghost var pushed: seq<string> := [];
    if mlResult.graduationProb > 0.7 { positive := positive + ["AI分析: 高い卒業可能性"]; }
    pushed := Push(pushed, t[0]);
    assert positive == pushed;
    if mlResult.nationalExamProb > 0.7 { positive := positive + ["AI分析: 高い国家試験合格可能性"]; }
    pushed := Push(pushed, t[1]);
    assert positive == pushed;
    if m.avgScore >= 160.0 { positive := positive + ["継続的な高得点"]; }
    pushed := Push(pushed, t[2]);
    assert positive == pushed;
    if m.passingRate >= 0.8 { positive := positive + ["安定した合格ライン突破"]; }
    pushed := Push(pushed, t[3]);
    assert positive == pushed;
    if features[4] > 0.1 { positive := positive + ["成績上昇傾向"]; }
    pushed := Push(pushed, t[4]);
    assert positive == pushed;
    if features[6] > 0.7 { positive := positive + ["高い合格率維持"]; }
    pushed := Push(pushed, t[5]);
    assert positive == pushed;
    FiredOfSix(t[0], t[1], t[2], t[3], t[4], t[5]);
  }

  method CollectNegative(mlResult: MlResult, m: RouteMetrics, features: seq<real>) returns (negative: seq<string>)
    requires |features| == TfFeatures.FeatureCount
    ensures negative == Fired(NegativeRules(mlResult, m, features))
  {
    negative := [];
    var t := NegativeRules(mlResult, m, features);
    // After each `if`, the list is the rules so far pushed in order.
    ghost var pushed: seq<string> := [];
    if mlResult.graduationProb < 0.4 { negative := negative + ["AI分析: 卒業リスクあり"]; }
    pushed := Push(pushed, t[0]);
    assert negative == pushed;
    if mlResult.nationalExamProb < 0.4 { negative := negative + ["AI分析: 国家試験対策要強化"]; }
    pushed := Push(pushed, t[1]);
    assert negative == pushed;
    if m.avgScore < 130.0 { negative := negative + ["基礎学力の向上が必要"]; }
    pushed := Push(pushed, t[2]);
    assert negative == pushed;
    if features[4] < -0.1 { negative := negative + ["成績下降傾向"]; }
    pushed := Push(pushed, t[3]);
    assert negative == pushed;
    if m.latest.section_bc < 40.0 { negative := negative + ["必修問題の基礎固めが必要"]; }
    pushed := Push(pushed, t[4]);
    assert negative == pushed;
    FiredOfFive(t[0], t[1], t[2], t[3], t[4]);
  }

  method CollectRecommendations(mlResult: MlResult, m: RouteMetrics, features: seq<real>)
    returns (recommendations: seq<string>)
    requires |features| == TfFeatures.FeatureCount
    ensures recommendations == OrDefault(Fired(RecommendationRules(mlResult, m, features)), DefaultRecommendation)
  {
    recommendations := [];
    var t := RecommendationRules(mlResult, m, features);
    // After each `if`, the list is the rules so far pushed in order.
    ghost var pushed: seq<string> := [];
    if mlResult.graduationProb < 0.6 { recommendations := recommendations + ["総合的な学習計画の見直しをお勧めします"]; }
    pushed := Push(pushed, t[0]);
    assert recommendations == pushed;
    if mlResult.nationalExamProb < 0.6 { recommendations := recommendations + ["国家試験対策の強化が必要です"]; }
    pushed := Push(pushed, t[1]);
    assert recommendations == pushed;
    if features[5] > 0.5 { recommendations := recommendations + ["学習ペースを一定に保つよう心がけましょう"]; }
    pushed := Push(pushed, t[2]);
    assert recommendations == pushed;
    if m.latest.section_ad < 120.0 { recommendations := recommendations + ["一般問題の基礎知識を強化しましょう"]; }
    pushed := Push(pushed, t[3]);
    assert recommendations == pushed;
    if m.latest.section_bc < 42.0 { recommendations := recommendations + ["必修問題の重点的な復習を行いましょう"]; }
    pushed := Push(pushed, t[4]);
    assert recommendations == pushed;
    FiredOfFive(t[0], t[1], t[2], t[3], t[4]);
    if |recommendations| == 0 {
      recommendations := recommendations + [DefaultRecommendation];
    }
  }

  /**
   * A positive factor is listed exactly when its threshold holds; e.g. the
   * graduation message appears iff the model's graduation estimate exceeds 0.7.
   */
  lemma GraduationFactorIff(scores: seq<PredictionScore>, ml: MlResult, trained: bool, sqrt: real -> real)
    requires |scores| > 0
    ensures "AI分析: 高い卒業可能性" in Analysis(scores, ml, trained, sqrt).factors.positive <==> ml.graduationProb > 0.7
    ensures "AI分析: 卒業リスクあり" in Analysis(scores, ml, trained, sqrt).factors.negative <==> ml.graduationProb < 0.4
  {
    AnalysisLists(scores, ml, trained, sqrt);
    var m := RouteMetricsOf(scores);
    var features := TfFeatures.ExtractFeatures(scores, sqrt);
    Rules.FiredFirstOnly(PositiveRules(ml, m, features), "AI分析: 高い卒業可能性");
    Rules.FiredFirstOnly(NegativeRules(ml, m, features), "AI分析: 卒業リスクあり");
  }

  /** The three lists of the success answer are the fired rule tables. */
  lemma AnalysisLists(scores: seq<PredictionScore>, ml: MlResult, trained: bool, sqrt: real -> real)
    requires |scores| > 0
    ensures var m := RouteMetricsOf(scores);
      var features := TfFeatures.ExtractFeatures(scores, sqrt);
      var a := Analysis(scores, ml, trained, sqrt);
      && a.factors.positive == Fired(PositiveRules(ml, m, features))
      && a.factors.negative == Fired(NegativeRules(ml, m, features))
      && a.recommendations == OrDefault(Fired(RecommendationRules(ml, m, features)), DefaultRecommendation)
  {
  }

  /** The default recommendation is given exactly when no recommendation rule holds. */
  lemma DefaultRecommendationIff(scores: seq<PredictionScore>, ml: MlResult, trained: bool, sqrt: real -> real)
    requires |scores| > 0
    ensures var f := TfFeatures.ExtractFeatures(scores, sqrt);
      Analysis(scores, ml, trained, sqrt).recommendations == [DefaultRecommendation] <==>
        (ml.graduationProb >= 0.6 && ml.nationalExamProb >= 0.6 && f[5] <= 0.5
         && scores[0].section_ad >= 120.0 && scores[0].section_bc >= 42.0)
  {
    AnalysisLists(scores, ml, trained, sqrt);
    var m := RouteMetricsOf(scores);
    var features := TfFeatures.ExtractFeatures(scores, sqrt);
    var c := RecommendationRules(ml, m, features);
    if c[0].holds || c[1].holds || c[2].holds || c[3].holds || c[4].holds {
      var k := if c[0].holds then 0 else if c[1].holds then 1 else if c[2].holds then 2
        else if c[3].holds then 3 else 4;
      FiredIff(c, c[k].message);
    } else {
      FiredNoneHolds(c);
    }
  }
}
