/**
 * The deterministic part of `generateQyanAnalysis` in lib/gemini-service.ts:
 * the changes against the previous exam, the pass statuses with their
 * shortfalls, the strongest and weakest section by share of its maximum, and
 * the fallback message written when the language model cannot be reached.
 * The model's reply is an input; numbers are rendered by a `show` parameter.
 */
module GeminiService {
  import opened Wrappers
  import opened Scores
  import Sorting

  /** One entry of `scores`, newest first; every column is a number here. */
  datatype AnalysisScore = AnalysisScore(
    test_name: string,
    test_date: string,
    total_score: real,
    section_a: real,
    section_b: real,
    section_c: real,
    section_d: real,
    section_ad: real,
    section_bc: real,
    rank: real,
    avg_total_score: real)

  /** A pass status: "合格", or "不合格" with the points still missing. */
  datatype Status = Passed | Missing(points: real)

  /** A section of the exam with the score and the section's maximum. */
  datatype Section = Section(name: string, score: real, max: real)

  datatype Analysis = Analysis(
    totalChange: real,
    adChange: real,
    bcChange: real,
    adPassing: bool,
    bcPassing: bool,
    isPassing: bool,
    totalAboveAverage: real,
    rankImprovement: real,
    hasPrevious: bool,
    adStatus: Status,
    bcStatus: Status,
    strongest: string,
    weakest: string)

  /** The four sections and their maxima 60, 40, 20 and 80, in this order. */
  function SectionsOf(latest: AnalysisScore): (s: seq<Section>)
    ensures |s| == 4
    ensures forall i | 0 <= i < 4 :: s[i].max > 0.0
  {
    [ Section("A問題", latest.section_a, 60.0),
      Section("B問題", latest.section_b, 40.0),
      Section("C問題", latest.section_c, 20.0),
      Section("D問題", latest.section_d, 80.0) ]
  }

  /** The share of the section maximum, in percent. */
  function Percentage(s: Section): real {
    if s.max == 0.0 then 0.0 else s.score / s.max * 100.0
  }

  /** The sections ordered by `b.percentage - a.percentage`: highest share first, ties in list order. */
  function RankedSections(latest: AnalysisScore): (r: seq<Section>)
    ensures |r| == 4
    ensures multiset(r) == multiset(SectionsOf(latest))
    ensures Sorting.SortedBy(r, Sorting.ByKeyDesc(Percentage))
  {
    Sorting.ByKeyDescIsTotalPreorder(Percentage);
    Sorting.SortSorted(SectionsOf(latest), Sorting.ByKeyDesc(Percentage));
    Sorting.Sort(SectionsOf(latest), Sorting.ByKeyDesc(Percentage))
  }

  /** `132 - ad` points are missing when AD is below 132, and likewise `44 - bc` for BC. */
  function StatusOf(score: real, threshold: real): (s: Status)
    ensures s == Passed <==> score >= threshold
    ensures s.Missing? ==> s.points > 0.0 && score + s.points == threshold
  {
    if score >= threshold then Passed else Missing(threshold - score)
  }

  /**
   * The analysis of `scores[0]` against `scores[1]`. The function reads
   * `scores[0]`, so it needs a non-empty list; its only caller answers 400
   * to an empty one.
   */
  function Analyse(scores: seq<AnalysisScore>): (a: Analysis)
    requires |scores| > 0
    ensures a.hasPrevious <==> |scores| >= 2
    ensures a.hasPrevious ==> a.totalChange == scores[0].total_score - scores[1].total_score
    ensures a.hasPrevious ==> a.adChange == scores[0].section_ad - scores[1].section_ad
    ensures a.hasPrevious ==> a.bcChange == scores[0].section_bc - scores[1].section_bc
    ensures !a.hasPrevious ==> a.totalChange == 0.0 && a.adChange == 0.0 && a.bcChange == 0.0 && a.rankImprovement == 0.0
    ensures a.hasPrevious ==> a.rankImprovement == scores[1].rank - scores[0].rank
    ensures a.hasPrevious ==> (a.rankImprovement > 0.0 <==> scores[0].rank < scores[1].rank)
    ensures a.isPassing <==> Passes(scores[0].section_ad, scores[0].section_bc)
    ensures a.isPassing <==> a.adPassing && a.bcPassing
    ensures a.adStatus == Passed <==> a.adPassing
    ensures a.bcStatus == Passed <==> a.bcPassing
    ensures a.totalAboveAverage == scores[0].total_score - scores[0].avg_total_score
    ensures a.strongest == RankedSections(scores[0])[0].name && a.weakest == RankedSections(scores[0])[3].name
  {
    var latest := scores[0];
    var hasPrevious := |scores| >= 2;
    var previous := if hasPrevious then scores[1] else latest;
    var ranked := RankedSections(latest);
    Analysis(
      if hasPrevious then latest.total_score - previous.total_score else 0.0,
      if hasPrevious then latest.section_ad - previous.section_ad else 0.0,
      if hasPrevious then latest.section_bc - previous.section_bc else 0.0,
      latest.section_ad >= PassAd,
      latest.section_bc >= PassBc,
      latest.section_ad >= PassAd && latest.section_bc >= PassBc,
      latest.total_score - latest.avg_total_score,
      if hasPrevious then previous.rank - latest.rank else 0.0,
      hasPrevious,
      StatusOf(latest.section_ad, PassAd),
      StatusOf(latest.section_bc, PassBc),
      ranked[0].name,
      ranked[|ranked| - 1].name)
  }

  /**
   * The strongest section has the highest share of its maximum and the
   * weakest the lowest; the prompt's `sectionPercentages[3]` is the weakest
   * because there are exactly four sections.
   */
  lemma StrongestAndWeakest(scores: seq<AnalysisScore>)
    requires |scores| > 0
    ensures var ranked := RankedSections(scores[0]);
      && Analyse(scores).strongest == ranked[0].name
      && Analyse(scores).weakest == ranked[3].name
      && (forall s | s in SectionsOf(scores[0]) :: Percentage(s) <= Percentage(ranked[0]))
      && (forall s | s in SectionsOf(scores[0]) :: Percentage(ranked[3]) <= Percentage(s))
      && ranked[0] in SectionsOf(scores[0]) && ranked[3] in SectionsOf(scores[0])
  {
    var ranked := RankedSections(scores[0]);
    var sections := SectionsOf(scores[0]);
    Sorting.SortedDescEnds(ranked, Percentage);
    forall s | s in sections ensures s in ranked {
      assert s in multiset(ranked);
    }
    assert ranked[0] in multiset(sections);
    assert ranked[3] in multiset(sections);
  }

  /** With equal shares the list order decides: A is the strongest and D the weakest. */
  lemma EqualSharesKeepListOrder(scores: seq<AnalysisScore>)
    requires |scores| > 0
    requires var l := scores[0];
      l.section_a / 60.0 == l.section_b / 40.0 == l.section_c / 20.0 == l.section_d / 80.0
    ensures Analyse(scores).strongest == "A問題" && Analyse(scores).weakest == "D問題"
  {
    var l := scores[0];
    var sections := SectionsOf(l);
    var q := l.section_a / 60.0;
    PercentageOfShare(sections[0], l.section_a, 60.0, q);
    PercentageOfShare(sections[1], l.section_b, 40.0, q);
    PercentageOfShare(sections[2], l.section_c, 20.0, q);
    PercentageOfShare(sections[3], l.section_d, 80.0, q);
    var le := Sorting.ByKeyDesc(Percentage);
    forall i, j | 0 <= i < |sections| && 0 <= j < |sections| ensures le(sections[i], sections[j]) {
    }
    Sorting.SortAllEqualIsIdentity(sections, le);
    assert RankedSections(l) == sections;
  }

  /** A section whose score is the share `q` of its maximum scores `q * 100` percent. */
  lemma PercentageOfShare(s: Section, score: real, max: real, q: real)
    requires s.score == score && s.max == max && max > 0.0 && score / max == q
    ensures Percentage(s) == q * 100.0
  {
  }

  /** The pieces of the fallback message, in the order they are appended. */
  datatype Segment =
    | Greeting(name: string)
    | PassedLine(total: real, aboveAverage: bool)
    | TotalLine(total: real)
    | AdMissing(points: real)
    | BcMissing(points: real)
    | PassClosing
    | SectionAdvice(strongest: string, weakest: string)
    | RankUp(places: real)
    | Farewell

  /** The text of one piece, with `show` rendering a number as template literals do. */
  function SegmentText(seg: Segment, show: real -> string): string {
    match seg
    case Greeting(name) => name + "ちゃん、お疲れさん！\n\n"
    case PassedLine(total, above) =>
      "やったな！合格ラインクリアしとるやん。総合" + show(total) + "点は"
      + (if above then "平均超え" else "もうちょいやけど") + "やな。"
    case TotalLine(total) => "総合" + show(total) + "点、"
    case AdMissing(points) => "AD問題あと" + show(points) + "点、"
    case BcMissing(points) => "BC問題あと" + show(points) + "点"
    case PassClosing => "で合格やで！"
    case SectionAdvice(strongest, weakest) =>
      "\n\n" + strongest + "は得意やから、" + weakest + "をもうちょい頑張ったらええ感じになるで！"
    case RankUp(places) => "\n順位も" + show(places) + "位上がっとるし、調子ええやん！"
    case Farewell => "\n次も頑張ろな〜、応援しとるで！💪"
  }

  /** The message text: the pieces' texts one after the other. */
  function Render(segments: seq<Segment>, show: real -> string): string {
    if segments == [] then "" else Render(segments[..|segments| - 1], show) + SegmentText(segments[|segments| - 1], show)
  }

  /**
   * The lines about the pass: praise when both sections pass, otherwise the
   * total followed by exactly the failing sections with their missing points.
   */
  method OutcomeLines(latest: AnalysisScore, a: Analysis) returns (lines: seq<Segment>)
    requires a.adPassing <==> latest.section_ad >= PassAd
    requires a.bcPassing <==> latest.section_bc >= PassBc
    requires a.isPassing <==> a.adPassing && a.bcPassing
    ensures a.isPassing <==> PassedLine(latest.total_score, a.totalAboveAverage >= 0.0) in lines
    ensures !a.isPassing <==> TotalLine(latest.total_score) in lines && PassClosing in lines
    ensures forall p :: AdMissing(p) in lines <==> !a.adPassing && p == PassAd - latest.section_ad
    ensures forall p :: BcMissing(p) in lines <==> !a.bcPassing && p == PassBc - latest.section_bc
    ensures forall seg | seg in lines :: !seg.Greeting? && !seg.Farewell? && !seg.SectionAdvice? && !seg.RankUp?
  {
    if a.isPassing {
      lines := [PassedLine(latest.total_score, a.totalAboveAverage >= 0.0)];
    } else {
      var ad := if !a.adPassing then [AdMissing(PassAd - latest.section_ad)] else [];
      var bc := if !a.bcPassing then [BcMissing(PassBc - latest.section_bc)] else [];
      lines := [TotalLine(latest.total_score)] + ad + bc + [PassClosing];
    }
  }

  /**
   * The `catch` branch: the message built by successive `+=`. It greets the
   * student, praises a pass or lists exactly the failing sections with their
   * missing points (always positive), gives the section advice, mentions the
   * rank only when it went up, and ends with the farewell.
   */
  method FallbackMessage(name: string, latest: AnalysisScore, a: Analysis) returns (msg: seq<Segment>)
    requires a.adPassing <==> latest.section_ad >= PassAd
    requires a.bcPassing <==> latest.section_bc >= PassBc
    requires a.isPassing <==> a.adPassing && a.bcPassing
    ensures |msg| >= 4 && msg[0] == Greeting(name) && msg[|msg| - 1] == Farewell
    ensures a.isPassing <==> PassedLine(latest.total_score, a.totalAboveAverage >= 0.0) in msg
    ensures !a.isPassing <==> TotalLine(latest.total_score) in msg && PassClosing in msg
    ensures forall p :: AdMissing(p) in msg <==> !a.adPassing && p == PassAd - latest.section_ad
    ensures forall p :: BcMissing(p) in msg <==> !a.bcPassing && p == PassBc - latest.section_bc
    ensures forall p :: AdMissing(p) in msg ==> p > 0.0
    ensures forall p :: BcMissing(p) in msg ==> p > 0.0
    ensures forall p :: RankUp(p) in msg <==> a.rankImprovement > 0.0 && p == a.rankImprovement
    ensures SectionAdvice(a.strongest, a.weakest) in msg
  {
    var outcome := OutcomeLines(latest, a);
    var rank := if a.rankImprovement > 0.0 then [RankUp(a.rankImprovement)] else [];
    msg := [Greeting(name)] + outcome + [SectionAdvice(a.strongest, a.weakest)] + rank + [Farewell];
  }

  /** What the function returns: the model's reply, or the fallback message when the call throws. */
  datatype Reply = ModelText(text: string) | Fallback(segments: seq<Segment>)

  /**
   * `generateQyanAnalysis`. `modelReply` is the language model's answer to the
   * prompt, or `None` when the call throws; `text` is the returned string.
   */
  method GenerateQyanAnalysis(name: string, scores: seq<AnalysisScore>, modelReply: Option<string>, show: real -> string)
    returns (r: Reply, text: string)
    requires |scores| > 0
    ensures modelReply.Some? ==> r == ModelText(modelReply.value) && text == modelReply.value
    ensures modelReply.None? ==> r.Fallback? && text == Render(r.segments, show)
    ensures modelReply.None? ==> r.Fallback? && |r.segments| > 0 && r.segments[0] == Greeting(name)
    ensures modelReply.None? ==>
      var passed := PassedLine(scores[0].total_score, scores[0].total_score >= scores[0].avg_total_score);
      (passed in r.segments <==> Passes(scores[0].section_ad, scores[0].section_bc))
    ensures modelReply.None? ==>
      forall p :: RankUp(p) in r.segments <==> |scores| >= 2 && scores[0].rank < scores[1].rank && p == scores[1].rank - scores[0].rank
  {
    var a := Analyse(scores);
    if modelReply.Some? {
      return ModelText(modelReply.value), modelReply.value;
    }
    var msg := FallbackMessage(name, scores[0], a);
    r := Fallback(msg);
    text := Render(msg, show);
  }
}
