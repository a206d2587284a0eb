/**
 * The per-student analytics of components/student-dashboard.tsx: the trend
 * between the last two exams, the pass rule and its shortfalls, the
 * achievement counters with the consecutive-pass counter, the study level,
 * and the comparator of the detail table's sort menu.
 */
module StudentDashboard {
  import opened Scores
  import opened RankingUtils
  import Sorting

  datatype Trend = Up | Down | Neutral

  /** The trend of a point difference: more than 5 up, less than -5 down, else neutral. */
  function ClassifyDifference(difference: real): (t: Trend)
    ensures t == Up <==> difference > 5.0
    ensures t == Down <==> difference < -5.0
  {
    if difference > 5.0 then Up else if difference < -5.0 then Down else Neutral
  }

  function DateOf(s: ScoreWithStats): string { s.score.test_date }

  /** Oldest first, as `new Date(a.test_date) - new Date(b.test_date)` orders them. */
  function ByDateAscending(): (ScoreWithStats, ScoreWithStats) -> bool {
    Sorting.ByTextAsc(DateOf)
  }

  /**
   * `getTrend`: with fewer than two exams neutral; otherwise the newest exam's
   * total (missing as 0) minus the one before it, in date order, among the
   * latest three.
   */
  function GetTrend(scores: seq<ScoreWithStats>): (t: Trend)
    ensures |scores| < 2 ==> t == Neutral
  {
    if |scores| < 2 then Neutral
    else
      var sortedScores := Sorting.Sort(scores, ByDateAscending());
      var recentScores := sortedScores[if |sortedScores| >= 3 then |sortedScores| - 3 else 0 ..];
      var latestScore := OrZero(recentScores[|recentScores| - 1].score.total_score);
      var previousScore := OrZero(recentScores[|recentScores| - 2].score.total_score);
      ClassifyDifference(latestScore - previousScore)
  }

  /**
   * With fewer than two exams the trend is neutral; otherwise only the last
   * two exams in date order matter: the three-exam slice does not change
   * which two are compared.
   */
  lemma TrendOfLastTwo(scores: seq<ScoreWithStats>)
    ensures |scores| < 2 ==> GetTrend(scores) == Neutral
    ensures |scores| >= 2 ==> var sorted := Sorting.Sort(scores, ByDateAscending());
      GetTrend(scores) == ClassifyDifference(
        OrZero(sorted[|sorted| - 1].score.total_score) - OrZero(sorted[|sorted| - 2].score.total_score))
  {
    if |scores| >= 2 {
      LastTwoOfRecent(Sorting.Sort(scores, ByDateAscending()));
    }
  }

  /** The latest three of a list end with the same two elements as the whole list. */
  lemma LastTwoOfRecent(sorted: seq<ScoreWithStats>)
    requires |sorted| >= 2
    ensures var recent := sorted[if |sorted| >= 3 then |sorted| - 3 else 0 ..];
      && |recent| >= 2
      && recent[|recent| - 1] == sorted[|sorted| - 1]
      && recent[|recent| - 2] == sorted[|sorted| - 2]
  {
  }

  /** A difference of exactly ±5 points is still neutral. */
  lemma TrendBoundary()
    ensures ClassifyDifference(5.0) == Neutral && ClassifyDifference(-5.0) == Neutral
    ensures ClassifyDifference(5.5) == Up && ClassifyDifference(-5.5) == Down
  {
  }

  /** `isPassingScore`: the pass rule with missing sections read as 0. */
  predicate IsPassingScore(s: ScoreWithStats) {
    Passes(OrZero(s.score.section_ad), OrZero(s.score.section_bc))
  }

  datatype PassStatus = Pass | Fail(adShortfall: real, bcShortfall: real)

  function Max0(x: real): real { if x > 0.0 then x else 0.0 }

  /** `passStatus` of the latest exam: the points still missing in AD and in BC, never negative. */
  function PassStatusOf(latest: ScoreWithStats): (p: PassStatus)
    ensures p.Pass? <==> IsPassingScore(latest)
    ensures p.Fail? ==> p.adShortfall >= 0.0 && p.bcShortfall >= 0.0
    ensures p.Fail? ==> p.adShortfall > 0.0 || p.bcShortfall > 0.0
    ensures p.Fail? ==> OrZero(latest.score.section_ad) + p.adShortfall >= PassAd
    ensures p.Fail? ==> OrZero(latest.score.section_bc) + p.bcShortfall >= PassBc
  {
    if IsPassingScore(latest) then Pass
    else Fail(Max0(PassAd - OrZero(latest.score.section_ad)), Max0(PassBc - OrZero(latest.score.section_bc)))
  }

  /** How many scores satisfy `p`. */
  function CountWhere(s: seq<ScoreWithStats>, p: ScoreWithStats -> bool): (n: nat)
    ensures n <= |s|
  {
    if s == [] then 0 else (if p(s[0]) then 1 else 0) + CountWhere(s[1..], p)
  }

  predicate InTopTen(s: ScoreWithStats) {
    s.rank <= 10.0
  }

  /**
   * A "master" exam: every one of the six section scores is strictly above
   * that section's average (`null > x` compares as `0 > x`).
   */
  predicate IsMaster(s: ScoreWithStats) {
    && OrZero(s.score.section_a) > s.averages.avg_section_a
    && OrZero(s.score.section_b) > s.averages.avg_section_b
    && OrZero(s.score.section_c) > s.averages.avg_section_c
    && OrZero(s.score.section_d) > s.averages.avg_section_d
    && OrZero(s.score.section_ad) > s.averages.avg_section_ad
    && OrZero(s.score.section_bc) > s.averages.avg_section_bc
  }

  /** Length of the run of passes ending at position i (0 when exam i fails). */
  function RunEndingAt(passes: seq<bool>, i: nat): (n: nat)
    requires i < |passes|
    ensures n <= i + 1
  {
    if !passes[i] then 0 else if i == 0 then 1 else 1 + RunEndingAt(passes, i - 1)
  }

  /** The run ending at i has length at least k exactly when exams i-k+1 .. i all pass. */
  lemma {:induction false} RunEndingAtMeans(passes: seq<bool>, i: nat, k: nat)
    requires i < |passes|
    ensures RunEndingAt(passes, i) >= k <==> k <= i + 1 && forall j | i - k < j <= i :: passes[j]
  {
    if k > 0 && passes[i] && i > 0 {
      RunEndingAtMeans(passes, i - 1, k - 1);
    }
  }

  function PassFlags(s: seq<ScoreWithStats>): (f: seq<bool>)
    ensures |f| == |s| && forall i | 0 <= i < |s| :: f[i] == IsPassingScore(s[i])
  {
    seq(|s|, i requires 0 <= i < |s| => IsPassingScore(s[i]))
  }

  datatype AchievementCounts = AchievementCounts(
    passingCount: nat,
    top10Count: nat,
    consecutivePassingCount: nat,
    masterCount: nat)

  /**
   * `calculateAchievementCounts`. The consecutive counter walks the exams in
   * date order; it is the largest number of completed triples of passes in
   * any run, and it is positive exactly when some run reaches three passes.
   */
  method CalculateAchievementCounts(scores: seq<ScoreWithStats>) returns (c: AchievementCounts)
    ensures c.passingCount == CountWhere(scores, IsPassingScore) <= |scores|
    ensures c.top10Count == CountWhere(scores, InTopTen) <= |scores|
    ensures c.masterCount == CountWhere(scores, IsMaster) <= |scores|
    ensures var passes := PassFlags(Sorting.Sort(scores, ByDateAscending()));
      && (forall i | 0 <= i < |passes| :: RunEndingAt(passes, i) / 3 <= c.consecutivePassingCount)
      && (c.consecutivePassingCount == 0 || exists i | 0 <= i < |passes| :: RunEndingAt(passes, i) / 3 == c.consecutivePassingCount)
      && (c.consecutivePassingCount > 0 <==> exists i | 0 <= i < |passes| :: RunEndingAt(passes, i) >= 3)
  {
    var passingCount := CountWhere(scores, IsPassingScore);
    var top10Count := CountWhere(scores, InTopTen);
    var sortedByDate := Sorting.Sort(scores, ByDateAscending());
    var maxConsecutivePassing := ConsecutivePassing(sortedByDate);
    var masterCount := CountWhere(scores, IsMaster);
    c := AchievementCounts(passingCount, top10Count, maxConsecutivePassing, masterCount);
  }

  /** The `forEach` over the exams in date order that tracks the current and the best run. */
  method ConsecutivePassing(sortedByDate: seq<ScoreWithStats>) returns (maxConsecutivePassing: nat)
    ensures var passes := PassFlags(sortedByDate);
      && (forall i | 0 <= i < |passes| :: RunEndingAt(passes, i) / 3 <= maxConsecutivePassing)
      && (maxConsecutivePassing == 0 || exists i | 0 <= i < |passes| :: RunEndingAt(passes, i) / 3 == maxConsecutivePassing)
      && (maxConsecutivePassing > 0 <==> exists i | 0 <= i < |passes| :: RunEndingAt(passes, i) >= 3)
  {
    ghost var passes := PassFlags(sortedByDate);
    maxConsecutivePassing := 0;
    var currentConsecutive := 0;
    var k := 0;
    while k < |sortedByDate|
      invariant 0 <= k <= |sortedByDate|
      invariant currentConsecutive == if k == 0 then 0 else RunEndingAt(passes, k - 1)
      invariant forall i | 0 <= i < k :: RunEndingAt(passes, i) / 3 <= maxConsecutivePassing
      invariant maxConsecutivePassing == 0 || exists i | 0 <= i < k :: RunEndingAt(passes, i) / 3 == maxConsecutivePassing
    {
      if IsPassingScore(sortedByDate[k]) {
        currentConsecutive := currentConsecutive + 1;
        if currentConsecutive / 3 > maxConsecutivePassing {
          maxConsecutivePassing := currentConsecutive / 3;
        }
      } else {
        currentConsecutive := 0;
      }
      assert currentConsecutive == RunEndingAt(passes, k);
      k := k + 1;
    }
    if exists i | 0 <= i < |passes| :: RunEndingAt(passes, i) >= 3 {
      var i :| 0 <= i < |passes| && RunEndingAt(passes, i) >= 3;
      assert RunEndingAt(passes, i) / 3 >= 1;
    }
  }

  /** `studyLevel`: the number of achievements, but at least 1. */
  function StudyLevel(c: AchievementCounts): (level: nat)
    ensures level >= 1
    ensures level >= c.passingCount + c.top10Count + c.consecutivePassingCount + c.masterCount
    ensures c.passingCount + c.top10Count + c.consecutivePassingCount + c.masterCount > 0 ==>
      level == c.passingCount + c.top10Count + c.consecutivePassingCount + c.masterCount
  {
    var total := c.passingCount + c.top10Count + c.consecutivePassingCount + c.masterCount;
    if total > 1 then total else 1
  }

  /** The choices of the detail table's sort menu; any other value keeps the order. */
  datatype SortChoice = TestDate | SectionAd | SectionBc | TotalScore | Other

  function AdOf(s: ScoreWithStats): real { OrZero(s.score.section_ad) }
  function BcOf(s: ScoreWithStats): real { OrZero(s.score.section_bc) }
  function TotalOf(s: ScoreWithStats): real { OrZero(s.score.total_score) }

  /** The comparator of the sort menu, as "may stay in front". */
  function DetailOrder(choice: SortChoice): (ScoreWithStats, ScoreWithStats) -> bool {
    match choice
    case TestDate => Sorting.ByTextDesc(DateOf)
    case SectionAd => Sorting.ByKeyDesc(AdOf)
    case SectionBc => Sorting.ByKeyDesc(BcOf)
    case TotalScore => Sorting.ByKeyDesc(TotalOf)
    case Other => Sorting.KeepOrder()
  }

  /**
   * The sort menu's handler: a sorted copy of the rows. It is a permutation,
   * newest first by date or highest first by the chosen score, and the
   * "return 0" choice keeps the rows as they are.
   */
  function SortDetails(scores: seq<ScoreWithStats>, choice: SortChoice): (r: seq<ScoreWithStats>)
    ensures multiset(r) == multiset(scores)
    ensures Sorting.SortedBy(r, DetailOrder(choice))
    ensures choice == Other ==> r == scores
  {
    DetailOrderIsTotalPreorder(choice);
    Sorting.SortSorted(scores, DetailOrder(choice));
    Sorting.SortKeepOrder(scores);
    Sorting.Sort(scores, DetailOrder(choice))
  }

  lemma DetailOrderIsTotalPreorder(choice: SortChoice)
    ensures Sorting.TotalPreorder(DetailOrder(choice))
  {
    match choice
    case TestDate => Sorting.ByTextDescIsTotalPreorder(DateOf);
    case SectionAd => Sorting.ByKeyDescIsTotalPreorder(AdOf);
    case SectionBc => Sorting.ByKeyDescIsTotalPreorder(BcOf);
    case TotalScore => Sorting.ByKeyDescIsTotalPreorder(TotalOf);
    case Other =>
  }
}
