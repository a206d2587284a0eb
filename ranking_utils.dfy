/**
 * `getStudentScoresWithStats`, `getTestRankings` and `getTotalRankings` of
 * lib/ranking-utils.ts. The database queries and the ranking and averaging
 * procedures stored in the database are inputs: each call's answer is
 * either an error or a list of rows.
 */
module RankingUtils {
  import opened Wrappers
  import opened Scores
  import Sorting

  /** The answer of one query or stored-procedure call. */
  datatype Answer<T> = Failed | Rows(rows: seq<T>)

  /** The row of `get_test_averages`. */
  datatype Averages = Averages(
    avg_section_a: real,
    avg_section_b: real,
    avg_section_c: real,
    avg_section_d: real,
    avg_section_ad: real,
    avg_section_bc: real,
    avg_total_score: real)

  const ZeroAverages := Averages(0.0, 0.0, 0.0, 0.0, 0.0, 0.0, 0.0)

  /** The row of `get_student_total_rank`. */
  datatype TotalRank = TotalRank(rank: real, avg_rank: real)

  /** Change of each column against the same-named previous exam. */
  datatype ScoreChanges = ScoreChanges(
    section_a_change: real,
    section_b_change: real,
    section_c_change: real,
    section_d_change: real,
    section_ad_change: real,
    section_bc_change: real,
    total_score_change: real)

  /** A fetched row merged with its exam's averages, ranks and change against the previous exam. */
  datatype ScoreWithStats = ScoreWithStats(
    score: TestScore,
    averages: Averages,
    rank: real,
    total_rank: real,
    avg_rank: real,
    previous_scores: Option<ScoreChanges>)

  function KeyOf(s: TestScore): string {
    TestKey(s.test_name, s.test_date)
  }

  /** Some call for this key answered at least one row. */
  predicate Answered<T>(a: Answer<T>) {
    a.Rows? && |a.rows| > 0
  }

  /**
   * Row i's call answered, and no later row before `end` with the same exam
   * key did: row i's answer is the one stored under that key. Two different
   * (name, date) pairs can share a key, e.g. ("a_b", "c") and ("a", "b_c").
   */
  predicate LastAnswered<T>(scores: seq<TestScore>, key: TestScore -> string, call: (string, string) -> Answer<T>, i: int, end: int)
    requires 0 <= i < end <= |scores|
  {
    && Answered(call(scores[i].test_name, scores[i].test_date))
    && forall j | i < j < end && key(scores[j]) == key(scores[i]) ::
         !Answered(call(scores[j].test_name, scores[j].test_date))
  }

  /** Some row before `end` with exam key `k` had its call answered. */
  predicate KeyAnswered<T>(scores: seq<TestScore>, key: TestScore -> string, call: (string, string) -> Answer<T>, k: string, end: int)
    requires 0 <= end <= |scores|
  {
    exists j | 0 <= j < end :: key(scores[j]) == k && Answered(call(scores[j].test_name, scores[j].test_date))
  }

  /**
   * The loop filling `testAverages` (and, with ranks, `testRankings`): one
   * call per fetched row; an error or an empty answer skips that row
   * (`continue`), otherwise the first answered row is stored under the
   * row's exam key.
   */
  method CollectFirstRows<T>(scores: seq<TestScore>, key: TestScore -> string, call: (string, string) -> Answer<T>)
    returns (table: map<string, T>)
    ensures forall k :: k in table <==> KeyAnswered(scores, key, call, k, |scores|)
    ensures forall i | 0 <= i < |scores| && LastAnswered(scores, key, call, i, |scores|) ::
      key(scores[i]) in table && table[key(scores[i])] == call(scores[i].test_name, scores[i].test_date).rows[0]
  {
    table := map[];
    var i := 0;
    while i < |scores|
      invariant 0 <= i <= |scores|
      invariant forall k :: k in table <==> KeyAnswered(scores, key, call, k, i)
      invariant forall j | 0 <= j < i && LastAnswered(scores, key, call, j, i) ::
        key(scores[j]) in table && table[key(scores[j])] == call(scores[j].test_name, scores[j].test_date).rows[0]
    {
      var score := scores[i];
      var answer := call(score.test_name, score.test_date);
      if Answered(answer) {
        table := table[key(score) := answer.rows[0]];
      }
      forall j | 0 <= j < i && LastAnswered(scores, key, call, j, i + 1)
        ensures LastAnswered(scores, key, call, j, i)
      {
      }
      forall k ensures KeyAnswered(scores, key, call, k, i + 1) <==> KeyAnswered(scores, key, call, k, i) || (key(score) == k && Answered(answer))
      {
        if KeyAnswered(scores, key, call, k, i + 1) && !KeyAnswered(scores, key, call, k, i) {
          var j :| 0 <= j < i + 1 && key(scores[j]) == k && Answered(call(scores[j].test_name, scores[j].test_date));
          assert j == i;
        }
      }
      i := i + 1;
    }
  }

  /**
   * The `previousScores` loop over the rows in ascending date order: for each
   * position i from 1 on, the row before it is stored under row i's test
   * name, so a later exam of the same name overwrites an earlier entry.
   */
  method PreviousScores(sorted: seq<TestScore>) returns (previous: map<string, TestScore>)
    ensures forall name :: name in previous <==> exists i | 1 <= i < |sorted| :: sorted[i].test_name == name
    ensures forall i | 1 <= i < |sorted| ::
      (forall j | i < j < |sorted| :: sorted[j].test_name != sorted[i].test_name) ==>
        previous[sorted[i].test_name] == sorted[i - 1]
  {
    previous := map[];
    var i := 1;
    while i < |sorted|
      invariant 1 <= i <= |sorted| || (|sorted| == 0 && i == 1)
      invariant forall name :: name in previous <==> exists j | 1 <= j < i && j < |sorted| :: sorted[j].test_name == name
      invariant forall j | 1 <= j < i && j < |sorted| ::
        (forall l | j < l < i :: sorted[l].test_name != sorted[j].test_name) ==>
          previous[sorted[j].test_name] == sorted[j - 1]
    {
      previous := previous[sorted[i].test_name := sorted[i - 1]];
      i := i + 1;
    }
  }

  /** The change of every column against the previous exam, a missing value read as 0. */
  function Changes(score: TestScore, prev: TestScore): (c: ScoreChanges)
    ensures c.section_a_change + OrZero(prev.section_a) == OrZero(score.section_a)
    ensures c.section_b_change + OrZero(prev.section_b) == OrZero(score.section_b)
    ensures c.section_c_change + OrZero(prev.section_c) == OrZero(score.section_c)
    ensures c.section_d_change + OrZero(prev.section_d) == OrZero(score.section_d)
    ensures c.total_score_change + OrZero(prev.total_score) == OrZero(score.total_score)
    ensures c.section_ad_change + OrZero(prev.section_ad) == OrZero(score.section_ad)
    ensures c.section_bc_change + OrZero(prev.section_bc) == OrZero(score.section_bc)
  {
    ScoreChanges(
      OrZero(score.section_a) - OrZero(prev.section_a),
      OrZero(score.section_b) - OrZero(prev.section_b),
      OrZero(score.section_c) - OrZero(prev.section_c),
      OrZero(score.section_d) - OrZero(prev.section_d),
      OrZero(score.section_ad) - OrZero(prev.section_ad),
      OrZero(score.section_bc) - OrZero(prev.section_bc),
      OrZero(score.total_score) - OrZero(prev.total_score))
  }

  /** The final `studentScores.map`: one merged row per fetched row, in the same order. */
  function Merge(scores: seq<TestScore>, averages: map<string, Averages>, ranks: map<string, real>,
                 total: TotalRank, previous: map<string, TestScore>): (r: seq<ScoreWithStats>)
    ensures |r| == |scores|
    ensures forall i | 0 <= i < |r| :: r[i].score == scores[i]
    ensures forall i | 0 <= i < |r| :: r[i].total_rank == total.rank && r[i].avg_rank == total.avg_rank
    ensures forall i | 0 <= i < |r| :: KeyOf(scores[i]) !in averages ==> r[i].averages == ZeroAverages
    ensures forall i | 0 <= i < |r| :: KeyOf(scores[i]) !in ranks ==> r[i].rank == 0.0
    ensures forall i | 0 <= i < |r| :: KeyOf(scores[i]) in averages ==> r[i].averages == averages[KeyOf(scores[i])]
    ensures forall i | 0 <= i < |r| :: KeyOf(scores[i]) in ranks ==> r[i].rank == ranks[KeyOf(scores[i])]
    ensures forall i | 0 <= i < |r| :: r[i].previous_scores.Some? <==> scores[i].test_name in previous
    ensures forall i | 0 <= i < |r| && scores[i].test_name in previous ::
      r[i].previous_scores.value == Changes(scores[i], previous[scores[i].test_name])
  {
    seq(|scores|, i requires 0 <= i < |scores| =>
      var score := scores[i];
      var key := KeyOf(score);
      ScoreWithStats(
        score,
        if key in averages then averages[key] else ZeroAverages,
        if key in ranks then ranks[key] else 0.0,
        total.rank,
        total.avg_rank,
        if score.test_name in previous then Some(Changes(score, previous[score.test_name])) else None))
  }

  /** Steps 4 of the function: both total ranks stay 0 unless the call answers a row. */
  function TotalRankOf(answer: Answer<TotalRank>): (t: TotalRank)
    ensures !Answered(answer) ==> t == TotalRank(0.0, 0.0)
    ensures Answered(answer) ==> t == answer.rows[0]
  {
    if answer.Rows? && |answer.rows| > 0 then answer.rows[0] else TotalRank(0.0, 0.0)
  }

  /** The exam date, the sort key of the ascending date order; ISO dates compare as text in date order. */
  function DateOf(s: TestScore): string { s.test_date }

  /**
   * `getStudentScoresWithStats`. `fetched` is the student's rows (newest
   * first) or a failed query; the three stored procedures are functions of
   * their arguments.
   */
  method GetStudentScoresWithStats(
    fetched: Answer<TestScore>,
    averagesCall: (string, string) -> Answer<Averages>,
    rankCall: (string, string) -> Answer<real>,
    totalRankCall: Answer<TotalRank>)
    returns (r: seq<ScoreWithStats>)
    ensures fetched.Failed? ==> r == []
    ensures fetched.Rows? ==> |r| == |fetched.rows| && forall i | 0 <= i < |r| :: r[i].score == fetched.rows[i]
    ensures fetched.Rows? ==> forall i | 0 <= i < |r| ::
      && r[i].total_rank == TotalRankOf(totalRankCall).rank
      && r[i].avg_rank == TotalRankOf(totalRankCall).avg_rank
    ensures fetched.Rows? ==> forall i | 0 <= i < |r| && LastAnswered(fetched.rows, KeyOf, averagesCall, i, |r|) ::
      r[i].averages == averagesCall(fetched.rows[i].test_name, fetched.rows[i].test_date).rows[0]
    ensures fetched.Rows? ==> forall i | 0 <= i < |r| && LastAnswered(fetched.rows, KeyOf, rankCall, i, |r|) ::
      r[i].rank == rankCall(fetched.rows[i].test_name, fetched.rows[i].test_date).rows[0]
    ensures fetched.Rows? ==> forall i, j | 0 <= i < |r| && 0 <= j < |r| &&
        LastAnswered(fetched.rows, KeyOf, averagesCall, j, |r|) && KeyOf(fetched.rows[i]) == KeyOf(fetched.rows[j]) ::
      r[i].averages == averagesCall(fetched.rows[j].test_name, fetched.rows[j].test_date).rows[0]
    ensures fetched.Rows? ==> forall i, j | 0 <= i < |r| && 0 <= j < |r| &&
        LastAnswered(fetched.rows, KeyOf, rankCall, j, |r|) && KeyOf(fetched.rows[i]) == KeyOf(fetched.rows[j]) ::
      r[i].rank == rankCall(fetched.rows[j].test_name, fetched.rows[j].test_date).rows[0]
    ensures fetched.Rows? ==> forall i | 0 <= i < |r| ::
      !KeyAnswered(fetched.rows, KeyOf, averagesCall, KeyOf(fetched.rows[i]), |r|) ==> r[i].averages == ZeroAverages
    ensures fetched.Rows? ==> forall i | 0 <= i < |r| ::
      !KeyAnswered(fetched.rows, KeyOf, rankCall, KeyOf(fetched.rows[i]), |r|) ==> r[i].rank == 0.0
    ensures fetched.Rows? ==>
      var sorted := Sorting.Sort(fetched.rows, Sorting.ByTextAsc(DateOf));
      forall i | 0 <= i < |r| ::
        r[i].previous_scores.Some? <==> exists j | 1 <= j < |sorted| :: sorted[j].test_name == fetched.rows[i].test_name
    ensures fetched.Rows? ==>
      var sorted := Sorting.Sort(fetched.rows, Sorting.ByTextAsc(DateOf));
      forall i, j | 0 <= i < |r| && 1 <= j < |sorted| && sorted[j].test_name == fetched.rows[i].test_name &&
                    (forall l | j < l < |sorted| :: sorted[l].test_name != sorted[j].test_name) ::
        r[i].previous_scores == Some(Changes(fetched.rows[i], sorted[j - 1]))
  {
    if fetched.Failed? {
      return [];
    }
    var studentScores := fetched.rows;
    var testAverages := CollectFirstRows(studentScores, KeyOf, averagesCall);
    var testRankings := CollectFirstRows(studentScores, KeyOf, rankCall);
    var total := TotalRankOf(totalRankCall);
    var sortedScores := Sorting.Sort(studentScores, Sorting.ByTextAsc(DateOf));
    var previousScores := PreviousScores(sortedScores);
    r := Merge(studentScores, testAverages, testRankings, total, previousScores);
  }

  /** `getTestRankings` and `getTotalRankings`: the rows, or `[]` on an error or an empty answer. */
  function RowsOrEmpty<T>(answer: Answer<T>): (r: seq<T>)
    ensures r == [] <==> !Answered(answer)
    ensures r != [] ==> r == answer.rows
  {
    if answer.Failed? then [] else if |answer.rows| == 0 then [] else answer.rows
  }
}
