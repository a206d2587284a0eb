/**
 * What every part of the portal shares about one exam result: the pass rule
 * (section AD at least 132 and section BC at least 44), nullable numeric
 * columns read as `value || 0`, the `${test_name}_${test_date}` key that
 * names one exam, and the order of test dates.
 */
module Scores {
  import opened Wrappers
  import Text

  /** Section AD threshold of the pass rule. */
  const PassAd: real := 132.0
  /** Section BC threshold of the pass rule. */
  const PassBc: real := 44.0

  /** An exam passes when both sections meet their thresholds; meeting one is a fail. */
  predicate Passes(ad: real, bc: real) {
    ad >= PassAd && bc >= PassBc
  }

  /** A numeric column that may be `null`/`undefined` in a fetched row. */
  type Num = Option<real>

  /** `value || 0`. */
  function OrZero(v: Num): real {
    v.GetOr(0.0)
  }

  /** A row of the `test_scores` table as the client receives it. */
  datatype TestScore = TestScore(
    id: string,
    student_id: string,
    name: Option<string>,
    test_name: string,
    test_date: string,
    section_a: Num,
    section_b: Num,
    section_c: Num,
    section_d: Num,
    section_ad: Num,
    section_bc: Num,
    total_score: Num)

  /** The template key `${test_name}_${test_date}` that names one exam. */
  function TestKey(name: string, date: string): string {
    name + "_" + date
  }

  /**
   * With dates free of "_" (an ISO date never holds one), the key names one
   * exam only: the last "_" of the key is the one the template inserted.
   */
  lemma TestKeyInjective(name1: string, date1: string, name2: string, date2: string)
    requires '_' !in date1 && '_' !in date2
    requires TestKey(name1, date1) == TestKey(name2, date2)
    ensures name1 == name2 && date1 == date2
  {
    var k := TestKey(name1, date1);
    assert k == TestKey(name2, date2);
    assert k[|name1|] == '_' && k[|name2|] == '_';
    assert forall i | |name1| < i < |k| :: k[i] == date1[i - |name1| - 1];
    assert forall i | |name2| < i < |k| :: k[i] == date2[i - |name2| - 1];
    assert |name1| == |name2|;
    assert name1 == k[..|name1|] && name2 == k[..|name2|];
    assert date1 == k[|name1| + 1..] && date2 == k[|name2| + 1..];
  }

  /**
   * Chronological order of test dates. Dates are stored as ISO-8601
   * `YYYY-MM-DD` text, for which the order of `new Date(d).getTime()` is the
   * lexicographic order of the text.
   */
  predicate DateLe(a: string, b: string) {
    Text.StrLe(a, b)
  }

  /** The pass rule at its boundary: 132/44 passes, 131/44 and 132/43 fail. */
  lemma PassBoundary()
    ensures Passes(132.0, 44.0)
    ensures !Passes(131.0, 44.0) && !Passes(132.0, 43.0)
  {
  }
}
