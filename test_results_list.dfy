/**
 * components/test-results-list.tsx: the list of exams found in a set of
 * score rows (one entry per exam, newest first), the rows of each exam, the
 * sort menu of an exam's table and the per-exam column averages.
 *
 * The component names an exam by the text `${test_name}_${test_date}`
 * (`TextKey`), and so does the model of the component. The de-duplication
 * and grouping are written over an exam key function so that the text key
 * can be compared with the (name, date) pair (`PairKey`): the two list the
 * same exams whenever no date holds "_" (`TextKeyAgreesWithPairKey`), which
 * is every row of the `DATE` column; a date text holding "_" would let two
 * exams share one text (`TextKeyDropsRows`).
 */
module TestResultsList {
  import opened Scores
  import Sorting
  import Text

  datatype TestInfo = TestInfo(test_name: string, test_date: string)

  function InfoOf(s: TestScore): TestInfo {
    TestInfo(s.test_name, s.test_date)
  }

  /** The exam key as written: `${test_name}_${test_date}`. */
  function TextKey(info: TestInfo): string {
    TestKey(info.test_name, info.test_date)
  }

  /** The exam as the (name, date) pair. */
  function PairKey(info: TestInfo): TestInfo {
    info
  }

  ghost predicate HasKey<K>(infos: seq<TestInfo>, key: TestInfo -> K, k: K) {
    exists j | 0 <= j < |infos| :: key(infos[j]) == k
  }

  lemma HasKeySnoc<K>(infos: seq<TestInfo>, info: TestInfo, key: TestInfo -> K)
    ensures forall k :: HasKey(infos + [info], key, k) <==> HasKey(infos, key, k) || k == key(info)
  {
    var r := infos + [info];
    forall k ensures HasKey(r, key, k) <==> HasKey(infos, key, k) || k == key(info) {
      if HasKey(infos, key, k) {
        var j :| 0 <= j < |infos| && key(infos[j]) == k;
        assert r[j] == infos[j];
      }
      if k == key(info) {
        assert r[|infos|] == info;
      }
    }
  }

  /**
   * The exams of `scores` in order of first appearance, one per key: the
   * values of the `Map` that `forEach` fills when the key is not yet present.
   */
  ghost function Dedupe<K>(scores: seq<TestScore>, key: TestInfo -> K): seq<TestInfo> {
    if scores == [] then []
    else
      var d := Dedupe(scores[..|scores| - 1], key);
      var info := InfoOf(scores[|scores| - 1]);
      if HasKey(d, key, key(info)) then d else d + [info]
  }

  lemma DedupeStep<K>(scores: seq<TestScore>, key: TestInfo -> K)
    requires scores != []
    ensures var d := Dedupe(scores[..|scores| - 1], key);
      var info := InfoOf(scores[|scores| - 1]);
      Dedupe(scores, key) == if HasKey(d, key, key(info)) then d else d + [info]
  {
  }

  ghost predicate DistinctKeys<K>(infos: seq<TestInfo>, key: TestInfo -> K) {
    forall a, b | 0 <= a < b < |infos| :: key(infos[a]) != key(infos[b])
  }

  /** No two exams of the de-duplicated list share a key. */
  lemma {:induction false} DedupeDistinct<K>(scores: seq<TestScore>, key: TestInfo -> K)
    ensures DistinctKeys(Dedupe(scores, key), key)
  {
    if scores != [] {
      var init := scores[..|scores| - 1];
      DedupeDistinct(init, key);
      var d := Dedupe(init, key);
      var info := InfoOf(scores[|scores| - 1]);
      if !HasKey(d, key, key(info)) {
        var r := d + [info];
        forall a, b | 0 <= a < b < |r| ensures key(r[a]) != key(r[b]) {
          if b == |d| {
            assert r[a] == d[a];
          } else {
            assert r[a] == d[a] && r[b] == d[b];
          }
        }
      }
    }
  }

  /** Every row's exam key is the key of a listed exam. */
  lemma {:induction false} DedupeCovers<K>(scores: seq<TestScore>, key: TestInfo -> K)
    ensures forall i | 0 <= i < |scores| :: HasKey(Dedupe(scores, key), key, key(InfoOf(scores[i])))
  {
    if scores != [] {
      var init := scores[..|scores| - 1];
      DedupeCovers(init, key);
      var d := Dedupe(init, key);
      var info := InfoOf(scores[|scores| - 1]);
      HasKeySnoc(d, info, key);
      DedupeStep(scores, key);
      var r := Dedupe(scores, key);
      forall i | 0 <= i < |scores| ensures HasKey(r, key, key(InfoOf(scores[i]))) {
        var k := key(InfoOf(scores[i]));
        if i < |scores| - 1 {
          assert scores[i] == init[i];
          assert HasKey(d, key, k);
        }
        if HasKey(d, key, k) {
          assert HasKey(d + [info], key, k);
        } else {
          assert HasKey(d + [info], key, k);
        }
      }
    }
  }

  /** Row i is the first row carrying its exam key. */
  ghost predicate FirstWithKey<K>(scores: seq<TestScore>, key: TestInfo -> K, i: int)
    requires 0 <= i < |scores|
  {
    forall l | 0 <= l < i :: key(InfoOf(scores[l])) != key(InfoOf(scores[i]))
  }

  /** The exam of a row that is the first carrying its key. */
  ghost predicate FromFirstRow<K>(scores: seq<TestScore>, key: TestInfo -> K, info: TestInfo) {
    exists i | 0 <= i < |scores| :: InfoOf(scores[i]) == info && FirstWithKey(scores, key, i)
  }

  /** Every listed exam is the exam of the first row carrying its key. */
  lemma {:induction false} DedupeFromFirst<K>(scores: seq<TestScore>, key: TestInfo -> K)
    ensures var d := Dedupe(scores, key);
      forall j | 0 <= j < |d| :: FromFirstRow(scores, key, d[j])
  {
    if scores != [] {
      var init := scores[..|scores| - 1];
      DedupeFromFirst(init, key);
      var d := Dedupe(init, key);
      var last := |scores| - 1;
      var info := InfoOf(scores[last]);
      DedupeStep(scores, key);
      forall info' | FromFirstRow(init, key, info') ensures FromFirstRow(scores, key, info') {
        var i :| 0 <= i < |init| && InfoOf(init[i]) == info' && FirstWithKey(init, key, i);
        assert forall l | 0 <= l <= i :: scores[l] == init[l];
        assert FirstWithKey(scores, key, i);
      }
      if !HasKey(d, key, key(info)) {
        DedupeCovers(init, key);
        forall l | 0 <= l < last ensures key(InfoOf(scores[l])) != key(info) {
          assert scores[l] == init[l];
        }
        assert FirstWithKey(scores, key, last);
        var r := d + [info];
        forall j | 0 <= j < |r| ensures FromFirstRow(scores, key, r[j]) {
          if j < |d| {
            assert r[j] == d[j];
          }
        }
      }
    }
  }

  /** One more row of the prefix adds its exam unless its key is already listed. */
  lemma DedupePrefixStep<K>(scores: seq<TestScore>, i: int, key: TestInfo -> K)
    requires 0 <= i < |scores|
    ensures var d := Dedupe(scores[..i], key);
      var info := InfoOf(scores[i]);
      Dedupe(scores[..i + 1], key) == if HasKey(d, key, key(info)) then d else d + [info]
  {
    assert scores[..i + 1][..i] == scores[..i];
    assert scores[..i + 1][i] == scores[i];
    DedupeStep(scores[..i + 1], key);
  }

  /** The `forEach` over the rows that fills the `Map` of exams. */
  method UniqueTests<K(==)>(scores: seq<TestScore>, key: TestInfo -> K) returns (infos: seq<TestInfo>)
    ensures infos == Dedupe(scores, key)
  {
    var seen: set<K> := {};
    infos := [];
    var i := 0;
    while i < |scores|
      invariant 0 <= i <= |scores|
      invariant infos == Dedupe(scores[..i], key)
      invariant forall k :: k in seen <==> HasKey(infos, key, k)
    {
      var info := InfoOf(scores[i]);
      DedupePrefixStep(scores, i, key);
      HasKeySnoc(infos, info, key);
      ghost var next := Dedupe(scores[..i + 1], key);
      assert next == if HasKey(infos, key, key(info)) then infos else infos + [info];
      if key(info) !in seen {
        seen := seen + {key(info)};
        infos := infos + [info];
      }
      assert infos == next;
      i := i + 1;
    }
    assert scores[..|scores|] == scores;
  }

  function DateOf(info: TestInfo): string { info.test_date }

  /** `testInfos`: the exams, newest first (ties keep their first-appearance order). */
  method TestInfos<K(==)>(scores: seq<TestScore>, key: TestInfo -> K) returns (infos: seq<TestInfo>)
    ensures infos == Sorting.Sort(Dedupe(scores, key), Sorting.ByTextDesc(DateOf))
    ensures Sorting.SortedBy(infos, Sorting.ByTextDesc(DateOf))
    ensures multiset(infos) == multiset(Dedupe(scores, key))
  {
    var unique := UniqueTests(scores, key);
    infos := Sorting.Sort(unique, Sorting.ByTextDesc(DateOf));
    Sorting.ByTextDescIsTotalPreorder(DateOf);
    Sorting.SortSorted(unique, Sorting.ByTextDesc(DateOf));
  }

  /** The rows of the exam with this name and date, order kept. */
  function ScoresOf(scores: seq<TestScore>, info: TestInfo): seq<TestScore> {
    if scores == [] then []
    else (if InfoOf(scores[0]) == info then [scores[0]] else []) + ScoresOf(scores[1..], info)
  }

  /** The filter keeps every copy of every row of the exam, and nothing else. */
  lemma {:induction false} ScoresOfCounts(scores: seq<TestScore>, info: TestInfo)
    ensures forall x | InfoOf(x) == info :: multiset(ScoresOf(scores, info))[x] == multiset(scores)[x]
    ensures forall x | InfoOf(x) != info :: multiset(ScoresOf(scores, info))[x] == 0
  {
    if scores != [] {
      assert scores == [scores[0]] + scores[1..];
      ScoresOfCounts(scores[1..], info);
      var here := if InfoOf(scores[0]) == info then [scores[0]] else [];
      assert multiset(ScoresOf(scores, info)) == multiset(here) + multiset(ScoresOf(scores[1..], info));
    }
  }

  /**
   * `groupedScores`: for each listed exam, under its key, the rows of
   * that exam. The keys of the listed exams are distinct.
   */
  method GroupScores<K(==)>(scores: seq<TestScore>, infos: seq<TestInfo>, key: TestInfo -> K)
    returns (grouped: map<K, seq<TestScore>>)
    requires DistinctKeys(infos, key)
    ensures forall k :: k in grouped <==> HasKey(infos, key, k)
    ensures forall j | 0 <= j < |infos| :: key(infos[j]) in grouped && grouped[key(infos[j])] == ScoresOf(scores, infos[j])
  {
    grouped := map[];
    var j := 0;
    while j < |infos|
      invariant 0 <= j <= |infos|
      invariant forall k :: k in grouped <==> HasKey(infos[..j], key, k)
      invariant forall l | 0 <= l < j :: key(infos[l]) in grouped && grouped[key(infos[l])] == ScoresOf(scores, infos[l])
    {
      assert infos[..j + 1] == infos[..j] + [infos[j]];
      HasKeySnoc(infos[..j], infos[j], key);
      grouped := grouped[key(infos[j]) := ScoresOf(scores, infos[j])];
      j := j + 1;
    }
    assert infos[..|infos|] == infos;
  }

  /** The choices of the sort state; the header buttons set section_a .. section_d, which compare as equal. */
  datatype SortOption = StudentId | SectionAd | SectionBc | TotalScore | Other

  function StudentIdOf(s: TestScore): string { s.student_id }
  function AdOf(s: TestScore): real { OrZero(s.section_ad) }
  function BcOf(s: TestScore): real { OrZero(s.section_bc) }
  function TotalOf(s: TestScore): real { OrZero(s.total_score) }

  function ScoreOrder(option: SortOption): (TestScore, TestScore) -> bool {
    match option
    case StudentId => Sorting.ByTextAsc(StudentIdOf)
    case SectionAd => Sorting.ByKeyDesc(AdOf)
    case SectionBc => Sorting.ByKeyDesc(BcOf)
    case TotalScore => Sorting.ByKeyDesc(TotalOf)
    case Other => Sorting.KeepOrder()
  }

  lemma ScoreOrderIsTotalPreorder(option: SortOption)
    ensures Sorting.TotalPreorder(ScoreOrder(option))
  {
    match option
    case StudentId => Sorting.ByTextAscIsTotalPreorder(StudentIdOf);
    case SectionAd => Sorting.ByKeyDescIsTotalPreorder(AdOf);
    case SectionBc => Sorting.ByKeyDescIsTotalPreorder(BcOf);
    case TotalScore => Sorting.ByKeyDescIsTotalPreorder(TotalOf);
    case Other =>
  }

  /**
   * `sortScores`: a sorted copy. It is a permutation of the rows, ordered by
   * the option, and the section_a .. section_d options keep the rows as they are.
   */
  function SortScores(scores: seq<TestScore>, option: SortOption): (r: seq<TestScore>)
    ensures multiset(r) == multiset(scores)
    ensures Sorting.SortedBy(r, ScoreOrder(option))
    ensures option == Other ==> r == scores
  {
    ScoreOrderIsTotalPreorder(option);
    Sorting.SortSorted(scores, ScoreOrder(option));
    Sorting.SortKeepOrder(scores);
    Sorting.Sort(scores, ScoreOrder(option))
  }

  function SumOf(rows: seq<TestScore>, column: TestScore -> real): real {
    if rows == [] then 0.0 else column(rows[0]) + SumOf(rows[1..], column)
  }

  function SectionAOf(s: TestScore): real { OrZero(s.section_a) }
  function SectionBOf(s: TestScore): real { OrZero(s.section_b) }
  function SectionCOf(s: TestScore): real { OrZero(s.section_c) }
  function SectionDOf(s: TestScore): real { OrZero(s.section_d) }

  datatype ColumnAverages = ColumnAverages(
    section_a: real, section_b: real, section_c: real, section_d: real,
    section_ad: real, section_bc: real, total_score: real)

  /** `averages`: each column's sum (missing as 0) over the exam's row count. */
  function Averages(rows: seq<TestScore>): (a: ColumnAverages)
    requires |rows| > 0
    ensures a.section_a * |rows| as real == SumOf(rows, SectionAOf)
    ensures a.section_b * |rows| as real == SumOf(rows, SectionBOf)
    ensures a.section_c * |rows| as real == SumOf(rows, SectionCOf)
    ensures a.section_d * |rows| as real == SumOf(rows, SectionDOf)
    ensures a.section_ad * |rows| as real == SumOf(rows, AdOf)
    ensures a.section_bc * |rows| as real == SumOf(rows, BcOf)
    ensures a.total_score * |rows| as real == SumOf(rows, TotalOf)
  {
    var n := |rows| as real;
    ColumnAverages(
      SumOf(rows, SectionAOf) / n, SumOf(rows, SectionBOf) / n, SumOf(rows, SectionCOf) / n,
      SumOf(rows, SectionDOf) / n, SumOf(rows, AdOf) / n, SumOf(rows, BcOf) / n, SumOf(rows, TotalOf) / n)
  }

  /** The column sums do not depend on the order of the rows, so neither do the averages. */
  lemma {:induction false} SumOfPermutation(a: seq<TestScore>, b: seq<TestScore>, column: TestScore -> real)
    requires multiset(a) == multiset(b)
    ensures SumOf(a, column) == SumOf(b, column)
    decreases |a|
  {
    if a != [] {
      var x := a[0];
      assert x in multiset(b);
      var k :| 0 <= k < |b| && b[k] == x;
      var b' := b[..k] + b[k + 1..];
      RemoveMatchingFirst(a, b, k);
      SumOfPermutation(a[1..], b', column);
      SumOfRemove(b, k, column);
    }
  }

  /** Taking the first of `a` out of `a` and its copy at `k` out of `b` keeps the two equal as multisets. */
  lemma RemoveMatchingFirst(a: seq<TestScore>, b: seq<TestScore>, k: int)
    requires multiset(a) == multiset(b)
    requires a != [] && 0 <= k < |b| && b[k] == a[0]
    ensures multiset(a[1..]) == multiset(b[..k] + b[k + 1..])
  {
    var x := a[0];
    assert b == b[..k] + [x] + b[k + 1..];
    assert a == [x] + a[1..];
    assert multiset(a[1..]) == multiset(a) - multiset{x};
    assert multiset(b[..k] + b[k + 1..]) == multiset(b) - multiset{x};
  }

  lemma {:induction false} SumOfRemove(b: seq<TestScore>, k: int, column: TestScore -> real)
    requires 0 <= k < |b|
    ensures SumOf(b, column) == column(b[k]) + SumOf(b[..k] + b[k + 1..], column)
  {
    if k > 0 {
      SumOfRemove(b[1..], k - 1, column);
      assert b[1..][..k - 1] + b[1..][k..] == (b[..k] + b[k + 1..])[1..];
    } else {
      assert b[..0] + b[1..] == b[1..];
    }
  }

  /** The averages of an item do not depend on the sort option. */
  lemma AveragesIgnoreSortOrder(rows: seq<TestScore>, option: SortOption)
    requires |rows| > 0
    ensures Averages(SortScores(rows, option)) == Averages(rows)
  {
    var sorted := SortScores(rows, option);
    SumOfPermutation(sorted, rows, SectionAOf);
    SumOfPermutation(sorted, rows, SectionBOf);
    SumOfPermutation(sorted, rows, SectionCOf);
    SumOfPermutation(sorted, rows, SectionDOf);
    SumOfPermutation(sorted, rows, AdOf);
    SumOfPermutation(sorted, rows, BcOf);
    SumOfPermutation(sorted, rows, TotalOf);
  }

  /** One accordion item: the exam, its sorted rows, the student count and the averages. */
  datatype TestSection = TestSection(info: TestInfo, rows: seq<TestScore>, studentCount: nat, averages: ColumnAverages)

  /** No two listed exams share a key, every row's key is listed, every listed exam is some row's. */
  ghost predicate ListsEachKeyOnce<K>(scores: seq<TestScore>, infos: seq<TestInfo>, key: TestInfo -> K) {
    && DistinctKeys(infos, key)
    && (forall i | 0 <= i < |scores| :: HasKey(infos, key, key(InfoOf(scores[i]))))
    && (forall j | 0 <= j < |infos| :: ExamOfSomeRow(scores, infos[j]))
  }

  ghost predicate ExamOfSomeRow(scores: seq<TestScore>, info: TestInfo) {
    exists i | 0 <= i < |scores| :: InfoOf(scores[i]) == info
  }

  /** Any reordering of the de-duplicated exams lists each key of the rows exactly once. */
  lemma ListsEachKeyOnceAfterPermutation<K>(scores: seq<TestScore>, infos: seq<TestInfo>, key: TestInfo -> K)
    requires multiset(infos) == multiset(Dedupe(scores, key))
    ensures ListsEachKeyOnce(scores, infos, key)
  {
    DedupeDistinct(scores, key);
    DistinctAfterPermutation(Dedupe(scores, key), infos, key);
    ListedCoverRows(scores, infos, key);
    ListedComeFromRows(scores, infos, key);
  }

  lemma ListedCoverRows<K>(scores: seq<TestScore>, infos: seq<TestInfo>, key: TestInfo -> K)
    requires multiset(infos) == multiset(Dedupe(scores, key))
    ensures forall i | 0 <= i < |scores| :: HasKey(infos, key, key(InfoOf(scores[i])))
  {
    var unique := Dedupe(scores, key);
    DedupeCovers(scores, key);
    forall i | 0 <= i < |scores| ensures HasKey(infos, key, key(InfoOf(scores[i]))) {
      var k := key(InfoOf(scores[i]));
      assert HasKey(unique, key, k);
      var u :| 0 <= u < |unique| && key(unique[u]) == k;
      assert unique[u] in multiset(infos);
      var j :| 0 <= j < |infos| && infos[j] == unique[u];
    }
  }

  lemma ListedComeFromRows<K>(scores: seq<TestScore>, infos: seq<TestInfo>, key: TestInfo -> K)
    requires multiset(infos) == multiset(Dedupe(scores, key))
    ensures forall j | 0 <= j < |infos| :: ExamOfSomeRow(scores, infos[j])
  {
    var unique := Dedupe(scores, key);
    DedupeFromFirst(scores, key);
    forall j | 0 <= j < |infos| ensures ExamOfSomeRow(scores, infos[j]) {
      var x := infos[j];
      assert x in multiset(infos);
      var u :| 0 <= u < |unique| && unique[u] == x;
      assert FromFirstRow(scores, key, unique[u]);
    }
  }

  /** A reordering of a list whose keys are distinct has distinct keys too. */
  lemma DistinctAfterPermutation<K>(s: seq<TestInfo>, t: seq<TestInfo>, key: TestInfo -> K)
    requires DistinctKeys(s, key)
    requires multiset(t) == multiset(s)
    ensures DistinctKeys(t, key)
  {
    forall a, b | 0 <= a < b < |t| ensures key(t[a]) != key(t[b]) {
      if key(t[a]) == key(t[b]) {
        assert t[a] in multiset(s) && t[b] in multiset(s);
        var p :| 0 <= p < |s| && s[p] == t[a];
        var q :| 0 <= q < |s| && s[q] == t[b];
        if p == q {
          MultiplicityOfTwo(t, a, b);
          MultiplicityAtMostOne(s, t[a], key);
        }
        assert false;
      }
    }
  }

  lemma MultiplicityOfTwo<T>(t: seq<T>, a: int, b: int)
    requires 0 <= a < b < |t| && t[a] == t[b]
    ensures multiset(t)[t[a]] >= 2
  {
    assert t == t[..b] + [t[b]] + t[b + 1..];
    assert t[..b][a] == t[a];
    assert t[a] in multiset(t[..b]);
  }

  lemma {:induction false} MultiplicityAtMostOne<K>(s: seq<TestInfo>, x: TestInfo, key: TestInfo -> K)
    requires DistinctKeys(s, key)
    ensures multiset(s)[x] <= 1
  {
    if s != [] {
      var init := s[..|s| - 1];
      assert s == init + [s[|s| - 1]];
      assert forall a | 0 <= a < |init| :: init[a] == s[a];
      MultiplicityAtMostOne(init, x, key);
      assert forall a | 0 <= a < |init| :: init[a] != s[|s| - 1] by {
        forall a | 0 <= a < |init| ensures init[a] != s[|s| - 1] {
          assert key(s[a]) != key(s[|s| - 1]);
        }
      }
    }
  }

  /** A row's own exam group is not empty. */
  lemma ScoresOfNonEmpty(scores: seq<TestScore>, i: int)
    requires 0 <= i < |scores|
    ensures |ScoresOf(scores, InfoOf(scores[i]))| > 0
  {
    assert scores[i] in multiset(scores);
    ScoresOfCounts(scores, InfoOf(scores[i]));
    assert multiset(ScoresOf(scores, InfoOf(scores[i])))[scores[i]] > 0;
  }

  lemma ListedExamNonEmpty(scores: seq<TestScore>, info: TestInfo)
    requires ExamOfSomeRow(scores, info)
    ensures |ScoresOf(scores, info)| > 0
  {
    var i :| 0 <= i < |scores| && InfoOf(scores[i]) == info;
    ScoresOfNonEmpty(scores, i);
  }

  /** The accordion items of the listed exams, in list order, each reading its rows from the grouping under its key. */
  method BuildSections<K(==)>(infos: seq<TestInfo>, grouped: map<K, seq<TestScore>>, key: TestInfo -> K, option: SortOption)
    returns (sections: seq<TestSection>)
    requires forall j | 0 <= j < |infos| :: key(infos[j]) in grouped && |grouped[key(infos[j])]| > 0
    ensures |sections| == |infos|
    ensures forall j | 0 <= j < |sections| :: sections[j] == MakeSection(grouped[key(infos[j])], infos[j], option)
  {
    sections := [];
    for j := 0 to |infos|
      invariant |sections| == j
      invariant forall l | 0 <= l < j :: sections[l] == MakeSection(grouped[key(infos[l])], infos[l], option)
    {
      var k := key(infos[j]);
      var testScores := if k in grouped then grouped[k] else [];
      sections := sections + [MakeSection(testScores, infos[j], option)];
    }
  }

  /** The item of exam `info`: its rows sorted by the option, their count (at least one) and averages. */
  ghost predicate SectionOf(scores: seq<TestScore>, info: TestInfo, option: SortOption, section: TestSection) {
    var rows := ScoresOf(scores, info);
    |rows| >= 1 && section == MakeSection(rows, info, option)
  }

  /** One item: the rows sorted by the option, their count and their averages. */
  function MakeSection(rows: seq<TestScore>, info: TestInfo, option: SortOption): (section: TestSection)
    requires |rows| > 0
    ensures section.info == info && section.studentCount == |rows|
  {
    TestSection(info, SortScores(rows, option), |rows|, Averages(rows))
  }

  /** Some item of the list shows the exam. */
  ghost predicate HasSection(sections: seq<TestSection>, info: TestInfo) {
    exists j | 0 <= j < |sections| :: sections[j].info == info
  }

  /** Some item of the list shows an exam with this text key. */
  ghost predicate HasSectionKeyed(sections: seq<TestSection>, k: string) {
    exists j | 0 <= j < |sections| :: TextKey(sections[j].info) == k
  }

  /**
   * The component: one item per exam text key of the rows, newest first,
   * each holding exactly the rows of its exam's name and date. When no date
   * holds "_" (true of every `DATE` value), every row's exam has its item.
   */
  method TestResultsList(scores: seq<TestScore>, option: SortOption) returns (sections: seq<TestSection>)
    ensures |sections| == |Dedupe(scores, TextKey)|
    ensures forall j | 0 <= j < |sections| :: SectionOf(scores, sections[j].info, option, sections[j])
    ensures forall a, b | 0 <= a < b < |sections| :: TextKey(sections[a].info) != TextKey(sections[b].info)
    ensures forall i | 0 <= i < |scores| :: HasSectionKeyed(sections, TextKey(InfoOf(scores[i])))
    ensures PlainDates(scores) ==> forall i | 0 <= i < |scores| :: HasSection(sections, InfoOf(scores[i]))
    ensures forall a, b | 0 <= a < b < |sections| :: Text.StrLe(sections[b].info.test_date, sections[a].info.test_date)
  {
    var testInfos := TestInfos(scores, TextKey);
    ListsEachKeyOnceAfterPermutation(scores, testInfos, TextKey);
    var grouped := GroupScores(scores, testInfos, TextKey);
    forall j | 0 <= j < |testInfos| ensures |ScoresOf(scores, testInfos[j])| > 0 {
      ListedExamNonEmpty(scores, testInfos[j]);
    }
    sections := BuildSections(testInfos, grouped, TextKey, option);
    assert forall j | 0 <= j < |sections| :: sections[j].info == testInfos[j];
    EachKeyOnce(scores, testInfos, sections);
    PlainRowsHaveSections(scores, testInfos, sections);
    NewestFirst(sections, testInfos);
    SectionsOfGroups(scores, testInfos, grouped, sections, option);
  }

  lemma SectionsOfGroups(scores: seq<TestScore>, infos: seq<TestInfo>, grouped: map<string, seq<TestScore>>,
                         sections: seq<TestSection>, option: SortOption)
    requires forall j | 0 <= j < |infos| :: TextKey(infos[j]) in grouped && grouped[TextKey(infos[j])] == ScoresOf(scores, infos[j])
    requires forall j | 0 <= j < |infos| :: |grouped[TextKey(infos[j])]| > 0
    requires |sections| == |infos|
    requires forall j | 0 <= j < |sections| :: sections[j] == MakeSection(grouped[TextKey(infos[j])], infos[j], option)
    ensures forall j | 0 <= j < |sections| :: SectionOf(scores, sections[j].info, option, sections[j])
  {
    forall j | 0 <= j < |sections| ensures SectionOf(scores, sections[j].info, option, sections[j]) {
      assert sections[j].info == infos[j];
    }
  }

  lemma {:induction false} EachKeyOnce(scores: seq<TestScore>, infos: seq<TestInfo>, sections: seq<TestSection>)
    requires ListsEachKeyOnce(scores, infos, TextKey)
    requires |sections| == |infos| && forall j | 0 <= j < |infos| :: sections[j].info == infos[j]
    ensures forall a, b | 0 <= a < b < |sections| :: TextKey(sections[a].info) != TextKey(sections[b].info)
    ensures forall i | 0 <= i < |scores| :: HasSectionKeyed(sections, TextKey(InfoOf(scores[i])))
  {
    forall i | 0 <= i < |scores| ensures HasSectionKeyed(sections, TextKey(InfoOf(scores[i]))) {
      assert HasKey(infos, TextKey, TextKey(InfoOf(scores[i])));
      var j :| 0 <= j < |infos| && TextKey(infos[j]) == TextKey(InfoOf(scores[i]));
      assert sections[j].info == infos[j];
    }
  }

  /** With dates free of "_", a shared text key means the same exam, so every row's exam has its item. */
  lemma PlainRowsHaveSections(scores: seq<TestScore>, infos: seq<TestInfo>, sections: seq<TestSection>)
    requires ListsEachKeyOnce(scores, infos, TextKey)
    requires |sections| == |infos| && forall j | 0 <= j < |infos| :: sections[j].info == infos[j]
    ensures PlainDates(scores) ==> forall i | 0 <= i < |scores| :: HasSection(sections, InfoOf(scores[i]))
  {
    if PlainDates(scores) {
      forall i | 0 <= i < |scores| ensures HasSection(sections, InfoOf(scores[i])) {
        var x := InfoOf(scores[i]);
        assert HasKey(infos, TextKey, TextKey(x));
        var j :| 0 <= j < |infos| && TextKey(infos[j]) == TextKey(x);
        assert ExamOfSomeRow(scores, infos[j]);
        var p :| 0 <= p < |scores| && InfoOf(scores[p]) == infos[j];
        TestKeyInjective(infos[j].test_name, infos[j].test_date, x.test_name, x.test_date);
        assert sections[j].info == x;
      }
    }
  }

  lemma NewestFirst(sections: seq<TestSection>, infos: seq<TestInfo>)
    requires |sections| == |infos| && forall j | 0 <= j < |infos| :: sections[j].info == infos[j]
    requires Sorting.SortedBy(infos, Sorting.ByTextDesc(DateOf))
    ensures forall a, b | 0 <= a < b < |sections| :: Text.StrLe(sections[b].info.test_date, sections[a].info.test_date)
  {
    forall a, b | 0 <= a < b < |sections| ensures Text.StrLe(sections[b].info.test_date, sections[a].info.test_date) {
      assert Sorting.ByTextDesc(DateOf)(infos[a], infos[b]);
      assert Text.StrLe(DateOf(infos[b]), DateOf(infos[a]));
    }
  }

  /**
   * Why the dates matter: were a date text to hold "_", the exams ("a_b", "c")
   * and ("a", "b_c") would share the key "a_b_c", so only the first would be
   * listed and the second one's rows would be in no group.
   */
  lemma TextKeyDropsRows(s1: TestScore, s2: TestScore)
    requires InfoOf(s1) == TestInfo("a_b", "c") && InfoOf(s2) == TestInfo("a", "b_c")
    ensures Dedupe([s1, s2], TextKey) == [TestInfo("a_b", "c")]
    ensures ScoresOf([s1, s2], TestInfo("a_b", "c")) == [s1]
  {
    var d1 := Dedupe([s1], TextKey);
    assert [s1][..0] == [];
    DedupeStep([s1], TextKey);
    DedupeStep([s1, s2], TextKey);
    assert d1 == [InfoOf(s1)];
    assert TextKey(InfoOf(s2)) == TextKey(InfoOf(s1)) by {
      assert "a_b" + "_" + "c" == "a" + "_" + "b_c";
    }
    assert HasKey(d1, TextKey, TextKey(InfoOf(s2))) by {
      assert TextKey(d1[0]) == TextKey(InfoOf(s2));
    }
    assert [s1, s2][..1] == [s1];
    assert InfoOf(s2) != TestInfo("a_b", "c");
    assert [s1, s2][1..] == [s2];
    assert [s2][1..] == [];
    assert ScoresOf([s2], TestInfo("a_b", "c")) == [] + ScoresOf([], TestInfo("a_b", "c"));
  }

  /** No row's date holds "_": true of every `DATE` value, printed as YYYY-MM-DD. */
  ghost predicate PlainDates(scores: seq<TestScore>) {
    forall i | 0 <= i < |scores| :: '_' !in scores[i].test_date
  }

  /** The listed exams carry dates of the rows, so they hold no "_" either. */
  lemma {:induction false} DedupeDatesPlain<K>(scores: seq<TestScore>, key: TestInfo -> K)
    requires PlainDates(scores)
    ensures forall j | 0 <= j < |Dedupe(scores, key)| :: '_' !in Dedupe(scores, key)[j].test_date
  {
    if scores != [] {
      var init := scores[..|scores| - 1];
      assert PlainDates(init) by {
        forall i | 0 <= i < |init| ensures '_' !in init[i].test_date {
          assert init[i] == scores[i];
        }
      }
      DedupeDatesPlain(init, key);
      DedupeStep(scores, key);
    }
  }

  /**
   * On rows whose dates hold no "_", the component's text key and the
   * (name, date) pair list the same exams in the same order.
   */
  lemma {:induction false} TextKeyAgreesWithPairKey(scores: seq<TestScore>)
    requires PlainDates(scores)
    ensures Dedupe(scores, TextKey) == Dedupe(scores, PairKey)
  {
    if scores != [] {
      var init := scores[..|scores| - 1];
      assert PlainDates(init) by {
        forall i | 0 <= i < |init| ensures '_' !in init[i].test_date {
          assert init[i] == scores[i];
        }
      }
      TextKeyAgreesWithPairKey(init);
      DedupeDatesPlain(init, PairKey);
      var d := Dedupe(init, PairKey);
      var info := InfoOf(scores[|scores| - 1]);
      if HasKey(d, TextKey, TextKey(info)) {
        var j :| 0 <= j < |d| && TextKey(d[j]) == TextKey(info);
        TestKeyInjective(d[j].test_name, d[j].test_date, info.test_name, info.test_date);
        assert PairKey(d[j]) == PairKey(info);
      }
      if HasKey(d, PairKey, PairKey(info)) {
        var j :| 0 <= j < |d| && PairKey(d[j]) == PairKey(info);
        assert TextKey(d[j]) == TextKey(info);
      }
      DedupeStep(scores, TextKey);
      DedupeStep(scores, PairKey);
    }
  }
}
