/**
 * app/ranking/page.tsx: the list of exams offered in the select box (one per
 * `${test_name}_${test_date}` key), the select value's encoding and decoding,
 * the medal of the top three ranks, the pass rule of the table, and the
 * page state that `fetchData` and `handleTestChange` update.
 *
 * The select value is decoded with `split("_")`, which keeps only the text
 * before the first "_" as the name and the text between the first and the
 * second "_" as the date. A test name that contains "_" is therefore
 * decoded wrongly. `DecodeSelectValue` is the code as written, and the
 * page state's `HandleTestChange` uses it; `DecodeAtLastUnderscore`, which
 * splits at the last "_" (an ISO date holds none), is the corrected decoding,
 * and `ChoosingListedTestRequestsIt` states what it would give the page.
 */
module RankingPage {
  import opened Wrappers
  import opened Scores
  import Text
  import RankingUtils

  /** A row of `select("test_name, test_date")`. */
  datatype TestRow = TestRow(test_name: string, test_date: string)

  /** A row of `get_test_rankings`. */
  datatype RankingRow = RankingRow(student_id: string, name: string, section_ad: Num, section_bc: Num, total_score: Num, rank: int)

  /** A row of `get_total_rankings`. */
  datatype TotalRankingRow = TotalRankingRow(student_id: string, name: string, rank: int)

  function RowKey(row: TestRow): string {
    TestKey(row.test_name, row.test_date)
  }

  /**
   * `map.set(key(item), item)` on the values of a `Map` in insertion order: a
   * present key keeps its place and takes the new item; a new key goes last.
   */
  function Put<K(==)>(entries: seq<TestRow>, item: TestRow, key: TestRow -> K): (r: seq<TestRow>)
    ensures |r| == |entries| || |r| == |entries| + 1
  {
    if entries == [] then [item]
    else if key(entries[0]) == key(item) then [item] + entries[1..]
    else [entries[0]] + Put(entries[1..], item, key)
  }

  /** The values of a Map filled row by row under `key`: one per key, the later row winning, in order of first insertion. */
  function MapValues<K(==)>(rows: seq<TestRow>, key: TestRow -> K): seq<TestRow> {
    if rows == [] then [] else Put(MapValues(rows[..|rows| - 1], key), rows[|rows| - 1], key)
  }

  /** The de-duplicated tests of the page, keyed by `${test_name}_${test_date}`. */
  function UniqueTests(rows: seq<TestRow>): seq<TestRow> {
    MapValues(rows, RowKey)
  }

  ghost predicate HasKey<K>(entries: seq<TestRow>, key: TestRow -> K, k: K) {
    exists j | 0 <= j < |entries| :: key(entries[j]) == k
  }

  ghost predicate DistinctKeys<K>(entries: seq<TestRow>, key: TestRow -> K) {
    forall a, b | 0 <= a < b < |entries| :: key(entries[a]) != key(entries[b])
  }

  /**
   * What `Put` does to entries with distinct keys: the entry with the item's
   * key takes the item, the others stay; a new key is appended; the keys stay
   * distinct.
   */
  lemma PutSpec<K>(entries: seq<TestRow>, item: TestRow, key: TestRow -> K)
    requires DistinctKeys(entries, key)
    ensures var r := Put(entries, item, key);
      && (HasKey(entries, key, key(item)) ==> |r| == |entries|)
      && (!HasKey(entries, key, key(item)) ==> |r| == |entries| + 1 && r[|entries|] == item)
      && (forall j | 0 <= j < |entries| :: r[j] == if key(entries[j]) == key(item) then item else entries[j])
      && DistinctKeys(r, key)
  {
    PutShape(entries, item, key);
    PutKeepsDistinct(entries, item, key);
  }

  lemma {:induction false} PutShape<K>(entries: seq<TestRow>, item: TestRow, key: TestRow -> K)
    requires DistinctKeys(entries, key)
    ensures var r := Put(entries, item, key);
      && (HasKey(entries, key, key(item)) ==> |r| == |entries|)
      && (!HasKey(entries, key, key(item)) ==> |r| == |entries| + 1 && r[|entries|] == item)
      && (forall j | 0 <= j < |entries| :: r[j] == if key(entries[j]) == key(item) then item else entries[j])
  {
    if entries != [] {
      var tail := entries[1..];
      assert DistinctKeys(tail, key) by {
        forall a, b | 0 <= a < b < |tail| ensures key(tail[a]) != key(tail[b]) {
          assert tail[a] == entries[a + 1] && tail[b] == entries[b + 1];
        }
      }
      PutShape(tail, item, key);
      var r := Put(entries, item, key);
      var rt := Put(tail, item, key);
      if key(entries[0]) == key(item) {
        forall j | 0 < j < |entries| ensures key(entries[j]) != key(item) {
          assert key(entries[0]) != key(entries[j]);
        }
        assert HasKey(entries, key, key(item)) by {
          assert key(entries[0]) == key(item);
        }
      } else {
        assert r == [entries[0]] + rt;
        forall j | 0 <= j < |entries| ensures r[j] == if key(entries[j]) == key(item) then item else entries[j] {
          if j > 0 {
            assert r[j] == rt[j - 1] && tail[j - 1] == entries[j];
          }
        }
        if HasKey(entries, key, key(item)) {
          var j :| 0 <= j < |entries| && key(entries[j]) == key(item);
          assert tail[j - 1] == entries[j];
        }
      }
    }
  }

  /** `Put` keeps the keys distinct: it replaces the entry with the item's key, or appends a new key. */
  lemma PutKeepsDistinct<K>(entries: seq<TestRow>, item: TestRow, key: TestRow -> K)
    requires DistinctKeys(entries, key)
    requires var r := Put(entries, item, key);
      && (HasKey(entries, key, key(item)) ==> |r| == |entries|)
      && (!HasKey(entries, key, key(item)) ==> |r| == |entries| + 1 && r[|entries|] == item)
      && (forall j | 0 <= j < |entries| :: r[j] == if key(entries[j]) == key(item) then item else entries[j])
    ensures DistinctKeys(Put(entries, item, key), key)
  {
    var r := Put(entries, item, key);
    forall a, b | 0 <= a < b < |r| ensures key(r[a]) != key(r[b]) {
      if b < |entries| {
        assert key(entries[a]) != key(entries[b]);
      } else {
        assert !HasKey(entries, key, key(item));
        assert key(entries[a]) != key(item);
      }
    }
  }

  /** No key occurs twice among the values. */
  lemma {:induction false} MapValuesDistinct<K>(rows: seq<TestRow>, key: TestRow -> K)
    ensures DistinctKeys(MapValues(rows, key), key)
  {
    if rows != [] {
      MapValuesDistinct(rows[..|rows| - 1], key);
      PutSpec(MapValues(rows[..|rows| - 1], key), rows[|rows| - 1], key);
    }
  }

  /** The keys of the values are exactly the keys of the rows. */
  lemma {:induction false} MapValuesKeys<K>(rows: seq<TestRow>, key: TestRow -> K)
    ensures forall k :: HasKey(MapValues(rows, key), key, k) <==> HasKey(rows, key, k)
  {
    if rows != [] {
      var init := rows[..|rows| - 1];
      MapValuesKeys(init, key);
      MapValuesDistinct(init, key);
      PutKeys(MapValues(init, key), rows[|rows| - 1], key);
      HasKeyOfSnoc(rows, key);
    }
  }

  /** After `Put` the keys are the old keys and the item's. */
  lemma PutKeys<K>(entries: seq<TestRow>, item: TestRow, key: TestRow -> K)
    requires DistinctKeys(entries, key)
    ensures forall k :: HasKey(Put(entries, item, key), key, k) <==> HasKey(entries, key, k) || k == key(item)
  {
    PutShape(entries, item, key);
    var r := Put(entries, item, key);
    forall k ensures HasKey(r, key, k) <==> HasKey(entries, key, k) || k == key(item) {
      if k == key(item) {
        if HasKey(entries, key, k) {
          var j :| 0 <= j < |entries| && key(entries[j]) == k;
          assert r[j] == item;
        } else {
          assert r[|entries|] == item;
        }
      } else {
        if HasKey(r, key, k) {
          var j :| 0 <= j < |r| && key(r[j]) == k;
          assert j < |entries| && r[j] == entries[j];
        }
        if HasKey(entries, key, k) {
          var j :| 0 <= j < |entries| && key(entries[j]) == k;
          assert r[j] == entries[j];
        }
      }
    }
  }

  /** The keys of a list are those of all but its last row, and the last row's. */
  lemma HasKeyOfSnoc<K>(rows: seq<TestRow>, key: TestRow -> K)
    requires rows != []
    ensures forall k :: HasKey(rows, key, k) <==> HasKey(rows[..|rows| - 1], key, k) || k == key(rows[|rows| - 1])
  {
    var init := rows[..|rows| - 1];
    forall k ensures HasKey(rows, key, k) <==> HasKey(init, key, k) || k == key(rows[|rows| - 1]) {
      if HasKey(rows, key, k) {
        var i :| 0 <= i < |rows| && key(rows[i]) == k;
        if i < |init| {
          assert init[i] == rows[i];
        }
      }
      if HasKey(init, key, k) {
        var i :| 0 <= i < |init| && key(init[i]) == k;
        assert rows[i] == init[i];
      }
    }
  }

  /** Row i is the last row with its key. */
  ghost predicate LastWithKey<K>(rows: seq<TestRow>, key: TestRow -> K, i: int)
    requires 0 <= i < |rows|
  {
    forall l | i < l < |rows| :: key(rows[l]) != key(rows[i])
  }

  /** `e` is a row that no later row shares a key with. */
  ghost predicate IsLastOfKey<K>(rows: seq<TestRow>, key: TestRow -> K, e: TestRow) {
    exists i | 0 <= i < |rows| :: rows[i] == e && LastWithKey(rows, key, i)
  }

  /** Each value is the last row with its key: the later item wins. */
  lemma {:induction false} MapValuesLastWins<K>(rows: seq<TestRow>, key: TestRow -> K)
    ensures forall j | 0 <= j < |MapValues(rows, key)| :: IsLastOfKey(rows, key, MapValues(rows, key)[j])
  {
    if rows != [] {
      var last := |rows| - 1;
      var init := rows[..last];
      var item := rows[last];
      MapValuesLastWins(init, key);
      MapValuesDistinct(init, key);
      var d := MapValues(init, key);
      PutSpec(d, item, key);
      var u := MapValues(rows, key);
      assert LastWithKey(rows, key, last);
      forall j | 0 <= j < |u| ensures IsLastOfKey(rows, key, u[j]) {
        if j < |d| && key(d[j]) != key(item) {
          assert IsLastOfKey(init, key, d[j]);
          var i :| 0 <= i < |init| && init[i] == d[j] && LastWithKey(init, key, i);
          assert rows[i] == init[i];
          forall l | i < l < |rows| ensures key(rows[l]) != key(rows[i]) {
            if l < last {
              assert rows[l] == init[l];
            }
          }
          assert LastWithKey(rows, key, i);
        } else {
          assert u[j] == item;
        }
      }
    }
  }

  /** Row i is the first row with its key. */
  ghost predicate FirstWithKey<K>(rows: seq<TestRow>, key: TestRow -> K, i: int)
    requires 0 <= i < |rows|
  {
    forall l | 0 <= l < i :: key(rows[l]) != key(rows[i])
  }

  /** The key of `e` first appears in the rows at index `i`. */
  ghost predicate FirstAt<K>(rows: seq<TestRow>, key: TestRow -> K, e: TestRow, i: int) {
    0 <= i < |rows| && key(rows[i]) == key(e) && FirstWithKey(rows, key, i)
  }

  /** A first appearance before the last row is one in all rows but the last. */
  lemma FirstAtInit<K>(rows: seq<TestRow>, key: TestRow -> K, e: TestRow, i: int)
    requires FirstAt(rows, key, e, i) && i < |rows| - 1
    ensures FirstAt(rows[..|rows| - 1], key, e, i)
  {
    var init := rows[..|rows| - 1];
    forall l | 0 <= l < i ensures key(init[l]) != key(init[i]) {
      assert init[l] == rows[l] && init[i] == rows[i];
    }
  }

  /** The values are in order of first appearance of their keys. */
  lemma MapValuesFirstAppearanceOrder<K>(rows: seq<TestRow>, key: TestRow -> K)
    ensures var u := MapValues(rows, key);
      forall a, b, ia, ib | 0 <= a < b < |u| && FirstAt(rows, key, u[a], ia) && FirstAt(rows, key, u[b], ib) :: ia < ib
  {
    var u := MapValues(rows, key);
    forall a, b, ia, ib | 0 <= a < b < |u| && FirstAt(rows, key, u[a], ia) && FirstAt(rows, key, u[b], ib)
      ensures ia < ib
    {
      FirstAppearanceOrderAt(rows, key, a, b, ia, ib);
    }
  }

  /** Values a and b, a first, have keys first appearing at ia and ib: then ia comes first. */
  lemma {:induction false} FirstAppearanceOrderAt<K>(rows: seq<TestRow>, key: TestRow -> K, a: int, b: int, ia: int, ib: int)
    requires var u := MapValues(rows, key);
      0 <= a < b < |u| && FirstAt(rows, key, u[a], ia) && FirstAt(rows, key, u[b], ib)
    ensures ia < ib
  {
    assert rows != [];
    var init := rows[..|rows| - 1];
    MapValuesStep(rows, key);
    EarlierFirstAt(rows, key, a, ia);
    if b < |MapValues(init, key)| {
      EarlierFirstAt(rows, key, b, ib);
      FirstAppearanceOrderAt(init, key, a, b, ia, ib);
    } else {
      NewFirstAt(rows, key, b, ib);
    }
  }

  /** A value already there before the last row first appears, with its key, among the earlier rows. */
  lemma EarlierFirstAt<K>(rows: seq<TestRow>, key: TestRow -> K, a: int, ia: int)
    requires rows != []
    requires var d := MapValues(rows[..|rows| - 1], key);
      0 <= a < |d| && a < |MapValues(rows, key)| && FirstAt(rows, key, MapValues(rows, key)[a], ia)
    ensures ia < |rows| - 1
    ensures FirstAt(rows[..|rows| - 1], key, MapValues(rows[..|rows| - 1], key)[a], ia)
  {
    var init := rows[..|rows| - 1];
    var d := MapValues(init, key);
    MapValuesStep(rows, key);
    MapValuesKeyOf(init, key, key(d[a]));
    assert HasKey(d, key, key(d[a]));
    var i :| 0 <= i < |init| && key(init[i]) == key(d[a]);
    FirstAtNoLater(rows, key, MapValues(rows, key)[a], ia, i);
    FirstAtInit(rows, key, d[a], ia);
  }

  /** The value added for the last row first appears there. */
  lemma NewFirstAt<K>(rows: seq<TestRow>, key: TestRow -> K, b: int, ib: int)
    requires rows != []
    requires var u := MapValues(rows, key);
      |MapValues(rows[..|rows| - 1], key)| <= b < |u| && FirstAt(rows, key, u[b], ib)
    ensures ib == |rows| - 1
  {
    var last := |rows| - 1;
    var init := rows[..last];
    var d := MapValues(init, key);
    MapValuesStep(rows, key);
    assert MapValues(rows, key)[b] == rows[last] && !HasKey(d, key, key(rows[last]));
    MapValuesKeyOf(init, key, key(rows[last]));
    NewKeyFirstAtLast(rows, key, ib);
  }

  /** `MapValuesKeys` for one key. */
  lemma MapValuesKeyOf<K>(rows: seq<TestRow>, key: TestRow -> K, k: K)
    ensures HasKey(MapValues(rows, key), key, k) <==> HasKey(rows, key, k)
  {
    MapValuesKeys(rows, key);
  }

  /** One step of the fold: old entries keep their keys, and a new entry is the last row, whose key was absent. */
  lemma MapValuesStep<K>(rows: seq<TestRow>, key: TestRow -> K)
    requires rows != []
    ensures var d := MapValues(rows[..|rows| - 1], key);
      var u := MapValues(rows, key);
      var item := rows[|rows| - 1];
      && |d| <= |u| <= |d| + 1
      && (forall j | 0 <= j < |d| :: key(u[j]) == key(d[j]))
      && (|u| == |d| + 1 ==> u[|d|] == item && !HasKey(d, key, key(item)))
  {
    var init := rows[..|rows| - 1];
    MapValuesDistinct(init, key);
    PutSpec(MapValues(init, key), rows[|rows| - 1], key);
  }

  /** The first appearance of a key comes no later than any row with that key. */
  lemma FirstAtNoLater<K>(rows: seq<TestRow>, key: TestRow -> K, e: TestRow, ie: int, i: int)
    requires FirstAt(rows, key, e, ie)
    requires 0 <= i < |rows| - 1 && key(rows[..|rows| - 1][i]) == key(e)
    ensures ie <= i < |rows| - 1
  {
    assert rows[i] == rows[..|rows| - 1][i];
  }

  /** A key the earlier rows lack first appears at the last row. */
  lemma NewKeyFirstAtLast<K>(rows: seq<TestRow>, key: TestRow -> K, ib: int)
    requires rows != [] && !HasKey(rows[..|rows| - 1], key, key(rows[|rows| - 1]))
    requires FirstAt(rows, key, rows[|rows| - 1], ib)
    ensures ib == |rows| - 1
  {
    var init := rows[..|rows| - 1];
    assert forall j | 0 <= j < |init| :: init[j] == rows[j];
  }

  /**
   * Two tests whose texts collide are merged into one entry, the later one.
   * That needs a date holding "_", as ("a_b", "c") and ("a", "b_c") do; a
   * `DATE` column never yields one (`Scores.TestKeyInjective`).
   */
  lemma CollidingTestsMerge()
    ensures UniqueTests([TestRow("a_b", "c"), TestRow("a", "b_c")]) == [TestRow("a", "b_c")]
  {
    var r1, r2 := TestRow("a_b", "c"), TestRow("a", "b_c");
    assert RowKey(r1) == RowKey(r2) by {
      assert "a_b" + "_" + "c" == "a" + "_" + "b_c";
    }
    assert [r1, r2][..1] == [r1];
    assert [r1][..0] == [];
    assert MapValues([r1], RowKey) == [r1];
    assert Put([r1], r2, RowKey) == [r2];
  }

  /** The select value of a test: `${test_name}_${test_date}`. */
  function EncodeSelectValue(row: TestRow): string {
    TestKey(row.test_name, row.test_date)
  }

  /** The select value cut at every "_": the first piece is the test name and the second its date, missing when there is no "_". */
  function DecodeSelectValue(value: string): (TestRow, bool) {
    var parts := Text.Split(value, '_');
    if |parts| >= 2 then (TestRow(parts[0], parts[1]), true) else (TestRow(parts[0], ""), false)
  }

  /** The decoding as written gives the test back when neither field contains "_". */
  lemma DecodeEncodeWithoutUnderscore(row: TestRow)
    requires '_' !in row.test_name && '_' !in row.test_date
    ensures DecodeSelectValue(EncodeSelectValue(row)) == (row, true)
  {
    Text.SplitCons(row.test_name, '_', row.test_date);
    Text.SplitNoSeparator(row.test_date, '_');
  }

  /** The decoding as written loses the name "第1回_模試": it requests the test "第1回" of date "模試". */
  lemma DecodeSplitsName()
    ensures DecodeSelectValue(EncodeSelectValue(TestRow("第1回_模試", "2024-05-01")))
         == (TestRow("第1回", "模試"), true)
  {
    assert "第1回_模試" == "第1回" + "_" + "模試";
    DecodeTakesFirstTwoPieces("第1回", "模試", "2024-05-01");
  }

  /** Of a value with two or more "_", the decoding as written keeps only the first two pieces. */
  lemma DecodeTakesFirstTwoPieces(a: string, b: string, c: string)
    requires '_' !in a && '_' !in b
    ensures DecodeSelectValue(a + "_" + b + "_" + c) == (TestRow(a, b), true)
  {
    assert a + "_" + b + "_" + c == a + ['_'] + (b + ['_'] + c);
    Text.SplitCons(a, '_', b + ['_'] + c);
    Text.SplitCons(b, '_', c);
  }

  /** Position of the last `c` in `s`. */
  function LastIndexOf(s: string, c: char): (r: Option<nat>)
    ensures r.None? <==> c !in s
    ensures r.Some? ==> r.value < |s| && s[r.value] == c && c !in s[r.value + 1..]
  {
    if s == [] then None
    else if s[|s| - 1] == c then Some(|s| - 1)
    else
      var r := LastIndexOf(s[..|s| - 1], c);
      assert s == s[..|s| - 1] + [s[|s| - 1]];
      if r.Some? then
        assert s[r.value + 1..] == s[..|s| - 1][r.value + 1..] + [s[|s| - 1]];
        r
      else r
  }

  /** The corrected decoding: the name is the text before the last "_", the date the text after it. */
  function DecodeAtLastUnderscore(value: string): (TestRow, bool) {
    match LastIndexOf(value, '_')
    case None => (TestRow(value, ""), false)
    case Some(i) => (TestRow(value[..i], value[i + 1..]), true)
  }

  /** The corrected decoding gives back every test whose date holds no "_", as ISO dates do. */
  lemma DecodeAtLastUnderscoreEncode(row: TestRow)
    requires '_' !in row.test_date
    ensures DecodeAtLastUnderscore(EncodeSelectValue(row)) == (row, true)
  {
    var value := EncodeSelectValue(row);
    var n := |row.test_name|;
    assert value[n] == '_';
    var r := LastIndexOf(value, '_');
    assert r.Some?;
    assert value[..n] == row.test_name;
    assert value[n + 1..] == row.test_date;
  }

  /** Both decodings agree on every value the select box offers for a name without "_". */
  lemma DecodingsAgreeWithoutUnderscore(row: TestRow)
    requires '_' !in row.test_name && '_' !in row.test_date
    ensures DecodeAtLastUnderscore(EncodeSelectValue(row)) == DecodeSelectValue(EncodeSelectValue(row))
  {
    DecodeEncodeWithoutUnderscore(row);
    DecodeAtLastUnderscoreEncode(row);
  }

  datatype Medal = Crown | SilverMedal | BronzeMedal

  /** `getRankMedal`: a crown for rank 1, silver and bronze medals for ranks 2 and 3, nothing below. */
  function RankMedal(rank: int): (m: Option<Medal>)
    ensures m.Some? <==> 1 <= rank <= 3
    ensures m == Some(Crown) <==> rank == 1
    ensures m == Some(SilverMedal) <==> rank == 2
    ensures m == Some(BronzeMedal) <==> rank == 3
  {
    if rank == 1 then Some(Crown)
    else if rank == 2 then Some(SilverMedal)
    else if rank == 3 then Some(BronzeMedal)
    else None
  }

  /** `isPassingScore` of the table: the pass rule with missing sections read as 0. */
  predicate IsPassingScore(row: RankingRow) {
    Passes(OrZero(row.section_ad), OrZero(row.section_bc))
  }

  /** The ranking table and the student dashboard apply the same pass rule to the same sections. */
  lemma PassRuleAgreesWithDashboard(row: RankingRow, s: RankingUtils.ScoreWithStats)
    requires row.section_ad == s.score.section_ad && row.section_bc == s.score.section_bc
    ensures IsPassingScore(row) <==> Passes(OrZero(s.score.section_ad), OrZero(s.score.section_bc))
    ensures IsPassingScore(row) <==> OrZero(row.section_ad) >= 132.0 && OrZero(row.section_bc) >= 44.0
  {
  }

  const FetchError := "ランキングの取得に失敗しました"

  /** The React state of the page. */
  class RankingPageState {
    var loading: bool
    var error: Option<string>
    var totalRankings: seq<TotalRankingRow>
    var testRankings: seq<RankingRow>
    var tests: seq<TestRow>
    var selectedTest: string

    constructor ()
      ensures loading && error == None
      ensures totalRankings == [] && testRankings == [] && tests == [] && selectedTest == ""
    {
      loading := true;
      error := None;
      totalRankings := [];
      testRankings := [];
      tests := [];
      selectedTest := "";
    }

    /**
     * `fetchData`. A failed test query throws before any list is set: the
     * error message is shown and loading ends. Otherwise the de-duplicated
     * tests are listed, the first one is selected and its ranking fetched,
     * and the total ranking is fetched; `getTestRankings` and
     * `getTotalRankings` turn their own errors into empty lists.
     */
    method FetchData(
      testsData: RankingUtils.Answer<TestRow>,
      testRankingsCall: (string, string) -> RankingUtils.Answer<RankingRow>,
      totalRankingsCall: RankingUtils.Answer<TotalRankingRow>)
      modifies this
      ensures !loading
      ensures testsData.Failed? ==> error == Some(FetchError)
      ensures testsData.Failed? ==> tests == old(tests) && selectedTest == old(selectedTest)
      ensures testsData.Failed? ==> testRankings == old(testRankings) && totalRankings == old(totalRankings)
      ensures testsData.Rows? ==> error == None && tests == UniqueTests(testsData.rows)
      ensures testsData.Rows? && tests != [] ==>
        && selectedTest == EncodeSelectValue(tests[0])
        && testRankings == RankingUtils.RowsOrEmpty(testRankingsCall(tests[0].test_name, tests[0].test_date))
      ensures testsData.Rows? && tests == [] ==> selectedTest == old(selectedTest) && testRankings == old(testRankings)
      ensures testsData.Rows? ==> totalRankings == RankingUtils.RowsOrEmpty(totalRankingsCall)
    {
      loading := true;
      error := None;
      if testsData.Failed? {
        error := Some(FetchError);
        loading := false;
        return;
      }
      var uniqueTests := UniqueTests(testsData.rows);
      tests := uniqueTests;
      if |uniqueTests| > 0 {
        var latestTest := uniqueTests[0];
        selectedTest := EncodeSelectValue(latestTest);
        testRankings := RankingUtils.RowsOrEmpty(testRankingsCall(latestTest.test_name, latestTest.test_date));
      }
      totalRankings := RankingUtils.RowsOrEmpty(totalRankingsCall);
      loading := false;
    }

    /**
     * `handleTestChange`: the chosen value becomes the selection and the
     * ranking of the test decoded by `split("_")` is shown; a value without
     * "_" requests an empty date. `getTestRankings` does not throw, so the
     * error message is left as it was.
     */
    method HandleTestChange(value: string, testRankingsCall: (string, string) -> RankingUtils.Answer<RankingRow>)
      modifies this
      ensures selectedTest == value && !loading
      ensures var (row, _) := DecodeSelectValue(value);
        testRankings == RankingUtils.RowsOrEmpty(testRankingsCall(row.test_name, row.test_date))
      ensures error == old(error) && tests == old(tests) && totalRankings == old(totalRankings)
    {
      selectedTest := value;
      loading := true;
      var (row, _) := DecodeSelectValue(value);
      testRankings := RankingUtils.RowsOrEmpty(testRankingsCall(row.test_name, row.test_date));
      loading := false;
    }
  }

  /**
   * With the page's own decoding, choosing a test listed by `fetchData`
   * requests exactly that test's ranking when neither its name nor its date
   * holds "_".
   */
  lemma ChoosingListedTestAsWritten(rows: seq<TestRow>, j: int)
    requires 0 <= j < |UniqueTests(rows)|
    requires '_' !in UniqueTests(rows)[j].test_name && '_' !in UniqueTests(rows)[j].test_date
    ensures DecodeSelectValue(EncodeSelectValue(UniqueTests(rows)[j])).0 == UniqueTests(rows)[j]
  {
    DecodeEncodeWithoutUnderscore(UniqueTests(rows)[j]);
  }

  /**
   * With the corrected decoding, choosing any test listed by `fetchData`
   * (whose date holds no "_") requests exactly that test's ranking.
   */
  lemma ChoosingListedTestRequestsIt(rows: seq<TestRow>, j: int)
    requires 0 <= j < |UniqueTests(rows)|
    requires '_' !in UniqueTests(rows)[j].test_date
    ensures DecodeAtLastUnderscore(EncodeSelectValue(UniqueTests(rows)[j])).0 == UniqueTests(rows)[j]
  {
    DecodeAtLastUnderscoreEncode(UniqueTests(rows)[j]);
  }
}
