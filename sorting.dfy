/**
 * `Array.prototype.sort` with a comparator, as the portal calls it on fresh
 * copies of its lists. Since ES2019 the sort is stable; it is
 * modelled by an insertion sort in which `le(a, b)` stands for
 * `cmp(a, b) <= 0`, "a may stay in front of b". The insertion keeps equal
 * elements in input order by construction; the lemmas prove that only for
 * an always-equal comparator.
 */
module Sorting {
  import Text

  /** `le` is total and transitive, as a comparator built from a key is. */
  ghost predicate TotalPreorder<T(!new)>(le: (T, T) -> bool) {
    && (forall a, b :: le(a, b) || le(b, a))
    && (forall a, b, c :: le(a, b) && le(b, c) ==> le(a, c))
  }

  predicate SortedBy<T>(s: seq<T>, le: (T, T) -> bool) {
    forall i, j | 0 <= i < j < |s| :: le(s[i], s[j])
  }

  /** Places `x` in front of the first element it may precede. */
  function Insert<T>(x: T, s: seq<T>, le: (T, T) -> bool): (r: seq<T>)
    ensures |r| == |s| + 1
    ensures multiset(r) == multiset(s) + multiset{x}
    ensures forall i | 0 <= i < |r| :: r[i] == x || r[i] in s
  {
    if s == [] then [x]
    else if le(x, s[0]) then [x] + s
    else
      assert s == [s[0]] + s[1..];
      [s[0]] + Insert(x, s[1..], le)
  }

  /** Insertion sort: earlier elements are inserted last, so they stay in front of equal ones. */
  function Sort<T>(s: seq<T>, le: (T, T) -> bool): (r: seq<T>)
    ensures |r| == |s|
    ensures multiset(r) == multiset(s)
  {
    if s == [] then []
    else
      assert s == [s[0]] + s[1..];
      Insert(s[0], Sort(s[1..], le), le)
  }

  lemma {:induction false} InsertSorted<T(!new)>(x: T, s: seq<T>, le: (T, T) -> bool)
    requires TotalPreorder(le)
    requires SortedBy(s, le)
    ensures SortedBy(Insert(x, s, le), le)
  {
    if s != [] && !le(x, s[0]) {
      assert le(s[0], x);
      InsertSorted(x, s[1..], le);
      var t := Insert(x, s[1..], le);
      var r := Insert(x, s, le);
      assert r == [s[0]] + t;
      forall y | y in t ensures le(s[0], y) {
        if y != x {
          var m :| 0 <= m < |s[1..]| && s[1..][m] == y;
          assert s[m + 1] == y;
        }
      }
      forall i, j | 0 <= i < j < |r| ensures le(r[i], r[j]) {
        assert r[j] == t[j - 1];
        if i > 0 {
          assert r[i] == t[i - 1];
        } else {
          assert t[j - 1] in t;
        }
      }
    }
  }

  /** The result of `Sort` is ordered by `le` whenever `le` is a total preorder. */
  lemma {:induction false} SortSorted<T(!new)>(s: seq<T>, le: (T, T) -> bool)
    requires TotalPreorder(le)
    ensures SortedBy(Sort(s, le), le)
  {
    if s != [] {
      SortSorted(s[1..], le);
      InsertSorted(s[0], Sort(s[1..], le), le);
    }
  }

  /** A comparator that always answers 0 (`le` always true) leaves the order as it was. */
  lemma {:induction false} SortAllEqualIsIdentity<T>(s: seq<T>, le: (T, T) -> bool)
    requires forall i, j | 0 <= i < |s| && 0 <= j < |s| :: le(s[i], s[j])
    ensures Sort(s, le) == s
  {
    if s != [] {
      var tail := s[1..];
      forall i, j | 0 <= i < |tail| && 0 <= j < |tail| ensures le(tail[i], tail[j]) {
        assert tail[i] == s[i + 1] && tail[j] == s[j + 1];
      }
      SortAllEqualIsIdentity(tail, le);
      assert s == [s[0]] + tail;
      assert Sort(s, le) == Insert(s[0], tail, le);
      if tail != [] {
        assert le(s[0], tail[0]) by { assert tail[0] == s[1]; }
      }
    }
  }

  /** The comparator by descending numeric key: larger keys first. */
  function ByKeyDesc<T>(key: T -> real): (T, T) -> bool {
    (a: T, b: T) => key(a) >= key(b)
  }

  /** In a list sorted by descending key, the first element has the largest key and the last the smallest. */
  lemma SortedDescEnds<T>(r: seq<T>, key: T -> real)
    requires |r| > 0 && SortedBy(r, ByKeyDesc(key))
    ensures forall x | x in r :: key(x) <= key(r[0]) && key(r[|r| - 1]) <= key(x)
  {
    forall x | x in r ensures key(x) <= key(r[0]) && key(r[|r| - 1]) <= key(x) {
      var i :| 0 <= i < |r| && r[i] == x;
      if i > 0 {
        assert ByKeyDesc(key)(r[0], r[i]);
      }
      if i < |r| - 1 {
        assert ByKeyDesc(key)(r[i], r[|r| - 1]);
      }
    }
  }

  /** Ascending text order by `localeCompare`, read as code-point order: smaller text first. */
  function ByTextAsc<T>(key: T -> string): (T, T) -> bool {
    (a: T, b: T) => Text.StrLe(key(a), key(b))
  }

  /** Later text first, as `new Date(b) - new Date(a)` orders ISO dates. */
  function ByTextDesc<T>(key: T -> string): (T, T) -> bool {
    (a: T, b: T) => Text.StrLe(key(b), key(a))
  }

  /** The comparator that always answers 0: every pair may stay as it is. */
  function KeepOrder<T>(): (T, T) -> bool {
    (a: T, b: T) => true
  }

  lemma ByKeyDescIsTotalPreorder<T(!new)>(key: T -> real)
    ensures TotalPreorder(ByKeyDesc(key))
  {
  }

  lemma ByTextAscIsTotalPreorder<T(!new)>(key: T -> string)
    ensures TotalPreorder(ByTextAsc(key))
  {
    forall a: T, b: T ensures ByTextAsc(key)(a, b) || ByTextAsc(key)(b, a) {
      Text.StrLeTotal(key(a), key(b));
    }
    forall a: T, b: T, c: T | ByTextAsc(key)(a, b) && ByTextAsc(key)(b, c) ensures ByTextAsc(key)(a, c) {
      Text.StrLeTransitive(key(a), key(b), key(c));
    }
  }

  lemma ByTextDescIsTotalPreorder<T(!new)>(key: T -> string)
    ensures TotalPreorder(ByTextDesc(key))
  {
    forall a: T, b: T ensures ByTextDesc(key)(a, b) || ByTextDesc(key)(b, a) {
      Text.StrLeTotal(key(a), key(b));
    }
    forall a: T, b: T, c: T | ByTextDesc(key)(a, b) && ByTextDesc(key)(b, c) ensures ByTextDesc(key)(a, c) {
      Text.StrLeTransitive(key(c), key(b), key(a));
    }
  }

  /** Sorting with the always-0 comparator returns the input unchanged. */
  lemma SortKeepOrder<T>(s: seq<T>)
    ensures Sort(s, KeepOrder()) == s
  {
    SortAllEqualIsIdentity(s, KeepOrder());
  }
}
