/** Sequence helpers shared by the query models: filtering (SQL `WHERE`) and an insertion sort
    by a key in SQLite's value order (SQL `ORDER BY`, and JavaScript's default `sort` on text). */
module Collections {
  import opened Sql

  function Filter<T(!new)>(s: seq<T>, p: T -> bool): (r: seq<T>)
    ensures |r| <= |s|
    ensures forall i | 0 <= i < |r| :: r[i] in s && p(r[i])
    ensures forall i | 0 <= i < |s| :: p(s[i]) ==> s[i] in r
    ensures forall x :: multiset(r)[x] == if p(x) then multiset(s)[x] else 0
  {
    if s == [] then []
    else
      assert s == [s[0]] + s[1..];
      if p(s[0]) then [s[0]] + Filter(s[1..], p)
      else Filter(s[1..], p)
  }

  /** Key `ka` may stand before key `kb` in ascending (`desc == false`) or descending order. */
  predicate InOrder(ka: SqlValue, kb: SqlValue, desc: bool) {
    if desc then Le(kb, ka) else Le(ka, kb)
  }

  ghost predicate SortedBy<T>(s: seq<T>, key: T -> SqlValue, desc: bool) {
    forall i, j | 0 <= i < j < |s| :: InOrder(key(s[i]), key(s[j]), desc)
  }

  /** Places `x` after the leading elements that may stand before it, so elements with equal
      keys keep their order of arrival. */
  function Insert<T>(x: T, s: seq<T>, key: T -> SqlValue, desc: bool): (r: seq<T>)
    ensures |r| == |s| + 1
    ensures multiset(r) == multiset(s) + multiset{x}
  {
    if s == [] then [x]
    else if !InOrder(key(s[0]), key(x), desc) then [x] + s
    else
      assert s == [s[0]] + s[1..];
      [s[0]] + Insert(x, s[1..], key, desc)
  }

  function SortBy<T>(s: seq<T>, key: T -> SqlValue, desc: bool): (r: seq<T>)
    ensures |r| == |s|
    ensures multiset(r) == multiset(s)
  {
    if s == [] then []
    else
      assert s == s[..|s| - 1] + [s[|s| - 1]];
      Insert(s[|s| - 1], SortBy(s[..|s| - 1], key, desc), key, desc)
  }

  /** Sorting keeps the elements. */
  lemma SortByMembers<T>(s: seq<T>, key: T -> SqlValue, desc: bool)
    ensures forall x :: x in SortBy(s, key, desc) <==> x in s
  {
    var r := SortBy(s, key, desc);
    forall x ensures x in r <==> x in s {
      assert x in r <==> x in multiset(r);
      assert x in s <==> x in multiset(s);
    }
  }

  lemma InOrderTotal(a: SqlValue, b: SqlValue, desc: bool)
    ensures InOrder(a, b, desc) || InOrder(b, a, desc)
  {
    LeTotal(a, b);
  }

  lemma InOrderTrans(a: SqlValue, b: SqlValue, c: SqlValue, desc: bool)
    requires InOrder(a, b, desc) && InOrder(b, c, desc)
    ensures InOrder(a, c, desc)
  {
    if desc { LeTrans(c, b, a); } else { LeTrans(a, b, c); }
  }

  /** A bound that holds of `x` and of every element of `s` holds of every element of the insertion. */
  lemma {:induction false} InsertKeepsLowerBound<T>(k0: SqlValue, x: T, s: seq<T>, key: T -> SqlValue, desc: bool)
    requires InOrder(k0, key(x), desc)
    requires forall i | 0 <= i < |s| :: InOrder(k0, key(s[i]), desc)
    ensures forall i | 0 <= i < |s| + 1 :: InOrder(k0, key(Insert(x, s, key, desc)[i]), desc)
  {
    if s != [] && InOrder(key(s[0]), key(x), desc) {
      InsertKeepsLowerBound(k0, x, s[1..], key, desc);
    }
  }

  lemma {:induction false} InsertSorted<T>(x: T, s: seq<T>, key: T -> SqlValue, desc: bool)
    requires SortedBy(s, key, desc)
    ensures SortedBy(Insert(x, s, key, desc), key, desc)
  {
    if s == [] {
    } else if !InOrder(key(s[0]), key(x), desc) {
      InOrderTotal(key(s[0]), key(x), desc);
      forall j | 0 <= j < |s| ensures InOrder(key(x), key(s[j]), desc) {
        if j > 0 { InOrderTrans(key(x), key(s[0]), key(s[j]), desc); }
      }
    } else {
      var t := s[1..];
      InsertSorted(x, t, key, desc);
      InsertKeepsLowerBound(key(s[0]), x, t, key, desc);
      assert Insert(x, s, key, desc) == [s[0]] + Insert(x, t, key, desc);
    }
  }

  lemma {:induction false} SortBySorted<T>(s: seq<T>, key: T -> SqlValue, desc: bool)
    ensures SortedBy(SortBy(s, key, desc), key, desc)
  {
    if s != [] {
      SortBySorted(s[..|s| - 1], key, desc);
      InsertSorted(s[|s| - 1], SortBy(s[..|s| - 1], key, desc), key, desc);
    }
  }

  /** Reordering keeps keys distinct: a permutation of rows whose keys are pairwise different
      has pairwise different keys. */
  lemma PermutationKeepsKeysDistinct<T>(s: seq<T>, r: seq<T>, key: T -> SqlValue)
    requires multiset(r) == multiset(s)
    requires forall i, j | 0 <= i < j < |s| :: key(s[i]) != key(s[j])
    ensures forall i, j | 0 <= i < j < |r| :: key(r[i]) != key(r[j])
  {
    forall i, j | 0 <= i < j < |r| ensures key(r[i]) != key(r[j]) {
      if r[i] == r[j] {
        TwiceCounted(r, i, j);
        OnceCounted(s, r[i], key);
      } else {
        assert r[i] in multiset(s) && r[j] in multiset(s);
        var a :| 0 <= a < |s| && s[a] == r[i];
        var b :| 0 <= b < |s| && s[b] == r[j];
        assert a != b;
      }
    }
  }

  /** A value at two positions is counted at least twice. */
  lemma TwiceCounted<T>(r: seq<T>, i: int, j: int)
    requires 0 <= i < j < |r| && r[i] == r[j]
    ensures multiset(r)[r[i]] >= 2
  {
    assert r == r[..j] + r[j..];
    assert r[i] in r[..j] && r[j] in r[j..];
  }

  /** In rows with pairwise different keys, no row is counted twice. */
  lemma OnceCounted<T>(s: seq<T>, x: T, key: T -> SqlValue)
    requires forall i, j | 0 <= i < j < |s| :: key(s[i]) != key(s[j])
    ensures multiset(s)[x] <= 1
  {
    if multiset(s)[x] > 0 {
      var a :| 0 <= a < |s| && s[a] == x;
      assert s == s[..a] + [x] + s[a + 1..];
      forall b | 0 <= b < a ensures s[..a][b] != x {
        assert key(s[b]) != key(s[a]);
      }
      var after := s[a + 1..];
      forall b | 0 <= b < |after| ensures after[b] != x {
        assert key(s[a]) != key(s[a + 1 + b]);
      }
      assert x !in s[..a] && x !in after;
    }
  }
}
