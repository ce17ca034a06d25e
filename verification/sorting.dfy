/** A stable sort into non-increasing order of an integer key.

    Both `list.sort(key=..., reverse=True)` (stable in Python) and
    `ORDER BY ... DESC` are modelled with it. */
module Sorting {
  /** `s` is ordered by `key`, largest first. */
  predicate SortedDesc<T>(s: seq<T>, key: T -> int)
  {
    forall i, j :: 0 <= i < j < |s| ==> key(s[i]) >= key(s[j])
  }

  /** Elements of equal key appear in increasing order of `rank`. */
  predicate TiesByRank<T>(s: seq<T>, key: T -> int, rank: T -> int)
  {
    forall i, j :: 0 <= i < j < |s| && key(s[i]) == key(s[j]) ==> rank(s[i]) < rank(s[j])
  }

  /** `rank` strictly increases along `s`: it records the input order. */
  predicate RankIncreasing<T>(s: seq<T>, rank: T -> int)
  {
    forall i, j :: 0 <= i < j < |s| ==> rank(s[i]) < rank(s[j])
  }

  /** Places `x` in front of the first element whose key is not larger than its own. */
  function Insert<T>(x: T, s: seq<T>, key: T -> int): (r: seq<T>)
    requires SortedDesc(s, key)
    ensures |r| == |s| + 1
    ensures multiset(r) == multiset{x} + multiset(s)
    ensures r[0] == x || (|s| > 0 && r[0] == s[0])
    ensures SortedDesc(r, key)
  {
    if |s| == 0 || key(s[0]) <= key(x) then [x] + s
    else
      var rest := Insert(x, s[1..], key);
      assert s == [s[0]] + s[1..];
      assert key(rest[0]) <= key(s[0]);
      [s[0]] + rest
  }

  /** Insertion sort: each element lands before every later element of equal key. */
  function SortDesc<T>(s: seq<T>, key: T -> int): (r: seq<T>)
    ensures multiset(r) == multiset(s)
    ensures |r| == |s|
    ensures SortedDesc(r, key)
  {
    if |s| == 0 then []
    else
      assert s == [s[0]] + s[1..];
      Insert(s[0], SortDesc(s[1..], key), key)
  }

  lemma {:induction false} InsertKeepsTies<T>(x: T, s: seq<T>, key: T -> int, rank: T -> int)
    requires SortedDesc(s, key)
    requires TiesByRank(s, key, rank)
    requires forall i :: 0 <= i < |s| ==> rank(x) < rank(s[i])
    ensures TiesByRank(Insert(x, s, key), key, rank)
  {
    if |s| > 0 && key(s[0]) > key(x) {
      var rest := Insert(x, s[1..], key);
      InsertKeepsTies(x, s[1..], key, rank);
      var r := [s[0]] + rest;
      assert Insert(x, s, key) == r;
      forall j | 0 < j < |r| && key(r[0]) == key(r[j])
        ensures rank(r[0]) < rank(r[j])
      {
        assert r[j] in multiset(rest);
        if r[j] != x {
          TailTieRanksLater(s, r[j], key, rank);
        }
      }
    }
  }

  /** An element of the tail tied with the head ranks after it. */
  lemma TailTieRanksLater<T>(s: seq<T>, y: T, key: T -> int, rank: T -> int)
    requires |s| > 0 && TiesByRank(s, key, rank)
    requires y in multiset(s[1..]) && key(y) == key(s[0])
    ensures rank(s[0]) < rank(y)
  {
    var m :| 0 <= m < |s[1..]| && s[1..][m] == y;
    assert s[m + 1] == y;
  }

  /** Stability: when `rank` records the input order, elements of equal key
      leave the sort in input order. */
  lemma {:induction false} SortDescKeepsTies<T>(s: seq<T>, key: T -> int, rank: T -> int)
    requires RankIncreasing(s, rank)
    ensures TiesByRank(SortDesc(s, key), key, rank)
  {
    if |s| > 0 {
      var sorted := SortDesc(s[1..], key);
      SortDescKeepsTies(s[1..], key, rank);
      forall i | 0 <= i < |sorted|
        ensures rank(s[0]) < rank(sorted[i])
      {
        assert sorted[i] in multiset(s[1..]);
        var m :| 0 <= m < |s[1..]| && s[1..][m] == sorted[i];
        assert s[m + 1] == sorted[i];
      }
      InsertKeepsTies(s[0], sorted, key, rank);
    }
  }
}
