/**
 * `ORDER BY key DESC LIMIT k`, the shape of the two read queries of the
 * store (search results and recent cleanup runs). Ties may come out in any
 * order, as in SQL; the lemmas below say only what the query promises.
 */
module Ordering {

  /** Non-increasing by `key`. */
  ghost predicate SortedDesc<T>(s: seq<T>, key: T -> int) {
    forall i, j :: 0 <= i < j < |s| ==> key(s[i]) >= key(s[j])
  }

  function InsertDesc<T>(x: T, s: seq<T>, key: T -> int): (r: seq<T>)
    requires SortedDesc(s, key)
    ensures |r| == |s| + 1
    ensures SortedDesc(r, key)
    ensures multiset(r) == multiset(s) + multiset{x}
  {
    if s == [] || key(s[0]) < key(x) then [x] + s
    else
      var rest := InsertDesc(x, s[1..], key);
      assert s == [s[0]] + s[1..];
      ConsSortedDesc(s[0], rest, s[1..] + [x], key);
      [s[0]] + rest
  }

  /** A head whose key bounds every element of a sorted permutation keeps it sorted. */
  lemma ConsSortedDesc<T>(h: T, rest: seq<T>, pool: seq<T>, key: T -> int)
    requires SortedDesc(rest, key) && multiset(rest) == multiset(pool)
    requires forall j :: 0 <= j < |pool| ==> key(pool[j]) <= key(h)
    ensures SortedDesc([h] + rest, key)
  {
    forall j | 0 <= j < |rest| ensures key(rest[j]) <= key(h) {
      assert rest[j] in multiset(pool);
      var k :| 0 <= k < |pool| && pool[k] == rest[j];
    }
  }

  /** The rows of `s` rearranged newest (largest key) first. */
  function SortDesc<T>(s: seq<T>, key: T -> int): (r: seq<T>)
    ensures |r| == |s|
    ensures SortedDesc(r, key)
    ensures multiset(r) == multiset(s)
  {
    if s == [] then []
    else
      assert s == [s[0]] + s[1..];
      InsertDesc(s[0], SortDesc(s[1..], key), key)
  }

  function Min(a: int, b: int): int { if a <= b then a else b }

  /** `ORDER BY key DESC LIMIT limit` */
  function TopDesc<T>(s: seq<T>, key: T -> int, limit: nat): seq<T> {
    var sorted := SortDesc(s, key);
    sorted[..Min(limit, |sorted|)]
  }

  /**
   * What the query promises: at most `limit` rows, all taken from `s`,
   * largest key first, every row if there are fewer than `limit`, and no row
   * left out whose key is larger than one that was returned.
   */
  lemma TopDescSpec<T>(s: seq<T>, key: T -> int, limit: nat)
    ensures var r := TopDesc(s, key, limit);
      && |r| == Min(limit, |s|)
      && SortedDesc(r, key)
      && multiset(r) <= multiset(s)
      && (|s| <= limit ==> multiset(r) == multiset(s))
      && forall x, y :: x in s && x !in r && y in r ==> key(y) >= key(x)
  {
    TopDescShape(s, key, limit);
    var r := TopDesc(s, key, limit);
    forall x, y | x in s && x !in r && y in r ensures key(y) >= key(x) {
      TopDescLeftOut(s, key, limit, x, y);
    }
  }

  lemma TopDescShape<T>(s: seq<T>, key: T -> int, limit: nat)
    ensures var r := TopDesc(s, key, limit);
      && |r| == Min(limit, |s|)
      && SortedDesc(r, key)
      && multiset(r) <= multiset(s)
      && (|s| <= limit ==> multiset(r) == multiset(s))
  {
    var sorted := SortDesc(s, key);
    var m := Min(limit, |sorted|);
    PrefixOf(sorted, m, key);
    if |s| <= limit {
      assert sorted[..m] == sorted;
    }
  }

  /** A prefix of a sorted sequence is sorted and takes nothing the sequence lacks. */
  lemma PrefixOf<T>(s: seq<T>, n: nat, key: T -> int)
    requires n <= |s| && SortedDesc(s, key)
    ensures SortedDesc(s[..n], key) && multiset(s[..n]) <= multiset(s)
  {
    assert s == s[..n] + s[n..];
    assert multiset(s) == multiset(s[..n]) + multiset(s[n..]);
  }

  /** A row of `s` is left out only when `limit` rows came back, none with a smaller key. */
  lemma TopDescLeavesOut<T>(s: seq<T>, key: T -> int, limit: nat, x: T)
    requires x in s
    ensures var r := TopDesc(s, key, limit);
      x !in r ==> |r| == limit && forall y :: y in r ==> key(y) >= key(x)
  {
    var r := TopDesc(s, key, limit);
    TopDescSpec(s, key, limit);
    if |s| <= limit {
      assert x in multiset(s);
    }
  }

  lemma TopDescLeftOut<T>(s: seq<T>, key: T -> int, limit: nat, x: T, y: T)
    requires x in s && y in TopDesc(s, key, limit) && x !in TopDesc(s, key, limit)
    ensures key(y) >= key(x)
  {
    var sorted := SortDesc(s, key);
    var r := TopDesc(s, key, limit);
    assert x in multiset(s);
    assert x in multiset(sorted);
    var j :| 0 <= j < |sorted| && sorted[j] == x;
    var i :| 0 <= i < |r| && r[i] == y;
    assert j >= |r|;
    assert sorted[i] == y;
  }
}
