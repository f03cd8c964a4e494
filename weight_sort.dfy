/**
 * `uasort($rows, [SortArray, 'sortByWeightElement'])`: the rows of a PHP
 * array ordered by weight, each key staying with its value.
 */
module WeightSort {
  import opened Php

  predicate SortedByWeight<T>(a: PhpArray<T>, weight: T -> int) {
    forall i, j :: 0 <= i < j < |a| ==> weight(a[i].1) <= weight(a[j].1)
  }

  /** Inserts `e` before the first row that does not weigh less. */
  function InsertByWeight<T>(e: (string, T), a: PhpArray<T>, weight: T -> int): (r: PhpArray<T>)
    requires SortedByWeight(a, weight)
    ensures SortedByWeight(r, weight)
    ensures multiset(r) == multiset(a) + multiset{e}
    decreases |a|
  {
    if a == [] then [e]
    else if weight(e.1) <= weight(a[0].1) then
      [e] + a
    else
      var rest := InsertByWeight(e, a[1..], weight);
      InsertStep(e, a, rest, weight);
      [a[0]] + rest
  }

  /** The rows ordered by weight; rows of equal weight keep their relative order. */
  function SortByWeight<T>(a: PhpArray<T>, weight: T -> int): (r: PhpArray<T>)
    ensures SortedByWeight(r, weight)
    ensures multiset(r) == multiset(a)
    decreases |a|
  {
    if a == [] then []
    else
      assert a == [a[0]] + a[1..];
      InsertByWeight(a[0], SortByWeight(a[1..], weight), weight)
  }

  lemma InsertStep<T>(e: (string, T), a: PhpArray<T>, rest: PhpArray<T>, weight: T -> int)
    requires a != [] && SortedByWeight(a, weight) && weight(a[0].1) < weight(e.1)
    requires SortedByWeight(rest, weight) && multiset(rest) == multiset(a[1..]) + multiset{e}
    ensures SortedByWeight([a[0]] + rest, weight)
    ensures multiset([a[0]] + rest) == multiset(a) + multiset{e}
  {
    assert a == [a[0]] + a[1..];
    forall x | x in rest ensures weight(a[0].1) <= weight(x.1) {
      assert x in multiset(rest);
      if x in a[1..] {
        var i :| 0 <= i < |a[1..]| && a[1..][i] == x;
        assert a[i + 1] == x;
      }
    }
    var r := [a[0]] + rest;
    forall i, j | 0 <= i < j < |r| ensures weight(r[i].1) <= weight(r[j].1) {
      if i == 0 {
        assert r[j] == rest[j - 1] && rest[j - 1] in rest;
      } else {
        assert r[i] == rest[i - 1] && r[j] == rest[j - 1];
      }
    }
  }

  /** A row at two positions is counted at least twice. */
  lemma CountAtTwoPositions<T>(r: PhpArray<T>, i: int, j: int)
    requires 0 <= i < j < |r|
    ensures multiset(r)[r[i]] >= if r[j] == r[i] then 2 else 1
  {
    assert r == r[..j] + r[j..];
    assert r[i] in r[..j];
    assert r[j..][0] == r[j];
    assert multiset(r[..j])[r[i]] >= 1;
    if r[j] == r[i] {
      assert r[i] in r[j..];
    }
  }

  /** Rows with distinct keys are each counted once. */
  lemma {:induction false} UniqueKeysCountOnce<T>(a: PhpArray<T>, x: (string, T))
    requires UniqueKeys(a)
    ensures multiset(a)[x] <= 1
    decreases |a|
  {
    if a != [] {
      assert a == [a[0]] + a[1..];
      assert UniqueKeys(a[1..]) by {
        forall i, j | 0 <= i < j < |a[1..]| ensures a[1..][i].0 != a[1..][j].0 {
          assert a[1..][i] == a[i + 1] && a[1..][j] == a[j + 1];
        }
      }
      UniqueKeysCountOnce(a[1..], x);
      forall k | 0 <= k < |a[1..]| ensures a[1..][k].0 != a[0].0 {
        assert a[1..][k] == a[k + 1];
      }
      assert a[0] !in a[1..];
    }
  }

  /** Rows with distinct keys still have distinct keys when reordered. */
  lemma PermutationKeepsUniqueKeys<T>(a: PhpArray<T>, r: PhpArray<T>)
    requires multiset(r) == multiset(a) && UniqueKeys(a)
    ensures UniqueKeys(r)
  {
    forall i, j | 0 <= i < j < |r| ensures r[i].0 != r[j].0 {
      CountAtTwoPositions(r, i, j);
      UniqueKeysCountOnce(a, r[i]);
      assert r[i] in multiset(a) && r[j] in multiset(a);
      var i' :| 0 <= i' < |a| && a[i'] == r[i];
      var j' :| 0 <= j' < |a| && a[j'] == r[j];
    }
  }

  /** Sorting keeps exactly the rows, so exactly the keys. */
  lemma SortKeepsRows<T>(a: PhpArray<T>, weight: T -> int)
    ensures |SortByWeight(a, weight)| == |a|
    ensures forall e :: e in SortByWeight(a, weight) <==> e in a
    ensures forall k :: HasKey(SortByWeight(a, weight), k) <==> HasKey(a, k)
  {
    var r := SortByWeight(a, weight);
    assert |r| == |multiset(r)| == |multiset(a)| == |a|;
    assert forall e :: e in r <==> e in multiset(r);
    assert forall e :: e in a <==> e in multiset(a);
    forall k ensures HasKey(r, k) <==> HasKey(a, k) {
      if HasKey(r, k) {
        var i :| 0 <= i < |r| && r[i].0 == k;
        assert r[i] in a;
      }
      if HasKey(a, k) {
        var i :| 0 <= i < |a| && a[i].0 == k;
        assert a[i] in r;
      }
    }
  }
}
