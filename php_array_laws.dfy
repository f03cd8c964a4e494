/** Laws of assigning keys in PHP's ordered arrays. */
module PhpArrayLaws {
  import opened Php

  /** Assignments to two different keys commute once the array holds the second key. */
  lemma PutCommute<V>(a: PhpArray<V>, k1: string, v1: V, k2: string, v2: V)
    requires k1 != k2 && HasKey(a, k1)
    ensures Put(Put(a, k2, v2), k1, v1) == Put(Put(a, k1, v1), k2, v2)
  {
    var i, j := IndexOf(a, k1), IndexOf(a, k2);
    if j == -1 {
      PutCommuteOneAbsent(a, k1, v1, k2, v2, i);
    } else {
      PutCommuteBothPresent(a, k1, v1, k2, v2, i, j);
    }
  }

  /** Assigning a key twice leaves only the second assignment. */
  lemma PutPut<V>(a: PhpArray<V>, k: string, v: V, w: V)
    ensures Put(Put(a, k, v), k, w) == Put(a, k, w)
  {
    var i := IndexOf(a, k);
    if i == -1 {
      PutAppend(a, k, v);
      AppendIndexOf(a, k, v);
      PutAtIndex(a + [(k, v)], k, w, |a|);
      assert (a + [(k, v)])[|a| := (k, w)] == a + [(k, w)];
      PutAppend(a, k, w);
    } else {
      PutAtIndex(a, k, v, i);
      UpdateKeepsIndex(a, i, (k, v), k);
      PutAtIndex(a[i := (k, v)], k, w, i);
      assert a[i := (k, v)][i := (k, w)] == a[i := (k, w)];
      PutAtIndex(a, k, w, i);
    }
  }

  lemma PutAtIndex<V>(a: PhpArray<V>, k: string, v: V, i: int)
    requires 0 <= i < |a| && IndexOf(a, k) == i
    ensures Put(a, k, v) == a[i := (k, v)]
  {
  }

  lemma PutAppend<V>(a: PhpArray<V>, k: string, v: V)
    requires IndexOf(a, k) == -1
    ensures Put(a, k, v) == a + [(k, v)]
  {
  }

  lemma UpdateKeepsIndex<V>(a: PhpArray<V>, j: int, e: (string, V), k: string)
    requires 0 <= j < |a| && e.0 == a[j].0
    ensures IndexOf(a[j := e], k) == IndexOf(a, k)
  {
    assert Keys(a[j := e]) == Keys(a);
    SameKeysIndexOf(a, a[j := e], k);
  }

  lemma AppendKeepsIndex<V>(a: PhpArray<V>, e: (string, V), k: string, i: int)
    requires 0 <= i < |a| && IndexOf(a, k) == i
    ensures IndexOf(a + [e], k) == i
  {
    PrefixIndexOf(a, [e], k);
  }

  /** Two assignments to keys already present, at positions `i` and then `j`. */
  lemma PutTwicePresent<V>(a: PhpArray<V>, k1: string, v1: V, k2: string, v2: V, i: int, j: int)
    requires 0 <= i < |a| && 0 <= j < |a| && IndexOf(a, k1) == i && IndexOf(a, k2) == j
    ensures Put(Put(a, k1, v1), k2, v2) == a[i := (k1, v1)][j := (k2, v2)]
  {
    PutAtIndex(a, k1, v1, i);
    UpdateKeepsIndex(a, i, (k1, v1), k2);
    PutAtIndex(a[i := (k1, v1)], k2, v2, j);
  }

  lemma PutCommuteBothPresent<V>(a: PhpArray<V>, k1: string, v1: V, k2: string, v2: V, i: int, j: int)
    requires 0 <= i < |a| && 0 <= j < |a| && IndexOf(a, k1) == i && IndexOf(a, k2) == j && k1 != k2
    ensures Put(Put(a, k2, v2), k1, v1) == Put(Put(a, k1, v1), k2, v2)
  {
    assert i != j by { assert a[i].0 == k1 && a[j].0 == k2; }
    PutTwicePresent(a, k1, v1, k2, v2, i, j);
    PutTwicePresent(a, k2, v2, k1, v1, j, i);
    UpdatesCommute(a, i, (k1, v1), j, (k2, v2));
  }

  lemma UpdatesCommute<T>(a: seq<T>, i: int, x: T, j: int, y: T)
    requires 0 <= i < |a| && 0 <= j < |a| && i != j
    ensures a[i := x][j := y] == a[j := y][i := x]
  {
  }

  lemma PutCommuteOneAbsent<V>(a: PhpArray<V>, k1: string, v1: V, k2: string, v2: V, i: int)
    requires 0 <= i < |a| && IndexOf(a, k1) == i && IndexOf(a, k2) == -1
    ensures Put(Put(a, k2, v2), k1, v1) == Put(Put(a, k1, v1), k2, v2)
  {
    PutAtIndex(a, k1, v1, i);
    PutAppend(a, k2, v2);
    AppendKeepsIndex(a, (k2, v2), k1, i);
    PutAtIndex(a + [(k2, v2)], k1, v1, i);
    UpdateKeepsIndex(a, i, (k1, v1), k2);
    PutAppend(a[i := (k1, v1)], k2, v2);
    assert (a + [(k2, v2)])[i := (k1, v1)] == a[i := (k1, v1)] + [(k2, v2)];
  }

  /** After `$a[$k] = $v` the keys are those of `a` and `k`. */
  lemma PutHasKey<V>(a: PhpArray<V>, k: string, v: V, k': string)
    ensures HasKey(Put(a, k, v), k') <==> HasKey(a, k') || k' == k
  {
    var r := Put(a, k, v);
    assert Get(r, k') == if k' == k then Some(v) else Get(a, k');
    assert Get(r, k').Some? <==> HasKey(r, k');
    assert Get(a, k').Some? <==> HasKey(a, k');
  }

  /** In an array with distinct keys, an entry is what its key reads. */
  lemma GetMember<V>(a: PhpArray<V>, e: (string, V))
    requires UniqueKeys(a) && e in a
    ensures Get(a, e.0) == Some(e.1)
  {
    var t :| 0 <= t < |a| && a[t] == e;
    assert HasKey(a, e.0);
  }

  /** `$a[$k] = $v` holds the entries of `a` and the new one, nothing else. */
  lemma PutMembers<V>(a: PhpArray<V>, k: string, v: V)
    ensures forall e :: e in Put(a, k, v) ==> e in a || e == (k, v)
  {
    var i := IndexOf(a, k);
    if i >= 0 {
      PutAtIndex(a, k, v, i);
    }
  }
}
