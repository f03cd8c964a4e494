/**
 * The PHP runtime behaviour that the modelled modules rely on: NULL-able values,
 * `empty()` on strings, the string functions they call, and PHP's ordered arrays.
 */
module Php {

  /** A value that PHP may leave NULL (or an array key that may be absent). */
  datatype Option<+T> = None | Some(value: T) {
    function GetOr(default: T): T {
      if Some? then value else default
    }
  }

  /** A PHP scalar that may be an integer or a string (form and config values). */
  datatype Scalar = IntVal(i: int) | StrVal(s: string)

  /** `empty($s)` for a string: only "" and "0" are empty. */
  predicate EmptyStr(s: string) {
    s == "" || s == "0"
  }

  /** PHP truthiness of a string that may be NULL. */
  predicate Truthy(o: Option<string>) {
    o.Some? && !EmptyStr(o.value)
  }

  /** Loose `==` between a string and a string-or-NULL (NULL equals only ""). */
  predicate LooseEq(s: string, o: Option<string>) {
    if o.None? then s == "" else s == o.value
  }

  predicate StartsWith(s: string, prefix: string) {
    |prefix| <= |s| && s[..|prefix|] == prefix
  }

  /** True when `sub` occurs somewhere in `s`. */
  predicate Occurs(s: string, sub: string) {
    exists i :: 0 <= i <= |s| && StartsWith(s[i..], sub)
  }

  // ---------------------------------------------------------------------------
  // str_replace, the first-occurrence replacement of preg_replace(..., 1), strtr

  /** `str_replace($search, $repl, $s)`: non-overlapping occurrences, left to right. */
  function StrReplace(s: string, search: string, repl: string): string
    requires search != ""
    decreases |s|
  {
    if |s| < |search| then s
    else if s[..|search|] == search then repl + StrReplace(s[|search|..], search, repl)
    else [s[0]] + StrReplace(s[1..], search, repl)
  }

  lemma {:induction false} StrReplaceAbsent(s: string, search: string, repl: string)
    requires search != ""
    requires !Occurs(s, search)
    ensures StrReplace(s, search, repl) == s
    decreases |s|
  {
    if |s| >= |search| {
      assert s[0..] == s;
      assert s[..|search|] != search;
      forall i | 0 <= i <= |s| - 1 ensures !StartsWith(s[1..][i..], search) {
        assert s[1..][i..] == s[i + 1..];
      }
      StrReplaceAbsent(s[1..], search, repl);
    }
  }

  /** Replacing a character by text free of it leaves none behind. */
  lemma {:induction false} StrReplaceCharGone(s: string, c: char, repl: string)
    requires c !in repl
    ensures c !in StrReplace(s, [c], repl)
    decreases |s|
  {
    if |s| >= 1 {
      StrReplaceCharGone(s[1..], c, repl);
      if s[..1] != [c] {
        assert s[0] != c;
      }
    }
  }

  /** Replaces the first occurrence of a literal `search` only. */
  function ReplaceFirst(s: string, search: string, repl: string): string
    requires search != ""
    decreases |s|
  {
    if |s| < |search| then s
    else if s[..|search|] == search then repl + s[|search|..]
    else [s[0]] + ReplaceFirst(s[1..], search, repl)
  }

  /** The longest non-empty key of `pairs` that starts `s` (first such on ties). */
  function LongestMatch(s: string, pairs: seq<(string, string)>): (r: Option<(string, string)>)
    ensures r.Some? ==> r.value in pairs && r.value.0 != "" && StartsWith(s, r.value.0)
    ensures r.Some? ==> forall p :: p in pairs && p.0 != "" && StartsWith(s, p.0) ==> |p.0| <= |r.value.0|
    ensures r.None? ==> forall p :: p in pairs && p.0 != "" ==> !StartsWith(s, p.0)
  {
    if pairs == [] then None
    else
      var rest := LongestMatch(s, pairs[1..]);
      if pairs[0].0 != "" && StartsWith(s, pairs[0].0) && (rest.None? || |rest.value.0| <= |pairs[0].0|)
      then Some(pairs[0])
      else rest
  }

  /**
   * `strtr($s, $pairs)`: at each position the longest matching key is replaced,
   * and replaced text is never searched again. Callers pass non-empty keys.
   */
  function Strtr(s: string, pairs: seq<(string, string)>): string
    decreases |s|
  {
    if s == "" then ""
    else match LongestMatch(s, pairs)
      case None => [s[0]] + Strtr(s[1..], pairs)
      case Some(p) => p.1 + Strtr(s[|p.0|..], pairs)
  }

  lemma {:induction false} StrtrNoKeyStart(s: string, pairs: seq<(string, string)>, c: char)
    requires s != [] && s[0] == c
    requires forall p :: p in pairs ==> p.0 != "" && p.0[0] != c
    ensures Strtr(s, pairs) == [c] + Strtr(s[1..], pairs)
  {
  }

  /** A literal prefix free of the character every key starts with is copied unchanged. */
  lemma {:induction false} StrtrLiteralPrefix(lit: string, rest: string, pairs: seq<(string, string)>, c: char)
    requires c !in lit
    requires forall p :: p in pairs ==> p.0 != "" && p.0[0] == c
    ensures Strtr(lit + rest, pairs) == lit + Strtr(rest, pairs)
    decreases |lit|
  {
    if lit != [] {
      var s := lit + rest;
      assert s[0] == lit[0];
      assert s[1..] == lit[1..] + rest;
      StrtrLiteralPrefix(lit[1..], rest, pairs, c);
    } else {
      assert lit + rest == rest;
    }
  }

  // ---------------------------------------------------------------------------
  // explode / preg_split on a character class, implode, trim, strtolower

  /** `explode` on a one-character separator, or `preg_split('/[..]/')` on a class. */
  function Split(s: string, seps: set<char>): (r: seq<string>)
    ensures |r| >= 1
    ensures forall k :: 0 <= k < |r| ==> forall c :: c in r[k] ==> c !in seps
    decreases |s|
  {
    if |s| == 0 then [""]
    else if s[0] in seps then [""] + Split(s[1..], seps)
    else
      var t := Split(s[1..], seps);
      [[s[0]] + t[0]] + t[1..]
  }

  /** `implode($glue, $parts)`. */
  function Implode(glue: string, parts: seq<string>): string
    decreases |parts|
  {
    if |parts| == 0 then ""
    else if |parts| == 1 then parts[0]
    else parts[0] + glue + Implode(glue, parts[1..])
  }

  lemma ImplodeHead(glue: string, x: string, parts: seq<string>)
    requires |parts| >= 1
    ensures Implode(glue, [x + parts[0]] + parts[1..]) == x + Implode(glue, parts)
  {
    var q := [x + parts[0]] + parts[1..];
    assert q[1..] == parts[1..];
  }

  /** Joining the pieces with any one separator gives back the text when there is one separator. */
  lemma {:induction false} SplitImplode(s: string, sep: char)
    ensures Implode([sep], Split(s, {sep})) == s
    decreases |s|
  {
    if |s| > 0 {
      SplitImplode(s[1..], sep);
      var t := Split(s[1..], {sep});
      if s[0] == sep {
        var r := [""] + t;
        assert r[1..] == t;
        if |t| == 1 {
          assert Implode([sep], r) == "" + [sep] + t[0];
        }
        assert s == [s[0]] + s[1..];
      } else {
        ImplodeHead([sep], [s[0]], t);
        assert s == [s[0]] + s[1..];
      }
    }
  }

  /** A text with no separator is one piece. */
  lemma {:induction false} SplitNoSeparator(s: string, seps: set<char>)
    requires forall c :: c in s ==> c !in seps
    ensures Split(s, seps) == [s]
    decreases |s|
  {
    if |s| > 0 {
      assert s[0] in s;
      forall c | c in s[1..] ensures c !in seps {
        assert c in s;
      }
      SplitNoSeparator(s[1..], seps);
      assert [s[0]] + s[1..] == s;
    }
  }

  /** A separator-free head is the first piece; the rest is split on. */
  lemma {:induction false} SplitPrefix(a: string, sep: char, rest: string)
    requires sep !in a
    ensures Split(a + [sep] + rest, {sep}) == [a] + Split(rest, {sep})
    decreases |a|
  {
    if a == [] {
      assert a + [sep] + rest == [sep] + rest;
      assert ([sep] + rest)[1..] == rest;
    } else {
      var s := a + [sep] + rest;
      assert s[0] == a[0] && s[0] != sep;
      assert s[1..] == a[1..] + [sep] + rest;
      SplitPrefix(a[1..], sep, rest);
      assert [a[0]] + a[1..] == a;
    }
  }

  /** Two separator-free parts joined by the separator split back into those two parts. */
  lemma SplitTwo(a: string, sep: char, b: string)
    requires sep !in a && sep !in b
    ensures Split(a + [sep] + b, {sep}) == [a, b]
  {
    SplitPrefix(a, sep, b);
    SplitNoSeparator(b, {sep});
  }

  /** Three separator-free parts joined by the separator split back into those three parts. */
  lemma SplitThree(a: string, sep: char, b: string, c: string)
    requires sep !in a && sep !in b && sep !in c
    ensures Split(a + [sep] + b + [sep] + c, {sep}) == [a, b, c]
  {
    assert a + [sep] + b + [sep] + c == a + [sep] + (b + [sep] + c);
    SplitPrefix(a, sep, b + [sep] + c);
    SplitTwo(b, sep, c);
  }

  /** A text holding the separator splits into at least two pieces. */
  lemma {:induction false} SplitHasSeparator(s: string, sep: char)
    requires sep in s
    ensures |Split(s, {sep})| >= 2
    decreases |s|
  {
    if s[0] != sep {
      assert sep in s[1..] by {
        var i :| 0 <= i < |s| && s[i] == sep;
        assert s[1..][i - 1] == sep;
      }
      SplitHasSeparator(s[1..], sep);
    }
  }

  /** Implode peels off its last part. */
  lemma {:induction false} ImplodeLast(glue: string, parts: seq<string>)
    requires |parts| >= 2
    ensures Implode(glue, parts) == Implode(glue, parts[..|parts| - 1]) + glue + parts[|parts| - 1]
    decreases |parts|
  {
    if |parts| > 2 {
      ImplodeLast(glue, parts[1..]);
      assert parts[1..][..|parts| - 2] == parts[..|parts| - 1][1..];
    } else {
      assert parts[..1] == [parts[0]];
    }
  }

  /** The characters PHP's `trim()` strips by default. */
  const Whitespace: set<char> := {' ', '\t', '\n', '\r', '\0', '\U{000B}'}

  function TrimLeft(s: string, chars: set<char>): (r: string)
    ensures |r| <= |s| && r == s[|s| - |r|..]
    ensures r != [] ==> r[0] !in chars
    decreases |s|
  {
    if |s| > 0 && s[0] in chars then TrimLeft(s[1..], chars) else s
  }

  function TrimRight(s: string, chars: set<char>): (r: string)
    ensures |r| <= |s| && r == s[..|r|]
    ensures r != [] ==> r[|r| - 1] !in chars
    decreases |s|
  {
    if |s| > 0 && s[|s| - 1] in chars then TrimRight(s[..|s| - 1], chars) else s
  }

  /** `trim($s, $chars)`. */
  function Trim(s: string, chars: set<char>): string {
    TrimRight(TrimLeft(s, chars), chars)
  }

  function LowerChar(c: char): char {
    if 'A' <= c <= 'Z' then (c as int + 32) as char else c
  }

  /** `strtolower` on ASCII letters. */
  function ToLower(s: string): (r: string)
    ensures |r| == |s|
    ensures forall i :: 0 <= i < |s| ==> r[i] == LowerChar(s[i])
  {
    seq(|s|, i requires 0 <= i < |s| => LowerChar(s[i]))
  }

  // ---------------------------------------------------------------------------
  // PHP ordered arrays with string keys

  type PhpArray<V> = seq<(string, V)>

  function Keys<V>(a: PhpArray<V>): (r: seq<string>)
    ensures |r| == |a| && forall i :: 0 <= i < |a| ==> r[i] == a[i].0
  {
    seq(|a|, i requires 0 <= i < |a| => a[i].0)
  }

  predicate HasKey<V>(a: PhpArray<V>, k: string) {
    exists i :: 0 <= i < |a| && a[i].0 == k
  }

  predicate UniqueKeys<V>(a: PhpArray<V>) {
    forall i, j :: 0 <= i < j < |a| ==> a[i].0 != a[j].0
  }

  /** Position of key `k`, or -1 when absent. */
  function IndexOf<V>(a: PhpArray<V>, k: string): (r: int)
    ensures -1 <= r < |a|
    ensures r >= 0 ==> a[r].0 == k && forall j :: 0 <= j < r ==> a[j].0 != k
    ensures r == -1 <==> !HasKey(a, k)
    decreases |a|
  {
    if |a| == 0 then -1
    else if a[0].0 == k then 0
    else
      var r := IndexOf(a[1..], k);
      if r == -1 then (assert forall i :: 1 <= i < |a| ==> a[i] == a[1..][i - 1]; -1) else r + 1
  }

  /** `$a[$k]`, NULL when absent. */
  function Get<V>(a: PhpArray<V>, k: string): Option<V> {
    var i := IndexOf(a, k);
    if i == -1 then None else Some(a[i].1)
  }

  /** `$a[$k] = $v`: an existing key keeps its position, a new key goes last. */
  function Put<V>(a: PhpArray<V>, k: string, v: V): (r: PhpArray<V>)
    ensures HasKey(a, k) ==> |r| == |a| && Keys(r) == Keys(a)
    ensures !HasKey(a, k) ==> r == a + [(k, v)]
    ensures Get(r, k) == Some(v)
    ensures forall k' :: k' != k ==> Get(r, k') == Get(a, k')
    ensures UniqueKeys(a) ==> UniqueKeys(r)
  {
    var i := IndexOf(a, k);
    if i == -1 then
      var r := a + [(k, v)];
      AppendIndexOf(a, k, v);
      assert forall k' :: k' != k ==> IndexOf(r, k') == IndexOf(a, k') by {
        forall k' | k' != k ensures IndexOf(r, k') == IndexOf(a, k') {
          PrefixIndexOf(a, [(k, v)], k');
        }
      }
      r
    else
      var r := a[i := (k, v)];
      assert Keys(r) == Keys(a);
      assert forall k' :: IndexOf(r, k') == IndexOf(a, k') by {
        forall k' ensures IndexOf(r, k') == IndexOf(a, k') {
          SameKeysIndexOf(a, r, k');
        }
      }
      r
  }

  lemma {:induction false} PrefixIndexOf<V>(a: PhpArray<V>, b: PhpArray<V>, k: string)
    requires HasKey(a, k) || forall j :: 0 <= j < |b| ==> b[j].0 != k
    ensures IndexOf(a + b, k) == IndexOf(a, k)
    decreases |a|
  {
    if |a| > 0 {
      assert (a + b)[1..] == a[1..] + b;
      if a[0].0 != k {
        if HasKey(a, k) {
          var i :| 0 <= i < |a| && a[i].0 == k;
          assert a[1..][i - 1].0 == k;
        }
        PrefixIndexOf(a[1..], b, k);
      }
    } else {
      assert a + b == b;
    }
  }

  lemma {:induction false} AppendIndexOf<V>(a: PhpArray<V>, k: string, v: V)
    requires !HasKey(a, k)
    ensures IndexOf(a + [(k, v)], k) == |a|
    decreases |a|
  {
    if |a| > 0 {
      assert (a + [(k, v)])[1..] == a[1..] + [(k, v)];
      assert forall i :: 0 <= i < |a[1..]| ==> a[1..][i] == a[i + 1];
      AppendIndexOf(a[1..], k, v);
    }
  }

  lemma {:induction false} SameKeysIndexOf<V>(a: PhpArray<V>, b: PhpArray<V>, k: string)
    requires Keys(a) == Keys(b)
    ensures IndexOf(a, k) == IndexOf(b, k)
    decreases |a|
  {
    if |a| > 0 {
      assert a[0].0 == Keys(a)[0] == Keys(b)[0] == b[0].0;
      assert Keys(a[1..]) == Keys(a)[1..] == Keys(b)[1..] == Keys(b[1..]);
      SameKeysIndexOf(a[1..], b[1..], k);
    }
  }

  /** `unset($a[$k])`: the other entries keep their order. */
  function Remove<V(!new)>(a: PhpArray<V>, k: string): (r: PhpArray<V>)
    ensures !HasKey(r, k)
    ensures forall e :: e in r <==> e in a && e.0 != k
    decreases |a|
  {
    if |a| == 0 then []
    else if a[0].0 == k then Remove(a[1..], k)
    else [a[0]] + Remove(a[1..], k)
  }

  /** `$a + $b`: the entries of `b` whose key `a` lacks are appended, in order. */
  function Union<V(!new)>(a: PhpArray<V>, b: PhpArray<V>): (r: PhpArray<V>)
    requires UniqueKeys(b)
    ensures forall e :: e in r <==> e in a || (e in b && !HasKey(a, e.0))
    ensures |r| >= |a| && r[..|a|] == a
    decreases |b|
  {
    if |b| == 0 then a
    else if HasKey(a, b[0].0) then Union(a, b[1..])
    else
      var r := Union(a + [b[0]], b[1..]);
      assert forall e :: e in b[1..] && !HasKey(a + [b[0]], e.0) ==> !HasKey(a, e.0) by {
        forall e | e in b[1..] && !HasKey(a + [b[0]], e.0) ensures !HasKey(a, e.0) {
          assert forall i :: 0 <= i < |a| ==> (a + [b[0]])[i] == a[i];
        }
      }
      assert forall e :: e in b && !HasKey(a, e.0) && e != b[0] ==> e in b[1..];
      assert (r[..|a| + 1])[..|a|] == r[..|a|];
      r
  }

  /** `$a + $b` looked up: `a`'s value when it has the key, otherwise `b`'s. */
  lemma {:induction false} UnionGet<V(!new)>(a: PhpArray<V>, b: PhpArray<V>, k: string)
    requires UniqueKeys(b)
    ensures Get(Union(a, b), k) == if HasKey(a, k) then Get(a, k) else Get(b, k)
    decreases |b|
  {
    var r := Union(a, b);
    if HasKey(a, k) {
      assert r == a + r[|a|..];
      PrefixIndexOf(a, r[|a|..], k);
    } else if |b| > 0 {
      assert forall i :: 0 <= i < |b[1..]| ==> b[1..][i] == b[i + 1];
      if HasKey(a, b[0].0) {
        UnionGet(a, b[1..], k);
      } else {
        var a' := a + [b[0]];
        UnionGet(a', b[1..], k);
        if b[0].0 == k {
          AppendIndexOf(a, k, b[0].1);
          assert HasKey(a', k);
        } else {
          PrefixIndexOf(a, [b[0]], k);
          assert !HasKey(a', k) by {
            forall i | 0 <= i < |a'| ensures a'[i].0 != k {
              if i < |a| { assert a'[i] == a[i]; }
            }
          }
        }
      }
    }
  }

  /** Looking up a key that is not the first one looks in the rest. */
  lemma GetTail<V>(a: PhpArray<V>, k: string)
    requires |a| > 0 && a[0].0 != k
    ensures Get(a, k) == Get(a[1..], k)
  {
    var r := IndexOf(a[1..], k);
    assert IndexOf(a, k) == if r == -1 then -1 else r + 1;
    if r != -1 {
      assert a[r + 1] == a[1..][r];
    }
  }

  /** `unset($a[$j])` leaves every other key's value as it was. */
  lemma {:induction false} RemoveGet<V(!new)>(a: PhpArray<V>, j: string, k: string)
    requires k != j
    ensures Get(Remove(a, j), k) == Get(a, k)
    decreases |a|
  {
    if |a| > 0 {
      RemoveGet(a[1..], j, k);
      if a[0].0 == j {
        assert Remove(a, j) == Remove(a[1..], j);
        GetTail(a, k);
      } else {
        var r := Remove(a, j);
        assert r == [a[0]] + Remove(a[1..], j);
        assert r[0] == a[0] && r[1..] == Remove(a[1..], j);
        if a[0].0 != k {
          GetTail(a, k);
          GetTail(r, k);
        }
      }
    }
  }

}
