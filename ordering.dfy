/** `ORDER BY <key> DESC` and `LIMIT n`, as the repositories' queries use them. */
module Ordering {

  /** Every element's key is at least that of every later element. */
  ghost predicate SortedDesc<T>(s: seq<T>, key: T -> int) {
    forall i, j :: 0 <= i < j < |s| ==> key(s[i]) >= key(s[j])
  }

  /** Inserts `x` before the first element whose key is not greater than its own. */
  function Insert<T>(x: T, s: seq<T>, key: T -> int): (r: seq<T>)
    requires SortedDesc(s, key)
    ensures SortedDesc(r, key)
    ensures multiset(r) == multiset(s) + multiset{x}
    ensures |r| == |s| + 1
    ensures forall y :: y in r ==> y == x || y in s
  {
    if |s| == 0 then [x]
    else if key(x) >= key(s[0]) then [x] + s
    else
      var rest := Insert(x, s[1..], key);
      assert s == [s[0]] + s[1..];
      assert forall y :: y in rest ==> key(s[0]) >= key(y) by {
        forall y | y in rest ensures key(s[0]) >= key(y) {
          if y != x {
            var j :| 0 <= j < |s[1..]| && s[1..][j] == y;
            assert s[j + 1] == y;
          }
        }
      }
      ConsSorted(s[0], rest, key);
      [s[0]] + rest
  }

  /** A head whose key bounds every key of a sorted tail makes a sorted sequence. */
  lemma ConsSorted<T>(h: T, rest: seq<T>, key: T -> int)
    requires SortedDesc(rest, key)
    requires forall y :: y in rest ==> key(h) >= key(y)
    ensures SortedDesc([h] + rest, key)
  {
    var r := [h] + rest;
    forall i, j | 0 <= i < j < |r| ensures key(r[i]) >= key(r[j]) {
      assert r[j] == rest[j - 1];
      if i > 0 {
        assert r[i] == rest[i - 1];
      } else {
        assert rest[j - 1] in rest;
      }
    }
  }

  /** The rows of `s` in non-increasing key order. */
  function SortDesc<T>(s: seq<T>, key: T -> int): (r: seq<T>)
    ensures SortedDesc(r, key)
    ensures multiset(r) == multiset(s)
    ensures |r| == |s|
  {
    if |s| == 0 then []
    else
      assert s == [s[0]] + s[1..];
      Insert(s[0], SortDesc(s[1..], key), key)
  }

  /** SQLite's `LIMIT n`: at most `n` leading rows, and every row when `n` is negative. */
  function Limit<T>(s: seq<T>, n: int): (r: seq<T>)
    ensures n < 0 ==> r == s
    ensures n >= 0 ==> |r| == if n < |s| then n else |s|
    ensures r <= s
  {
    if n < 0 || n >= |s| then s else s[..n]
  }

  /**
   * Taking the first `n` rows of a sorted sequence keeps the rows with the largest keys:
   * a row left out has a key no larger than any row kept.
   */
  lemma LimitKeepsLargest<T>(s: seq<T>, key: T -> int, n: int)
    requires SortedDesc(s, key)
    ensures SortedDesc(Limit(s, n), key)
    ensures forall x, y :: x in s && x !in Limit(s, n) && y in Limit(s, n) ==> key(y) >= key(x)
  {
    var r := Limit(s, n);
    assert forall k :: 0 <= k < |r| ==> s[k] == r[k] && s[k] in r;
    forall x, y | x in s && x !in r && y in r ensures key(y) >= key(x) {
      var j :| 0 <= j < |s| && s[j] == x;
      var i :| 0 <= i < |r| && r[i] == y;
      assert s[i] == y;
    }
  }

  /** A prefix holds no row more often than the whole sequence does. */
  lemma PrefixMultiset<T>(s: seq<T>, k: nat)
    requires k <= |s|
    ensures multiset(s[..k]) <= multiset(s)
  {
    assert s == s[..k] + s[k..];
  }

  /** No two rows of `s` share a value of `f`. */
  ghost predicate DistinctBy<T, K>(s: seq<T>, f: T -> K) {
    forall i, j :: 0 <= i < j < |s| ==> f(s[i]) != f(s[j])
  }

  /** A row occurring at two positions of `r` is counted twice by `multiset(r)`. */
  lemma TwiceCounted<T>(r: seq<T>, i: nat, j: nat)
    requires i < j < |r| && r[i] == r[j]
    ensures multiset(r)[r[i]] >= 2
  {
    assert r == r[..j] + r[j..];
    assert r[i] in r[..j];
    assert r[j] in r[j..];
  }

  /** A row of `s`, whose rows are distinct under `f`, is counted once by `multiset(s)`. */
  lemma OnceCounted<T, K>(s: seq<T>, a: nat, f: T -> K)
    requires a < |s| && DistinctBy(s, f)
    ensures multiset(s)[s[a]] == 1
  {
    assert s == s[..a] + [s[a]] + s[a + 1..];
    assert s[a] !in s[..a] by {
      forall k | 0 <= k < a ensures s[..a][k] != s[a] {
        assert f(s[k]) != f(s[a]);
      }
    }
    assert s[a] !in s[a + 1..] by {
      var tail := s[a + 1..];
      forall k | 0 <= k < |tail| ensures tail[k] != s[a] {
        assert tail[k] == s[a + 1 + k];
      }
    }
  }

  /** Rows drawn from `s` no more often than `s` holds them stay distinct under `f`. */
  lemma DistinctBySub<T, K>(s: seq<T>, r: seq<T>, f: T -> K)
    requires DistinctBy(s, f) && multiset(r) <= multiset(s)
    ensures DistinctBy(r, f)
  {
    forall i, j | 0 <= i < j < |r| ensures f(r[i]) != f(r[j]) {
      if f(r[i]) == f(r[j]) {
        assert r[i] in multiset(s) && r[j] in multiset(s);
        var a :| 0 <= a < |s| && s[a] == r[i];
        var b :| 0 <= b < |s| && s[b] == r[j];
        assert a == b;
        TwiceCounted(r, i, j);
        OnceCounted(s, a, f);
        assert false;
      }
    }
  }

  /**
   * `ORDER BY key DESC LIMIT n` over the rows `s`: the result is sorted, is drawn from `s`,
   * has `min(n, |s|)` rows (all of them when `n` is negative), and no row left out has a
   * larger key than a row kept.
   */
  function TopBy<T>(s: seq<T>, key: T -> int, n: int): (r: seq<T>)
    ensures SortedDesc(r, key)
    ensures multiset(r) <= multiset(s)
    ensures |r| == if 0 <= n < |s| then n else |s|
    ensures n < 0 || |s| <= n ==> multiset(r) == multiset(s)
    ensures forall x :: x in r ==> x in s
    ensures n < 0 || |s| <= n ==> forall x :: x in s ==> x in r
    ensures forall x, y :: x in s && x !in r && y in r ==> key(y) >= key(x)
  {
    var sorted := SortDesc(s, key);
    LimitKeepsLargest(sorted, key, n);
    var r := Limit(sorted, n);
    assert forall x :: x in s ==> x in sorted by {
      forall x | x in s ensures x in sorted {
        assert x in multiset(s);
      }
    }
    assert forall x :: x in r ==> x in sorted;
    assert forall x :: x in sorted ==> x in s by {
      forall x | x in sorted ensures x in s {
        assert x in multiset(sorted);
      }
    }
    if 0 <= n < |sorted| then PrefixMultiset(sorted, n); r else r
  }
}
