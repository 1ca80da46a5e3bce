/**
 * Python's `sorted(s, key=key, reverse=True)` and the slice `s[:n]`, on
 * integer keys. Python's sort is stable also when reversed: elements with
 * equal keys keep their input order.
 */
module StableSort {

  /** `s` is in non-increasing order of `key`. */
  predicate NonIncreasing<T>(s: seq<T>, key: T -> int) {
    forall i, j :: 0 <= i < j < |s| ==> key(s[i]) >= key(s[j])
  }

  /** The elements of `s` whose key is `k`, in their order in `s`. */
  function WithKey<T>(s: seq<T>, key: T -> int, k: int): seq<T> {
    if s == [] then []
    else (if key(s[0]) == k then [s[0]] else []) + WithKey(s[1..], key, k)
  }

  /** Places `x` before the first element whose key is not larger than its own. */
  function Insert<T>(x: T, s: seq<T>, key: T -> int): (r: seq<T>)
    requires NonIncreasing(s, key)
    ensures |r| == |s| + 1
    ensures r[0] == x || (s != [] && r[0] == s[0])
    ensures NonIncreasing(r, key)
    ensures multiset(r) == multiset(s) + multiset{x}
  {
    if s == [] || key(s[0]) <= key(x) then
      [x] + s
    else
      var rest := Insert(x, s[1..], key);
      assert s == [s[0]] + s[1..];
      assert forall j :: 0 <= j < |rest| ==> key(s[0]) >= key(rest[j]) by {
        assert key(s[0]) >= key(rest[0]);
      }
      [s[0]] + rest
  }

  /** The elements with key `k` of a sequence are those of its head, then those of its tail. */
  lemma WithKeyCons<T>(a: T, s: seq<T>, key: T -> int, k: int)
    ensures WithKey([a] + s, key, k) == (if key(a) == k then [a] else []) + WithKey(s, key, k)
  {
    assert ([a] + s)[1..] == s;
  }

  /** Inserting `x` adds it in front of the elements that share its key. */
  lemma {:induction false} InsertWithKey<T>(x: T, s: seq<T>, key: T -> int, k: int)
    requires NonIncreasing(s, key)
    ensures WithKey(Insert(x, s, key), key, k) == (if key(x) == k then [x] else []) + WithKey(s, key, k)
  {
    if s == [] || key(s[0]) <= key(x) {
      assert Insert(x, s, key) == [x] + s;
      WithKeyCons(x, s, key, k);
    } else {
      var rest := Insert(x, s[1..], key);
      assert Insert(x, s, key) == [s[0]] + rest;
      WithKeyCons(s[0], rest, key, k);
      InsertWithKey(x, s[1..], key, k);
      assert s == [s[0]] + s[1..];
      WithKeyCons(s[0], s[1..], key, k);
    }
  }

  /** The elements with key `k` of a concatenation are those of its first part, then those of its second. */
  lemma {:induction false} WithKeyAppend<T>(a: seq<T>, b: seq<T>, key: T -> int, k: int)
    ensures WithKey(a + b, key, k) == WithKey(a, key, k) + WithKey(b, key, k)
  {
    if a == [] {
      assert a + b == b;
    } else {
      WithKeyAppend(a[1..], b, key, k);
      assert a + b == [a[0]] + (a[1..] + b);
      WithKeyCons(a[0], a[1..] + b, key, k);
      assert a == [a[0]] + a[1..];
      WithKeyCons(a[0], a[1..], key, k);
    }
  }

  /**
   * `sorted(s, key=key, reverse=True)`: the result is a permutation of `s`,
   * in non-increasing key order, and for every key value the elements
   * carrying it appear in the same order as in `s`.
   */
  function SortDescending<T>(s: seq<T>, key: T -> int): (r: seq<T>)
    ensures |r| == |s|
    ensures NonIncreasing(r, key)
    ensures multiset(r) == multiset(s)
    ensures forall k :: WithKey(r, key, k) == WithKey(s, key, k)
  {
    if s == [] then []
    else
      var rest := SortDescending(s[1..], key);
      assert s == [s[0]] + s[1..];
      forall k ensures WithKey(Insert(s[0], rest, key), key, k) == WithKey(s, key, k) {
        InsertWithKey(s[0], rest, key, k);
      }
      Insert(s[0], rest, key)
  }

  /** Python's slice `s[:n]`, negative `n` counting from the end. */
  function TakePrefix<T>(s: seq<T>, n: int): (r: seq<T>)
    ensures n >= 0 ==> |r| == if n < |s| then n else |s|
    ensures n < 0 ==> |r| == if |s| + n > 0 then |s| + n else 0
    ensures r == s[..|r|]
  {
    if n >= 0 then (if n < |s| then s[..n] else s)
    else if |s| + n > 0 then s[..|s| + n]
    else []
  }

  /**
   * `sorted(s, key=key, reverse=True)[:n]`: the first `n` elements by
   * descending key. Nothing left out ranks above anything kept, and among
   * elements with equal keys the earliest in `s` are kept, in their order.
   */
  function TopN<T>(s: seq<T>, key: T -> int, n: int): (r: seq<T>)
    ensures n >= 0 ==> |r| == if n < |s| then n else |s|
    ensures NonIncreasing(r, key)
    ensures multiset(r) <= multiset(s)
    ensures forall i, y :: 0 <= i < |r| && y in multiset(s) - multiset(r) ==> key(y) <= key(r[i])
    ensures forall k :: |WithKey(r, key, k)| <= |WithKey(s, key, k)| &&
                        WithKey(r, key, k) == WithKey(s, key, k)[..|WithKey(r, key, k)|]
  {
    var sorted := SortDescending(s, key);
    var r := TakePrefix(sorted, n);
    PrefixRanksFirst(sorted, key, |r|);
    PrefixKeepsEarliest(s, sorted, key, |r|);
    r
  }

  /**
   * When `sorted` holds each key class of `s` in the order of `s`, a prefix
   * of `sorted` holds, for each key, the earliest elements of `s` with it.
   */
  lemma PrefixKeepsEarliest<T>(s: seq<T>, sorted: seq<T>, key: T -> int, m: nat)
    requires m <= |sorted|
    requires forall k :: WithKey(sorted, key, k) == WithKey(s, key, k)
    ensures forall k :: |WithKey(sorted[..m], key, k)| <= |WithKey(s, key, k)| &&
                        WithKey(sorted[..m], key, k) == WithKey(s, key, k)[..|WithKey(sorted[..m], key, k)|]
  {
    forall k
      ensures |WithKey(sorted[..m], key, k)| <= |WithKey(s, key, k)| &&
              WithKey(sorted[..m], key, k) == WithKey(s, key, k)[..|WithKey(sorted[..m], key, k)|]
    {
      assert sorted == sorted[..m] + sorted[m..];
      WithKeyAppend(sorted[..m], sorted[m..], key, k);
    }
  }

  /** In a sequence sorted by descending key, no element after index `m` ranks above one before it. */
  lemma PrefixRanksFirst<T>(sorted: seq<T>, key: T -> int, m: nat)
    requires NonIncreasing(sorted, key)
    requires m <= |sorted|
    ensures multiset(sorted[..m]) <= multiset(sorted)
    ensures forall i, y :: 0 <= i < m && y in multiset(sorted) - multiset(sorted[..m]) ==> key(y) <= key(sorted[i])
  {
    assert sorted == sorted[..m] + sorted[m..];
    assert multiset(sorted) == multiset(sorted[..m]) + multiset(sorted[m..]);
    forall i, y | 0 <= i < m && y in multiset(sorted) - multiset(sorted[..m])
      ensures key(y) <= key(sorted[i])
    {
      assert y in multiset(sorted[m..]);
      var j :| 0 <= j < |sorted[m..]| && sorted[m..][j] == y;
      assert sorted[m + j] == y;
    }
  }
}
