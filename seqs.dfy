/**
 * The two whole-table operations the ingestion code applies row by row:
 * a boolean-mask filter and a map whose rows each yield zero or more
 * results. Both keep the table's order.
 */
module Seqs {

  /** The elements of `s` that `keep` accepts, in their order in `s`, repetitions included. */
  function Filter<T>(keep: T -> bool, s: seq<T>): seq<T> {
    if s == [] then [] else Filter(keep, s[..|s| - 1]) + (if keep(s[|s| - 1]) then [s[|s| - 1]] else [])
  }

  /** Adding an element at the end adds it to the result when it is accepted. */
  lemma FilterSnoc<T>(keep: T -> bool, s: seq<T>, x: T)
    ensures Filter(keep, s + [x]) == Filter(keep, s) + (if keep(x) then [x] else [])
  {
    assert (s + [x])[..|s + [x]| - 1] == s;
    assert (s + [x])[|s + [x]| - 1] == x;
  }

  /** The filter works element by element: the result for a concatenation is the concatenation of the results. */
  lemma {:induction false} FilterAppend<T>(keep: T -> bool, a: seq<T>, b: seq<T>)
    ensures Filter(keep, a + b) == Filter(keep, a) + Filter(keep, b)
    decreases |b|
  {
    if b == [] {
      assert a + b == a;
    } else {
      var front, last := b[..|b| - 1], b[|b| - 1];
      FilterAppend(keep, a, front);
      assert b == front + [last];
      assert a + b == (a + front) + [last];
      FilterSnoc(keep, a + front, last);
      FilterSnoc(keep, front, last);
    }
  }

  /** The result holds exactly the accepted elements of `s`, and is no longer than `s`. */
  lemma {:induction false} FilterMembers<T>(keep: T -> bool, s: seq<T>)
    ensures |Filter(keep, s)| <= |s|
    ensures forall x :: x in Filter(keep, s) <==> x in s && keep(x)
    decreases |s|
  {
    if s != [] {
      var front, last := s[..|s| - 1], s[|s| - 1];
      FilterMembers(keep, front);
      assert s == front + [last];
      forall x
        ensures x in Filter(keep, s) <==> x in s && keep(x)
      {
        assert x in s <==> x in front || x == last;
      }
    }
  }

  /** The first element kept is the earliest element of `s` that is accepted; its index is returned. */
  lemma {:induction false} FilterFirstIndex<T>(keep: T -> bool, s: seq<T>) returns (i: nat)
    requires Filter(keep, s) != []
    ensures i < |s| && keep(s[i]) && Filter(keep, s)[0] == s[i]
    ensures forall j :: 0 <= j < i ==> !keep(s[j])
    decreases |s|
  {
    var last := |s| - 1;
    var front := s[..last];
    assert s == front + [s[last]];
    FilterSnoc(keep, front, s[last]);
    if Filter(keep, front) != [] {
      i := FilterFirstIndex(keep, front);
      assert forall j :: 0 <= j <= i ==> s[j] == front[j];
    } else {
      i := last;
      FilterMembers(keep, front);
      forall j | 0 <= j < last
        ensures !keep(s[j])
      {
        assert s[j] == front[j];
        assert front[j] in front;
      }
    }
  }

  /** `f` applied to each element of `s`, the results concatenated in order. */
  function FlatMap<A, B>(f: A -> seq<B>, s: seq<A>): seq<B> {
    if s == [] then [] else FlatMap(f, s[..|s| - 1]) + f(s[|s| - 1])
  }

  lemma {:induction false} FlatMapAppend<A, B>(f: A -> seq<B>, a: seq<A>, b: seq<A>)
    ensures FlatMap(f, a + b) == FlatMap(f, a) + FlatMap(f, b)
    decreases |b|
  {
    if b == [] {
      assert a + b == a;
    } else {
      var front := b[..|b| - 1];
      FlatMapAppend(f, a, front);
      assert (a + b)[..|a + b| - 1] == a + front;
      assert (a + b)[|a + b| - 1] == b[|b| - 1];
      assert FlatMap(f, a + b) == FlatMap(f, a + front) + f(b[|b| - 1]);
      assert FlatMap(f, b) == FlatMap(f, front) + f(b[|b| - 1]);
    }
  }
}
