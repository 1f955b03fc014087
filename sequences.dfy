/**
  Sequence vocabulary shared by the query models: nullable values, the
  concatenation of per-chunk results, row filters and real-valued sums.
*/
module Sequences {

  /** A value that may be SQL NULL (or pandas NaN). */
  datatype Option<T> = None | Some(value: T)

  /** No element occurs twice. */
  predicate Distinct<T(==)>(s: seq<T>) {
    forall i, j :: 0 <= i < j < |s| ==> s[i] != s[j]
  }

  /** Element-wise image of a sequence. */
  function Map<A, B>(s: seq<A>, f: A -> B): (r: seq<B>)
    ensures |r| == |s|
    ensures forall k :: 0 <= k < |s| ==> r[k] == f(s[k])
  {
    seq(|s|, k requires 0 <= k < |s| => f(s[k]))
  }

  /** The pieces of `ss`, concatenated in order (`pd.concat`). */
  function Flatten<T>(ss: seq<seq<T>>): seq<T> {
    if ss == [] then [] else ss[0] + Flatten(ss[1..])
  }

  /** Apply `f` to every element and concatenate the results in order. */
  function FlatMap<A, B>(s: seq<A>, f: A -> seq<B>): seq<B> {
    Flatten(Map(s, f))
  }

  /** The elements satisfying `p`, in their original order. */
  function Filter<T>(s: seq<T>, p: T -> bool): seq<T> {
    if s == [] then [] else (if p(s[0]) then [s[0]] else []) + Filter(s[1..], p)
  }

  /** The rows whose key is one of `keys` (a SQL `key IN (...)` predicate). */
  function FilterIn<T, K(==)>(s: seq<T>, key: T -> K, keys: seq<K>): seq<T> {
    if s == [] then [] else (if key(s[0]) in keys then [s[0]] else []) + FilterIn(s[1..], key, keys)
  }

  function Sum(s: seq<real>): real {
    if s == [] then 0.0 else s[0] + Sum(s[1..])
  }

  lemma {:induction false} FlattenAppend<T>(a: seq<seq<T>>, b: seq<seq<T>>)
    ensures Flatten(a + b) == Flatten(a) + Flatten(b)
  {
    if a == [] {
      assert a + b == b;
    } else {
      assert (a + b)[1..] == a[1..] + b;
      FlattenAppend(a[1..], b);
    }
  }

  lemma {:induction false} FlatMapAppend<A, B>(a: seq<A>, b: seq<A>, f: A -> seq<B>)
    ensures FlatMap(a + b, f) == FlatMap(a, f) + FlatMap(b, f)
  {
    assert Map(a + b, f) == Map(a, f) + Map(b, f);
    FlattenAppend(Map(a, f), Map(b, f));
  }

  lemma FlatMapSingle<A, B>(x: A, f: A -> seq<B>)
    ensures FlatMap([x], f) == f(x)
  {
    assert Map([x], f) == [f(x)];
    assert Flatten([f(x)]) == f(x) + Flatten([]);
  }

  /** An element is in a concatenation exactly when it is in one of the pieces. */
  lemma {:induction false} FlattenMember<T>(ss: seq<seq<T>>, x: T)
    ensures x in Flatten(ss) <==> exists k :: 0 <= k < |ss| && x in ss[k]
  {
    if ss != [] {
      FlattenMember(ss[1..], x);
      if x in Flatten(ss[1..]) {
        var k :| 0 <= k < |ss[1..]| && x in ss[1..][k];
        assert x in ss[k + 1];
      }
      if exists k :: 0 <= k < |ss| && x in ss[k] {
        var k :| 0 <= k < |ss| && x in ss[k];
        if k > 0 {
          assert x in ss[1..][k - 1];
        }
      }
    }
  }

  lemma {:induction false} FilterMember<T>(s: seq<T>, p: T -> bool, x: T)
    ensures x in Filter(s, p) <==> x in s && p(x)
  {
    if s != [] {
      FilterMember(s[1..], p, x);
      assert s == [s[0]] + s[1..];
    }
  }

  /** Filtering a concatenation filters each part. */
  lemma {:induction false} FilterAppend<T>(a: seq<T>, b: seq<T>, p: T -> bool)
    ensures Filter(a + b, p) == Filter(a, p) + Filter(b, p)
  {
    if a == [] {
      assert a + b == b;
    } else {
      var head := if p(a[0]) then [a[0]] else [];
      assert (a + b)[0] == a[0];
      assert (a + b)[1..] == a[1..] + b;
      assert Filter(a + b, p) == head + Filter(a[1..] + b, p);
      FilterAppend(a[1..], b, p);
      assert Filter(a, p) == head + Filter(a[1..], p);
    }
  }

  /** The indices from `lo` on whose element passes `p`. */
  function Passing<T>(s: seq<T>, p: T -> bool, lo: nat): set<int> {
    set k | lo <= k < |s| && p(s[k])
  }

  /** A filter keeps one element per index, from `lo` on, whose element passes. */
  lemma {:induction false} FilterCount<T>(s: seq<T>, p: T -> bool, lo: nat)
    requires lo <= |s|
    ensures |Filter(s[lo..], p)| == |Passing(s, p, lo)|
    decreases |s| - lo
  {
    if lo == |s| {
      assert s[lo..] == [];
      assert Passing(s, p, lo) == {};
    } else {
      FilterCount(s, p, lo + 1);
      assert s[lo..][0] == s[lo];
      assert s[lo..][1..] == s[lo + 1..];
      var head: set<int> := if p(s[lo]) then {lo} else {};
      assert Passing(s, p, lo) == head + Passing(s, p, lo + 1);
      assert head * Passing(s, p, lo + 1) == {};
    }
  }

  /** A filter that every element passes keeps the whole sequence. */
  lemma {:induction false} FilterAll<T>(s: seq<T>, p: T -> bool)
    requires forall x :: p(x)
    ensures Filter(s, p) == s
  {
    if s != [] {
      FilterAll(s[1..], p);
      assert s == [s[0]] + s[1..];
    }
  }

  /** An `IN` filter after a filter is one filter on both conditions. */
  lemma {:induction false} FilterInFilter<T, K>(s: seq<T>, p: T -> bool, key: T -> K, keys: seq<K>, both: T -> bool)
    requires forall x :: both(x) == (p(x) && key(x) in keys)
    ensures FilterIn(Filter(s, p), key, keys) == Filter(s, both)
  {
    if s != [] {
      FilterInFilter(s[1..], p, key, keys, both);
      var head := if p(s[0]) then [s[0]] else [];
      var tail := Filter(s[1..], p);
      assert Filter(s, p) == head + tail;
      if p(s[0]) {
        assert (head + tail)[1..] == tail;
      } else {
        assert head + tail == tail;
      }
    }
  }

  lemma {:induction false} FilterInMember<T, K>(s: seq<T>, key: T -> K, keys: seq<K>, x: T)
    ensures x in FilterIn(s, key, keys) <==> x in s && key(x) in keys
  {
    if s != [] {
      FilterInMember(s[1..], key, keys, x);
      assert s == [s[0]] + s[1..];
    }
  }

  lemma {:induction false} FilterInBounds<T, K>(s: seq<T>, key: T -> K, keys: seq<K>)
    ensures |FilterIn(s, key, keys)| <= |s|
    ensures forall x :: x in FilterIn(s, key, keys) ==> key(x) in keys
  {
    if s != [] {
      FilterInBounds(s[1..], key, keys);
    }
  }

  lemma {:induction false} FilterInNothing<T, K>(s: seq<T>, key: T -> K)
    ensures FilterIn(s, key, []) == []
  {
    if s != [] {
      FilterInNothing(s[1..], key);
    }
  }

  /**
    Filtering on two disjoint key lists at once keeps, counting repetitions,
    exactly the rows that filtering on each keeps.
  */
  lemma {:induction false} FilterInDisjointUnion<T, K>(s: seq<T>, key: T -> K, a: seq<K>, b: seq<K>)
    requires forall x :: x in a ==> x !in b
    ensures multiset(FilterIn(s, key, a + b))
         == multiset(FilterIn(s, key, a)) + multiset(FilterIn(s, key, b))
  {
    if s != [] {
      FilterInDisjointUnion(s[1..], key, a, b);
    }
  }

  lemma {:induction false} DistinctAppend<T>(a: seq<T>, b: seq<T>)
    requires Distinct(a + b)
    ensures Distinct(b)
    ensures forall x :: x in a ==> x !in b
  {
    forall i, j | 0 <= i < j < |b| ensures b[i] != b[j] {
      assert b[i] == (a + b)[|a| + i] && b[j] == (a + b)[|a| + j];
    }
    forall i, j | 0 <= i < |a| && 0 <= j < |b| ensures a[i] != b[j] {
      assert a[i] == (a + b)[i] && b[j] == (a + b)[|a| + j];
    }
  }

  /**
    A query that keeps the rows of `base` whose key is in its key list (in any
    order) gives, run once per piece of a duplicate-free key list and
    concatenated, the same rows with the same multiplicities as one run over
    the whole list.
  */
  lemma {:induction false} RunPerPieceMultiset<T, K>(
    pieces: seq<seq<K>>, base: seq<T>, key: T -> K, run: seq<K> -> seq<T>)
    requires forall c :: c in pieces ==> multiset(run(c)) == multiset(FilterIn(base, key, c))
    requires Distinct(Flatten(pieces))
    ensures multiset(FlatMap(pieces, run)) == multiset(FilterIn(base, key, Flatten(pieces)))
  {
    if pieces == [] {
      FilterInNothing(base, key);
    } else {
      var c, rest := pieces[0], pieces[1..];
      assert pieces == [c] + rest;
      assert Flatten(pieces) == c + Flatten(rest);
      DistinctAppend(c, Flatten(rest));
      RunPerPieceMultiset(rest, base, key, run);
      FlatMapAppend([c], rest, run);
      FlatMapSingle(c, run);
      FilterInDisjointUnion(base, key, c, Flatten(rest));
    }
  }

  /** The same, for membership only: it needs no distinctness. */
  lemma {:induction false} RunPerPieceMember<T, K>(
    pieces: seq<seq<K>>, base: seq<T>, key: T -> K, run: seq<K> -> seq<T>, x: T)
    requires forall c :: c in pieces ==> multiset(run(c)) == multiset(FilterIn(base, key, c))
    ensures x in FlatMap(pieces, run) <==> x in FilterIn(base, key, Flatten(pieces))
  {
    if pieces == [] {
      FilterInNothing(base, key);
    } else {
      var c, rest := pieces[0], pieces[1..];
      assert pieces == [c] + rest;
      assert Flatten(pieces) == c + Flatten(rest);
      RunPerPieceMember(rest, base, key, run, x);
      FlatMapAppend([c], rest, run);
      FlatMapSingle(c, run);
      assert x in run(c) <==> x in multiset(run(c));
      FilterInMember(base, key, c, x);
      FilterInMember(base, key, Flatten(rest), x);
      FilterInMember(base, key, Flatten(pieces), x);
    }
  }

  /** Every element lies in [lo, hi], so the sum lies in [lo * n, hi * n]. */
  lemma {:induction false} SumBounds(s: seq<real>, lo: real, hi: real)
    requires forall k :: 0 <= k < |s| ==> lo <= s[k] <= hi
    ensures lo * |s| as real <= Sum(s) <= hi * |s| as real
  {
    if s != [] {
      SumBounds(s[1..], lo, hi);
      assert |s| as real == 1.0 + |s[1..]| as real;
    }
  }
}
