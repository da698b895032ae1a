/** Sequence helpers that mirror the array methods the application uses:
    `filter` and `find`, with a first-index helper (which returns `|s|` when
    nothing matches), and the notion of an order-preserving subsequence. */
module Seqs {
  import opened Wrappers

  /** `a` can be obtained from `b` by deleting elements, without reordering. */
  predicate IsSubseq<T(==)>(a: seq<T>, b: seq<T>)
    decreases |b|
  {
    a == [] || (b != [] && ((a[0] == b[0] && IsSubseq(a[1..], b[1..])) || IsSubseq(a, b[1..])))
  }

  /** `s.filter(p)`: the elements of `s` satisfying `p`, in their original order. */
  function Filter<T(==)>(s: seq<T>, p: T -> bool): (r: seq<T>)
    ensures |r| <= |s|
    decreases |s|
  {
    if s == [] then []
    else if p(s[0]) then [s[0]] + Filter(s[1..], p)
    else Filter(s[1..], p)
  }

  /** The filtered sequence keeps its order, holds only elements satisfying `p`,
      misses none of them, and keeps every copy of each: together these pin it down. */
  lemma FilterSpec<T>(s: seq<T>, p: T -> bool)
    ensures var r := Filter(s, p);
            && IsSubseq(r, s)
            && (forall k :: 0 <= k < |r| ==> r[k] in s && p(r[k]))
            && (forall k :: 0 <= k < |s| && p(s[k]) ==> s[k] in r)
            && (forall x :: multiset(r)[x] == if p(x) then multiset(s)[x] else 0)
  {
    FilterOrder(s, p);
    FilterCounts(s, p);
  }

  lemma {:induction false} FilterOrder<T>(s: seq<T>, p: T -> bool)
    ensures var r := Filter(s, p);
            && IsSubseq(r, s)
            && (forall k :: 0 <= k < |r| ==> r[k] in s && p(r[k]))
            && (forall k :: 0 <= k < |s| && p(s[k]) ==> s[k] in r)
    decreases |s|
  {
    if s != [] {
      FilterOrder(s[1..], p);
      assert forall k :: 1 <= k < |s| ==> s[k] == s[1..][k - 1];
    }
  }

  lemma {:induction false} FilterCounts<T>(s: seq<T>, p: T -> bool)
    ensures forall x :: multiset(Filter(s, p))[x] == if p(x) then multiset(s)[x] else 0
    decreases |s|
  {
    if s != [] {
      FilterCounts(s[1..], p);
      assert s == [s[0]] + s[1..];
      assert multiset(s) == multiset{s[0]} + multiset(s[1..]);
      if p(s[0]) {
        assert multiset(Filter(s, p)) == multiset{s[0]} + multiset(Filter(s[1..], p));
      }
    }
  }

  /** Filtering with a predicate that every element satisfies returns the sequence itself. */
  lemma {:induction false} FilterKeepsAll<T>(s: seq<T>, p: T -> bool)
    requires forall k :: 0 <= k < |s| ==> p(s[k])
    ensures Filter(s, p) == s
    decreases |s|
  {
    if s != [] {
      FilterKeepsAll(s[1..], p);
    }
  }

  /** Filtering distributes over concatenation. */
  lemma {:induction false} FilterConcat<T>(a: seq<T>, b: seq<T>, p: T -> bool)
    ensures Filter(a + b, p) == Filter(a, p) + Filter(b, p)
    decreases |a|
  {
    if a == [] {
      assert a + b == b;
    } else {
      assert (a + b)[0] == a[0];
      assert (a + b)[1..] == a[1..] + b;
      FilterConcat(a[1..], b, p);
    }
  }

  /** Filtering out a single element that alone fails the predicate deletes just that element. */
  lemma {:induction false} FilterDropsOne<T>(s: seq<T>, p: T -> bool, k: nat)
    requires k < |s| && !p(s[k])
    requires forall j :: 0 <= j < |s| && j != k ==> p(s[j])
    ensures Filter(s, p) == s[..k] + s[k + 1..]
    decreases k
  {
    var tail := s[1..];
    assert forall j :: 0 <= j < |tail| ==> tail[j] == s[j + 1];
    if k == 0 {
      FilterKeepsAll(tail, p);
    } else {
      FilterDropsOne(tail, p, k - 1);
      assert s[..k] == [s[0]] + tail[..k - 1];
      assert s[k + 1..] == tail[k..];
    }
  }

  /** The index of the first element satisfying `p`, or `|s|` when there is none. */
  function FirstIndex<T>(s: seq<T>, p: T -> bool): (k: nat)
    ensures k <= |s|
    ensures k < |s| ==> p(s[k])
    ensures forall j :: 0 <= j < k ==> !p(s[j])
    decreases |s|
  {
    if s == [] then 0
    else if p(s[0]) then 0
    else 1 + FirstIndex(s[1..], p)
  }

  /** `s.find(p)`: the first element satisfying `p`, if any. */
  function Find<T>(s: seq<T>, p: T -> bool): (r: Option<T>)
    ensures r.None? <==> forall k :: 0 <= k < |s| ==> !p(s[k])
    ensures r.Some? ==> FirstIndex(s, p) < |s| && r.value == s[FirstIndex(s, p)] && p(r.value)
  {
    var k := FirstIndex(s, p);
    if k < |s| then Some(s[k]) else None
  }

  /** No two elements of `s` share a key. */
  ghost predicate DistinctBy<T, K>(s: seq<T>, key: T -> K)
  {
    forall i, j :: 0 <= i < j < |s| ==> key(s[i]) != key(s[j])
  }

  /** Dropping the first element keeps the remaining keys pairwise distinct. */
  lemma DistinctByTail<T, K>(s: seq<T>, key: T -> K)
    requires s != [] && DistinctBy(s, key)
    ensures DistinctBy(s[1..], key)
  {
    forall i, j | 0 <= i < j < |s[1..]| ensures key(s[1..][i]) != key(s[1..][j]) {
      assert s[1..][i] == s[i + 1] && s[1..][j] == s[j + 1];
    }
  }

  /** No element kept from the tail shares the head's key. */
  lemma HeadKeyNotKept<T, K>(s: seq<T>, p: T -> bool, key: T -> K)
    requires s != [] && DistinctBy(s, key)
    ensures forall j :: 0 <= j < |Filter(s[1..], p)| ==> key(Filter(s[1..], p)[j]) != key(s[0])
  {
    var rest := Filter(s[1..], p);
    FilterSpec(s[1..], p);
    forall j | 0 <= j < |rest| ensures key(rest[j]) != key(s[0]) {
      var m :| 0 <= m < |s[1..]| && s[1..][m] == rest[j];
      assert s[m + 1] == rest[j];
    }
  }

  /** Filtering keeps keys distinct. */
  lemma {:induction false} FilterKeepsDistinct<T, K>(s: seq<T>, p: T -> bool, key: T -> K)
    requires DistinctBy(s, key)
    ensures DistinctBy(Filter(s, p), key)
    decreases |s|
  {
    if s != [] {
      DistinctByTail(s, key);
      FilterKeepsDistinct(s[1..], p, key);
      if p(s[0]) {
        var rest := Filter(s[1..], p);
        HeadKeyNotKept(s, p, key);
        var r := [s[0]] + rest;
        forall i, j | 0 <= i < j < |r| ensures key(r[i]) != key(r[j]) {
          assert r[j] == rest[j - 1];
          if i > 0 {
            assert r[i] == rest[i - 1];
          }
        }
      }
    }
  }

}
