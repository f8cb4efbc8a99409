/** Permutations of 0..n-1, their inverses, and the index sort that numpy's
    `argsort` performs (ties kept here in index order, which numpy does not
    promise). Shared by the vote/pote transforms, the
    orchestrator (which stores `argsort(matching)` for the reverse direction),
    the persistence readers and the matching solvers. */
module Permutations {

  /** No value occurs twice. */
  predicate Distinct(s: seq<int>) {
    forall a, b :: 0 <= a < b < |s| ==> s[a] != s[b]
  }

  /** `p` is a permutation of 0..|p|-1. */
  predicate IsPermutation(p: seq<int>) {
    Distinct(p) && forall k :: 0 <= k < |p| ==> 0 <= p[k] < |p|
  }

  /** `q` undoes `p`: q[p[k]] == k for every position k. */
  predicate IsInverse(p: seq<int>, q: seq<int>) {
    |p| == |q| &&
    (forall k :: 0 <= k < |p| ==> 0 <= p[k] < |q|) &&
    (forall k :: 0 <= k < |p| ==> q[p[k]] == k)
  }

  /** The values 0..n-1 in increasing order. */
  function Range(n: nat): (r: seq<int>)
    ensures |r| == n && forall k :: 0 <= k < n ==> r[k] == k
  {
    if n == 0 then [] else Range(n - 1) + [n - 1]
  }

  /** The set of values of the first m entries of s. */
  function Image(s: seq<int>, m: nat): set<int>
    requires m <= |s|
  {
    set k | 0 <= k < m :: s[k]
  }

  lemma {:induction false} DistinctImageCard(s: seq<int>, m: nat)
    requires m <= |s| && Distinct(s)
    ensures |Image(s, m)| == m
  {
    if m > 0 {
      DistinctImageCard(s, m - 1);
      assert Image(s, m) == Image(s, m - 1) + {s[m - 1]};
      assert s[m - 1] !in Image(s, m - 1);
    }
  }

  /** Pigeonhole: a permutation of 0..n-1 takes every value 0..n-1. */
  lemma PermutationOnto(p: seq<int>)
    requires IsPermutation(p)
    ensures forall v :: 0 <= v < |p| ==> v in Image(p, |p|)
  {
    var n := |p|;
    var img := Image(p, n);
    var all := Image(Range(n), n);
    DistinctImageCard(p, n);
    DistinctImageCard(Range(n), n);
    assert img <= all by {
      forall v | v in img
        ensures v in all
      {
        var k :| 0 <= k < n && p[k] == v;
        assert Range(n)[v] == v;
      }
    }
    assert |all - img| == |all| - |img|;
    assert all - img == {};
    forall v | 0 <= v < n
      ensures v in img
    {
      assert Range(n)[v] == v;
      assert v in all;
    }
  }

  /** The position at which a permutation takes value v. */
  lemma PositionOf(p: seq<int>, v: int) returns (k: int)
    requires IsPermutation(p) && 0 <= v < |p|
    ensures 0 <= k < |p| && p[k] == v
  {
    PermutationOnto(p);
    assert v in Image(p, |p|);
    k :| 0 <= k < |p| && p[k] == v;
  }

  /** A seq that undoes a permutation is itself a permutation and is undone by it. */
  lemma InverseIsPermutation(p: seq<int>, q: seq<int>)
    requires IsPermutation(p) && IsInverse(p, q)
    ensures IsPermutation(q) && IsInverse(q, p)
  {
    var n := |p|;
    forall v | 0 <= v < n
      ensures 0 <= q[v] < n && p[q[v]] == v
    {
      var k := PositionOf(p, v);
    }
    forall a, b | 0 <= a < b < n
      ensures q[a] != q[b]
    {
      assert p[q[a]] == a && p[q[b]] == b;
    }
  }

  // ---------------------------------------------------------------------
  // numpy.argsort, modelled as an insertion sort of the indices by key. numpy's
  // default sort leaves the order of equal keys unspecified; this model picks
  // index order, and nothing relies on it: argsort is applied to permutations.

  /** All entries of `s` are indices into `key`. */
  predicate IndicesOf(s: seq<int>, key: seq<int>) {
    forall t :: 0 <= t < |s| ==> 0 <= s[t] < |key|
  }

  /** The keys along `s` never decrease. */
  predicate SortedBy(s: seq<int>, key: seq<int>)
    requires IndicesOf(s, key)
  {
    forall a, b :: 0 <= a < b < |s| ==> key[s[a]] <= key[s[b]]
  }

  /** Inserts index i after every index whose key is at most key[i]. */
  function InsertByKey(s: seq<int>, i: int, key: seq<int>): seq<int>
    requires IndicesOf(s, key) && 0 <= i < |key|
  {
    if s == [] then [i]
    else if key[s[|s| - 1]] <= key[i] then s + [i]
    else InsertByKey(s[..|s| - 1], i, key) + [s[|s| - 1]]
  }

  lemma {:induction false} InsertByKeyFacts(s: seq<int>, i: int, key: seq<int>)
    requires IndicesOf(s, key) && 0 <= i < |key|
    requires SortedBy(s, key) && Distinct(s) && i !in s
    ensures var r := InsertByKey(s, i, key);
      |r| == |s| + 1 && IndicesOf(r, key) && SortedBy(r, key) && Distinct(r) &&
      forall x :: x in r <==> x in s || x == i
  {
    if s == [] {
    } else if key[s[|s| - 1]] <= key[i] {
      assert InsertByKey(s, i, key) == s + [i];
      KeysUpToLast(s, key);
      AppendAfter(s, i, key);
    } else {
      var init, last := s[..|s| - 1], s[|s| - 1];
      InitFacts(s, key);
      InsertByKeyFacts(init, i, key);
      var r0 := InsertByKey(init, i, key);
      assert InsertByKey(s, i, key) == r0 + [last];
      assert forall x :: x in r0 ==> x in init || x == i;
      AppendAfter(r0, last, key);
    }
  }

  /** In a sorted sequence, every key is at most the last one. */
  lemma KeysUpToLast(s: seq<int>, key: seq<int>)
    requires IndicesOf(s, key) && SortedBy(s, key) && s != []
    ensures forall x :: x in s ==> key[x] <= key[s[|s| - 1]]
  {
    forall x | x in s
      ensures key[x] <= key[s[|s| - 1]]
    {
      var t :| 0 <= t < |s| && s[t] == x;
    }
  }

  /** Dropping the last index keeps the sequence sorted and distinct, and
      every remaining index differs from the last and has a key at most its key. */
  lemma InitFacts(s: seq<int>, key: seq<int>)
    requires IndicesOf(s, key) && SortedBy(s, key) && Distinct(s) && s != []
    ensures IndicesOf(s[..|s| - 1], key) && SortedBy(s[..|s| - 1], key) && Distinct(s[..|s| - 1])
    ensures forall x :: x in s ==> x in s[..|s| - 1] || x == s[|s| - 1]
    ensures forall x :: x in s[..|s| - 1] ==> key[x] <= key[s[|s| - 1]] && x != s[|s| - 1]
  {
    var init := s[..|s| - 1];
    assert s == init + [s[|s| - 1]];
    forall x | x in init
      ensures key[x] <= key[s[|s| - 1]] && x != s[|s| - 1]
    {
      var t :| 0 <= t < |init| && init[t] == x;
      assert s[t] == x;
    }
  }

  /** Appending an index whose key is at least every key present keeps the
      sequence sorted and distinct. */
  lemma AppendAfter(s: seq<int>, x: int, key: seq<int>)
    requires IndicesOf(s, key) && 0 <= x < |key|
    requires SortedBy(s, key) && Distinct(s) && x !in s
    requires forall y :: y in s ==> key[y] <= key[x]
    ensures IndicesOf(s + [x], key) && SortedBy(s + [x], key) && Distinct(s + [x])
    ensures forall y :: y in s + [x] <==> y in s || y == x
  {
    var r := s + [x];
    forall a, b | 0 <= a < b < |r|
      ensures key[r[a]] <= key[r[b]] && r[a] != r[b]
    {
      assert r[a] == s[a] && r[a] in s;
      if b < |s| {
        assert r[b] == s[b];
      }
    }
  }

  /** The indices 0..k-1 sorted by key, ties in index order. */
  function SortedIndices(key: seq<int>, k: nat): (r: seq<int>)
    requires k <= |key|
    ensures |r| == k && IndicesOf(r, key) && SortedBy(r, key) && Distinct(r)
    ensures forall x :: x in r <==> 0 <= x < k
  {
    if k == 0 then []
    else
      var s := SortedIndices(key, k - 1);
      InsertByKeyFacts(s, k - 1, key);
      InsertByKey(s, k - 1, key)
  }

  /** numpy.argsort(key): the indices of key ordered by key value (the order
      of ties is unspecified in numpy). */
  function Argsort(key: seq<int>): (r: seq<int>)
    ensures IsPermutation(r) && |r| == |key|
    ensures forall a, b :: 0 <= a < b < |r| ==> key[r[a]] <= key[r[b]]
  {
    SortedIndices(key, |key|)
  }

  /** A strictly increasing seq of n values drawn from 0..n-1 is 0, 1, ..., n-1. */
  lemma {:induction false} IncreasingIsIdentity(s: seq<int>)
    requires forall a, b :: 0 <= a < b < |s| ==> s[a] < s[b]
    requires forall a :: 0 <= a < |s| ==> 0 <= s[a] < |s|
    ensures forall a :: 0 <= a < |s| ==> s[a] == a
  {
    var n := |s|;
    forall a | 0 <= a < n
      ensures s[a] == a
    {
      AtLeastPosition(s, a);
      AtMostPosition(s, a);
    }
  }

  lemma {:induction false} AtLeastPosition(s: seq<int>, a: nat)
    requires a < |s|
    requires forall x, y :: 0 <= x < y < |s| ==> s[x] < s[y]
    requires forall x :: 0 <= x < |s| ==> 0 <= s[x]
    ensures s[a] >= a
  {
    if a > 0 {
      AtLeastPosition(s, a - 1);
    }
  }

  lemma {:induction false} AtMostPosition(s: seq<int>, a: nat)
    requires a < |s|
    requires forall x, y :: 0 <= x < y < |s| ==> s[x] < s[y]
    requires forall x :: 0 <= x < |s| ==> s[x] < |s|
    ensures s[a] <= a
    decreases |s| - a
  {
    if a < |s| - 1 {
      AtMostPosition(s, a + 1);
    }
  }

  /** For a permutation, argsort is the inverse permutation. */
  lemma ArgsortInvertsPermutation(p: seq<int>)
    requires IsPermutation(p)
    ensures IsInverse(Argsort(p), p) && IsInverse(p, Argsort(p))
  {
    var r := Argsort(p);
    var keys := seq(|r|, a requires 0 <= a < |r| => p[r[a]]);
    forall a, b | 0 <= a < b < |keys|
      ensures keys[a] < keys[b]
    {
      assert r[a] != r[b];
    }
    IncreasingIsIdentity(keys);
    forall a | 0 <= a < |r|
      ensures p[r[a]] == a
    {
      assert keys[a] == p[r[a]];
    }
    assert IsInverse(r, p);
    InverseIsPermutation(r, p);
  }

  /** Two inverses of the same permutation coincide. */
  lemma InverseUnique(p: seq<int>, q1: seq<int>, q2: seq<int>)
    requires IsPermutation(p) && IsInverse(p, q1) && IsInverse(p, q2)
    ensures q1 == q2
  {
    forall v | 0 <= v < |q1|
      ensures q1[v] == q2[v]
    {
      var k := PositionOf(p, v);
    }
  }

  // ---------------------------------------------------------------------
  // Counting through an injective map.

  /** The image of a set under a function. */
  function MapSet<A, B>(s: set<A>, f: A -> B): set<B> {
    set x | x in s :: f(x)
  }

  /** An injective map does not change the size of a finite set. */
  lemma {:induction false} InjectiveImageCard<A, B>(s: set<A>, f: A -> B)
    requires forall x, y :: x in s && y in s && f(x) == f(y) ==> x == y
    ensures |MapSet(s, f)| == |s|
    decreases |s|
  {
    if s != {} {
      var x :| x in s;
      var rest := s - {x};
      InjectiveImageCard(rest, f);
      assert MapSet(s, f) == MapSet(rest, f) + {f(x)};
      assert f(x) !in MapSet(rest, f);
    }
  }
}
