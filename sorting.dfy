/** numpy's `argsort()` followed by the reversal `[::-1]`, which together
    give the order in which eigendecompose lists the eigenpairs.
    argsort is modelled as an insertion sort over indices that keeps equal
    values in index order; none of the contracts below depends on that
    choice. */
module Sorting {
  import opened LinAlg

  /** The values v picks out through idx are in non-decreasing order. */
  predicate AscendingBy(v: Vector, idx: seq<nat>)
    requires InBounds(idx, |v|)
  {
    forall i, j :: 0 <= i < j < |idx| ==> v[idx[i]] <= v[idx[j]]
  }

  /** The values v picks out through idx are in non-increasing order. */
  predicate DescendingBy(v: Vector, idx: seq<nat>)
    requires InBounds(idx, |v|)
  {
    forall i, j :: 0 <= i < j < |idx| ==> v[idx[i]] >= v[idx[j]]
  }

  /** Inserts index j into s after every index whose value is not larger
      than v[j]; on an s in ascending order of v this keeps it ascending
      (InsertIndexAscending). */
  function InsertIndex(v: Vector, s: seq<nat>, j: nat): (r: seq<nat>)
    requires j < |v| && InBounds(s, |v|)
    ensures multiset(r) == multiset(s) + multiset{j}
    ensures InBounds(r, |v|)
    ensures |r| > 0 && (r[0] == j || (|s| > 0 && r[0] == s[0]))
    decreases |s|
  {
    if s == [] then [j]
    else if v[j] < v[s[0]] then [j] + s
    else
      var rest := InsertIndex(v, s[1..], j);
      assert s == [s[0]] + s[1..];
      [s[0]] + rest
  }

  lemma {:induction false} InsertIndexAscending(v: Vector, s: seq<nat>, j: nat)
    requires j < |v| && InBounds(s, |v|) && AscendingBy(v, s)
    ensures AscendingBy(v, InsertIndex(v, s, j))
    decreases |s|
  {
    if s != [] && v[s[0]] <= v[j] {
      InsertIndexAscending(v, s[1..], j);
      var rest := InsertIndex(v, s[1..], j);
      var r := InsertIndex(v, s, j);
      assert r == [s[0]] + rest;
      assert v[s[0]] <= v[rest[0]];
      forall p, q | 0 <= p < q < |r| ensures v[r[p]] <= v[r[q]] {
        if p == 0 && q > 1 {
          assert v[rest[0]] <= v[rest[q - 1]];
        }
      }
    }
  }

  /** The indices 0..n-1, ordered by inserting each in turn
      (ArgsortPrefixAscending: in ascending order of v). */
  function ArgsortPrefix(v: Vector, n: nat): (r: seq<nat>)
    requires n <= |v|
    ensures multiset(r) == multiset(Range(n))
    ensures InBounds(r, |v|)
  {
    if n == 0 then []
    else
      assert Range(n) == Range(n - 1) + [n - 1];
      InsertIndex(v, ArgsortPrefix(v, n - 1), n - 1)
  }

  lemma {:induction false} ArgsortPrefixAscending(v: Vector, n: nat)
    requires n <= |v|
    ensures AscendingBy(v, ArgsortPrefix(v, n))
  {
    if n > 0 {
      ArgsortPrefixAscending(v, n - 1);
      InsertIndexAscending(v, ArgsortPrefix(v, n - 1), n - 1);
    }
  }

  /** v.argsort() */
  function Argsort(v: Vector): (r: seq<nat>)
    ensures IsPermutation(r, |v|) && InBounds(r, |v|) && AscendingBy(v, r)
  {
    ArgsortPrefixAscending(v, |v|);
    ArgsortPrefix(v, |v|)
  }

  /** s[::-1] */
  function Reverse<T>(s: seq<T>): (r: seq<T>)
    ensures |r| == |s|
    ensures forall k :: 0 <= k < |s| ==> r[k] == s[|s| - 1 - k]
  {
    seq(|s|, k requires 0 <= k < |s| => s[|s| - 1 - k])
  }

  /** v.argsort()[::-1]: a permutation of the indices of v listing them
      from the largest value to the smallest. Among equal values no order
      is promised. */
  function DescendingOrder(v: Vector): (idx: seq<nat>)
    ensures IsPermutation(idx, |v|) && InBounds(idx, |v|)
    ensures DescendingBy(v, idx)
  {
    var up := Argsort(v);
    ReverseMultiset(up);
    Reverse(up)
  }

  lemma {:induction false} ReverseMultiset<T>(s: seq<T>)
    ensures multiset(Reverse(s)) == multiset(s)
    decreases |s|
  {
    if s != [] {
      var init := s[..|s| - 1];
      ReverseMultiset(init);
      assert Reverse(s) == [s[|s| - 1]] + Reverse(init);
      assert s == init + [s[|s| - 1]];
    }
  }

}
