/** Sequence operations the stores and the catalog are built from:
    Array.prototype.filter, find/findIndex, a descending sort by a key,
    and a fresh-id generator. */
module Seqs {
  import opened Common

  /** a is obtained from b by deleting some elements, keeping the order. */
  ghost predicate IsSubsequence<T>(a: seq<T>, b: seq<T>)
    decreases |b|
  {
    if |b| == 0 then |a| == 0
    else IsSubsequence(a, b[1..]) || (|a| > 0 && a[0] == b[0] && IsSubsequence(a[1..], b[1..]))
  }

  lemma {:induction false} SubsequenceRefl<T>(s: seq<T>)
    ensures IsSubsequence(s, s)
    decreases |s|
  {
    if |s| > 0 {
      SubsequenceRefl(s[1..]);
    }
  }

  /** A subsequence of a subsequence is a subsequence. */
  lemma {:induction false} SubsequenceTrans<T>(a: seq<T>, b: seq<T>, c: seq<T>)
    requires IsSubsequence(a, b) && IsSubsequence(b, c)
    ensures IsSubsequence(a, c)
    decreases |c|
  {
    if |c| > 0 {
      if IsSubsequence(b, c[1..]) {
        SubsequenceTrans(a, b, c[1..]);
      } else {
        assert |b| > 0 && b[0] == c[0] && IsSubsequence(b[1..], c[1..]);
        if |b| > 0 && IsSubsequence(a, b[1..]) {
          SubsequenceTrans(a, b[1..], c[1..]);
        } else if |a| > 0 {
          assert a[0] == b[0] && IsSubsequence(a[1..], b[1..]);
          SubsequenceTrans(a[1..], b[1..], c[1..]);
        }
      }
    }
  }

  /** Array.prototype.filter. */
  function Filter<T(!new)>(s: seq<T>, p: T -> bool): (r: seq<T>)
    ensures |r| <= |s|
    ensures forall x :: x in r <==> x in s && p(x)
    ensures IsSubsequence(r, s)
    decreases |s|
  {
    if |s| == 0 then []
    else if p(s[0]) then
      var rest := Filter(s[1..], p);
      assert ([s[0]] + rest)[1..] == rest;
      [s[0]] + rest
    else Filter(s[1..], p)
  }

  /** Each element keeps its multiplicity if it passes p and is dropped otherwise. */
  lemma {:induction false} FilterMultiset<T(!new)>(s: seq<T>, p: T -> bool, x: T)
    ensures multiset(Filter(s, p))[x] == if p(x) then multiset(s)[x] else 0
    decreases |s|
  {
    if |s| > 0 {
      FilterMultiset(s[1..], p, x);
      assert s == [s[0]] + s[1..];
    }
  }

  /** Filtering by p then by q is filtering by their conjunction. */
  lemma {:induction false} FilterFilter<T(!new)>(s: seq<T>, p: T -> bool, q: T -> bool, both: T -> bool)
    requires forall x :: both(x) == (p(x) && q(x))
    ensures Filter(Filter(s, p), q) == Filter(s, both)
    decreases |s|
  {
    if |s| > 0 {
      FilterFilter(s[1..], p, q, both);
      if p(s[0]) {
        assert Filter(s, p)[1..] == Filter(s[1..], p);
      }
    }
  }

  /** Array.prototype.findIndex: the first index whose element satisfies p. */
  function FindIndex<T>(s: seq<T>, p: T -> bool): (r: Option<nat>)
    ensures r.Some? ==> r.value < |s| && p(s[r.value]) && forall i :: 0 <= i < r.value ==> !p(s[i])
    ensures r.None? <==> forall i :: 0 <= i < |s| ==> !p(s[i])
    decreases |s|
  {
    if |s| == 0 then None
    else if p(s[0]) then Some(0)
    else
      match FindIndex(s[1..], p)
      case None => None
      case Some(k) => Some(k + 1)
  }

  /** Array.prototype.find: the first element satisfying p. */
  function Find<T(!new)>(s: seq<T>, p: T -> bool): (r: Option<T>)
    ensures r.Some? ==> r.value in s && p(r.value)
    ensures r.None? <==> forall x :: x in s ==> !p(x)
  {
    match FindIndex(s, p)
    case None => None
    case Some(k) => Some(s[k])
  }

  ghost predicate SortedDesc<T>(s: seq<T>, key: T -> int)
  {
    forall i, j :: 0 <= i < j < |s| ==> key(s[i]) >= key(s[j])
  }

  function Insert<T(!new)>(x: T, s: seq<T>, key: T -> int): (r: seq<T>)
    requires SortedDesc(s, key)
    ensures |r| == |s| + 1
    ensures r[0] == x || (|s| > 0 && r[0] == s[0])
    ensures SortedDesc(r, key)
    ensures multiset(r) == multiset(s) + multiset{x}
    decreases |s|
  {
    if |s| == 0 then [x]
    else if key(x) >= key(s[0]) then [x] + s
    else
      var rest := Insert(x, s[1..], key);
      assert s == [s[0]] + s[1..];
      assert key(s[0]) >= key(rest[0]);
      [s[0]] + rest
  }

  /** The store's sort({ key: -1 }): a permutation of s ordered by
      descending key. */
  function SortDesc<T(!new)>(s: seq<T>, key: T -> int): (r: seq<T>)
    ensures SortedDesc(r, key)
    ensures multiset(r) == multiset(s)
    decreases |s|
  {
    if |s| == 0 then []
    else
      assert s == [s[0]] + s[1..];
      Insert(s[0], SortDesc(s[1..], key), key)
  }

  /** An id larger than every id in use. */
  function NextId<T>(s: seq<T>, id: T -> nat): (r: nat)
    ensures forall i :: 0 <= i < |s| ==> id(s[i]) < r
    decreases |s|
  {
    if |s| == 0 then 0
    else
      var rest := NextId(s[1..], id);
      assert forall i :: 1 <= i < |s| ==> s[i] == s[1..][i - 1];
      if id(s[0]) < rest then rest else id(s[0]) + 1
  }
}
