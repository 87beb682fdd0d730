/** Order-preserving map and filter over sequences: the two list operations
    (JavaScript's `Array.prototype.map` and `Array.prototype.filter`) that every
    per-tick system of the game is built from. Both walk the sequence left to
    right; the definitions recurse on the prefix so that the last element is the
    last one visited. */
module Sequences {

  /** `f` applied to every element, positions preserved. */
  function Map<T, U>(s: seq<T>, f: T -> U): (r: seq<U>)
    ensures |r| == |s|
    ensures forall i :: 0 <= i < |s| ==> r[i] == f(s[i])
    decreases |s|
  {
    if |s| == 0 then [] else Map(s[..|s| - 1], f) + [f(s[|s| - 1])]
  }

  /** The elements of `s` that satisfy `p`, in their original order. */
  function Filter<T(!new)>(s: seq<T>, p: T -> bool): (r: seq<T>)
    ensures |r| <= |s|
    ensures forall x :: x in r <==> x in s && p(x)
    decreases |s|
  {
    if |s| == 0 then []
    else if p(s[|s| - 1]) then Filter(s[..|s| - 1], p) + [s[|s| - 1]]
    else Filter(s[..|s| - 1], p)
  }

  /** The positions of `s` whose element satisfies `p`, in increasing order:
      an index-level description of what `Filter` keeps. */
  function KeptIndices<T>(s: seq<T>, p: T -> bool): (idx: seq<int>)
    ensures forall k :: 0 <= k < |idx| ==> 0 <= idx[k] < |s| && p(s[idx[k]])
    ensures forall k, l :: 0 <= k < l < |idx| ==> idx[k] < idx[l]
    ensures forall i :: 0 <= i < |s| && p(s[i]) ==> i in idx
    decreases |s|
  {
    if |s| == 0 then []
    else if p(s[|s| - 1]) then KeptIndices(s[..|s| - 1], p) + [|s| - 1]
    else KeptIndices(s[..|s| - 1], p)
  }

  /** Filtering keeps exactly the elements at the kept positions, in order:
      the k-th survivor is the element at the k-th position satisfying `p`. */
  lemma {:induction false} FilterByIndices<T(!new)>(s: seq<T>, p: T -> bool)
    ensures |Filter(s, p)| == |KeptIndices(s, p)|
    ensures forall k :: 0 <= k < |Filter(s, p)| ==> Filter(s, p)[k] == s[KeptIndices(s, p)[k]]
    decreases |s|
  {
    if |s| > 0 {
      var pre := s[..|s| - 1];
      FilterByIndices(pre, p);
      var f, ks := Filter(pre, p), KeptIndices(pre, p);
      if p(s[|s| - 1]) {
        var r, idx := f + [s[|s| - 1]], ks + [|s| - 1];
        assert Filter(s, p) == r && KeptIndices(s, p) == idx;
        forall k | 0 <= k < |r|
          ensures r[k] == s[idx[k]]
        {
          if k < |f| {
            assert r[k] == f[k] == pre[ks[k]];
          }
        }
      } else {
        assert Filter(s, p) == f;
        assert KeptIndices(s, p) == ks;
        forall k | 0 <= k < |f|
          ensures f[k] == s[ks[k]]
        {
          assert f[k] == pre[ks[k]];
        }
      }
    }
  }

  /** Filtering distributes over concatenation: the survivors of `a` come
      before the survivors of `b`. */
  lemma {:induction false} FilterAppend<T(!new)>(a: seq<T>, b: seq<T>, p: T -> bool)
    ensures Filter(a + b, p) == Filter(a, p) + Filter(b, p)
    decreases |b|
  {
    if |b| > 0 {
      var b' := b[..|b| - 1];
      assert (a + b)[..|a + b| - 1] == a + b';
      FilterAppend(a, b', p);
    } else {
      assert a + b == a;
    }
  }

  /** Filtering by a predicate every element satisfies changes nothing. */
  lemma {:induction false} FilterAll<T(!new)>(s: seq<T>, p: T -> bool)
    requires forall i :: 0 <= i < |s| ==> p(s[i])
    ensures Filter(s, p) == s
    decreases |s|
  {
    if |s| > 0 {
      FilterAll(s[..|s| - 1], p);
    }
  }

  /** Filtering twice is filtering once by the conjunction. */
  lemma {:induction false} FilterFilter<T(!new)>(s: seq<T>, p: T -> bool, q: T -> bool, pq: T -> bool)
    requires forall x :: pq(x) == (p(x) && q(x))
    ensures Filter(Filter(s, p), q) == Filter(s, pq)
    decreases |s|
  {
    if |s| > 0 {
      var pre := s[..|s| - 1];
      FilterFilter(pre, p, q, pq);
      if p(s[|s| - 1]) {
        assert Filter(s, p)[..|Filter(s, p)| - 1] == Filter(pre, p);
      }
    }
  }

  /** Filtering then mapping equals mapping then filtering by the composed predicate. */
  lemma {:induction false} FilterMap<T(!new), U(!new)>(s: seq<T>, f: T -> U, q: U -> bool, qf: T -> bool)
    requires forall x :: qf(x) == q(f(x))
    ensures Filter(Map(s, f), q) == Map(Filter(s, qf), f)
    decreases |s|
  {
    if |s| > 0 {
      var pre := s[..|s| - 1];
      FilterMap(pre, f, q, qf);
      assert Map(s, f)[..|s| - 1] == Map(pre, f);
      if qf(s[|s| - 1]) {
        assert Map(Filter(s, qf), f) == Map(Filter(pre, qf), f) + [f(s[|s| - 1])] by {
          assert Filter(s, qf)[..|Filter(s, qf)| - 1] == Filter(pre, qf);
        }
      }
    }
  }

  /** Filtering removes something exactly when some element fails the predicate. */
  lemma {:induction false} FilterShrinks<T(!new)>(s: seq<T>, p: T -> bool)
    ensures |Filter(s, p)| < |s| <==> exists i :: 0 <= i < |s| && !p(s[i])
    decreases |s|
  {
    if |s| > 0 {
      var pre := s[..|s| - 1];
      FilterShrinks(pre, p);
      if exists i :: 0 <= i < |pre| && !p(pre[i]) {
        var i :| 0 <= i < |pre| && !p(pre[i]);
        assert s[i] == pre[i];
      }
      if exists i :: 0 <= i < |s| && !p(s[i]) {
        var i :| 0 <= i < |s| && !p(s[i]);
        if i < |pre| {
          assert pre[i] == s[i];
        }
      }
    }
  }
}
