/** Sequence helpers shared by the views: the JavaScript array operations the
    components apply to their in-memory lists, stated once. */
module Collections {

  datatype Option<+T> = None | Some(value: T)

  /** `a` is `b` with some elements left out and the rest kept in order. */
  predicate IsSubsequence<T(==)>(a: seq<T>, b: seq<T>)
    decreases |b|
  {
    a == [] || (b != [] && ((a[0] == b[0] && IsSubsequence(a[1..], b[1..])) || IsSubsequence(a, b[1..])))
  }

  /** `Array.prototype.filter`: the elements of `s` that satisfy `p`, in order. */
  function Filter<T>(p: T -> bool, s: seq<T>): (r: seq<T>)
    ensures |r| <= |s|
    ensures forall i :: 0 <= i < |r| ==> p(r[i])
    decreases |s|
  {
    if s == [] then [] else (if p(s[0]) then [s[0]] else []) + Filter(p, s[1..])
  }

  /** What `filter` keeps: an order-preserving subsequence holding exactly the
      elements that satisfy the predicate, each as often as in `s`. */
  lemma {:induction false} FilterSpec<T>(p: T -> bool, s: seq<T>)
    ensures IsSubsequence(Filter(p, s), s)
    ensures forall x :: x in Filter(p, s) <==> x in s && p(x)
    ensures forall x :: multiset(Filter(p, s))[x] == if p(x) then multiset(s)[x] else 0
    decreases |s|
  {
    if s != [] {
      FilterSpec(p, s[1..]);
      var rest := Filter(p, s[1..]);
      if p(s[0]) {
        assert Filter(p, s) == [s[0]] + rest;
        assert ([s[0]] + rest)[1..] == rest;
      } else {
        assert Filter(p, s) == rest;
      }
      assert s == [s[0]] + s[1..];
    }
  }

  /** A filter whose predicate holds everywhere gives the list back. */
  lemma {:induction false} FilterKeepsAll<T>(p: T -> bool, s: seq<T>)
    requires forall i :: 0 <= i < |s| ==> p(s[i])
    ensures Filter(p, s) == s
    decreases |s|
  {
    if s != [] {
      FilterKeepsAll(p, s[1..]);
      assert s == [s[0]] + s[1..];
    }
  }

  /** A filter keeps nothing exactly when no element satisfies the predicate. */
  lemma {:induction false} FilterEmpty<T>(p: T -> bool, s: seq<T>)
    ensures Filter(p, s) == [] <==> forall i :: 0 <= i < |s| ==> !p(s[i])
    decreases |s|
  {
    if s != [] {
      FilterEmpty(p, s[1..]);
      assert forall i :: 1 <= i < |s| ==> s[i] == s[1..][i - 1];
    }
  }

  /** `Math.max(...xs, 0)`: the largest element, or 0 when that is larger or
      the list is empty. */
  function MaxOrZero(xs: seq<int>): (m: int)
    ensures m >= 0
    ensures forall i :: 0 <= i < |xs| ==> xs[i] <= m
    ensures m == 0 || m in xs
    decreases |xs|
  {
    if xs == [] then 0
    else
      var rest := MaxOrZero(xs[1..]);
      if xs[0] > rest then xs[0] else rest
  }

  /** Two kept elements of a filter appear in it in their original order. */
  lemma {:induction false} FilterOrder<T>(p: T -> bool, s: seq<T>, i: int, j: int)
    requires 0 <= i < j < |s| && p(s[i]) && p(s[j])
    ensures IsSubsequence([s[i], s[j]], Filter(p, s))
    decreases |s|
  {
    var rest := Filter(p, s[1..]);
    if i == 0 {
      FilterSpec(p, s[1..]);
      assert s[1..][j - 1] == s[j];
      assert s[j] in rest;
      assert Filter(p, s) == [s[0]] + rest;
      SingletonSubsequence(s[j], rest);
      assert ([s[0], s[j]])[1..] == [s[j]];
    } else {
      FilterOrder(p, s[1..], i - 1, j - 1);
      assert s[1..][i - 1] == s[i] && s[1..][j - 1] == s[j];
      if p(s[0]) {
        assert Filter(p, s) == [s[0]] + rest;
        assert ([s[0]] + rest)[1..] == rest;
        SubsequenceOfTail([s[i], s[j]], s[0], rest);
      } else {
        assert Filter(p, s) == rest;
      }
    }
  }

  lemma {:induction false} SingletonSubsequence<T>(x: T, s: seq<T>)
    requires x in s
    ensures IsSubsequence([x], s)
    decreases |s|
  {
    if s[0] != x {
      SingletonSubsequence(x, s[1..]);
    } else {
      assert [x][1..] == [];
    }
  }

  lemma SubsequenceOfTail<T>(a: seq<T>, x: T, s: seq<T>)
    requires IsSubsequence(a, s)
    ensures IsSubsequence(a, [x] + s)
  {
    assert ([x] + s)[1..] == s;
  }

  lemma PrefixSubMultiset<T>(s: seq<T>, k: int)
    requires 0 <= k <= |s|
    ensures multiset(s[..k]) <= multiset(s)
    ensures multiset(s) == multiset(s[..k]) + multiset(s[k..])
  {
    assert s == s[..k] + s[k..];
  }

  /** An occurrence of `e` that the prefix misses sits in the tail. */
  lemma LeftOutInTail<T>(s: seq<T>, k: int, e: T) returns (m: int)
    requires 0 <= k <= |s|
    requires multiset(s[..k])[e] < multiset(s)[e]
    ensures k <= m < |s| && s[m] == e
  {
    PrefixSubMultiset(s, k);
    assert e in s[k..];
    var j :| 0 <= j < |s[k..]| && s[k..][j] == e;
    m := k + j;
  }
}
