/** Order-preserving sequence operations that the job board applies to its lists:
    `Array.prototype.filter`, `Array.prototype.map` over a replace-where rule, and
    counting the elements that satisfy a condition. */
module Seqs {

  /** The elements of `s` that satisfy `p`, in their original order (`s.filter(p)`). */
  function Filter<T>(s: seq<T>, p: T -> bool): (r: seq<T>)
    ensures |r| <= |s|
    ensures forall x :: x in r ==> x in s && p(x)
  {
    if s == [] then []
    else if p(s[0]) then [s[0]] + Filter(s[1..], p)
    else Filter(s[1..], p)
  }

  /** `a` can be obtained from `b` by deleting elements, without reordering. */
  predicate IsSubsequence<T(==)>(a: seq<T>, b: seq<T>)
    decreases |b|
  {
    if a == [] then true
    else if b == [] then false
    else if a[0] == b[0] then IsSubsequence(a[1..], b[1..])
    else IsSubsequence(a, b[1..])
  }

  /** Every element that satisfies `p` survives the filter, so membership is an equivalence. */
  lemma {:induction false} FilterMembership<T>(s: seq<T>, p: T -> bool, x: T)
    ensures x in Filter(s, p) <==> x in s && p(x)
  {
    if s != [] {
      FilterMembership(s[1..], p, x);
      assert s == [s[0]] + s[1..];
    }
  }

  /** The same, for every value at once. */
  lemma FilterMembers<T>(s: seq<T>, p: T -> bool)
    ensures forall x :: x in Filter(s, p) <==> x in s && p(x)
  {
    forall x {
      FilterMembership(s, p, x);
    }
  }

  /** A filter whose condition holds everywhere is the identity. */
  lemma {:induction false} FilterKeepsAll<T>(s: seq<T>, p: T -> bool)
    requires forall i :: 0 <= i < |s| ==> p(s[i])
    ensures Filter(s, p) == s
  {
    if s != [] {
      FilterKeepsAll(s[1..], p);
    }
  }

  /** A filter whose condition holds nowhere yields the empty sequence. */
  lemma {:induction false} FilterKeepsNone<T>(s: seq<T>, p: T -> bool)
    requires forall i :: 0 <= i < |s| ==> !p(s[i])
    ensures Filter(s, p) == []
  {
    if s != [] {
      FilterKeepsNone(s[1..], p);
    }
  }

  /** Two filters in a row are one filter on the conjunction: chaining `.filter` calls
      yields the order-preserving intersection of the individual results. */
  lemma {:induction false} FilterFilter<T>(s: seq<T>, p: T -> bool, q: T -> bool)
    ensures Filter(Filter(s, p), q) == Filter(s, x => p(x) && q(x))
  {
    if s != [] {
      FilterFilter(s[1..], p, q);
    }
  }

  /** Two filters in a row are one filter on any condition that agrees with their
      conjunction on the input. */
  lemma FilterFilterAs<T>(s: seq<T>, p: T -> bool, q: T -> bool, r: T -> bool)
    requires forall i :: 0 <= i < |s| ==> (p(s[i]) && q(s[i])) == r(s[i])
    ensures Filter(Filter(s, p), q) == Filter(s, r)
  {
    FilterFilter(s, p, q);
    FilterExtensional(s, x => p(x) && q(x), r);
  }

  /** Filters with pointwise-equal conditions agree. */
  lemma {:induction false} FilterExtensional<T>(s: seq<T>, p: T -> bool, q: T -> bool)
    requires forall i :: 0 <= i < |s| ==> p(s[i]) == q(s[i])
    ensures Filter(s, p) == Filter(s, q)
  {
    if s != [] {
      FilterExtensional(s[1..], p, q);
    }
  }

  /** The result of a filter is a subsequence of its input: nothing is reordered. */
  lemma {:induction false} FilterIsSubsequence<T>(s: seq<T>, p: T -> bool)
    ensures IsSubsequence(Filter(s, p), s)
  {
    if s != [] {
      FilterIsSubsequence(s[1..], p);
      if p(s[0]) {
        assert Filter(s, p)[0] == s[0];
        assert Filter(s, p)[1..] == Filter(s[1..], p);
      } else {
        SubsequenceDropFront(Filter(s[1..], p), s);
      }
    }
  }

  lemma {:induction false} SubsequenceDropFront<T>(a: seq<T>, b: seq<T>)
    requires b != [] && IsSubsequence(a, b[1..])
    ensures IsSubsequence(a, b)
    decreases |b|, 0
  {
    if a != [] && a[0] == b[0] {
      SubsequenceTail(a, b[1..]);
    }
  }

  lemma {:induction false} SubsequenceTail<T>(a: seq<T>, b: seq<T>)
    requires a != [] && IsSubsequence(a, b)
    ensures IsSubsequence(a[1..], b)
    decreases |b|, 1
  {
    if a[0] != b[0] {
      SubsequenceTail(a, b[1..]);
      SubsequenceDropFront(a[1..], b);
    } else if a[1..] != [] {
      SubsequenceDropFront(a[1..], b);
    }
  }

  /** Filtering a concatenation filters each part. */
  lemma {:induction false} FilterAppend<T>(a: seq<T>, b: seq<T>, p: T -> bool)
    ensures Filter(a + b, p) == Filter(a, p) + Filter(b, p)
  {
    if a != [] {
      assert (a + b)[0] == a[0];
      assert (a + b)[1..] == a[1..] + b;
      FilterAppend(a[1..], b, p);
    } else {
      assert a + b == b;
    }
  }

  /** Number of elements that satisfy `p` (an SQL `COUNT(*) ... WHERE p`). */
  function Count<T>(s: seq<T>, p: T -> bool): (n: nat)
    ensures n <= |s|
    ensures n == |Filter(s, p)|
  {
    if s == [] then 0
    else (if p(s[0]) then 1 else 0) + Count(s[1..], p)
  }

  /** Counting a condition that implies another counts no more. */
  lemma {:induction false} CountMonotone<T>(s: seq<T>, p: T -> bool, q: T -> bool)
    requires forall i :: 0 <= i < |s| ==> p(s[i]) ==> q(s[i])
    ensures Count(s, p) <= Count(s, q)
  {
    if s != [] {
      CountMonotone(s[1..], p, q);
    }
  }

  /** Counts of mutually exclusive conditions add up to the count of their disjunction. */
  lemma {:induction false} CountDisjoint<T>(s: seq<T>, p: T -> bool, q: T -> bool)
    requires forall i :: 0 <= i < |s| ==> !(p(s[i]) && q(s[i]))
    ensures Count(s, p) + Count(s, q) == Count(s, x => p(x) || q(x))
  {
    if s != [] {
      CountDisjoint(s[1..], p, q);
    }
  }

  /** `s.map(x => p(x) ? f(x) : x)`: only the elements satisfying `p` are replaced. */
  function ReplaceWhere<T>(s: seq<T>, p: T -> bool, f: T -> T): (r: seq<T>)
    ensures |r| == |s|
    ensures forall i :: 0 <= i < |s| ==> r[i] == if p(s[i]) then f(s[i]) else s[i]
  {
    if s == [] then []
    else [if p(s[0]) then f(s[0]) else s[0]] + ReplaceWhere(s[1..], p, f)
  }

  /** The position of the first occurrence of `x` in `s`. */
  function IndexOf<T(==)>(s: seq<T>, x: T): (i: nat)
    requires x in s
    ensures i < |s| && s[i] == x
    ensures forall k :: 0 <= k < i ==> s[k] != x
  {
    if s[0] == x then 0 else 1 + IndexOf(s[1..], x)
  }

  /** A value that occurs in a prefix has its first occurrence there. */
  lemma IndexOfPrefix<T>(s: seq<T>, n: nat, x: T)
    requires n <= |s| && x in s[..n]
    ensures IndexOf(s, x) == IndexOf(s[..n], x)
  {
    var i, j := IndexOf(s[..n], x), IndexOf(s, x);
    assert s[i] == x;
    if j < n {
      assert s[..n][j] == s[j];
    }
  }

  /** `[...new Set(s)]`: every value of `s` once, in the order of first occurrence. */
  function Distinct<T(==)>(s: seq<T>): (r: seq<T>)
    ensures forall i :: 0 <= i < |r| ==> r[i] in s
    ensures forall i :: 0 <= i < |s| ==> s[i] in r
    decreases |s|
  {
    if s == [] then []
    else
      var d := Distinct(s[..|s| - 1]);
      assert s == s[..|s| - 1] + [s[|s| - 1]];
      if s[|s| - 1] in d then d else d + [s[|s| - 1]]
  }

  /** No value appears twice in `Distinct(s)`. */
  lemma {:induction false} DistinctNoDuplicates<T>(s: seq<T>)
    ensures forall i, j :: 0 <= i < j < |Distinct(s)| ==> Distinct(s)[i] != Distinct(s)[j]
    decreases |s|
  {
    if s != [] {
      DistinctNoDuplicates(s[..|s| - 1]);
    }
  }

  /** The values of `Distinct(s)` are ordered by where they first occur in `s`. */
  lemma {:induction false} DistinctFirstOccurrenceOrder<T>(s: seq<T>)
    ensures forall i, j :: 0 <= i < j < |Distinct(s)| ==>
      IndexOf(s, Distinct(s)[i]) < IndexOf(s, Distinct(s)[j])
    decreases |s|
  {
    if s != [] {
      var n := |s| - 1;
      var p, r := s[..n], Distinct(s);
      var d := Distinct(p);
      DistinctFirstOccurrenceOrder(p);
      forall x | x in d
        ensures IndexOf(s, x) == IndexOf(p, x) < n
      {
        IndexOfPrefix(s, n, x);
      }
      if s[n] !in d {
        assert s[n] !in p;
        assert IndexOf(s, s[n]) == n;
      }
      forall i, j | 0 <= i < j < |r|
        ensures IndexOf(s, r[i]) < IndexOf(s, r[j])
      {
        if j < |d| {
          assert r[i] == d[i] && r[j] == d[j];
        } else {
          assert r[i] == d[i] && r[j] == s[n];
        }
      }
    }
  }

  /** Some element satisfies `p` (an SQL query with `one=True` that finds a row). */
  predicate Any<T>(s: seq<T>, p: T -> bool) {
    exists k :: 0 <= k < |s| && p(s[k])
  }

  /** The position of the first element satisfying `p` (the row `one=True` returns). */
  function FirstIndex<T>(s: seq<T>, p: T -> bool): (i: nat)
    requires Any(s, p)
    ensures i < |s| && p(s[i])
    ensures forall k :: 0 <= k < i ==> !p(s[k])
  {
    if p(s[0]) then 0
    else
      assert Any(s[1..], p) by {
        var k :| 0 <= k < |s| && p(s[k]);
        assert s[1..][k - 1] == s[k];
      }
      1 + FirstIndex(s[1..], p)
  }

  /** A condition that exactly one position satisfies is counted once. */
  lemma {:induction false} CountOne<T>(s: seq<T>, p: T -> bool, k: nat)
    requires k < |s| && p(s[k])
    requires forall i :: 0 <= i < |s| && i != k ==> !p(s[i])
    ensures Count(s, p) == 1
  {
    if k == 0 {
      FilterKeepsNone(s[1..], p);
    } else {
      CountOne(s[1..], p, k - 1);
    }
  }
}
