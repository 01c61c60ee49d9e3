/**
 * Sequence helpers shared by the store, the charts and the list view:
 * `Array.prototype.filter`, numeric `reduce` sums and subsequences.
 */
module Seqs {

  /** `r` can be obtained from `s` by deleting elements (order kept). */
  predicate IsSubsequence<T(==)>(r: seq<T>, s: seq<T>)
    decreases |s|
  {
    r == [] || (s != [] && ((r[0] == s[0] && IsSubsequence(r[1..], s[1..])) || IsSubsequence(r, s[1..])))
  }

  lemma {:induction false} SubsequenceLength<T>(r: seq<T>, s: seq<T>)
    requires IsSubsequence(r, s)
    ensures |r| <= |s|
    decreases |s|
  {
    if r != [] {
      if r[0] == s[0] && IsSubsequence(r[1..], s[1..]) {
        SubsequenceLength(r[1..], s[1..]);
      } else {
        SubsequenceLength(r, s[1..]);
      }
    }
  }

  /** The elements of `s` that satisfy `p`, in their original order. */
  function Filter<T(!new)>(s: seq<T>, p: T -> bool): (r: seq<T>)
    ensures |r| <= |s|
    ensures forall x :: x in r <==> x in s && p(x)
    decreases |s|
  {
    if s == [] then []
    else
      assert s == [s[0]] + s[1..];
      if p(s[0]) then [s[0]] + Filter(s[1..], p) else Filter(s[1..], p)
  }

  lemma {:induction false} FilterIsSubsequence<T(!new)>(s: seq<T>, p: T -> bool)
    ensures IsSubsequence(Filter(s, p), s)
    decreases |s|
  {
    if s != [] {
      FilterIsSubsequence(s[1..], p);
    }
  }

  lemma FilterCons<T(!new)>(x: T, s: seq<T>, p: T -> bool)
    ensures Filter([x] + s, p) == (if p(x) then [x] else []) + Filter(s, p)
  {
    assert ([x] + s)[1..] == s;
  }

  /** One step of `Filter`'s count. */
  lemma FilterLength<T(!new)>(s: seq<T>, p: T -> bool)
    requires s != []
    ensures |Filter(s, p)| == |Filter(s[1..], p)| + (if p(s[0]) then 1 else 0)
  {
  }

  lemma {:induction false} FilterAppend<T(!new)>(a: seq<T>, b: seq<T>, p: T -> bool)
    ensures Filter(a + b, p) == Filter(a, p) + Filter(b, p)
    decreases |a|
  {
    if a == [] {
      assert a + b == b;
    } else {
      assert (a + b)[1..] == a[1..] + b;
      FilterAppend(a[1..], b, p);
    }
  }

  /** Filtering with two predicates that agree on every element gives the same result. */
  lemma {:induction false} FilterCongruent<T(!new)>(s: seq<T>, p: T -> bool, q: T -> bool)
    requires forall x :: x in s ==> p(x) == q(x)
    ensures Filter(s, p) == Filter(s, q)
    decreases |s|
  {
    if s != [] {
      FilterCongruent(s[1..], p, q);
    }
  }

  /** A filter that keeps everything is the identity. */
  lemma {:induction false} FilterAll<T(!new)>(s: seq<T>, p: T -> bool)
    requires forall x :: x in s ==> p(x)
    ensures Filter(s, p) == s
    decreases |s|
  {
    if s != [] {
      FilterAll(s[1..], p);
    }
  }

  /** `s.reduce((sum, x) => sum + f(x), 0)`. */
  function Sum<T>(s: seq<T>, f: T -> int): int
    decreases |s|
  {
    if s == [] then 0 else f(s[0]) + Sum(s[1..], f)
  }

  lemma {:induction false} SumAppend<T>(a: seq<T>, b: seq<T>, f: T -> int)
    ensures Sum(a + b, f) == Sum(a, f) + Sum(b, f)
    decreases |a|
  {
    if a == [] {
      assert a + b == b;
    } else {
      assert (a + b)[1..] == a[1..] + b;
      SumAppend(a[1..], b, f);
    }
  }

  /** Sum of a sequence of numbers (used for the data of a chart). */
  function SumInts(s: seq<int>): int
    decreases |s|
  {
    if s == [] then 0 else s[0] + SumInts(s[1..])
  }

  /** Dropping the elements with `p` and those without it partitions a sequence. */
  lemma {:induction false} FilterSplitsLength<T(!new)>(s: seq<T>, p: T -> bool, q: T -> bool)
    requires forall x :: x in s ==> q(x) == !p(x)
    ensures |Filter(s, p)| + |Filter(s, q)| == |s|
    decreases |s|
  {
    if s != [] {
      FilterSplitsLength(s[1..], p, q);
    }
  }

  /** Two filters in a row keep what passes both. */
  lemma {:induction false} FilterFilter<T(!new)>(s: seq<T>, p: T -> bool, q: T -> bool, both: T -> bool)
    requires forall x :: x in s ==> both(x) == (p(x) && q(x))
    ensures Filter(Filter(s, p), q) == Filter(s, both)
    decreases |s|
  {
    if s != [] {
      FilterFilter(s[1..], p, q, both);
      if p(s[0]) {
        FilterCons(s[0], Filter(s[1..], p), q);
      }
    }
  }

  /** A filter that nothing passes is empty. */
  lemma FilterNone<T(!new)>(s: seq<T>, p: T -> bool)
    requires forall x :: x in s ==> !p(x)
    ensures Filter(s, p) == []
  {
    if Filter(s, p) != [] {
      assert Filter(s, p)[0] in Filter(s, p);
    }
  }

  /** A sum of terms each between `lo` and `hi` lies between `lo` and `hi` times their number. */
  lemma {:induction false} SumBounds<T>(s: seq<T>, f: T -> int, lo: int, hi: int)
    requires forall i :: 0 <= i < |s| ==> lo <= f(s[i]) <= hi
    ensures lo * |s| <= Sum(s, f) <= hi * |s|
    decreases |s|
  {
    if s != [] {
      SumBounds(s[1..], f, lo, hi);
    }
  }
  /** The sum of `f` over the elements of `s` that satisfy `p`, in one pass. */
  function SumWhere<T>(s: seq<T>, p: T -> bool, f: T -> int): int
    decreases |s|
  {
    if s == [] then 0 else (if p(s[0]) then f(s[0]) else 0) + SumWhere(s[1..], p, f)
  }

  /** Summing where `p` holds is summing over the filter by `p`. */
  lemma {:induction false} SumWhereIsSumFilter<T(!new)>(s: seq<T>, p: T -> bool, f: T -> int)
    ensures SumWhere(s, p, f) == Sum(Filter(s, p), f)
    decreases |s|
  {
    if s != [] {
      SumWhereIsSumFilter(s[1..], p, f);
      if p(s[0]) {
        assert Filter(s, p) == [s[0]] + Filter(s[1..], p);
        assert ([s[0]] + Filter(s[1..], p))[1..] == Filter(s[1..], p);
      }
    }
  }

  /** Nothing satisfies `p`: the sum is zero. */
  lemma {:induction false} SumWhereNone<T>(s: seq<T>, p: T -> bool, f: T -> int)
    requires forall x :: x in s ==> !p(x)
    ensures SumWhere(s, p, f) == 0
    decreases |s|
  {
    if s != [] {
      SumWhereNone(s[1..], p, f);
    }
  }

  /** A condition that splits into two disjoint conditions splits the sum in two. */
  lemma {:induction false} SumWhereSplit<T>(s: seq<T>, f: T -> int, r: T -> bool, p: T -> bool, q: T -> bool)
    requires forall x :: x in s ==> r(x) == (p(x) || q(x)) && !(p(x) && q(x))
    ensures SumWhere(s, r, f) == SumWhere(s, p, f) + SumWhere(s, q, f)
    decreases |s|
  {
    if s != [] {
      SumWhereSplit(s[1..], f, r, p, q);
    }
  }

  /** `s.length`, as a sum of ones. */
  lemma {:induction false} LengthIsSum<T>(s: seq<T>, one: T -> int)
    requires forall x :: one(x) == 1
    ensures Sum(s, one) == |s|
    decreases |s|
  {
    if s != [] {
      LengthIsSum(s[1..], one);
    }
  }
}
