/**
 * `Array.prototype.sort` with a numeric comparator `(a, b) => key(b) - key(a)`:
 * a stable sort into descending key order, written as an insertion sort.
 */
module Sorting {
  import opened Seqs

  predicate Descending<T>(s: seq<T>, key: T -> int)
  {
    forall i, j :: 0 <= i < j < |s| ==> key(s[i]) >= key(s[j])
  }

  /** Selects the elements whose key is `k`. */
  function KeyIs<T>(key: T -> int, k: int): T -> bool
  {
    x => key(x) == k
  }

  /** Places `x` before the first element whose key is not larger than its own. */
  function Insert<T(!new)>(x: T, s: seq<T>, key: T -> int): (r: seq<T>)
    ensures multiset(r) == multiset(s) + multiset{x}
    decreases |s|
  {
    if s == [] then [x]
    else if key(x) >= key(s[0]) then [x] + s
    else
      assert s == [s[0]] + s[1..];
      [s[0]] + Insert(x, s[1..], key)
  }

  /** Every element of a descending sequence is bounded by its head. */
  lemma HeadBounds<T>(s: seq<T>, key: T -> int, y: T)
    requires Descending(s, key) && s != [] && y in s
    ensures key(y) <= key(s[0])
  {
    var j :| 0 <= j < |s| && s[j] == y;
  }

  /** Prefixing a descending sequence with an element no smaller than all of it keeps it descending. */
  lemma ConsDescending<T>(h: T, s: seq<T>, key: T -> int)
    requires Descending(s, key)
    requires forall y :: y in s ==> key(y) <= key(h)
    ensures Descending([h] + s, key)
  {
    var r := [h] + s;
    forall i, j | 0 <= i < j < |r| ensures key(r[i]) >= key(r[j]) {
      assert r[j] == s[j - 1];
      if i > 0 {
        assert r[i] == s[i - 1];
      }
    }
  }

  /** Insertion keeps a descending sequence descending. */
  lemma {:induction false} InsertKeepsDescending<T(!new)>(x: T, s: seq<T>, key: T -> int)
    requires Descending(s, key)
    ensures Descending(Insert(x, s, key), key)
    decreases |s|
  {
    if s == [] {
    } else if key(x) >= key(s[0]) {
      forall y | y in s ensures key(y) <= key(x) {
        HeadBounds(s, key, y);
      }
      ConsDescending(x, s, key);
    } else {
      var tail := s[1..];
      assert Descending(tail, key);
      InsertKeepsDescending(x, tail, key);
      var rest := Insert(x, tail, key);
      forall y | y in rest ensures key(y) <= key(s[0]) {
        assert y in multiset(rest);
        if y != x {
          assert y in multiset(tail);
          assert y in s;
          HeadBounds(s, key, y);
        }
      }
      ConsDescending(s[0], rest, key);
    }
  }

  function SortDescending<T(!new)>(s: seq<T>, key: T -> int): (r: seq<T>)
    ensures multiset(r) == multiset(s)
    ensures Descending(r, key)
    decreases |s|
  {
    if s == [] then []
    else
      assert s == [s[0]] + s[1..];
      var sorted := SortDescending(s[1..], key);
      InsertKeepsDescending(s[0], sorted, key);
      Insert(s[0], sorted, key)
  }

  /**
   * Stepping past a head `a` that `p` cannot select together with `b`: if
   * the filtered tail had `b` moved to its front, so has the whole.
   */
  lemma FilterPastOther<T(!new)>(a: T, b: T, t: seq<T>, rest: seq<T>, p: T -> bool)
    requires !(p(a) && p(b))
    requires Filter(rest, p) == (if p(b) then [b] else []) + Filter(t, p)
    ensures Filter([a] + rest, p) == (if p(b) then [b] else []) + Filter([a] + t, p)
  {
    FilterCons(a, rest, p);
    FilterCons(a, t, p);
  }

  /** The two cases of `Insert` on a non-empty sequence. */
  lemma InsertUnfold<T(!new)>(x: T, s: seq<T>, key: T -> int)
    requires s != []
    ensures key(x) >= key(s[0]) ==> Insert(x, s, key) == [x] + s
    ensures key(x) < key(s[0]) ==> Insert(x, s, key) == [s[0]] + Insert(x, s[1..], key) && s == [s[0]] + s[1..]
  {
  }

  /** Inserting `x` puts it in front of every element with the same key. */
  lemma {:induction false} InsertKeepsTiesOrder<T(!new)>(x: T, s: seq<T>, key: T -> int, k: int)
    ensures Filter(Insert(x, s, key), KeyIs(key, k))
         == (if key(x) == k then [x] else []) + Filter(s, KeyIs(key, k))
    decreases |s|
  {
    var p := KeyIs(key, k);
    assert p(x) == (key(x) == k);
    if s == [] {
      FilterCons(x, s, p);
    } else {
      InsertUnfold(x, s, key);
      if key(x) >= key(s[0]) {
        FilterCons(x, s, p);
      } else {
        InsertKeepsTiesOrder(x, s[1..], key, k);
        FilterPastOther(s[0], x, s[1..], Insert(x, s[1..], key), p);
      }
    }
  }

  /**
   * The sort is stable: the elements that share a key appear in the result
   * in the order they had in the input.
   */
  lemma {:induction false} SortIsStable<T(!new)>(s: seq<T>, key: T -> int, k: int)
    ensures Filter(SortDescending(s, key), KeyIs(key, k)) == Filter(s, KeyIs(key, k))
    decreases |s|
  {
    if s != [] {
      SortIsStable(s[1..], key, k);
      InsertKeepsTiesOrder(s[0], SortDescending(s[1..], key), key, k);
    }
  }
}
