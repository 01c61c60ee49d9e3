/**
 * Counting with `reduce` into a dictionary,
 * `s.reduce((acc, x) => { acc[key(x)] = (acc[key(x)] || 0) + 1; return acc; }, {})`.
 * The dictionary is a sequence of entries in insertion order, the order
 * `Object.keys` and `Object.values` report for non-numeric keys.
 */
module Tally {
  import opened Seqs

  /** `acc[k] || 0`. */
  function Lookup<K(==)>(acc: seq<(K, int)>, k: K): int
    decreases |acc|
  {
    if acc == [] then 0 else if acc[0].0 == k then acc[0].1 else Lookup(acc[1..], k)
  }

  /** `acc[k] = (acc[k] || 0) + 1`: an existing entry is incremented in place, a new key is appended with 1. */
  function Bump<K(==)>(acc: seq<(K, int)>, k: K): (r: seq<(K, int)>)
    decreases |acc|
  {
    if acc == [] then [(k, 1)]
    else if acc[0].0 == k then [(k, acc[0].1 + 1)] + acc[1..]
    else [acc[0]] + Bump(acc[1..], k)
  }

  /** `Object.keys(acc)`. */
  function Keys<K>(acc: seq<(K, int)>): (r: seq<K>)
    ensures |r| == |acc|
  {
    seq(|acc|, i requires 0 <= i < |acc| => acc[i].0)
  }

  /** `Object.values(acc)`. */
  function Counts<K>(acc: seq<(K, int)>): (r: seq<int>)
    ensures |r| == |acc|
  {
    seq(|acc|, i requires 0 <= i < |acc| => acc[i].1)
  }

  predicate Distinct<K(==)>(s: seq<K>)
  {
    forall i, j :: 0 <= i < j < |s| ==> s[i] != s[j]
  }

  /** The counts of `key` over `s`, folded from the left. */
  function Count<T, K(==)>(s: seq<T>, key: T -> K): seq<(K, int)>
    decreases |s|
  {
    if s == [] then [] else Bump(Count(s[..|s| - 1], key), key(s[|s| - 1]))
  }

  /** Selects the elements whose key is `k`. */
  function HasKey<T, K(==)>(key: T -> K, k: K): T -> bool
  {
    x => key(x) == k
  }

  lemma {:induction false} BumpLookup<K>(acc: seq<(K, int)>, k: K, j: K)
    ensures Lookup(Bump(acc, k), j) == Lookup(acc, j) + (if j == k then 1 else 0)
    decreases |acc|
  {
    if acc != [] && acc[0].0 != k {
      BumpLookup(acc[1..], k, j);
      assert ([acc[0]] + Bump(acc[1..], k))[1..] == Bump(acc[1..], k);
    } else if acc != [] {
      assert ([(k, acc[0].1 + 1)] + acc[1..])[1..] == acc[1..];
    }
  }

  lemma {:induction false} BumpKeys<K>(acc: seq<(K, int)>, k: K)
    ensures forall j :: j in Keys(Bump(acc, k)) <==> j in Keys(acc) || j == k
    ensures Distinct(Keys(acc)) ==> Distinct(Keys(Bump(acc, k)))
    decreases |acc|
  {
    var r := Bump(acc, k);
    if acc == [] {
      assert Keys(r) == [k];
    } else if acc[0].0 == k {
      assert Keys(r) == Keys(acc);
      assert Keys(acc)[0] == k;
    } else {
      var rest := Bump(acc[1..], k);
      BumpKeys(acc[1..], k);
      assert Keys(acc) == [acc[0].0] + Keys(acc[1..]);
      assert Keys(r) == [acc[0].0] + Keys(rest);
      if Distinct(Keys(acc)) {
        assert acc[0].0 !in Keys(acc[1..]) by {
          forall i | 0 <= i < |acc| - 1 ensures Keys(acc[1..])[i] != acc[0].0 {
            assert Keys(acc)[i + 1] != Keys(acc)[0];
          }
        }
        assert Distinct(Keys(acc[1..])) by {
          forall a, b | 0 <= a < b < |acc| - 1 ensures Keys(acc[1..])[a] != Keys(acc[1..])[b] {
            assert Keys(acc)[a + 1] != Keys(acc)[b + 1];
          }
        }
        assert acc[0].0 !in Keys(rest);
        forall a, b | 0 <= a < b < |r| ensures Keys(r)[a] != Keys(r)[b] {
          if a == 0 {
            assert Keys(r)[b] == Keys(rest)[b - 1];
          } else {
            assert Keys(r)[a] == Keys(rest)[a - 1] && Keys(r)[b] == Keys(rest)[b - 1];
          }
        }
      }
    }
  }

  lemma {:induction false} BumpSum<K>(acc: seq<(K, int)>, k: K)
    ensures SumInts(Counts(Bump(acc, k))) == SumInts(Counts(acc)) + 1
    decreases |acc|
  {
    var r := Bump(acc, k);
    if acc == [] {
    } else if acc[0].0 == k {
      assert Counts(r) == [acc[0].1 + 1] + Counts(acc[1..]);
      assert Counts(acc) == [acc[0].1] + Counts(acc[1..]);
    } else {
      BumpSum(acc[1..], k);
      assert Counts(acc) == [acc[0].1] + Counts(acc[1..]);
      assert Counts(r) == [acc[0].1] + Counts(Bump(acc[1..], k));
    }
  }

  /** With distinct keys, the value listed beside a key is the one `Lookup` finds. */
  lemma {:induction false} LookupAt<K>(acc: seq<(K, int)>, i: nat)
    requires Distinct(Keys(acc)) && i < |acc|
    ensures Lookup(acc, acc[i].0) == acc[i].1
    decreases i
  {
    if i > 0 {
      assert Keys(acc)[0] != Keys(acc)[i];
      assert Distinct(Keys(acc[1..])) by {
        forall a, b | 0 <= a < b < |acc| - 1 ensures Keys(acc[1..])[a] != Keys(acc[1..])[b] {
          assert Keys(acc)[a + 1] != Keys(acc)[b + 1];
        }
      }
      LookupAt(acc[1..], i - 1);
    }
  }

  /** Each count is the number of elements with that key. */
  lemma {:induction false} CountLookup<T(!new), K>(s: seq<T>, key: T -> K, k: K)
    ensures Lookup(Count(s, key), k) == |Filter(s, HasKey(key, k))|
    decreases |s|
  {
    if s != [] {
      var init, last := s[..|s| - 1], s[|s| - 1];
      CountLookup(init, key, k);
      BumpLookup(Count(init, key), key(last), k);
      assert s == init + [last];
      FilterAppend(init, [last], HasKey(key, k));
      assert [last][1..] == [];
    }
  }

  /** The keys are distinct and are exactly the keys of the elements. */
  lemma {:induction false} CountKeys<T, K>(s: seq<T>, key: T -> K)
    ensures Distinct(Keys(Count(s, key)))
    ensures forall x :: x in s ==> key(x) in Keys(Count(s, key))
    ensures forall k :: k in Keys(Count(s, key)) ==> exists x :: x in s && key(x) == k
    decreases |s|
  {
    if s != [] {
      var init, last := s[..|s| - 1], s[|s| - 1];
      var keys := Keys(Count(s, key));
      assert keys == Keys(Bump(Count(init, key), key(last)));
      CountKeys(init, key);
      BumpKeys(Count(init, key), key(last));
      assert s == init + [last];
      forall x | x in s ensures key(x) in keys {
        if x != last {
          assert x in init;
        }
      }
      forall k | k in keys ensures exists x :: x in s && key(x) == k {
        if k != key(last) {
          var x :| x in init && key(x) == k;
          assert x in s;
        } else {
          assert last in s;
        }
      }
    }
  }

  /** The counts add up to the number of elements. */
  lemma {:induction false} CountSum<T, K>(s: seq<T>, key: T -> K)
    ensures SumInts(Counts(Count(s, key))) == |s|
    decreases |s|
  {
    if s != [] {
      CountSum(s[..|s| - 1], key);
      BumpSum(Count(s[..|s| - 1], key), key(s[|s| - 1]));
    }
  }

  /** A sequence without repeats has as many distinct elements as entries. */
  lemma {:induction false} DistinctCard<K>(ks: seq<K>)
    requires Distinct(ks)
    ensures |set x | x in ks| == |ks|
    decreases |ks|
  {
    if ks != [] {
      var tail := ks[1..];
      assert Distinct(tail) by {
        forall a, b | 0 <= a < b < |tail| ensures tail[a] != tail[b] {
          assert ks[a + 1] != ks[b + 1];
        }
      }
      DistinctCard(tail);
      assert ks[0] !in tail by {
        forall i | 0 <= i < |tail| ensures tail[i] != ks[0] {
          assert ks[i + 1] != ks[0];
        }
      }
      assert (set x | x in ks) == (set x | x in tail) + {ks[0]};
    }
  }
}
