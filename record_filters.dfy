/**
 * Selections of records by the day they are dated on, shared by the store's
 * statistics and grouping and by the charts, and the per-bucket sums the
 * charts are built from.
 */
module RecordFilters {
  import opened Seqs
  import opened Calendar
  import opened ExerciseTypes

  /** The record is dated on day `k` (same `yyyy-MM-dd`, or the same date key). */
  function DayIs(k: int): Exercise -> bool
  {
    (e: Exercise) => e.date.day == k
  }

  /** `ex => isWithinInterval(parseISO(ex.date), iv)`. */
  function DatedWithin(iv: Interval): Exercise -> bool
  {
    (e: Exercise) => Within(e.date, iv)
  }

  /** The record is dated on one of the days `first` to `last`. */
  function DatedBetween(first: int, last: int): Exercise -> bool
  {
    (e: Exercise) => first <= e.date.day <= last
  }

  /** Selecting the records within a span of whole days is selecting the records dated on those days. */
  lemma WithinSpanIsBetween(s: seq<Exercise>, first: int, last: int)
    ensures Filter(s, DatedWithin(DaySpan(first, last))) == Filter(s, DatedBetween(first, last))
  {
    forall e | e in s ensures DatedWithin(DaySpan(first, last))(e) == DatedBetween(first, last)(e) {
      WithinDaySpan(e.date, first, last);
    }
    FilterCongruent(s, DatedWithin(DaySpan(first, last)), DatedBetween(first, last));
  }

  /** One record, as counted by `.length`. */
  function One(e: Exercise): int
  {
    1
  }

  /** The values of `g` on `n` consecutive blocks of `width` days, the first starting on day `first`. */
  function Blocks(g: int -> int, first: int, width: nat, n: nat): (r: seq<int>)
    ensures |r| == n
    decreases n
  {
    if n == 0 then [] else [g(first)] + Blocks(g, first + width, width, n - 1)
  }

  /** Block `i` starts on day `first + width * i`. */
  lemma {:induction false} BlocksAt(g: int -> int, first: int, width: nat, n: nat, i: nat)
    requires i < n
    ensures Blocks(g, first, width, n)[i] == g(first + width * i)
    decreases i
  {
    if i > 0 {
      BlocksAt(g, first + width, width, n - 1, i - 1);
      assert first + width + width * (i - 1) == first + width * i;
    }
  }

  /** A sequence whose entry `k` is `g` of block `k`'s first day is the list of block values. */
  lemma BlocksFrom(g: int -> int, first: int, width: nat, data: seq<int>)
    requires forall k :: 0 <= k < |data| ==> data[k] == g(first + width * k)
    ensures data == Blocks(g, first, width, |data|)
  {
    forall k | 0 <= k < |data| ensures data[k] == Blocks(g, first, width, |data|)[k] {
      BlocksAt(g, first, width, |data|, k);
    }
  }

  /** The sum of `f` over the records dated in the `width` days from the given day. */
  function BlockSum(s: seq<Exercise>, f: Exercise -> int, width: nat): int -> int
  {
    start => SumWhere(s, DatedBetween(start, start + width - 1), f)
  }

  /** The last day covered by `n` blocks of `width` days from day `first`. */
  function BlocksEnd(first: int, width: nat, n: nat): (r: int)
    decreases n
  {
    if n == 0 then first - 1 else BlocksEnd(first + width, width, n - 1)
  }

  lemma {:induction false} BlocksEndValue(first: int, width: nat, n: nat)
    ensures BlocksEnd(first, width, n) == first + width * n - 1
    decreases n
  {
    if n > 0 {
      BlocksEndValue(first + width, width, n - 1);
      assert width + width * (n - 1) == width * n;
    }
  }

  lemma {:induction false} BlocksEndAtLeast(first: int, width: nat, n: nat)
    ensures BlocksEnd(first, width, n) >= first - 1
    decreases n
  {
    if n > 0 {
      BlocksEndAtLeast(first + width, width, n - 1);
    }
  }

  /**
   * Each record dated in the blocks falls in exactly one of them, so the
   * block sums add up to the sum over all the records dated in the blocks.
   */
  lemma {:induction false} BlockSumsTotal(s: seq<Exercise>, f: Exercise -> int, first: int, width: nat, n: nat)
    requires width > 0
    ensures SumInts(Blocks(BlockSum(s, f, width), first, width, n))
         == SumWhere(s, DatedBetween(first, BlocksEnd(first, width, n)), f)
    decreases n
  {
    if n == 0 {
      SumWhereNone(s, DatedBetween(first, first - 1), f);
    } else {
      var last := BlocksEnd(first, width, n);
      BlocksEndAtLeast(first + width, width, n - 1);
      BlockSumsTotal(s, f, first + width, width, n - 1);
      var g := BlockSum(s, f, width);
      assert SumInts(Blocks(g, first, width, n)) == g(first) + SumInts(Blocks(g, first + width, width, n - 1));
      forall x | x in s
        ensures DatedBetween(first, last)(x)
             == (DatedBetween(first, first + width - 1)(x) || DatedBetween(first + width, last)(x))
        ensures !(DatedBetween(first, first + width - 1)(x) && DatedBetween(first + width, last)(x))
      {
      }
      SumWhereSplit(s, f, DatedBetween(first, last), DatedBetween(first, first + width - 1),
                    DatedBetween(first + width, last));
    }
  }
}
