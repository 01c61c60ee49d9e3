/**
 * Workout streaks, computed from the dates of the records.
 *
 * The dates are sorted newest first and reduced to one entry per calendar day
 * (`DistinctDays`).  Two readings of each streak are modelled: the loops as
 * the store's `getStats` writes them (`CurrentStreakAsWritten`, and
 * `LongestStreak` with `ElapsedOneDay`), and the consecutive-calendar-day
 * rule the statistics are meant to follow (`CurrentStreak`, and
 * `LongestStreak` with `NextCalendarDay`), which the store uses.
 */
module Streaks {
  import opened Seqs
  import opened Sorting
  import opened Calendar

  function DaySet(ds: seq<DateTime>): set<int>
  {
    set d | d in ds :: d.day
  }

  predicate NonIncreasingDays(ds: seq<DateTime>)
  {
    forall i, j :: 0 <= i < j < |ds| ==> ds[i].day >= ds[j].day
  }

  predicate StrictlyDecreasingDays(ds: seq<DateTime>)
  {
    forall i, j :: 0 <= i < j < |ds| ==> ds[i].day > ds[j].day
  }

  /**
   * `.filter((date, index, arr) => index === 0 || !isSameDay(date, arr[index - 1]))`:
   * keeps an entry unless the entry just before it in the input is on the same day.
   */
  function DropSameDay(ds: seq<DateTime>): (r: seq<DateTime>)
    ensures |r| <= |ds|
    ensures ds != [] ==> r != [] && r[0] == ds[0] && r[|r| - 1].day == ds[|ds| - 1].day
    decreases |ds|
  {
    if |ds| <= 1 then ds
    else if ds[|ds| - 1].day == ds[|ds| - 2].day then DropSameDay(ds[..|ds| - 1])
    else DropSameDay(ds[..|ds| - 1]) + [ds[|ds| - 1]]
  }

  /** Dropping same-day neighbours loses no day. */
  lemma {:induction false} DropSameDayKeepsDays(ds: seq<DateTime>)
    ensures DaySet(DropSameDay(ds)) == DaySet(ds)
    decreases |ds|
  {
    if |ds| > 1 {
      var n := |ds|;
      var prefix := DropSameDay(ds[..n - 1]);
      DropSameDayKeepsDays(ds[..n - 1]);
      assert ds == ds[..n - 1] + [ds[n - 1]];
      assert DaySet(ds) == DaySet(ds[..n - 1]) + {ds[n - 1].day};
      if ds[n - 1].day == ds[n - 2].day {
        assert ds[n - 2] in ds[..n - 1];
      } else {
        assert DaySet(prefix + [ds[n - 1]]) == DaySet(prefix) + {ds[n - 1].day};
      }
    }
  }

  /** On entries whose days never increase, what is left has strictly decreasing days. */
  lemma {:induction false} DropSameDayIsStrict(ds: seq<DateTime>)
    requires NonIncreasingDays(ds)
    ensures StrictlyDecreasingDays(DropSameDay(ds))
    decreases |ds|
  {
    if |ds| > 1 {
      var n := |ds|;
      var prefix := DropSameDay(ds[..n - 1]);
      assert NonIncreasingDays(ds[..n - 1]);
      DropSameDayIsStrict(ds[..n - 1]);
      if ds[n - 1].day != ds[n - 2].day {
        var r := prefix + [ds[n - 1]];
        assert prefix[|prefix| - 1].day > ds[n - 1].day;
        forall i, j | 0 <= i < j < |r| ensures r[i].day > r[j].day {
          if j < |prefix| {
            assert r[i] == prefix[i] && r[j] == prefix[j];
          } else if i < |prefix| - 1 {
            assert prefix[i].day > prefix[|prefix| - 1].day;
          }
        }
      }
    }
  }

  /** A sequence of entries on pairwise different days has as many entries as days. */
  lemma {:induction false} StrictDaysAreDistinct(ds: seq<DateTime>)
    requires StrictlyDecreasingDays(ds)
    ensures |DaySet(ds)| == |ds|
    decreases |ds|
  {
    if ds != [] {
      StrictDaysAreDistinct(ds[1..]);
      assert ds == [ds[0]] + ds[1..];
      assert DaySet(ds) == {ds[0].day} + DaySet(ds[1..]);
      assert ds[0].day !in DaySet(ds[1..]);
    }
  }

  /**
   * `this.data.map(ex => parseISO(ex.date)).sort((a, b) => b.getTime() - a.getTime())`
   * followed by `DropSameDay`: one entry per day on which there is a workout,
   * newest day first.
   */
  function DistinctDays(dates: seq<DateTime>): (r: seq<DateTime>)
    ensures StrictlyDecreasingDays(r)
    ensures DaySet(r) == DaySet(dates)
    ensures |r| == |DaySet(dates)|
    ensures r == [] <==> dates == []
  {
    var sorted := SortDescending(dates, Instant);
    assert NonIncreasingDays(sorted) by {
      forall i, j | 0 <= i < j < |sorted| ensures sorted[i].day >= sorted[j].day {
        InstantOrdersDays(sorted[i], sorted[j]);
      }
    }
    assert DaySet(sorted) == DaySet(dates) by {
      forall d ensures d in sorted <==> d in dates {
        assert d in sorted <==> d in multiset(sorted);
        assert d in dates <==> d in multiset(dates);
      }
    }
    assert |sorted| == |dates| by {
      assert |multiset(sorted)| == |multiset(dates)|;
    }
    var r := DropSameDay(sorted);
    DropSameDayKeepsDays(sorted);
    DropSameDayIsStrict(sorted);
    StrictDaysAreDistinct(r);
    r
  }

  // ---------------------------------------------------------------------
  // Current streak

  /**
   * The walk of `getStats` over the distinct days: an entry is accepted when
   * it is on `check` or on the day before `check`, and `check` then moves back
   * exactly one day; the walk stops at the first entry not accepted.
   */
  function GraceRun(days: seq<DateTime>, check: int): (r: nat)
    ensures r <= |days|
    decreases |days|
  {
    if days == [] then 0
    else if days[0].day == check || days[0].day == check - 1 then 1 + GraceRun(days[1..], check - 1)
    else 0
  }

  /** The current-streak loop of `getStats`, with today's day number as `today`. */
  method CurrentStreakAsWritten(days: seq<DateTime>, today: int) returns (currentStreak: nat)
    ensures currentStreak == GraceRun(days, today)
  {
    currentStreak := 0;
    var checkDate := today;
    for i := 0 to |days|
      invariant currentStreak == i && checkDate == today - i
      invariant GraceRun(days, today) == currentStreak + GraceRun(days[i..], checkDate)
    {
      assert days[i..][1..] == days[i + 1..];
      if days[i].day == checkDate || days[i].day == checkDate - 1 {
        currentStreak := currentStreak + 1;
        checkDate := checkDate - 1;
      } else {
        break;
      }
    }
  }

  /** As written, the streak is non-zero exactly when the newest day is today or yesterday. */
  lemma GraceRunAnchor(days: seq<DateTime>, today: int)
    ensures GraceRun(days, today) > 0 <==> days != [] && (days[0].day == today || days[0].day == today - 1)
  {
  }

  /**
   * As written, the `i`-th counted day is `today - i` or the day before it:
   * when today has a workout, one missing day inside the run is counted over.
   */
  lemma {:induction false} GraceRunWindow(days: seq<DateTime>, check: int, i: nat)
    requires i < GraceRun(days, check)
    ensures check - i - 1 <= days[i].day <= check - i
    decreases i
  {
    if i > 0 {
      GraceRunWindow(days[1..], check - 1, i - 1);
    }
  }

  /**
   * The number of entries, starting at the first, that fall on `from`,
   * `from - 1`, `from - 2`, ... in turn.
   */
  function DayRun(days: seq<DateTime>, from: int): (r: nat)
    ensures r <= |days|
    decreases |days|
  {
    if days == [] || days[0].day != from then 0 else 1 + DayRun(days[1..], from - 1)
  }

  /** The number of leading entries dated after `today`, which the walk back from today passes over. */
  function FutureCount(days: seq<DateTime>, today: int): (n: nat)
    ensures n <= |days|
    ensures forall j :: 0 <= j < n ==> days[j].day > today
    ensures n < |days| ==> days[n].day <= today
    decreases |days|
  {
    if days != [] && days[0].day > today then 1 + FutureCount(days[1..], today) else 0
  }

  /** Today when today has a workout, yesterday otherwise. */
  function StreakAnchor(days: seq<DateTime>, today: int): int
  {
    var f := FutureCount(days, today);
    if f < |days| && days[f].day == today then today else today - 1
  }

  /**
   * The current streak: consecutive days with a workout, ending today or
   * (grace period) yesterday; entries dated after today are passed over.
   */
  function CurrentRun(days: seq<DateTime>, today: int): nat
  {
    DayRun(days[FutureCount(days, today)..], StreakAnchor(days, today))
  }

  /**
   * The current-streak loop with the acceptance test narrowed to `checkDate`
   * itself, after passing over the entries dated after today.
   */
  method CurrentStreak(days: seq<DateTime>, today: int) returns (currentStreak: nat)
    ensures currentStreak == CurrentRun(days, today)
  {
    var f := 0;
    while f < |days| && days[f].day > today
      invariant f <= FutureCount(days, today)
    {
      f := f + 1;
    }
    currentStreak := 0;
    var checkDate := StreakAnchor(days, today);
    for i := f to |days|
      invariant currentStreak == i - f && checkDate == StreakAnchor(days, today) - (i - f)
      invariant CurrentRun(days, today) == currentStreak + DayRun(days[i..], checkDate)
    {
      assert days[i..][1..] == days[i + 1..];
      if days[i].day == checkDate {
        currentStreak := currentStreak + 1;
        checkDate := checkDate - 1;
      } else {
        break;
      }
    }
  }

  lemma {:induction false} DayRunDays(days: seq<DateTime>, from: int, i: nat)
    requires i < DayRun(days, from)
    ensures days[i].day == from - i
    decreases i
  {
    if i > 0 {
      DayRunDays(days[1..], from - 1, i - 1);
    }
  }

  /**
   * The corrected streak is non-zero exactly when the newest day not after
   * today is today or yesterday.
   */
  lemma CurrentRunAnchor(days: seq<DateTime>, today: int)
    ensures var f := FutureCount(days, today);
      CurrentRun(days, today) > 0 <==> f < |days| && today - 1 <= days[f].day
  {
  }

  /** The narrowed walk stops at the first entry that is not on the next expected day. */
  lemma {:induction false} DayRunStops(days: seq<DateTime>, from: int)
    ensures var r := DayRun(days, from); r < |days| ==> days[r].day != from - r
    decreases |days|
  {
    if days != [] && days[0].day == from {
      DayRunStops(days[1..], from - 1);
    }
  }

  /**
   * The corrected current streak counts the days `a, a - 1, ..., a - r + 1`
   * (with `a` today, or yesterday when today has no workout), each of which
   * has a workout, and stops at the first day `a - r` without one; entries
   * dated after today neither count nor stop the walk.
   */
  lemma CurrentRunStopsAtGap(days: seq<DateTime>, today: int)
    requires StrictlyDecreasingDays(days)
    ensures var a := StreakAnchor(days, today);
      (a == today || (a == today - 1 && today !in DaySet(days))) &&
      (forall d :: a - CurrentRun(days, today) < d <= a ==> d in DaySet(days)) &&
      a - CurrentRun(days, today) !in DaySet(days)
  {
    AnchorIsTodayOrYesterday(days, today);
    RunDaysPresent(days, today);
    RunEndAbsent(days, today);
  }

  lemma AnchorIsTodayOrYesterday(days: seq<DateTime>, today: int)
    requires StrictlyDecreasingDays(days)
    ensures var a := StreakAnchor(days, today);
      a == today || (a == today - 1 && today !in DaySet(days))
  {
    var f := FutureCount(days, today);
    if StreakAnchor(days, today) == today - 1 {
      forall j | 0 <= j < |days| ensures days[j].day != today {
        if j > f {
          assert days[j].day < days[f].day;
        }
      }
    }
  }

  lemma RunDaysPresent(days: seq<DateTime>, today: int)
    ensures var a := StreakAnchor(days, today);
      forall d :: a - CurrentRun(days, today) < d <= a ==> d in DaySet(days)
  {
    var a := StreakAnchor(days, today);
    var r := CurrentRun(days, today);
    var f := FutureCount(days, today);
    var rest := days[f..];
    forall d | a - r < d <= a ensures d in DaySet(days) {
      DayRunDays(rest, a, a - d);
      assert rest[a - d] == days[f + a - d];
    }
  }

  lemma RunEndAbsent(days: seq<DateTime>, today: int)
    requires StrictlyDecreasingDays(days)
    ensures StreakAnchor(days, today) - CurrentRun(days, today) !in DaySet(days)
  {
    var a := StreakAnchor(days, today);
    var r := CurrentRun(days, today);
    forall j | 0 <= j < |days| ensures days[j].day != a - r {
      RunEndAbsentAt(days, today, j);
    }
  }

  lemma RunEndAbsentAt(days: seq<DateTime>, today: int, j: nat)
    requires StrictlyDecreasingDays(days) && j < |days|
    ensures days[j].day != StreakAnchor(days, today) - CurrentRun(days, today)
  {
    var a := StreakAnchor(days, today);
    var r := CurrentRun(days, today);
    var f := FutureCount(days, today);
    var rest := days[f..];
    if j < f {
    } else if j < f + r {
      DayRunDays(rest, a, j - f);
      assert rest[j - f] == days[j];
    } else if j == f + r {
      DayRunStops(rest, a);
      assert rest[r] == days[j];
    } else if r > 0 {
      DayRunDays(rest, a, r - 1);
      DayRunStops(rest, a);
      assert rest[r - 1] == days[f + r - 1] && rest[r] == days[f + r];
      assert days[f + r].day < a - r;
      assert days[j].day < days[f + r].day;
    } else {
      assert days[j].day < days[f].day;
    }
  }

  /** The narrowed walk never counts more days than the walk as written. */
  lemma {:induction false} DayRunWithinGraceRun(days: seq<DateTime>, check: int)
    ensures DayRun(days, check) <= GraceRun(days, check)
    ensures DayRun(days, check - 1) <= GraceRun(days, check)
    decreases |days|
  {
    if days != [] {
      DayRunWithinGraceRun(days[1..], check - 1);
    }
  }

  /**
   * Both current streaks are bounded by the number of distinct days, and the
   * corrected one never exceeds the walk as written from the first entry not
   * after today.
   */
  lemma CurrentStreaksBounded(days: seq<DateTime>, today: int)
    ensures CurrentRun(days, today) <= GraceRun(days[FutureCount(days, today)..], today) <= |days|
    ensures FutureCount(days, today) == 0 ==> CurrentRun(days, today) <= GraceRun(days, today)
    ensures (days == [] || days[0].day < today - 1 || days[0].day > today) ==> GraceRun(days, today) == 0
  {
    DayRunWithinGraceRun(days[FutureCount(days, today)..], today);
  }

  // ---------------------------------------------------------------------
  // Longest streak

  /**
   * `Math.floor((newer.getTime() - older.getTime()) / (24 * 60 * 60 * 1000)) === 1`:
   * at least one and less than two days of elapsed time.
   */
  predicate ElapsedOneDay(newer: DateTime, older: DateTime)
  {
    (Instant(newer) - Instant(older)) / MS_PER_DAY == 1
  }

  /** The entries are on consecutive calendar days. */
  predicate NextCalendarDay(newer: DateTime, older: DateTime)
  {
    newer.day - older.day == 1
  }

  /** Entries `k` and `k + 1` continue a streak under the rule `adjacent`. */
  predicate AdjacentAt(s: seq<DateTime>, k: int, adjacent: (DateTime, DateTime) -> bool)
  {
    0 <= k && k + 1 < |s| && adjacent(s[k], s[k + 1])
  }

  /** Every neighbouring pair of `s[a..b]` continues the streak. */
  predicate Linked(s: seq<DateTime>, a: int, b: int, adjacent: (DateTime, DateTime) -> bool)
  {
    forall k :: a <= k && k + 1 < b ==> AdjacentAt(s, k, adjacent)
  }

  /** `s[a..a + n]` is a streak. */
  predicate RunAt(s: seq<DateTime>, a: int, n: nat, adjacent: (DateTime, DateTime) -> bool)
  {
    0 <= a && a + n <= |s| && Linked(s, a, a + n, adjacent)
  }

  /** `r` is the length of the longest run of neighbouring entries linked by `adjacent`. */
  ghost predicate IsLongestRun(s: seq<DateTime>, adjacent: (DateTime, DateTime) -> bool, r: nat)
  {
    (exists a :: RunAt(s, a, r, adjacent)) &&
    forall a, b :: 0 <= a <= b <= |s| && Linked(s, a, b, adjacent) ==> b - a <= r
  }

  function Max(a: int, b: int): int
  {
    if a >= b then a else b
  }

  /** The longest-streak loop of `getStats`, with the rule deciding whether neighbours continue a streak. */
  method LongestStreak(sortedDates: seq<DateTime>, adjacent: (DateTime, DateTime) -> bool)
    returns (longestStreak: nat)
    ensures IsLongestRun(sortedDates, adjacent, longestStreak)
  {
    longestStreak := 0;
    var tempStreak := 0;
    ghost var runStart := 0;
    ghost var bestStart := 0;
    for i := 0 to |sortedDates|
      invariant 0 <= runStart <= i && tempStreak == i - runStart
      invariant i > 0 ==> runStart < i
      invariant Linked(sortedDates, runStart, i, adjacent)
      invariant runStart > 0 ==> !AdjacentAt(sortedDates, runStart - 1, adjacent)
      invariant RunAt(sortedDates, bestStart, longestStreak, adjacent) && bestStart + longestStreak <= i
      invariant forall a, b :: 0 <= a <= b <= i && Linked(sortedDates, a, b, adjacent) ==> b - a <= Max(longestStreak, tempStreak)
    {
      if i == 0 {
        tempStreak := 1;
      } else if adjacent(sortedDates[i - 1], sortedDates[i]) {
        assert AdjacentAt(sortedDates, i - 1, adjacent);
        tempStreak := tempStreak + 1;
      } else {
        assert !AdjacentAt(sortedDates, i - 1, adjacent);
        if tempStreak > longestStreak {
          bestStart := runStart;
        }
        longestStreak := Max(longestStreak, tempStreak);
        tempStreak := 1;
        runStart := i;
      }
      forall a, b | 0 <= a <= b <= i + 1 && Linked(sortedDates, a, b, adjacent)
        ensures b - a <= Max(longestStreak, tempStreak)
      {
        if b == i + 1 {
          assert a < runStart ==> AdjacentAt(sortedDates, runStart - 1, adjacent);
        }
      }
    }
    if tempStreak > longestStreak {
      bestStart := runStart;
    }
    longestStreak := Max(longestStreak, tempStreak);
    assert RunAt(sortedDates, bestStart, longestStreak, adjacent);
  }

  /** The longest streak is 0 exactly when there are no dates, and never exceeds their number. */
  lemma LongestRunBounds(s: seq<DateTime>, adjacent: (DateTime, DateTime) -> bool, r: nat)
    requires IsLongestRun(s, adjacent, r)
    ensures r <= |s|
    ensures r == 0 <==> s == []
  {
    if s != [] {
      assert Linked(s, 0, 1, adjacent);
    }
  }

  /** With the calendar-day rule, the current streak is itself a streak, so it never exceeds the longest. */
  lemma CurrentWithinLongest(days: seq<DateTime>, today: int, longest: nat)
    requires IsLongestRun(days, NextCalendarDay, longest)
    ensures CurrentRun(days, today) <= longest
  {
    var a := StreakAnchor(days, today);
    var r := CurrentRun(days, today);
    var f := FutureCount(days, today);
    var rest := days[f..];
    forall k | f <= k && k + 1 < f + r ensures AdjacentAt(days, k, NextCalendarDay) {
      DayRunDays(rest, a, k - f);
      DayRunDays(rest, a, k - f + 1);
      assert rest[k - f] == days[k] && rest[k - f + 1] == days[k + 1];
    }
    assert RunAt(days, f, r, NextCalendarDay);
  }

  // ---------------------------------------------------------------------
  // Discrepancies between the loops as written and the calendar-day rule

  /** 2024-01-01 as a day number. */
  const JAN_1_2024: int := 19723

  /**
   * Workouts on 2024-01-01 and 2024-01-03 only, today 2024-01-03: the walk
   * as written counts 2 across the missing 2024-01-02; the corrected streak is 1.
   */
  lemma GraceRunBridgesGap()
    ensures var days := DistinctDays([DateTime(JAN_1_2024, 0), DateTime(JAN_1_2024 + 2, 0)]);
      GraceRun(days, JAN_1_2024 + 2) == 2 && CurrentRun(days, JAN_1_2024 + 2) == 1
  {
    var jan1, jan3 := DateTime(JAN_1_2024, 0), DateTime(JAN_1_2024 + 2, 0);
    FirstAndThirdDays(jan1, jan3);
    var days := [jan3, jan1];
    assert days[1..] == [jan1];
    assert GraceRun(days[1..], JAN_1_2024 + 1) == 1;
    assert DayRun(days[1..], JAN_1_2024 + 1) == 0;
  }

  /** Two workouts on different days, the later one listed second, give both days, latest first. */
  lemma FirstAndThirdDays(jan1: DateTime, jan3: DateTime)
    requires jan1 == DateTime(JAN_1_2024, 0) && jan3 == DateTime(JAN_1_2024 + 2, 0)
    ensures DistinctDays([jan1, jan3]) == [jan3, jan1]
  {
    assert [jan1, jan3][1..] == [jan3];
    assert SortDescending([jan3], Instant) == [jan3];
    assert SortDescending([jan1, jan3], Instant) == Insert(jan1, [jan3], Instant) == [jan3, jan1];
    assert DropSameDay([jan3, jan1]) == [jan3, jan1] by {
      assert [jan3, jan1][..1] == [jan3];
    }
  }

  /**
   * Workouts tomorrow (an imported record, say), today and yesterday: the walk
   * as written stops at the first entry, so the streak is 0; the corrected
   * walk passes over the later entry and counts today and yesterday.
   */
  lemma FutureEntryStopsWalk(today: int)
    ensures var days := [DateTime(today + 1, 0), DateTime(today, 0), DateTime(today - 1, 0)];
      StrictlyDecreasingDays(days) && GraceRun(days, today) == 0 && CurrentRun(days, today) == 2
  {
    var days := [DateTime(today + 1, 0), DateTime(today, 0), DateTime(today - 1, 0)];
    assert days[1..] == [DateTime(today, 0), DateTime(today - 1, 0)];
    assert days[1..][1..] == [DateTime(today - 1, 0)];
    assert FutureCount(days, today) == 1;
    assert DayRun([DateTime(today - 1, 0)], today - 1) == 1;
  }

  /**
   * Yesterday at 23:00 and today at 01:00: the two entries are on consecutive
   * days but only two hours apart, so the elapsed-time rule as written finds
   * no pair of linked days (longest streak 1) while the current streak is 2.
   */
  lemma ElapsedRuleSplitsConsecutiveDays(longest: nat, corrected: nat)
    requires IsLongestRun([DateTime(JAN_1_2024 + 1, 3600000), DateTime(JAN_1_2024, 82800000)], ElapsedOneDay, longest)
    requires IsLongestRun([DateTime(JAN_1_2024 + 1, 3600000), DateTime(JAN_1_2024, 82800000)], NextCalendarDay, corrected)
    ensures longest == 1 && corrected == 2
    ensures CurrentRun([DateTime(JAN_1_2024 + 1, 3600000), DateTime(JAN_1_2024, 82800000)], JAN_1_2024 + 1) == 2
  {
    var s := [DateTime(JAN_1_2024 + 1, 3600000), DateTime(JAN_1_2024, 82800000)];
    assert !AdjacentAt(s, 0, ElapsedOneDay);
    assert AdjacentAt(s, 0, NextCalendarDay);
    assert Linked(s, 0, 2, NextCalendarDay);
    assert Linked(s, 0, 1, ElapsedOneDay);
    assert s[1..] == [DateTime(JAN_1_2024, 82800000)];
    assert DayRun(s[1..], JAN_1_2024) == 1;
    var a :| RunAt(s, a, longest, ElapsedOneDay);
    assert longest == 2 ==> AdjacentAt(s, 0, ElapsedOneDay);
  }
}
