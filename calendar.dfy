/**
 * The calendar arithmetic the app takes from date-fns (`startOfWeek`,
 * `endOfWeek`, `isWithinInterval`, `eachDayOfInterval`, `eachWeekOfInterval`,
 * `format(d, 'EEE')`), on local dates represented by day numbers.
 */
module Calendar {

  /** `24 * 60 * 60 * 1000`, the length of a day in milliseconds. */
  const MS_PER_DAY: int := 86400000

  type TimeOfDay = t: int | 0 <= t < MS_PER_DAY

  /**
   * A local date and time: `day` counts days from 1970-01-01 (day 0, a
   * Thursday), `time` the milliseconds since that day's midnight.
   */
  datatype DateTime = DateTime(day: int, time: TimeOfDay)

  /** `Date.prototype.getTime()`. */
  function Instant(d: DateTime): int
  {
    d.day * MS_PER_DAY + d.time
  }

  /** A later day is a later instant, whatever the times of day. */
  lemma InstantOrdersDays(a: DateTime, b: DateTime)
    ensures a.day < b.day ==> Instant(a) < Instant(b)
    ensures Instant(a) <= Instant(b) ==> a.day <= b.day
  {
  }

  function StartOfDay(day: int): DateTime
  {
    DateTime(day, 0)
  }

  function EndOfDay(day: int): DateTime
  {
    DateTime(day, MS_PER_DAY - 1)
  }

  datatype Interval = Interval(start: DateTime, end: DateTime)

  /** `isWithinInterval(d, { start, end })`: both ends inclusive. */
  predicate Within(d: DateTime, iv: Interval)
  {
    Instant(iv.start) <= Instant(d) <= Instant(iv.end)
  }

  /** From the start of day `first` to the end of day `last`. */
  function DaySpan(first: int, last: int): Interval
  {
    Interval(StartOfDay(first), EndOfDay(last))
  }

  /** An instant lies in a span of whole days exactly when its day does. */
  lemma WithinDaySpan(d: DateTime, first: int, last: int)
    ensures Within(d, DaySpan(first, last)) <==> first <= d.day <= last
  {
    InstantOrdersDays(StartOfDay(first), d);
    InstantOrdersDays(d, EndOfDay(last));
  }

  type WeekdayIndex = i: int | 0 <= i < 7

  /** `getDay()`: 0 for Sunday to 6 for Saturday. */
  function Weekday(day: int): WeekdayIndex
  {
    (day + 4) % 7
  }

  /** `startOfWeek(d, { weekStartsOn })`: the latest day not after `day` that falls on `weekStartsOn`. */
  function StartOfWeek(day: int, weekStartsOn: WeekdayIndex): (r: int)
    ensures r <= day < r + 7
    ensures Weekday(r) == weekStartsOn
  {
    day - (Weekday(day) - weekStartsOn) % 7
  }

  /** `startOfWeek(d)` to `endOfWeek(d)`. */
  function WeekOf(day: int, weekStartsOn: WeekdayIndex): Interval
  {
    var first := StartOfWeek(day, weekStartsOn);
    DaySpan(first, first + 6)
  }

  /** `format(d, 'EEE')`. */
  const DAY_NAMES: seq<string> := ["Sun", "Mon", "Tue", "Wed", "Thu", "Fri", "Sat"]

  function DayName(day: int): string
  {
    DAY_NAMES[Weekday(day)]
  }

  /** `eachDayOfInterval({ start: startOfWeek(d), end: endOfWeek(d) })`. */
  function DaysOfWeek(day: int, weekStartsOn: WeekdayIndex): (r: seq<int>)
    ensures |r| == 7
    ensures forall i :: 0 <= i < 7 ==> r[i] == StartOfWeek(day, weekStartsOn) + i
    ensures r[0] <= day <= r[6]
  {
    var first := StartOfWeek(day, weekStartsOn);
    seq(7, i requires 0 <= i < 7 => first + i)
  }

  /**
   * `eachWeekOfInterval({ start: first, end: last })`: the start days of the
   * weeks from the one holding `first` to the one holding `last`.
   */
  function WeekStarts(first: int, last: int, weekStartsOn: WeekdayIndex): (r: seq<int>)
    requires first <= last
    ensures |r| >= 1
    ensures r[0] == StartOfWeek(first, weekStartsOn)
    ensures r[|r| - 1] == StartOfWeek(last, weekStartsOn)
    ensures forall k :: 0 <= k < |r| ==> r[k] == r[0] + 7 * k
  {
    var a := StartOfWeek(first, weekStartsOn);
    var b := StartOfWeek(last, weekStartsOn);
    WeeksApart(first, last, weekStartsOn);
    seq((b - a) / 7 + 1, k requires 0 <= k <= (b - a) / 7 => a + 7 * k)
  }

  /** The week holding `last` starts a whole number of weeks after the one holding `first`. */
  lemma WeeksApart(first: int, last: int, weekStartsOn: WeekdayIndex)
    requires first <= last
    ensures var a := StartOfWeek(first, weekStartsOn); var b := StartOfWeek(last, weekStartsOn);
      a <= b && (b - a) % 7 == 0 && a + 7 * ((b - a) / 7) == b
  {
    var a := StartOfWeek(first, weekStartsOn);
    var b := StartOfWeek(last, weekStartsOn);
    var qa, qb := (a + 4) / 7, (b + 4) / 7;
    assert a + 4 == 7 * qa + weekStartsOn;
    assert b + 4 == 7 * qb + weekStartsOn;
    assert b - a == 7 * (qb - qa);
    assert qb - qa >= 0;
  }

  /** Every day from `first` to `last` lies in exactly one of the weeks of `WeekStarts`. */
  lemma WeeksPartitionDays(first: int, last: int, weekStartsOn: WeekdayIndex, d: int)
    requires first <= d <= last
    ensures var ws := WeekStarts(first, last, weekStartsOn);
      exists k :: 0 <= k < |ws| && ws[k] <= d <= ws[k] + 6
    ensures var ws := WeekStarts(first, last, weekStartsOn);
      forall k, j :: 0 <= k < |ws| && 0 <= j < |ws| && ws[k] <= d <= ws[k] + 6 && ws[j] <= d <= ws[j] + 6 ==> k == j
  {
    var ws := WeekStarts(first, last, weekStartsOn);
    var k := (d - ws[0]) / 7;
    assert ws[0] <= d;
    assert k < |ws| by {
      assert d < StartOfWeek(last, weekStartsOn) + 7;
    }
    assert ws[k] <= d <= ws[k] + 6;
  }

  /** The clock reading the statistics and charts are computed against. */
  datatype Clock = Clock(now: DateTime, weekStartsOn: WeekdayIndex, monthFirst: int, monthLast: int)

  /** `monthFirst`/`monthLast` are the first and last days of the month that holds `now`. */
  predicate ValidClock(c: Clock)
  {
    c.monthFirst <= c.now.day <= c.monthLast
  }

  function ThisWeek(c: Clock): Interval
  {
    WeekOf(c.now.day, c.weekStartsOn)
  }

  function ThisMonth(c: Clock): Interval
  {
    DaySpan(c.monthFirst, c.monthLast)
  }
}
