/**
 * `ChartDataGenerator`: the data behind the five charts of the workout log,
 * as labels and one dataset of numbers per chart.  The current date and the
 * locale's first day of the week come in as a `Clock`.
 */
module Charts {
  import opened Wrappers
  import opened Seqs
  import opened Text
  import opened Calendar
  import opened ExerciseTypes
  import opened RecordFilters
  import opened Tally

  /** A CSS colour, `rgb(r, g, b)` or `rgba(r, g, b, a)`. */
  datatype Color = Rgb(red: int, green: int, blue: int) | Rgba(red: int, green: int, blue: int, alpha: real)

  /** `backgroundColor?: string | string[]`. */
  datatype Colors = OneColor(color: Color) | ColorList(colors: seq<Color>)

  /** `title` is the dataset's `label` (a keyword in Dafny). */
  datatype Dataset = Dataset(
    title: string,
    data: seq<int>,
    backgroundColor: Option<Colors>,
    borderColor: Option<Color>,
    borderWidth: Option<int>,
    tension: Option<real>)

  datatype ChartData = ChartData(labels: seq<string>, datasets: seq<Dataset>)

  /** One dataset, with one number per label. */
  predicate WellShaped(c: ChartData)
  {
    |c.datasets| == 1 && |c.datasets[0].data| == |c.labels|
  }

  // ---------------------------------------------------------------------
  // Labels

  /** `label.charAt(0).toUpperCase() + label.slice(1).replace('-', ' ')`. */
  function FormatLabel(s: string): (r: string)
    ensures |r| == |s|
    ensures s != [] ==> r[0] == UpperChar(s[0])
  {
    if s == [] then [] else [UpperChar(s[0])] + ReplaceFirst(s[1..], '-', ' ')
  }

  /** The first `-` of a string without one before it is at the end of that part. */
  lemma FirstDash(a: string, b: string)
    requires '-' !in a
    ensures FirstIndex(a + "-" + b, '-') == |a|
  {
    var t := a + "-" + b;
    var i := FirstIndex(t, '-');
    assert t[|a|] == '-' && t[..|a|] == a;
    assert '-' in t[..|a| + 1];
  }

  /**
   * Only the first `-` after the first character becomes a space; any later
   * one is kept.
   */
  lemma FormatLabelHyphen(head: char, a: string, b: string)
    requires '-' !in a
    ensures FormatLabel([head] + a + "-" + b) == [UpperChar(head)] + a + " " + b
  {
    Regroup([head], a, "-", b);
    FormatLabelCons(head, a + "-" + b);
    ReplaceFirstDash(a, b);
    Regroup([UpperChar(head)], a, " ", b);
  }

  lemma Regroup<T>(x: seq<T>, a: seq<T>, c: seq<T>, b: seq<T>)
    ensures x + a + c + b == x + (a + c + b)
  {
  }

  lemma FormatLabelCons(head: char, t: string)
    ensures FormatLabel([head] + t) == [UpperChar(head)] + ReplaceFirst(t, '-', ' ')
  {
    assert ([head] + t)[1..] == t;
  }

  /** Replacing the first `-` of `a-b`, where `a` has none, gives `a b`. */
  lemma ReplaceFirstDash(a: string, b: string)
    requires '-' !in a
    ensures ReplaceFirst(a + "-" + b, '-', ' ') == a + " " + b
  {
    var t := a + "-" + b;
    FirstDash(a, b);
    assert t[..|a|] == a && t[|a| + 1..] == b;
  }

  /** Without a `-` after the first character, only that character changes. */
  lemma FormatLabelPlain(head: char, a: string)
    requires '-' !in a
    ensures FormatLabel([head] + a) == [UpperChar(head)] + a
  {
    assert ([head] + a)[1..] == a;
  }

  /** `getDay()` advances by one for each following day, wrapping after Saturday. */
  lemma WeekdayShift(d: int, i: int)
    ensures Weekday(d + i) == (Weekday(d) + i) % 7
  {
  }

  // ---------------------------------------------------------------------
  // Sums over blocks of days

  /** Dated on day `d` by the date string is dated in the one-day block from `d`. */
  lemma DayIsOneDayBlock(s: seq<Exercise>, f: Exercise -> int, d: int)
    ensures Sum(Filter(s, DayIs(d)), f) == BlockSum(s, f, 1)(d)
  {
    FilterCongruent(s, DayIs(d), DatedBetween(d, d));
    SumWhereIsSumFilter(s, DatedBetween(d, d), f);
  }

  /** The sum over the records within a span of whole days is the sum over the records dated on those days. */
  lemma SpanSum(s: seq<Exercise>, f: Exercise -> int, first: int, last: int)
    ensures Sum(Filter(s, DatedWithin(DaySpan(first, last))), f) == SumWhere(s, DatedBetween(first, last), f)
  {
    WithinSpanIsBetween(s, first, last);
    SumWhereIsSumFilter(s, DatedBetween(first, last), f);
  }

  /** The number of records within a span is their sum of ones. */
  lemma CountIsSum(s: seq<Exercise>, iv: Interval)
    ensures |Filter(s, DatedWithin(iv))| == Sum(Filter(s, DatedWithin(iv)), One)
  {
    LengthIsSum(Filter(s, DatedWithin(iv)), One);
  }

  /** The block sums add up to the sum over the records within all the blocks' days. */
  lemma SumOfBlocks(s: seq<Exercise>, f: Exercise -> int, first: int, width: nat, n: nat)
    requires width > 0
    ensures SumInts(Blocks(BlockSum(s, f, width), first, width, n))
         == Sum(Filter(s, DatedWithin(DaySpan(first, first + width * n - 1))), f)
  {
    BlocksEndValue(first, width, n);
    BlockSumsTotal(s, f, first, width, n);
    SpanSum(s, f, first, BlocksEnd(first, width, n));
  }

  /** The same, for a sequence whose entries are known to be the block sums. */
  lemma SumOfBlockList(s: seq<Exercise>, f: Exercise -> int, first: int, width: nat, data: seq<int>, iv: Interval)
    requires width > 0
    requires forall k :: 0 <= k < |data| ==> data[k] == BlockSum(s, f, width)(first + width * k)
    requires iv == DaySpan(first, first + width * |data| - 1)
    ensures SumInts(data) == Sum(Filter(s, DatedWithin(iv)), f)
  {
    BlocksFrom(BlockSum(s, f, width), first, width, data);
    SumOfBlocks(s, f, first, width, |data|);
  }

  // ---------------------------------------------------------------------
  // generateWeeklyDurationChart

  /** The minutes of the records dated on day `d`. */
  function DayTotal(s: seq<Exercise>, d: int): int
  {
    Sum(Filter(s, DayIs(d)), Duration)
  }

  /** `days.map(day => format(day, 'EEE'))`. */
  function DayLabels(days: seq<int>): (r: seq<string>)
    ensures |r| == |days|
    ensures forall i :: 0 <= i < |days| ==> r[i] == DayName(days[i])
  {
    seq(|days|, i requires 0 <= i < |days| => DayName(days[i]))
  }

  /** `days.map(day => …reduce((sum, ex) => sum + ex.duration, 0))` over the records of each day. */
  function DayTotals(s: seq<Exercise>, days: seq<int>): (r: seq<int>)
    ensures |r| == |days|
    ensures forall i :: 0 <= i < |days| ==> r[i] == DayTotal(s, days[i])
  {
    seq(|days|, i requires 0 <= i < |days| => DayTotal(s, days[i]))
  }

  /** Seven bars, one per day of the current week. */
  function WeeklyDurationChart(exercises: seq<Exercise>, clock: Clock): (r: ChartData)
    ensures WellShaped(r) && |r.labels| == 7
  {
    var days := DaysOfWeek(clock.now.day, clock.weekStartsOn);
    ChartData(DayLabels(days), [Dataset("Duration (minutes)", DayTotals(exercises, days),
      Some(OneColor(Rgba(59, 130, 246, 0.6))), Some(Rgb(59, 130, 246)), Some(2), Some(0.4))])
  }

  /** The chart's labels and numbers are those of the days of the current week. */
  lemma WeeklyParts(exercises: seq<Exercise>, clock: Clock)
    ensures var days := DaysOfWeek(clock.now.day, clock.weekStartsOn);
      var r := WeeklyDurationChart(exercises, clock);
      r.labels == DayLabels(days) && r.datasets[0].data == DayTotals(exercises, days)
  {
  }

  /** Bar `i` is labelled with the name of day `i` of the week, counting from the locale's first day. */
  lemma WeeklyLabel(exercises: seq<Exercise>, clock: Clock, i: nat)
    requires i < 7
    ensures WeeklyDurationChart(exercises, clock).labels[i] == DAY_NAMES[(clock.weekStartsOn + i) % 7]
  {
    var days := DaysOfWeek(clock.now.day, clock.weekStartsOn);
    WeeklyParts(exercises, clock);
    WeekdayShift(days[0], i);
  }

  /** Bar `i` shows the minutes of the records dated on day `i` of the current week. */
  lemma WeeklyBar(exercises: seq<Exercise>, clock: Clock, i: nat)
    requires i < 7
    ensures WeeklyDurationChart(exercises, clock).datasets[0].data[i]
         == DayTotal(exercises, StartOfWeek(clock.now.day, clock.weekStartsOn) + i)
  {
    WeeklyParts(exercises, clock);
  }

  /** The minutes of day `i` of a run of consecutive days are the one-day block sum from that day. */
  lemma DayTotalIsBlock(exercises: seq<Exercise>, days: seq<int>, i: nat)
    requires i < |days| && days[i] == days[0] + i
    ensures DayTotals(exercises, days)[i] == BlockSum(exercises, Duration, 1)(days[0] + 1 * i)
  {
    DayIsOneDayBlock(exercises, Duration, days[i]);
  }

  /** The weekly chart's numbers are the one-day block sums of the seven days from the week's start. */
  lemma WeeklyBlocks(exercises: seq<Exercise>, clock: Clock)
    ensures var days := DaysOfWeek(clock.now.day, clock.weekStartsOn);
      forall i :: 0 <= i < 7 ==>
        WeeklyDurationChart(exercises, clock).datasets[0].data[i] == BlockSum(exercises, Duration, 1)(days[0] + 1 * i)
  {
    var days := DaysOfWeek(clock.now.day, clock.weekStartsOn);
    WeeklyParts(exercises, clock);
    forall i | 0 <= i < 7
      ensures DayTotals(exercises, days)[i] == BlockSum(exercises, Duration, 1)(days[0] + 1 * i)
    {
      DayTotalIsBlock(exercises, days, i);
    }
  }

  /** The week's bars add up to the minutes of all the records within the current week. */
  lemma WeeklyTotal(exercises: seq<Exercise>, clock: Clock)
    ensures SumInts(WeeklyDurationChart(exercises, clock).datasets[0].data)
         == Sum(Filter(exercises, DatedWithin(ThisWeek(clock))), Duration)
  {
    var days := DaysOfWeek(clock.now.day, clock.weekStartsOn);
    var data := WeeklyDurationChart(exercises, clock).datasets[0].data;
    WeeklyBlocks(exercises, clock);
    SumOfBlockList(exercises, Duration, days[0], 1, data, ThisWeek(clock));
  }

  // ---------------------------------------------------------------------
  // generateMonthlyWorkoutChart and generateCaloriesChart

  /** `eachWeekOfInterval({ start: startOfMonth(now), end: endOfMonth(now) })`. */
  function MonthWeeks(clock: Clock): (r: seq<int>)
    requires ValidClock(clock)
    ensures |r| >= 1
    ensures r[0] == StartOfWeek(clock.monthFirst, clock.weekStartsOn)
    ensures r[|r| - 1] == StartOfWeek(clock.monthLast, clock.weekStartsOn)
    ensures r[0] <= clock.monthFirst && clock.monthLast <= r[|r| - 1] + 6
    ensures forall k :: 0 <= k < |r| ==> r[k] == r[0] + 7 * k && Weekday(r[k]) == clock.weekStartsOn
    ensures forall k :: 0 <= k < |r| ==> r[k] <= clock.monthLast && clock.monthFirst <= r[k] + 6
  {
    var ws := WeekStarts(clock.monthFirst, clock.monthLast, clock.weekStartsOn);
    assert forall k :: 0 <= k < |ws| ==> Weekday(ws[k]) == clock.weekStartsOn by {
      forall k | 0 <= k < |ws| ensures Weekday(ws[k]) == clock.weekStartsOn {
        WeekdayShift(ws[0], 7 * k);
      }
    }
    ws
  }

  /**
   * The month's weeks are exactly the weeks that overlap the month: a day is
   * listed when and only when it falls on the first weekday and its week
   * shares at least one day with the month.
   */
  lemma MonthWeeksExact(clock: Clock, d: int)
    requires ValidClock(clock)
    ensures d in MonthWeeks(clock) <==>
      Weekday(d) == clock.weekStartsOn && d <= clock.monthLast && clock.monthFirst <= d + 6
  {
    var r := MonthWeeks(clock);
    if Weekday(d) == clock.weekStartsOn && d <= clock.monthLast && clock.monthFirst <= d + 6 {
      SameWeekdayApart(r[0], d);
      assert r[0] <= d <= r[|r| - 1];
      var k := (d - r[0]) / 7;
      assert 0 <= k < |r| && r[k] == d;
    }
  }

  /** Two days on the same weekday lie a whole number of weeks apart. */
  lemma SameWeekdayApart(a: int, b: int)
    requires Weekday(a) == Weekday(b)
    ensures (b - a) % 7 == 0 && a + 7 * ((b - a) / 7) == b
  {
    var qa, qb := (a + 4) / 7, (b + 4) / 7;
    assert a + 4 == 7 * qa + Weekday(a);
    assert b + 4 == 7 * qb + Weekday(b);
    assert b - a == 7 * (qb - qa);
  }

  /** `Week 1`, `Week 2`, and so on, one per week. */
  function WeekLabels(n: nat): (r: seq<string>)
    ensures |r| == n
    ensures forall k :: 0 <= k < n ==> |r[k]| > 5 && r[k][..5] == "Week "
    ensures forall k :: 0 <= k < n ==> forall j :: 5 <= j < |r[k]| ==> IsDigit(r[k][j])
  {
    seq(n, k requires 0 <= k < n => "Week " + NatToString(k + 1))
  }

  /** The number after `Week ` reads back as the week's position, counting from 1. */
  lemma WeekLabelNumbers(n: nat, k: nat)
    requires k < n
    ensures ParseNat(WeekLabels(n)[k][5..]) == k + 1
  {
    assert WeekLabels(n)[k][5..] == NatToString(k + 1);
    ParseNatToString(k + 1);
  }

  /** The records within the week starting on day `start`, `start` to `endOfWeek(start)`. */
  function InWeek(start: int): Exercise -> bool
  {
    DatedWithin(DaySpan(start, start + 6))
  }

  /** `weeks.map(weekStart => …filter(ex => isWithinInterval(…)).length)`. */
  function WeekCounts(s: seq<Exercise>, weeks: seq<int>): (r: seq<int>)
    ensures |r| == |weeks|
  {
    seq(|weeks|, k requires 0 <= k < |weeks| => |Filter(s, InWeek(weeks[k]))|)
  }

  /**
   * The sum of `f` over the records within each week; for the calories chart
   * `weeks.map(weekStart => …reduce((sum, ex) => sum + (ex.caloriesBurned || 0), 0))`.
   */
  function WeekSums(s: seq<Exercise>, f: Exercise -> int, weeks: seq<int>): (r: seq<int>)
    ensures |r| == |weeks|
  {
    seq(|weeks|, k requires 0 <= k < |weeks| => Sum(Filter(s, InWeek(weeks[k])), f))
  }

  /** One bar per week overlapping the current month, `Week 1` to `Week n`: the number of records within that week. */
  function MonthlyWorkoutChart(exercises: seq<Exercise>, clock: Clock): (r: ChartData)
    requires ValidClock(clock)
    ensures WellShaped(r) && r.labels == WeekLabels(|MonthWeeks(clock)|)
  {
    var weeks := MonthWeeks(clock);
    ChartData(WeekLabels(|weeks|), [Dataset("Workouts", WeekCounts(exercises, weeks),
      Some(OneColor(Rgba(16, 185, 129, 0.6))), Some(Rgb(16, 185, 129)), Some(2), None)])
  }

  /** The same weeks as the monthly chart: the calories of the records within each week, absent ones as 0. */
  function CaloriesChart(exercises: seq<Exercise>, clock: Clock): (r: ChartData)
    requires ValidClock(clock)
    ensures WellShaped(r) && r.labels == WeekLabels(|MonthWeeks(clock)|)
  {
    var weeks := MonthWeeks(clock);
    ChartData(WeekLabels(|weeks|), [Dataset("Calories Burned", WeekSums(exercises, CaloriesOrZero, weeks),
      Some(OneColor(Rgba(239, 68, 68, 0.6))), Some(Rgb(239, 68, 68)), Some(2), Some(0.4))])
  }

  /** The days the weeks of the monthly charts cover, from the first week's start to the last week's end. */
  function MonthWeeksSpan(clock: Clock): (iv: Interval)
    requires ValidClock(clock)
  {
    var weeks := MonthWeeks(clock);
    DaySpan(weeks[0], weeks[0] + 7 * |weeks| - 1)
  }

  /** Every record within the current month is within the weeks the monthly charts cover. */
  lemma MonthWithinWeeks(e: Exercise, clock: Clock)
    requires ValidClock(clock)
    ensures DatedWithin(ThisMonth(clock))(e) ==> DatedWithin(MonthWeeksSpan(clock))(e)
  {
    var weeks := MonthWeeks(clock);
    WithinDaySpan(e.date, clock.monthFirst, clock.monthLast);
    WithinDaySpan(e.date, weeks[0], weeks[0] + 7 * |weeks| - 1);
  }

  /** The sum over the records within week `k` of consecutive weeks is the seven-day block sum from its start. */
  lemma WeekSumIsBlock(exercises: seq<Exercise>, f: Exercise -> int, weeks: seq<int>, k: nat)
    requires k < |weeks| && weeks[k] == weeks[0] + 7 * k
    ensures WeekSums(exercises, f, weeks)[k] == BlockSum(exercises, f, 7)(weeks[0] + 7 * k)
  {
    SpanSum(exercises, f, weeks[k], weeks[k] + 6);
  }

  /** The number of records within week `k` of consecutive weeks is the seven-day block count from its start. */
  lemma WeekCountIsBlock(exercises: seq<Exercise>, weeks: seq<int>, k: nat)
    requires k < |weeks| && weeks[k] == weeks[0] + 7 * k
    ensures WeekCounts(exercises, weeks)[k] == BlockSum(exercises, One, 7)(weeks[0] + 7 * k)
  {
    CountIsSum(exercises, DaySpan(weeks[k], weeks[k] + 6));
    SpanSum(exercises, One, weeks[k], weeks[k] + 6);
  }

  /** One number per week of the month, each its week's block sum, add up to the sum over the weeks covered. */
  lemma MonthBlocksTotal(exercises: seq<Exercise>, f: Exercise -> int, clock: Clock, first: int, data: seq<int>)
    requires ValidClock(clock) && first == MonthWeeks(clock)[0]
    requires |data| == |MonthWeeks(clock)|
    requires forall k :: 0 <= k < |data| ==> data[k] == BlockSum(exercises, f, 7)(first + 7 * k)
    ensures SumInts(data) == Sum(Filter(exercises, DatedWithin(MonthWeeksSpan(clock))), f)
  {
    MonthSpanIs(clock, first, |data|);
    SumOfBlockList(exercises, f, first, 7, data, MonthWeeksSpan(clock));
  }

  lemma MonthSpanIs(clock: Clock, first: int, n: nat)
    requires ValidClock(clock) && first == MonthWeeks(clock)[0] && n == |MonthWeeks(clock)|
    ensures MonthWeeksSpan(clock) == DaySpan(first, first + 7 * n - 1)
  {
  }

  /** The monthly chart's numbers are the seven-day block counts of its weeks. */
  lemma MonthlyBlocks(exercises: seq<Exercise>, clock: Clock)
    requires ValidClock(clock)
    ensures var weeks := MonthWeeks(clock);
      forall k :: 0 <= k < |weeks| ==>
        MonthlyWorkoutChart(exercises, clock).datasets[0].data[k] == BlockSum(exercises, One, 7)(weeks[0] + 7 * k)
  {
    var weeks := MonthWeeks(clock);
    forall k | 0 <= k < |weeks|
      ensures WeekCounts(exercises, weeks)[k] == BlockSum(exercises, One, 7)(weeks[0] + 7 * k)
    {
      WeekCountIsBlock(exercises, weeks, k);
    }
  }

  /** The bars of the monthly chart add up to the number of records within the weeks it covers. */
  lemma MonthlyTotal(exercises: seq<Exercise>, clock: Clock)
    requires ValidClock(clock)
    ensures SumInts(MonthlyWorkoutChart(exercises, clock).datasets[0].data)
         == |Filter(exercises, DatedWithin(MonthWeeksSpan(clock)))|
  {
    MonthlyBlocks(exercises, clock);
    MonthBlocksTotal(exercises, One, clock, MonthWeeks(clock)[0], MonthlyWorkoutChart(exercises, clock).datasets[0].data);
    CountIsSum(exercises, MonthWeeksSpan(clock));
  }

  /** The calories chart's numbers are the seven-day block sums of calories over its weeks. */
  lemma CaloriesBlocks(exercises: seq<Exercise>, clock: Clock)
    requires ValidClock(clock)
    ensures var weeks := MonthWeeks(clock);
      forall k :: 0 <= k < |weeks| ==>
        CaloriesChart(exercises, clock).datasets[0].data[k] == BlockSum(exercises, CaloriesOrZero, 7)(weeks[0] + 7 * k)
  {
    var weeks := MonthWeeks(clock);
    forall k | 0 <= k < |weeks|
      ensures WeekSums(exercises, CaloriesOrZero, weeks)[k] == BlockSum(exercises, CaloriesOrZero, 7)(weeks[0] + 7 * k)
    {
      WeekSumIsBlock(exercises, CaloriesOrZero, weeks, k);
    }
  }

  /** The bars of the calories chart add up to the calories of the records within the weeks it covers. */
  lemma CaloriesTotal(exercises: seq<Exercise>, clock: Clock)
    requires ValidClock(clock)
    ensures SumInts(CaloriesChart(exercises, clock).datasets[0].data)
         == Sum(Filter(exercises, DatedWithin(MonthWeeksSpan(clock))), CaloriesOrZero)
  {
    CaloriesBlocks(exercises, clock);
    MonthBlocksTotal(exercises, CaloriesOrZero, clock, MonthWeeks(clock)[0], CaloriesChart(exercises, clock).datasets[0].data);
  }

  // ---------------------------------------------------------------------
  // generateExerciseTypeChart

  const TYPE_COLORS: seq<Color> := [
    Rgba(59, 130, 246, 0.8),
    Rgba(16, 185, 129, 0.8),
    Rgba(245, 158, 11, 0.8),
    Rgba(239, 68, 68, 0.8),
    Rgba(139, 92, 246, 0.8),
    Rgba(236, 72, 153, 0.8),
    Rgba(20, 184, 166, 0.8),
    Rgba(251, 146, 60, 0.8),
    Rgba(34, 197, 94, 0.8),
    Rgba(168, 85, 247, 0.8),
    Rgba(14, 165, 233, 0.8),
    Rgba(132, 204, 22, 0.8),
    Rgba(249, 115, 22, 0.8),
    Rgba(99, 102, 241, 0.8)
  ]

  function TypeOf(e: Exercise): ExerciseType
  {
    e.exerciseType
  }

  /** `colors.slice(0, n)`. */
  function FirstColors(n: nat): (r: seq<Color>)
    ensures |r| == if n <= |TYPE_COLORS| then n else |TYPE_COLORS|
    ensures forall i :: 0 <= i < |r| ==> r[i] == TYPE_COLORS[i]
  {
    if n <= |TYPE_COLORS| then TYPE_COLORS[..n] else TYPE_COLORS
  }

  /** Every type, once. */
  const ALL_TYPES: set<ExerciseType> := {
    Cardio, Strength, Flexibility, Balance, Sports, Yoga, Pilates,
    Dance, MartialArts, Swimming, Cycling, Running, Walking, Other
  }

  lemma EveryTypeListed(t: ExerciseType)
    ensures t in ALL_TYPES
  {
    match t
    case Cardio =>
    case Strength =>
    case Flexibility =>
    case Balance =>
    case Sports =>
    case Yoga =>
    case Pilates =>
    case Dance =>
    case MartialArts =>
    case Swimming =>
    case Cycling =>
    case Running =>
    case Walking =>
    case Other =>
  }

  lemma AllTypesCount()
    ensures |ALL_TYPES| == |TYPE_COLORS|
  {
  }

  /** Distinct types are at most fourteen. */
  lemma DistinctTypesBounded(ks: seq<ExerciseType>)
    requires Distinct(ks)
    ensures |ks| <= |TYPE_COLORS|
  {
    DistinctCard(ks);
    var present := set x | x in ks;
    forall t | t in present ensures t in ALL_TYPES {
      EveryTypeListed(t);
    }
    AllTypesCount();
    assert |ALL_TYPES| == |present| + |ALL_TYPES - present|;
  }

  /** One bar per type present, in order of first appearance, with the first colours of the palette. */
  function ExerciseTypeChart(exercises: seq<Exercise>): (r: ChartData)
    ensures WellShaped(r)
    ensures |r.labels| <= |TYPE_COLORS|
    ensures r.datasets[0].backgroundColor == Some(ColorList(TYPE_COLORS[..|r.labels|]))
  {
    var counts := Count(exercises, TypeOf);
    var types := Keys(counts);
    CountKeys(exercises, TypeOf);
    DistinctTypesBounded(types);
    var labels := seq(|types|, i requires 0 <= i < |types| => FormatLabel(TypeValue(types[i])));
    ChartData(labels, [Dataset("Exercises", Counts(counts), Some(ColorList(FirstColors(|types|))), None, None, None)])
  }

  /**
   * The chart's bars are the distinct types of the records, each labelled
   * with its formatted value and counting the records of that type; the
   * bars add up to the number of records.
   */
  lemma ExerciseTypeChartCounts(exercises: seq<Exercise>)
    ensures var r := ExerciseTypeChart(exercises);
      var types := Keys(Count(exercises, TypeOf));
      Distinct(types) && |r.labels| == |types| &&
      (forall e :: e in exercises ==> e.exerciseType in types) &&
      (forall t :: t in types ==> exists e :: e in exercises && e.exerciseType == t) &&
      (forall i :: 0 <= i < |types| ==>
        r.labels[i] == FormatLabel(TypeValue(types[i])) &&
        r.datasets[0].data[i] == |Filter(exercises, HasKey(TypeOf, types[i]))|) &&
      SumInts(r.datasets[0].data) == |exercises|
  {
    var counts := Count(exercises, TypeOf);
    CountKeys(exercises, TypeOf);
    CountSum(exercises, TypeOf);
    forall i | 0 <= i < |counts|
      ensures Counts(counts)[i] == |Filter(exercises, HasKey(TypeOf, counts[i].0))|
    {
      LookupAt(counts, i);
      CountLookup(exercises, TypeOf, counts[i].0);
    }
  }

  // ---------------------------------------------------------------------
  // generateIntensityChart

  const INTENSITY_ORDER: seq<IntensityLevel> := [Low, Moderate, High, VeryHigh]

  function LevelOf(e: Exercise): IntensityLevel
  {
    e.intensityLevel
  }

  /** `intensityOrder.map(level => intensityCounts[level] || 0)`. */
  function LevelCounts(s: seq<Exercise>): (r: seq<int>)
    ensures |r| == 4
  {
    var counts := Count(s, LevelOf);
    seq(4, i requires 0 <= i < 4 => Lookup(counts, INTENSITY_ORDER[i]))
  }

  /** Four bars in the order of `intensityOrder`, one per level. */
  function IntensityChart(exercises: seq<Exercise>): (r: ChartData)
    ensures WellShaped(r) && |r.labels| == 4
  {
    var labels := seq(4, i requires 0 <= i < 4 => FormatLabel(LevelValue(INTENSITY_ORDER[i])));
    ChartData(labels, [Dataset("Workouts by Intensity", LevelCounts(exercises), Some(ColorList([
      Rgba(34, 197, 94, 0.8),
      Rgba(245, 158, 11, 0.8),
      Rgba(239, 68, 68, 0.8),
      Rgba(127, 29, 29, 0.8)])), None, None, None)])
  }

  /** The bars run from low to very high effort, each labelled with its formatted level value. */
  lemma IntensityChartLabels(exercises: seq<Exercise>)
    ensures IntensityChart(exercises).labels == ["Low", "Moderate", "High", "Very high"]
    ensures forall i :: 0 <= i < 4 ==> Ordinal(INTENSITY_ORDER[i]) == i + 1
  {
    var labels := IntensityChart(exercises).labels;
    forall i | 0 <= i < 4 ensures labels[i] == ChartLevelLabel(INTENSITY_ORDER[i]) {
      LevelChartLabel(INTENSITY_ORDER[i]);
    }
  }

  /** The label a level's bar carries. */
  function ChartLevelLabel(l: IntensityLevel): string
  {
    match l
    case Low => "Low"
    case Moderate => "Moderate"
    case High => "High"
    case VeryHigh => "Very high"
  }

  /** A level's value with its first letter capitalised and its hyphen turned into a space. */
  lemma LevelChartLabel(l: IntensityLevel)
    ensures FormatLabel(LevelValue(l)) == ChartLevelLabel(l)
  {
    var s, t := LevelValue(l), ChartLevelLabel(l);
    match l
    case Low => PlainLabel('l', "ow", s, t);
    case Moderate => PlainLabel('m', "oderate", s, t);
    case High => PlainLabel('h', "igh", s, t);
    case VeryHigh => HyphenLabel('v', "ery", "high", s, t);
  }

  lemma PlainLabel(head: char, a: string, s: string, t: string)
    requires '-' !in a && s == [head] + a && t == [UpperChar(head)] + a
    ensures FormatLabel(s) == t
  {
    FormatLabelPlain(head, a);
  }

  lemma HyphenLabel(head: char, a: string, b: string, s: string, t: string)
    requires '-' !in a && s == [head] + a + "-" + b && t == [UpperChar(head)] + a + " " + b
    ensures FormatLabel(s) == t
  {
    FormatLabelHyphen(head, a, b);
  }

  /** A sequence whose every element passes exactly one of four filters splits among them. */
  lemma {:induction false} FilterFourWays<T(!new)>(s: seq<T>, p: T -> bool, q: T -> bool, r: T -> bool, t: T -> bool)
    requires forall x :: x in s ==>
      (if p(x) then 1 else 0) + (if q(x) then 1 else 0) + (if r(x) then 1 else 0) + (if t(x) then 1 else 0) == 1
    ensures |Filter(s, p)| + |Filter(s, q)| + |Filter(s, r)| + |Filter(s, t)| == |s|
    decreases |s|
  {
    if s != [] {
      FilterFourWays(s[1..], p, q, r, t);
      FilterLength(s, p);
      FilterLength(s, q);
      FilterLength(s, r);
      FilterLength(s, t);
    }
  }

  lemma HasLevel(x: Exercise, l: IntensityLevel)
    ensures HasKey(LevelOf, l)(x) <==> x.intensityLevel == l
  {
    assert HasKey(LevelOf, l)(x) == (LevelOf(x) == l);
  }

  /** Every record has exactly one of the four levels. */
  lemma LevelsPartition(s: seq<Exercise>)
    ensures |Filter(s, HasKey(LevelOf, Low))| + |Filter(s, HasKey(LevelOf, Moderate))|
          + |Filter(s, HasKey(LevelOf, High))| + |Filter(s, HasKey(LevelOf, VeryHigh))| == |s|
  {
    forall x | x in s
      ensures (if HasKey(LevelOf, Low)(x) then 1 else 0) + (if HasKey(LevelOf, Moderate)(x) then 1 else 0)
            + (if HasKey(LevelOf, High)(x) then 1 else 0) + (if HasKey(LevelOf, VeryHigh)(x) then 1 else 0) == 1
    {
      HasLevel(x, Low);
      HasLevel(x, Moderate);
      HasLevel(x, High);
      HasLevel(x, VeryHigh);
    }
    FilterFourWays(s, HasKey(LevelOf, Low), HasKey(LevelOf, Moderate), HasKey(LevelOf, High), HasKey(LevelOf, VeryHigh));
  }

  /** Each bar counts the records at its level, and the bars add up to the number of records. */
  lemma IntensityChartCounts(exercises: seq<Exercise>)
    ensures var data := IntensityChart(exercises).datasets[0].data;
      (forall i :: 0 <= i < 4 ==> data[i] == |Filter(exercises, HasKey(LevelOf, INTENSITY_ORDER[i]))|) &&
      SumInts(data) == |exercises|
  {
    var data := LevelCounts(exercises);
    forall i | 0 <= i < 4 ensures data[i] == |Filter(exercises, HasKey(LevelOf, INTENSITY_ORDER[i]))| {
      CountLookup(exercises, LevelOf, INTENSITY_ORDER[i]);
    }
    LevelsPartition(exercises);
    SumOfFour(data);
  }

  lemma SumOfFour(d: seq<int>)
    requires |d| == 4
    ensures SumInts(d) == d[0] + d[1] + d[2] + d[3]
  {
    assert SumInts(d[3..]) == d[3] by {
      assert d[3..][1..] == [];
    }
    assert SumInts(d[2..]) == d[2] + SumInts(d[3..]) by {
      assert d[2..][1..] == d[3..];
    }
    assert SumInts(d[1..]) == d[1] + SumInts(d[2..]) by {
      assert d[1..][1..] == d[2..];
    }
  }
}
