/**
 * The text the statistics cards show: a number of minutes as hours and
 * minutes, and the average intensity as a label and a text colour.
 */
module StatsCards {
  import opened Wrappers
  import opened Text
  import opened ExerciseTypes

  // ---------------------------------------------------------------------
  // formatDuration

  /** `formatDuration(minutes)`: `45m`, `2h`, `2h 5m`. */
  function FormatDuration(minutes: int): (r: string)
  {
    if minutes < 60 then IntToString(minutes) + "m" else FormatHours(minutes / 60, minutes % 60)
  }

  /** `mins > 0 ? `${hours}h ${mins}m` : `${hours}h``. */
  function FormatHours(hours: nat, mins: nat): string
  {
    if mins > 0 then NatToString(hours) + "h " + NatToString(mins) + "m" else NatToString(hours) + "h"
  }

  predicate AllDigits(s: string)
  {
    forall i :: 0 <= i < |s| ==> IsDigit(s[i])
  }

  /**
   * Reads a duration text back as minutes: `<digits>m`, `<digits>h` or
   * `<digits>h <digits>m`; anything else is `None`.
   */
  function ReadDuration(s: string): (r: Option<nat>)
  {
    var i := FirstIndex(s, 'h');
    if i < |s| then ReadHoursPart(s[..i], s[i + 1..]) else ReadMinutes(s)
  }

  /** `<digits>m`. */
  function ReadMinutes(s: string): Option<nat>
  {
    if |s| >= 2 && s[|s| - 1] == 'm' && AllDigits(s[..|s| - 1]) then Some(ParseNat(s[..|s| - 1])) else None
  }

  /** The hours before the `h` and what follows it: nothing, or ` <digits>m`. */
  function ReadHoursPart(hours: string, rest: string): Option<nat>
  {
    if hours == [] || !AllDigits(hours) then None
    else if rest == [] then Some(ParseNat(hours) * 60)
    else if |rest| >= 3 && rest[0] == ' ' && rest[|rest| - 1] == 'm' && AllDigits(rest[1..|rest| - 1])
    then Some(ParseNat(hours) * 60 + ParseNat(rest[1..|rest| - 1]))
    else None
  }

  /** Text with an `h` after a run of digits is read from the hours and what follows the `h`. */
  lemma ReadAtHourMark(hours: string, rest: string)
    requires AllDigits(hours)
    ensures ReadDuration(hours + "h" + rest) == ReadHoursPart(hours, rest)
  {
    var t := hours + "h" + rest;
    assert t[|hours|] == 'h' && t[..|hours|] == hours;
    assert 'h' in t[..|hours| + 1];
    assert t[|hours| + 1..] == rest;
  }

  /** Under an hour: the minutes followed by `m`. */
  lemma ReadShortDuration(m: nat)
    requires m < 60
    ensures ReadDuration(FormatDuration(m)) == Some(m)
  {
    var digits := NatToString(m);
    var s := digits + "m";
    assert FormatDuration(m) == s;
    assert s[..|s| - 1] == digits;
    assert 'h' !in s by {
      forall j | 0 <= j < |s| ensures s[j] != 'h' {
        if j < |digits| {
          assert s[j] == digits[j];
        }
      }
    }
    ParseNatToString(m);
  }

  /** A whole number of hours: the hours followed by `h`. */
  lemma ReadWholeHours(h: nat)
    ensures ReadDuration(FormatHours(h, 0)) == Some(h * 60)
  {
    assert FormatHours(h, 0) == NatToString(h) + "h" + "";
    ReadAtHourMark(NatToString(h), "");
    ParseNatToString(h);
  }

  /** ` Ym` after the hours adds Y minutes. */
  lemma ReadMinutesAfterHours(hours: string, mins: string)
    requires hours != [] && mins != [] && AllDigits(hours) && AllDigits(mins)
    ensures ReadHoursPart(hours, " " + mins + "m") == Some(ParseNat(hours) * 60 + ParseNat(mins))
  {
    var rest := " " + mins + "m";
    Enclosed(' ', mins, 'm');
    assert rest == [' '] + mins + ['m'];
  }

  lemma Enclosed<T>(x: T, m: seq<T>, y: T)
    ensures var t := [x] + m + [y]; |t| == |m| + 2 && t[0] == x && t[|t| - 1] == y && t[1..|t| - 1] == m
  {
    var t := [x] + m + [y];
    assert t[1..|t| - 1] == m by {
      forall k | 0 <= k < |m| ensures t[1..|t| - 1][k] == m[k] {
        assert t[1 + k] == m[k];
      }
    }
  }

  lemma HoursMinutesText(hours: string, mins: string)
    ensures hours + "h " + mins + "m" == hours + "h" + (" " + mins + "m")
  {
  }

  /** `Xh Ym` reads back as X hours and Y minutes. */
  lemma ReadHoursAndMinutes(h: nat, n: nat)
    requires n > 0
    ensures ReadDuration(FormatHours(h, n)) == Some(h * 60 + n)
  {
    HoursMinutesText(NatToString(h), NatToString(n));
    ReadAtHourMark(NatToString(h), " " + NatToString(n) + "m");
    ReadMinutesAfterHours(NatToString(h), NatToString(n));
    ParseNatToString(h);
    ParseNatToString(n);
  }

  /** Hours and the minutes left over read back as their total. */
  lemma ReadFormatHours(h: nat, n: nat)
    ensures ReadDuration(FormatHours(h, n)) == Some(h * 60 + n)
  {
    if n > 0 {
      ReadHoursAndMinutes(h, n);
    } else {
      ReadWholeHours(h);
    }
  }

  /**
   * A non-negative number of minutes can be read back from its text: the
   * hours and the minutes left over are shown without loss.
   */
  lemma DurationRoundTrip(m: nat)
    ensures ReadDuration(FormatDuration(m)) == Some(m)
  {
    if m < 60 {
      ReadShortDuration(m);
    } else {
      ReadFormatHours(m / 60, m % 60);
    }
  }

  /** Different non-negative numbers of minutes are shown differently. */
  lemma FormatDurationInjective(a: nat, b: nat)
    requires FormatDuration(a) == FormatDuration(b)
    ensures a == b
  {
    DurationRoundTrip(a);
    DurationRoundTrip(b);
  }

  // ---------------------------------------------------------------------
  // getIntensityLabel and getIntensityColor

  const INTENSITY_LABELS: seq<string> := ["Low", "Moderate", "High", "Very High"]
  const INTENSITY_COLORS: seq<string> := ["text-green-600", "text-yellow-600", "text-orange-600", "text-red-600"]

  /** `getIntensityLabel(intensity)`. */
  function IntensityLabel(intensity: real): (r: string)
  {
    if intensity <= 1.5 then "Low"
    else if intensity <= 2.5 then "Moderate"
    else if intensity <= 3.5 then "High"
    else "Very High"
  }

  /** `getIntensityColor(intensity)`. */
  function IntensityColor(intensity: real): (r: string)
  {
    if intensity <= 1.5 then "text-green-600"
    else if intensity <= 2.5 then "text-yellow-600"
    else if intensity <= 3.5 then "text-orange-600"
    else "text-red-600"
  }

  /** The number of the thresholds 1.5, 2.5 and 3.5 that `intensity` is above. */
  function Band(intensity: real): (b: nat)
    ensures b < 4
  {
    (if intensity > 1.5 then 1 else 0) + (if intensity > 2.5 then 1 else 0) + (if intensity > 3.5 then 1 else 0)
  }

  /** A higher average never falls in a lower band. */
  lemma BandMonotone(x: real, y: real)
    requires x <= y
    ensures Band(x) <= Band(y)
  {
  }

  /** The label is the one of the average's band. */
  lemma IntensityLabelBand(intensity: real)
    ensures IntensityLabel(intensity) == INTENSITY_LABELS[Band(intensity)]
  {
  }

  /** The colour is the one of the average's band. */
  lemma IntensityColorBand(intensity: real)
    ensures IntensityColor(intensity) == INTENSITY_COLORS[Band(intensity)]
  {
  }

  /** The label is monotone: a higher average never gets an earlier label. */
  lemma IntensityLabelMonotone(x: real, y: real, i: nat, j: nat)
    requires i < 4 && j < 4 && x <= y
    requires IntensityLabel(x) == INTENSITY_LABELS[i] && IntensityLabel(y) == INTENSITY_LABELS[j]
    ensures i <= j
  {
    IntensityLabelBand(x);
    IntensityLabelBand(y);
    BandMonotone(x, y);
  }

  /** Label and colour always describe the same band. */
  lemma LabelAndColorAgree(intensity: real, i: nat)
    requires i < 4
    ensures IntensityLabel(intensity) == INTENSITY_LABELS[i] <==> IntensityColor(intensity) == INTENSITY_COLORS[i]
  {
    IntensityLabelBand(intensity);
    IntensityColorBand(intensity);
  }

  /** An average equal to a level's ordinal is shown with that level's label from `INTENSITY_LEVELS`. */
  lemma LevelOrdinalLabel(l: IntensityLevel)
    ensures IntensityLabel(Ordinal(l) as real) == LevelLabel(l)
  {
  }
}
