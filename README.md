# Exercise tracker: record store, statistics, charts and form logic

This project models the logic of a personal workout log in Dafny. Users record
exercises, each with:

- a type and a duration;
- an intensity level;
- optional calories and optional notes.

The log then shows statistics and charts. The parts modelled are:

- **The record store** (`ExerciseDataManager`): a class that owns the
  list of records. It mirrors the list into a storage slot after every
  write. It offers:
  - add, update and delete;
  - filtered retrieval, newest first;
  - lookup by id;
  - the statistics: totals, average intensity, this week's and this month's
    counts, and the current and longest streaks;
  - export, and an import that merges records by id;
  - clearing, and grouping by date.
- **The streak algorithms**, modelled twice: as written, and corrected (see
  "## Findings").
- **The chart generators**: weekly duration per day, monthly workouts per
  week, records per exercise type, records per intensity level, and calories
  per week.
- **The exercise types and tables**: the 14 exercise types, the four
  intensity levels and their label tables.
- **The statistics cards' text**: the duration text, and the label and colour
  for the average intensity.
- **The exercise form**:
  - validation;
  - shaping the submitted values;
  - submitting to the store (add, or update when editing);
  - clearing an error when its field changes.
- **The list view's filter**: a case-insensitive search plus type and
  intensity filters.

## Dates, times and the clock

- A date is `Calendar.DateTime(day, time)`:
  - `day` is the local day number (days since 1970-01-01);
  - `time` is the number of milliseconds since local midnight.
- `Instant` is the millisecond time line that `getTime` reports.
- The current time, the first weekday and the bounds of the current month
  come in as a `Calendar.Clock` parameter.
- Ids that `crypto.randomUUID` would produce are replaced by
  `DataManager.FreshId`, an id longer than any id already stored.

## Modules

| module | file | models |
|---|---|---|
| `Wrappers`, `Seqs`, `Sorting`, `Tally` | wrappers.dfy, seqs.dfy, sorting.dfy, tally.dfy | `Option`; `filter` and `reduce` sums; the stable descending `sort`; counting into a dictionary with `reduce` |
| `Text` | text.dfy | `trim`, `toLowerCase`, `includes`, `replace` of the first match, number text |
| `Calendar`, `RecordFilters` | calendar.dfy, record_filters.dfy | the date-fns day, week and month intervals; record predicates by date |
| `ExerciseTypes` | exercise_types.dfy | `src/types/exercise.ts` |
| `Streaks` | streaks.dfy | the streak part of `getStats` |
| `DataManager` | data_manager.dfy | `src/utils/dataManager.ts` |
| `Charts` | chart_helpers.dfy | `src/utils/chartHelpers.ts` |
| `StatsCards` | stats_cards.dfy | `formatDuration`, `getIntensityLabel` and `getIntensityColor` |
| `ExerciseForm` | exercise_form.dfy | `validateForm`, `handleSubmit` and `handleChange` |
| `ExerciseList` | exercise_list.dfy | the `filteredExercises` predicate |

## Model

| member | source | states |
|---|---|---|
| DataManager.Loaded | src/utils/dataManager.ts:14-25 | A stored list is loaded as is. A missing value, text that does not parse, or a value that is not a list all load as the empty list. |
| DataManager.ExerciseDataManager.LoadAfterSave | src/utils/dataManager.ts:14-33 | Loading the slot a save has written gives back the saved records. |
| DataManager.ExerciseDataManager.constructor | src/utils/dataManager.ts:10-25 | A new store holds what was loaded from its storage slot, and the slot is left as it was. |
| DataManager.FreshId | src/utils/dataManager.ts:39 | The new id differs from every id in the store. |
| DataManager.FindIndex | src/utils/dataManager.ts:50-51 | Gives the index of the first record with the id, or none exactly when no record has the id. |
| DataManager.FindIndexUnique | src/utils/dataManager.ts:50-51 | With unique ids, the found record is the only one with that id. |
| DataManager.Stamp | src/utils/dataManager.ts:35-42 | The new record carries the given fields, the new id, and `createdAt == updatedAt == now`. |
| DataManager.StampFields | src/utils/dataManager.ts:37-42 | A record whose two timestamps are equal is restamped from its own fields, id and time to itself. |
| DataManager.AppendFreshKeepsIdsUnique | src/utils/dataManager.ts:39-44 | Appending a record with a fresh id keeps ids unique. |
| DataManager.ExerciseDataManager.AddExercise | src/utils/dataManager.ts:35-47 | Appends exactly one record at the end, with a fresh id and `createdAt == updatedAt == now`, and saves. The earlier records are unchanged. |
| DataManager.ApplyUpdate | src/utils/dataManager.ts:53-57 | The updated record keeps `id` and `createdAt` and gets `updatedAt := now`. |
| DataManager.ApplyUpdateFields | src/utils/dataManager.ts:53-57 | Each field given in the update replaces the old value, and each field left out keeps it. |
| DataManager.ApplyUpdateIdempotent | src/utils/dataManager.ts:53-57 | Applying the same update twice equals applying it once at the later time. |
| DataManager.UpdateKeepsIds | src/utils/dataManager.ts:59 | Replacing one record by its update keeps the set of ids, and keeps ids unique. |
| DataManager.ExerciseDataManager.UpdateExercise | src/utils/dataManager.ts:49-62 | With an unknown id it returns none, and data and slot are unchanged. Otherwise only the record at the first matching index is replaced by its update, the result is that record, and the store is saved. |
| DataManager.RemoveAt | src/utils/dataManager.ts:68 | `splice(i, 1)`: the length drops by one, the records before `i` stay, the later ones shift down, and exactly one copy of `s[i]` is gone. |
| DataManager.DeleteRemovesId | src/utils/dataManager.ts:64-71 | With unique ids, deleting by id leaves no record with that id, and ids stay unique. |
| DataManager.ExerciseDataManager.DeleteExercise | src/utils/dataManager.ts:64-71 | Returns false, with data and slot unchanged, exactly when the id is absent. Otherwise it removes the first record with the id and saves. |
| DataManager.StagedIsSelection | src/utils/dataManager.ts:74-94 | The three filter stages in sequence select what one combined predicate selects. A missing filter, or `'all'`, disables its stage. |
| DataManager.ExerciseDataManager.GetExercises | src/utils/dataManager.ts:73-97 | The result is a permutation of the records that pass every active filter, ordered by date, newest first. |
| DataManager.ExerciseDataManager.GetExercisesIsStable | src/utils/dataManager.ts:96 | Records with the same date keep their store order, because the sort is stable. |
| DataManager.ExerciseDataManager.UnfilteredReturnsAll | src/utils/dataManager.ts:76-94 | With no filters, or with every filter `'all'` or absent, the result holds exactly the stored records, reordered. |
| DataManager.ExerciseDataManager.GetExerciseById | src/utils/dataManager.ts:99-101 | Returns a stored record with the id, or none exactly when no record has it. |
| DataManager.ExerciseDataManager.AddedIsFound | src/utils/dataManager.ts:99-101 | With unique ids, a stored record is found by its own id. |
| DataManager.IntensitySumBounds | src/utils/dataManager.ts:114-117 | The intensity sum lies between n and 4n. |
| DataManager.AverageIntensity | src/utils/dataManager.ts:118 | The average is 0 with no records, and otherwise lies between 1 and 4. |
| DataManager.Dates | src/utils/dataManager.ts:131-132 | `map(ex => parseISO(ex.date))`: one date per record, in order. |
| DataManager.DatesHaveRecordDays | src/utils/dataManager.ts:131-132 | The days of the mapped dates are the days of the records. |
| DataManager.ExerciseDataManager.GetStats | src/utils/dataManager.ts:103-179 | The statistics, each in terms of the records (see the list after this table). |
| Streaks.DropSameDay | src/utils/dataManager.ts:134 | Keeps the first date and the last day, and never lengthens the list. |
| Streaks.DropSameDayKeepsDays | src/utils/dataManager.ts:134 | Dropping same-day neighbours keeps the set of days. |
| Streaks.DropSameDayIsStrict | src/utils/dataManager.ts:134 | Applied to dates sorted newest first, the result's days strictly decrease. |
| Streaks.StrictDaysAreDistinct | src/utils/dataManager.ts:131-134 | A list of strictly decreasing days has as many distinct days as entries. |
| Streaks.DistinctDays | src/utils/dataManager.ts:131-134 | The list's days strictly decrease, and it has the same days as the input, one entry per day. It is empty only for no records. |
| Streaks.GraceRun | src/utils/dataManager.ts:142-150 | The streak walk as written never counts more entries than there are. |
| Streaks.CurrentStreakAsWritten | src/utils/dataManager.ts:136-150 | The `for` loop with `checkDate` computes `GraceRun`. |
| Streaks.GraceRunAnchor | src/utils/dataManager.ts:140-150 | The streak as written is positive exactly when the latest day is today or yesterday. |
| Streaks.GraceRunWindow | src/utils/dataManager.ts:144-146 | The i-th entry counted by the walk as written lies on day `today - i` or `today - i - 1`. |
| Streaks.FutureCount | src/utils/dataManager.ts:141-149 | The entries it passes over are exactly the leading ones dated after today. |
| Streaks.CurrentStreak | src/utils/dataManager.ts:142-150 | The corrected loop, which first passes over the entries dated after today, computes `CurrentRun`. |
| Streaks.CurrentRunAnchor | src/utils/dataManager.ts:140-150 | The corrected streak is positive exactly when the latest day not after today is today or yesterday. |
| Streaks.CurrentRunStopsAtGap | src/utils/dataManager.ts:142-150 | The corrected streak starts at today, or at yesterday when today has no workout. It covers only days with a workout and stops at the first day without one. Entries dated after today neither count nor stop it. |
| Streaks.CurrentStreaksBounded | src/utils/dataManager.ts:142-150 | The corrected streak never exceeds the walk as written started at the first entry not after today, nor the walk as written itself when no entry is after today. The walk as written never exceeds the number of distinct days, and is 0 unless the latest day is today or yesterday. |
| Streaks.LongestStreak | src/utils/dataManager.ts:152-166 | The pairwise scan returns the length of the longest run of adjacent entries, for the given adjacency rule. |
| Streaks.LongestRunBounds | src/utils/dataManager.ts:152-166 | The longest run is at most the list's length, and is 0 exactly for the empty list. |
| Streaks.CurrentWithinLongest | src/utils/dataManager.ts:142-166 | With calendar-day adjacency, the current streak never exceeds the longest streak. |
| Streaks.GraceRunBridgesGap | src/utils/dataManager.ts:144-146 | For workouts on 2024-01-01 and 2024-01-03, on 2024-01-03, the walk as written counts 2 and the corrected streak 1. |
| Streaks.FutureEntryStopsWalk | src/utils/dataManager.ts:142-149 | For workouts tomorrow, today and yesterday, the walk as written gives 0 and the corrected streak 2. |
| Streaks.ElapsedRuleSplitsConsecutiveDays | src/utils/dataManager.ts:157-158 | For workouts at 23:00 one day and 01:00 the next, the elapsed-time rule gives a longest streak of 1. The calendar rule gives 2, and the current streak is 2. |
| DataManager.ExerciseDataManager.ExportData | src/utils/dataManager.ts:181-188 | The export holds the version `1.0`, the export time, and exactly the stored records. |
| DataManager.ValidExercises | src/utils/dataManager.ts:199-201 | Keeps only entries with a non-empty id and name, a type, a non-zero duration, a level and a date. It is empty exactly when no entry qualifies. |
| DataManager.PayloadEntries | src/utils/dataManager.ts:192-198 | The payload's entries are read exactly when the document has an `exercises` array and none of its entries is `null`. |
| DataManager.ImportOutcome | src/utils/dataManager.ts:190-222 | A failed import changes nothing and reports no count. It succeeds exactly when the array holds a valid record. On success the valid records with new ids are appended after the old data, and `imported` is their number. |
| DataManager.ImportFailureMessages | src/utils/dataManager.ts:194-205 | The failure message for each case: text that is not JSON, a null document or a null entry; a missing array; no valid record. |
| DataManager.ImportedRecordsAreFresh | src/utils/dataManager.ts:207-211 | The appended records come from the valid entries in payload order. Their ids are new to the store, and every valid entry with a new id is appended. |
| DataManager.ImportCoversPayloadIds | src/utils/dataManager.ts:207-211 | After a merge, every valid incoming id is in the store. |
| DataManager.ImportTwiceAddsNothing | src/utils/dataManager.ts:207-211 | Importing the same payload again adds nothing and reports the same success, with a count of 0. |
| DataManager.ImportKeepsDuplicatesWithinPayload | src/utils/dataManager.ts:207-211 | Two entries with the same new id in one payload are both appended, because deduplication is only against the store. |
| DataManager.ExportedInput | src/utils/dataManager.ts:181-188 | The exported text, read back, is a document with one entry per stored record. |
| DataManager.RawRoundTrip | src/utils/dataManager.ts:199-201 | A record passes the import check exactly when its id and name are non-empty and its duration is non-zero. It is then read back as itself. |
| DataManager.ExportImportRoundTrip | src/utils/dataManager.ts:181-222 | Importing the store's own export into the same store leaves it unchanged; the import succeeds exactly when some stored record has a non-empty id and name and a non-zero duration, and then reports 0 records imported. |
| DataManager.ExerciseDataManager.ImportData | src/utils/dataManager.ts:190-222 | The new data and the result are `ImportOutcome` of the old data. The store is saved on success, and the slot is untouched on failure. |
| DataManager.ExerciseDataManager.ClearAllData | src/utils/dataManager.ts:224-227 | The data is empty and saved. |
| DataManager.ExerciseDataManager.GetWorkoutsByDate | src/utils/dataManager.ts:229-241 | Each key's group is, in store order, exactly the records on that day. No group is empty. |
| DataManager.GroupsPartitionRecords | src/utils/dataManager.ts:229-241 | Every record is in the group of its own day, every grouped record is a stored record of that day, and every group is a non-empty subsequence of the store. |
| Charts.WeeklyDurationChart | src/utils/chartHelpers.ts:17-43 | One dataset with 7 entries and 7 labels. |
| Charts.WeeklyLabel | src/utils/chartHelpers.ts:22-23 | The i-th label is the name of weekday `weekStartsOn + i`. |
| Charts.WeeklyBar | src/utils/chartHelpers.ts:24-30 | The i-th entry is the total duration of the exercises on the i-th day of this week. |
| Charts.WeeklyBlocks | src/utils/chartHelpers.ts:24-30 | The i-th entry is the total duration of the exercises dated on the i-th day from the week's first day. |
| Charts.WeeklyTotal | src/utils/chartHelpers.ts:17-30 | The entries add up to the total duration of this week's exercises. |
| Charts.MonthWeeks | src/utils/chartHelpers.ts:50 | The weeks run in steps of 7 days, each starting on the first weekday. The first is the week holding the month's first day and the last the week holding its last day, so every week listed overlaps the month and together they cover it. |
| Charts.MonthWeeksExact | src/utils/chartHelpers.ts:50 | A day is listed exactly when it falls on the first weekday and its week shares a day with the month: one entry per week overlapping the month. |
| Charts.WeekLabels | src/utils/chartHelpers.ts:51 | One label per week, each `Week ` followed by digits. |
| Charts.WeekLabelNumbers | src/utils/chartHelpers.ts:51 | The k-th label's number is k + 1. |
| Charts.WeekCountIsBlock | src/utils/chartHelpers.ts:52-58 | The k-th count is the number of exercises dated on the seven days from the k-th week's start. |
| Charts.WeekSumIsBlock | src/utils/chartHelpers.ts:141-147 | The k-th sum is the sum of the given amount over the exercises dated on the seven days from the k-th week's start. |
| Charts.MonthlyWorkoutChart | src/utils/chartHelpers.ts:45-71 | One dataset, one entry per week overlapping the month (`MonthWeeks`), labelled `Week 1` to `Week n`. |
| Charts.MonthWithinWeeks | src/utils/chartHelpers.ts:47-50 | Every exercise in the current month lies within the chart's weeks. |
| Charts.MonthlyBlocks | src/utils/chartHelpers.ts:50-59 | The k-th entry is the number of exercises dated on the seven days from the k-th week's start. |
| Charts.MonthlyTotal | src/utils/chartHelpers.ts:45-59 | The entries add up to the number of exercises within the weeks shown. |
| Charts.CaloriesChart | src/utils/chartHelpers.ts:134-161 | One dataset over the same weeks overlapping the month, with the same labels, as the monthly chart. |
| Charts.CaloriesBlocks | src/utils/chartHelpers.ts:139-148 | The k-th entry is the calories, absent ones counted as 0, of the exercises dated on the seven days from the k-th week's start. |
| Charts.CaloriesTotal | src/utils/chartHelpers.ts:139-148 | The entries add up to the calories of the exercises within those weeks, with absent calories counted as 0. |
| Charts.FormatLabel | src/utils/chartHelpers.ts:100 | The label keeps its length and upper-cases its first character. |
| Charts.FormatLabelHyphen | src/utils/chartHelpers.ts:100 | The first `-` becomes a space, and the rest is kept, as in `martial-arts` to `Martial arts`. |
| Charts.FormatLabelPlain | src/utils/chartHelpers.ts:100 | A label without `-` only has its first character upper-cased. |
| Charts.FirstColors | src/utils/chartHelpers.ts:104 | `colors.slice(0, n)`: the first n colours, or all 14 when n is larger. |
| Charts.DistinctTypesBounded | src/utils/chartHelpers.ts:82-104 | There are never more distinct types than the 14 colours. |
| Charts.ExerciseTypeChart | src/utils/chartHelpers.ts:73-107 | One dataset with at most 14 labels. Its colours are the first `labels.length` of the 14. |
| Charts.ExerciseTypeChartCounts | src/utils/chartHelpers.ts:74-100 | One entry per distinct type present, in order of first appearance. Each label is the formatted type and each count is that type's number of exercises. The counts add up to the number of exercises. |
| Charts.LevelCounts | src/utils/chartHelpers.ts:117 | Always 4 entries. |
| Charts.IntensityChart | src/utils/chartHelpers.ts:109-132 | One dataset with 4 labels and 4 entries. |
| Charts.IntensityChartLabels | src/utils/chartHelpers.ts:115-116 | The labels are exactly `Low`, `Moderate`, `High`, `Very high`, and the order of the bars is the levels' ordinal order. |
| Charts.LevelChartLabel | src/utils/chartHelpers.ts:116 | Formatting each level's stored value gives `Low`, `Moderate`, `High` or `Very high`. |
| Charts.IntensityChartCounts | src/utils/chartHelpers.ts:110-117 | Each entry counts the exercises at its level, with 0 for an absent level. The entries add up to the number of exercises. |
| ExerciseTypes.TypeRow | src/types/exercise.ts:54-69 | Every exercise type has a row in `EXERCISE_TYPES`. |
| ExerciseTypes.ExerciseTypesTableIsExact | src/types/exercise.ts:54-69 | `EXERCISE_TYPES` has 14 rows, exactly one per `ExerciseType`. |
| ExerciseTypes.IntensityLevelsInOrder | src/types/exercise.ts:71-76 | `INTENSITY_LEVELS` lists the four levels in ordinal order 1 to 4. |
| ExerciseTypes.Ordinal | src/utils/dataManager.ts:115 | A level's ordinal in the intensity map lies between 1 and 4. |
| ExerciseTypes.ParseType | src/types/exercise.ts:14-28 | A recognised type text is the text of the type it gives. |
| ExerciseTypes.ParseTypeValue | src/types/exercise.ts:14-28 | Every type's text reads back as that type. |
| StatsCards.ReadShortDuration | src/components/StatsCards.tsx:11 | Under an hour, the text is the minutes followed by `m`, which reads back as the minutes. |
| StatsCards.ReadFormatHours | src/components/StatsCards.tsx:12-14 | `Xh Ym`, or `Xh` when there are no minutes left over, reads back as X hours and Y minutes. |
| StatsCards.DurationRoundTrip | src/components/StatsCards.tsx:10-15 | Every non-negative number of minutes reads back from its text. |
| StatsCards.FormatDurationInjective | src/components/StatsCards.tsx:10-15 | Different non-negative durations give different texts. |
| StatsCards.IntensityLabelBand | src/components/StatsCards.tsx:17-22 | The label is the one for the number of thresholds (1.5, 2.5, 3.5) the average is above. |
| StatsCards.IntensityLabelMonotone | src/components/StatsCards.tsx:17-22 | A higher average never gets an earlier label. |
| StatsCards.IntensityColorBand | src/components/StatsCards.tsx:24-29 | The colour is the one for the same thresholds. |
| StatsCards.LabelAndColorAgree | src/components/StatsCards.tsx:17-29 | The label and the colour always fall in the same bucket. |
| StatsCards.LevelOrdinalLabel | src/components/StatsCards.tsx:17-22 | An average equal to a level's ordinal gets that level's label. |
| ExerciseForm.Validate | src/components/ExerciseForm.tsx:31-44 | Sets the name error exactly when the trimmed name is empty, the duration error exactly when duration ≤ 0, and the calories error exactly when calories were entered and are negative. No other key is set, and each error carries its message. |
| ExerciseForm.ExerciseFormState.ValidateForm | src/components/ExerciseForm.tsx:31-48 | The error state becomes `Validate(form)`, and the form is valid exactly when there are no errors. |
| ExerciseForm.ShapedIsClean | src/components/ExerciseForm.tsx:55-63 | A valid form submits a non-empty trimmed name, a positive duration, non-negative calories, a date at the start of its day, and notes that are absent or non-empty and trimmed. |
| ExerciseForm.ReopenedFormIsValid | src/components/ExerciseForm.tsx:19-44 | The form opened on a record with such values is valid. |
| ExerciseForm.ReopenedFormShape | src/components/ExerciseForm.tsx:19-63 | That form submits the same values again, except that calories of 0 become absent. |
| ExerciseForm.ReopenedFormResubmits | src/components/ExerciseForm.tsx:19-67 | A record saved from a valid form, opened again, gives a valid form that submits the same values (calories of 0 become absent). |
| ExerciseForm.FullUpdateSetsFields | src/components/ExerciseForm.tsx:67 | Updating with the submitted values gives a record with those values, the same id and `createdAt`, and `updatedAt := now`. |
| ExerciseForm.ExerciseFormState.HandleSubmit | src/components/ExerciseForm.tsx:50-88 | Invalid form: nothing changes. Not editing: the shaped values are added with a fresh id, and the form resets to its defaults. The new record is created and updated at `now`. Editing: the record with the id is replaced by one with the shaped values, keeping its id and `createdAt`, updated at `now`, and the form is kept. When that record is gone, neither the records nor the storage slot change. |
| ExerciseForm.ExerciseFormState.constructor | src/components/ExerciseForm.tsx:19-29 | The form opens with the editing record's values or the defaults, and no errors. |
| ExerciseForm.Edited | src/components/ExerciseForm.tsx:91 | A change sets the field it names to the new value and leaves every other field as it was. |
| ExerciseForm.ExerciseFormState.HandleChange | src/components/ExerciseForm.tsx:90-95 | The form takes the change. Only the changed field's error is cleared, to the empty string; the other errors are kept and no key is added. |
| Text.TrimResult | src/components/ExerciseForm.tsx:56 | The trimmed text is a piece of the original with no whitespace at either end. |
| Text.TrimEmpty | src/components/ExerciseForm.tsx:34 | The trimmed text is empty exactly when the text is all whitespace. |
| Text.TrimIdempotent | src/components/ExerciseForm.tsx:56 | Trimming twice equals trimming once. |
| ExerciseList.FilteredExercises | src/components/ExerciseList.tsx:62-70 | A record is listed exactly when it passes the search, has the selected type unless the type filter is `'all'`, and has the selected intensity unless that filter is `'all'`. |
| ExerciseList.FilteredIsSubsequence | src/components/ExerciseList.tsx:62-70 | The list keeps input order, so "Showing N of M" never shows N > M. |
| ExerciseList.SearchIffOccurs | src/components/ExerciseList.tsx:63-64 | The search passes a record exactly when the lower-cased term occurs in the lower-cased name or notes. |
| ExerciseList.SearchIgnoresTermCase | src/components/ExerciseList.tsx:63-64 | Lower-casing the term first changes nothing. |
| ExerciseList.NoFiltersShowsAll | src/components/ExerciseList.tsx:62-70 | An empty search with both filters on `'all'` lists every record. |
| ExerciseList.EmptySearchAgreesWithStore | src/components/ExerciseList.tsx:66-67 | With an empty search, the list selects exactly what the store's `getExercises` filters select. |

`DataManager.ExerciseDataManager.GetStats` states:

- `totalWorkouts` is the number of records.
- `totalDuration` and `totalCalories` are the sums, with absent calories counted as 0.
- `averageIntensity` is `AverageIntensity`.
- The week and month counts are the records within the clock's week and month.
- `currentStreak` is the corrected streak over the distinct days.
- `longestStreak` is the longest run of consecutive calendar days.
- `longestStreak` is 0 exactly when there are no records.
- `currentStreak ≤ longestStreak ≤` the number of distinct days.
- `currentStreak` is positive exactly when the latest day not after today is today or yesterday.

## Left out

- Storage: `localStorage` and JSON text are modelled as a slot holding a `StoredValue`. Writes always succeed; the source ignores a failed write. Console logging is not part of this model.
- JSON text: import takes the parsed document (`ImportInput`), and export returns the record value. Text that does not parse is the `InvalidJson` case.
- Import entries: an entry's falsy fields appear as `""`, `0` or none. A `null` entry models the `TypeError` that `ex.id` throws, reported as "Invalid JSON format".
- Ids: `crypto.randomUUID` is replaced by `FreshId`, which gives some id not in the store.
- Time: time zones, daylight saving and the UTC text of `toISOString` are left out. Dates are local day numbers plus milliseconds. `getWorkoutsByDate` keys groups by the day number, not by the UTC date text.
- The clock: `new Date()` is the `Clock` parameter, or the `now` parameter of the store's methods. date-fns internals are replaced by their day arithmetic.
- Form dates: the form's date text (`yyyy-MM-dd`) is held as a day number. `new Date(text).toISOString()` is modelled as the start of that day.
- Calories text: the form's calories field is `Blank` or a number. Text that is not a number (`NaN`) is not modelled.
- Strings: `toLowerCase` is modelled on ASCII and Latin-1 capitals, and `toUpperCase` on ASCII letters only (the chart labels it applies to are ASCII). `trim` is modelled on ASCII whitespace, U+00A0 and U+FEFF. Other Unicode whitespace and case mappings are not modelled.
- Numbers: `averageIntensity` is a `real`. Floating-point rounding is not modelled.
- Durations and calories: they are whole numbers (`int`) here, while the source holds them as JavaScript numbers. The form's `Number(...)` accepts fractions such as 30.5 minutes or 120.5 calories, and `formatDuration(90.5)` gives `1h 30.5m`. Fractional values are not modelled, so `ExerciseForm.Validate`, `StatsCards.FormatDuration`, `StatsCards.DurationRoundTrip` and the duration and calories sums speak only of whole values.
- StatsCards.DurationRoundTrip: proved for non-negative minutes only. The text of a negative number is not read back.
- Charts.WeeklyDurationChart: chart colours are a `Color` value. `borderWidth`, `tension` and the dataset titles are constant styling and are not modelled.
- ExerciseForm.ExerciseFormState.HandleSubmit: the `onExerciseAdded` and `onCancel` callbacks are not modelled. The `!` after the update is modelled as an `Option` result, which is none when the edited record was deleted.
- DataManager.ValidExercises: import entries, and records loaded from storage, are typed. A type or level outside the enumerations, a date text that does not parse and a duration that is not a number cannot be represented, although the source stores such truthy values. So the following results hold only for records of the declared types: `DataManager.IntensitySumBounds` and `DataManager.AverageIntensity` (an unknown level gives `NaN`), `Charts.IntensityChartCounts` (unknown levels are not counted), `Charts.DistinctTypesBounded` (more than 14 type texts exceed the colours), and the duration sums (a text duration concatenates).
- DataManager.ExerciseDataManager.GetExercises: a date range whose start is after its end selects no record. date-fns `isWithinInterval` instead throws `RangeError` (version 2) or swaps the ends (version 3), depending on the installed version, which is not part of this model.
- UI code: rendering, navigation and the file download and upload code are not part of this model.

## Findings

| source | as written | input that shows it | evidently intended | confidence | as-written member | corrected member |
|---|---|---|---|---|---|---|
| src/utils/dataManager.ts:144-146 | Each step accepts a date on `checkDate` or `checkDate - 1`, then moves `checkDate` back by only one day, so the walk passes over one missing day. | Workouts on 2024-01-01 and 2024-01-03, today 2024-01-03: the current streak is 2, although 2024-01-02 has no workout. | Today or yesterday anchors the run, which then counts consecutive days, stopping at the first gap (streak 1). | not executed | Streaks.GraceRunBridgesGap | Streaks.CurrentRunStopsAtGap |
| src/utils/dataManager.ts:157-158 | Two entries are linked when the floor of the milliseconds between them, divided by a day, is 1. Entries on consecutive days less than 24 hours apart are therefore not linked. | Workouts yesterday at 23:00 and today at 01:00: the longest streak is 1, while the current streak is 2. | Entries on consecutive calendar days are linked, so the longest streak is 2 and never less than the current streak. | not executed | Streaks.ElapsedRuleSplitsConsecutiveDays | Streaks.CurrentWithinLongest |
| src/utils/dataManager.ts:142-149 | The walk starts at the newest entry and stops at the first one that is neither today nor yesterday, so one entry dated after today ends it at once. Import accepts any date. | Workouts tomorrow, today and yesterday: the current streak is 0. | The walk goes back from today, passing over later-dated entries, so the streak is 2. | not executed | Streaks.FutureEntryStopsWalk | Streaks.CurrentRunStopsAtGap |

The store's `GetStats` uses the corrected definitions, `Streaks.CurrentRun` and
`Streaks.LongestStreak` with `Streaks.NextCalendarDay`. The code as written is
modelled beside them:

- `Streaks.GraceRun` and `Streaks.CurrentStreakAsWritten`;
- `Streaks.LongestStreak` with `Streaks.ElapsedOneDay`.
