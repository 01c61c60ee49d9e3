/**
 * The exercise record store `ExerciseDataManager`: one mutable list of
 * records, mirrored into browser storage after every change, with the
 * queries, statistics, import and export built on it.
 */
module DataManager {
  import opened Wrappers
  import opened Seqs
  import opened Sorting
  import opened Calendar
  import opened ExerciseTypes
  import opened Streaks
  import opened Text
  import opened RecordFilters

  const STORAGE_KEY: string := "exercise-tracker-data"
  const EXPORT_VERSION: string := "1.0"

  /**
   * What storage holds under `STORAGE_KEY`, as `loadData` sees it: nothing
   * (or an empty string), text that is not JSON, JSON that is not an array,
   * or an array of records.
   */
  datatype StoredValue = NothingStored | Unparsable | NotAList | Stored(records: seq<Exercise>)

  /** The list `loadData` starts from: the stored array, or empty in every other case. */
  function Loaded(v: StoredValue): (r: seq<Exercise>)
    ensures v.Stored? ==> r == v.records
    ensures !v.Stored? ==> r == []
  {
    if v.Stored? then v.records else []
  }

  // ---------------------------------------------------------------------
  // Ids

  function Ids(s: seq<Exercise>): set<string>
  {
    set e | e in s :: e.id
  }

  predicate UniqueIds(s: seq<Exercise>)
  {
    forall i, j :: 0 <= i < |s| && 0 <= j < |s| && s[i].id == s[j].id ==> i == j
  }

  /** The length of the longest id in `s`. */
  function LongestId(s: seq<Exercise>): (n: nat)
    ensures forall e :: e in s ==> |e.id| <= n
    decreases |s|
  {
    if s == [] then 0
    else
      var rest := LongestId(s[1..]);
      assert forall e :: e in s ==> e == s[0] || e in s[1..];
      if |s[0].id| > rest then |s[0].id| else rest
  }

  /**
   * Stands for `crypto.randomUUID()`: an id that no record of `s` has,
   * here one character longer than the longest id in use.
   */
  function FreshId(s: seq<Exercise>): (id: string)
    ensures id !in Ids(s)
  {
    seq(LongestId(s) + 1, _ => 'x')
  }

  /** `findIndex(ex => ex.id === id)`, with `None` for `-1`. */
  function FindIndex(s: seq<Exercise>, id: string): (r: Option<nat>)
    ensures r.Some? ==> r.value < |s| && s[r.value].id == id
    ensures r.Some? ==> forall j :: 0 <= j < r.value ==> s[j].id != id
    ensures r.None? <==> id !in Ids(s)
    decreases |s|
  {
    if s == [] then None
    else if s[0].id == id then Some(0)
    else
      assert Ids(s) == {s[0].id} + Ids(s[1..]) by {
        assert forall e :: e in s <==> e == s[0] || e in s[1..];
      }
      match FindIndex(s[1..], id)
      case None => None
      case Some(i) => Some(i + 1)
  }

  /** With unique ids, the record found is the only one with that id. */
  lemma FindIndexUnique(s: seq<Exercise>, id: string)
    requires UniqueIds(s)
    ensures var r := FindIndex(s, id);
      r.Some? ==> forall j :: 0 <= j < |s| && s[j].id == id ==> j == r.value
  {
  }

  // ---------------------------------------------------------------------
  // Creating and updating records

  /** `{ ...exercise, id, createdAt: now, updatedAt: now }`. */
  function Stamp(fields: NewExercise, id: string, now: DateTime): (e: Exercise)
    ensures e.id == id && e.createdAt == now && e.updatedAt == now
    ensures e.name == fields.name && e.exerciseType == fields.exerciseType
    ensures e.duration == fields.duration && e.intensityLevel == fields.intensityLevel
    ensures e.caloriesBurned == fields.caloriesBurned && e.date == fields.date && e.notes == fields.notes
  {
    Exercise(id, fields.name, fields.exerciseType, fields.duration, fields.intensityLevel,
             fields.caloriesBurned, fields.date, fields.notes, now, now)
  }

  /** The supplied fields of a record, as a form would send them back. */
  function Fields(e: Exercise): NewExercise
  {
    NewExercise(e.name, e.exerciseType, e.duration, e.intensityLevel, e.caloriesBurned, e.date, e.notes)
  }

  /** A record is its own fields stamped with its own id and times, when it was never updated. */
  lemma StampFields(e: Exercise)
    requires e.createdAt == e.updatedAt
    ensures Stamp(Fields(e), e.id, e.createdAt) == e
  {
  }

  /** Appending a record with a fresh id keeps the ids unique. */
  lemma AppendFreshKeepsIdsUnique(s: seq<Exercise>, e: Exercise)
    requires UniqueIds(s) && e.id !in Ids(s)
    ensures UniqueIds(s + [e])
  {
    forall i | 0 <= i < |s| ensures s[i].id != e.id {
      assert s[i] in s;
    }
  }

  function Replace<V>(old_: V, update: Option<V>): V
  {
    if update.Some? then update.value else old_
  }

  /** `{ ...record, ...updates, updatedAt: now }`. */
  function ApplyUpdate(e: Exercise, u: ExerciseUpdate, now: DateTime): (r: Exercise)
    ensures r.id == e.id && r.createdAt == e.createdAt && r.updatedAt == now
  {
    Exercise(e.id, Replace(e.name, u.name), Replace(e.exerciseType, u.exerciseType),
             Replace(e.duration, u.duration), Replace(e.intensityLevel, u.intensityLevel),
             Replace(e.caloriesBurned, u.caloriesBurned), Replace(e.date, u.date),
             Replace(e.notes, u.notes), e.createdAt, now)
  }

  /** A field left out of the update keeps its value; a field supplied takes the new one. */
  lemma ApplyUpdateFields(e: Exercise, u: ExerciseUpdate, now: DateTime)
    ensures var r := ApplyUpdate(e, u, now);
      (r.name == if u.name.Some? then u.name.value else e.name) &&
      (r.duration == if u.duration.Some? then u.duration.value else e.duration) &&
      (r.caloriesBurned == if u.caloriesBurned.Some? then u.caloriesBurned.value else e.caloriesBurned) &&
      (r.notes == if u.notes.Some? then u.notes.value else e.notes) &&
      (u == NO_UPDATE ==> r == e.(updatedAt := now))
  {
  }

  /** Applying the same update twice is the same as applying it once, at the later time. */
  lemma ApplyUpdateIdempotent(e: Exercise, u: ExerciseUpdate, t1: DateTime, t2: DateTime)
    ensures ApplyUpdate(ApplyUpdate(e, u, t1), u, t2) == ApplyUpdate(e, u, t2)
  {
  }

  /** Replacing a record by an update of itself keeps the set of ids. */
  lemma UpdateKeepsIds(s: seq<Exercise>, i: nat, u: ExerciseUpdate, now: DateTime)
    requires i < |s|
    ensures Ids(s[i := ApplyUpdate(s[i], u, now)]) == Ids(s)
    ensures UniqueIds(s) ==> UniqueIds(s[i := ApplyUpdate(s[i], u, now)])
  {
    var t := s[i := ApplyUpdate(s[i], u, now)];
    forall id ensures id in Ids(t) <==> id in Ids(s) {
      if id in Ids(t) {
        var e :| e in t && e.id == id;
        var j :| 0 <= j < |t| && t[j] == e;
        assert s[j] in s;
      }
      if id in Ids(s) {
        var e :| e in s && e.id == id;
        var j :| 0 <= j < |s| && s[j] == e;
        assert t[j] in t;
      }
    }
  }

  // ---------------------------------------------------------------------
  // Deleting records

  /** `splice(i, 1)`. */
  function RemoveAt(s: seq<Exercise>, i: nat): (r: seq<Exercise>)
    requires i < |s|
    ensures |r| == |s| - 1
    ensures multiset(r) + multiset{s[i]} == multiset(s)
    ensures forall j :: 0 <= j < i ==> r[j] == s[j]
    ensures forall j :: i <= j < |r| ==> r[j] == s[j + 1]
  {
    assert s == s[..i] + [s[i]] + s[i + 1..];
    s[..i] + s[i + 1..]
  }

  /** Once the only record with an id is deleted, no record has that id. */
  lemma DeleteRemovesId(s: seq<Exercise>, id: string)
    requires UniqueIds(s)
    requires FindIndex(s, id).Some?
    ensures id !in Ids(RemoveAt(s, FindIndex(s, id).value))
    ensures UniqueIds(RemoveAt(s, FindIndex(s, id).value))
  {
    var i := FindIndex(s, id).value;
    var r := RemoveAt(s, i);
    forall e | e in r ensures e.id != id {
      var j :| 0 <= j < |r| && r[j] == e;
      if j >= i {
        assert s[j + 1] == e;
      }
    }
    forall a, b | 0 <= a < |r| && 0 <= b < |r| && r[a].id == r[b].id ensures a == b {
      var a' := if a < i then a else a + 1;
      var b' := if b < i then b else b + 1;
      assert s[a'].id == s[b'].id;
    }
  }

  // ---------------------------------------------------------------------
  // Filtered, sorted retrieval

  /** The sort key of `getExercises`: the record's date as an instant. */
  function DateInstant(e: Exercise): int
  {
    Instant(e.date)
  }

  /** `filters.type && filters.type !== 'all'`: whether the type filter is switched on and passes `e`. */
  predicate PassesType(f: Option<TypeFilter>, e: Exercise)
  {
    !(f.Some? && f.value.OnlyType?) || e.exerciseType == f.value.exerciseType
  }

  predicate PassesLevel(f: Option<IntensityFilter>, e: Exercise)
  {
    !(f.Some? && f.value.OnlyLevel?) || e.intensityLevel == f.value.level
  }

  predicate PassesDates(f: Option<Interval>, e: Exercise)
  {
    f.None? || Within(e.date, f.value)
  }

  /** A record passes the filters when it passes every one that is switched on. */
  predicate Passes(filters: Option<FilterOptions>, e: Exercise)
  {
    filters.None? ||
    (PassesType(filters.value.exerciseType, e) &&
     PassesLevel(filters.value.intensityLevel, e) &&
     PassesDates(filters.value.dateRange, e))
  }

  function Selected(filters: Option<FilterOptions>): Exercise -> bool
  {
    e => Passes(filters, e)
  }

  function TypeStage(f: Option<TypeFilter>): Exercise -> bool
  {
    e => PassesType(f, e)
  }

  function LevelStage(f: Option<IntensityFilter>): Exercise -> bool
  {
    e => PassesLevel(f, e)
  }

  function DateStage(f: Option<Interval>): Exercise -> bool
  {
    e => PassesDates(f, e)
  }

  /** The three filters of `getExercises`, applied one after another as the source does. */
  function Staged(data: seq<Exercise>, filters: Option<FilterOptions>): seq<Exercise>
  {
    if filters.None? then data
    else
      var f := filters.value;
      var byType := if f.exerciseType.Some? && f.exerciseType.value.OnlyType? then Filter(data, TypeStage(f.exerciseType)) else data;
      var byLevel := if f.intensityLevel.Some? && f.intensityLevel.value.OnlyLevel? then Filter(byType, LevelStage(f.intensityLevel)) else byType;
      if f.dateRange.Some? then Filter(byLevel, DateStage(f.dateRange)) else byLevel
  }

  /** Filtering in stages keeps exactly the records that pass every active filter, in store order. */
  lemma StagedIsSelection(data: seq<Exercise>, filters: Option<FilterOptions>)
    ensures Staged(data, filters) == Filter(data, Selected(filters))
  {
    if filters.None? {
      FilterAll(data, Selected(filters));
    } else {
      var f := filters.value;
      var t, l, d := TypeStage(f.exerciseType), LevelStage(f.intensityLevel), DateStage(f.dateRange);
      var tl: Exercise -> bool := e => PassesType(f.exerciseType, e) && PassesLevel(f.intensityLevel, e);
      var byType := if f.exerciseType.Some? && f.exerciseType.value.OnlyType? then Filter(data, t) else data;
      if !(f.exerciseType.Some? && f.exerciseType.value.OnlyType?) {
        FilterAll(data, t);
      }
      var byLevel := if f.intensityLevel.Some? && f.intensityLevel.value.OnlyLevel? then Filter(byType, l) else byType;
      if !(f.intensityLevel.Some? && f.intensityLevel.value.OnlyLevel?) {
        FilterAll(byType, l);
      }
      FilterFilter(data, t, l, tl);
      assert byLevel == Filter(data, tl);
      if f.dateRange.None? {
        FilterAll(byLevel, d);
      }
      FilterFilter(data, tl, d, Selected(filters));
    }
  }

  // ---------------------------------------------------------------------
  // Statistics

  function LevelOrdinal(e: Exercise): int
  {
    Ordinal(e.intensityLevel)
  }

  /** The `intensityMap` sum of `getStats`. */
  function IntensitySum(s: seq<Exercise>): int
  {
    Sum(s, LevelOrdinal)
  }

  /** Every level counts between 1 and 4. */
  lemma IntensitySumBounds(s: seq<Exercise>)
    ensures |s| <= IntensitySum(s) <= 4 * |s|
  {
    SumBounds(s, LevelOrdinal, 1, 4);
  }

  /** `totalWorkouts > 0 ? intensitySum / totalWorkouts : 0`. */
  function AverageIntensity(s: seq<Exercise>): (r: real)
    ensures s == [] ==> r == 0.0
    ensures s != [] ==> 1.0 <= r <= 4.0
  {
    if |s| > 0 then
      IntensitySumBounds(s);
      var n, total := |s| as real, IntensitySum(s) as real;
      assert n <= total <= 4.0 * n;
      assert total / n * n == total;
      total / n
    else 0.0
  }

  /** `this.data.map(ex => parseISO(ex.date))`. */
  function Dates(s: seq<Exercise>): (r: seq<DateTime>)
    ensures |r| == |s| && forall i :: 0 <= i < |s| ==> r[i] == s[i].date
  {
    seq(|s|, i requires 0 <= i < |s| => s[i].date)
  }

  /** The days on which some record is dated. */
  function RecordDays(s: seq<Exercise>): set<int>
  {
    set e | e in s :: e.date.day
  }

  lemma DatesHaveRecordDays(s: seq<Exercise>)
    ensures DaySet(Dates(s)) == RecordDays(s)
  {
    var ds := Dates(s);
    forall d ensures d in DaySet(ds) <==> d in RecordDays(s) {
      if d in DaySet(ds) {
        var x :| x in ds && x.day == d;
        var i :| 0 <= i < |ds| && ds[i] == x;
        assert s[i] in s;
      }
      if d in RecordDays(s) {
        var e :| e in s && e.date.day == d;
        var i :| 0 <= i < |s| && s[i] == e;
        assert ds[i] in ds;
      }
    }
  }

  // ---------------------------------------------------------------------
  // Grouping by date

  /** Every record lies in the group of its own day and in no other, and groups keep store order. */
  lemma GroupsPartitionRecords(data: seq<Exercise>, groups: map<int, seq<Exercise>>)
    requires GroupsOf(data, groups)
    ensures forall e :: e in data ==> e.date.day in groups && e in groups[e.date.day]
    ensures forall e, k :: k in groups && e in groups[k] ==> e in data && e.date.day == k
    ensures forall k :: k in groups ==> groups[k] != [] && IsSubsequence(groups[k], data)
  {
    forall k | k in groups ensures groups[k] != [] && IsSubsequence(groups[k], data) {
      FilterIsSubsequence(data, DayIs(k));
      var e :| e in data && e.date.day == k;
      assert e in groups[k];
    }
  }

  lemma RecordDaysAppend(prefix: seq<Exercise>, e: Exercise)
    ensures RecordDays(prefix + [e]) == RecordDays(prefix) + {e.date.day}
  {
    assert forall x :: x in prefix + [e] <==> x in prefix || x == e;
  }

  /** A filter of one element keeps it exactly when it passes. */
  lemma FilterSingle(e: Exercise, p: Exercise -> bool)
    ensures Filter([e], p) == if p(e) then [e] else []
  {
    assert [e][1..] == [];
  }

  /** The group of day `k` after one more record: the old group, extended when the record is on day `k`. */
  lemma GroupAfterAppend(prefix: seq<Exercise>, e: Exercise, k: int)
    requires k !in RecordDays(prefix) ==> k == e.date.day
    ensures Filter(prefix + [e], DayIs(k)) ==
      (if k in RecordDays(prefix) then Filter(prefix, DayIs(k)) else []) + (if e.date.day == k then [e] else [])
  {
    FilterAppend(prefix, [e], DayIs(k));
    FilterSingle(e, DayIs(k));
    if k !in RecordDays(prefix) {
      forall x | x in prefix ensures !DayIs(k)(x) {
        assert x.date.day in RecordDays(prefix);
      }
      FilterNone(prefix, DayIs(k));
    }
  }

  /** `groups` maps each day of a record of `s` to the records of `s` on that day, in order. */
  predicate GroupsOf(s: seq<Exercise>, groups: map<int, seq<Exercise>>)
  {
    groups.Keys == RecordDays(s) &&
    forall k :: k in groups ==> groups[k] == Filter(s, DayIs(k))
  }

  /** `workoutMap` after `e` is pushed onto the group of its day, created empty if new. */
  function Joined(groups: map<int, seq<Exercise>>, e: Exercise): map<int, seq<Exercise>>
  {
    var key := e.date.day;
    groups[key := (if key in groups then groups[key] else []) + [e]]
  }

  /** Creating the group when missing and then pushing onto it is `Joined`. */
  lemma PushedOntoGroup(before: map<int, seq<Exercise>>, e: Exercise, after: map<int, seq<Exercise>>)
    requires var key := e.date.day;
      var created := if key in before then before else before[key := []];
      after == created[key := created[key] + [e]]
    ensures after == Joined(before, e)
  {
  }

  /** One step of the grouping loop: the record joins the group of its day, created empty if new. */
  lemma AddToGroup(prefix: seq<Exercise>, e: Exercise, groups: map<int, seq<Exercise>>)
    requires GroupsOf(prefix, groups)
    ensures GroupsOf(prefix + [e], Joined(groups, e))
  {
    var g := Joined(groups, e);
    RecordDaysAppend(prefix, e);
    assert g.Keys == groups.Keys + {e.date.day};
    forall k | k in g ensures g[k] == Filter(prefix + [e], DayIs(k)) {
      GroupAfterAppend(prefix, e, k);
    }
  }

  /** The loop step of `getWorkoutsByDate`, over the first `i` records. */
  lemma GroupStep(records: seq<Exercise>, i: nat, groups: map<int, seq<Exercise>>)
    requires i < |records| && GroupsOf(records[..i], groups)
    ensures GroupsOf(records[..i + 1], Joined(groups, records[i]))
  {
    var prefix, e := records[..i], records[i];
    assert records[..i + 1] == prefix + [e];
    AddToGroup(prefix, e, groups);
  }

  // ---------------------------------------------------------------------
  // Export and import

  /** `{ version, exportDate, exercises }` before `JSON.stringify`. */
  datatype ExportPayload = ExportPayload(version: string, exportDate: DateTime, exercises: seq<Exercise>)

  /**
   * One element of an imported `exercises` array, read as a record.  A
   * missing or falsy field is the blank value: `""` for strings, `0` for
   * the duration (also standing for `NaN`) and `None` otherwise.
   */
  datatype RawExercise = RawExercise(
    id: string,
    name: string,
    exerciseType: Option<ExerciseType>,
    duration: int,
    intensityLevel: Option<IntensityLevel>,
    caloriesBurned: Option<int>,
    date: Option<DateTime>,
    notes: Option<string>,
    createdAt: DateTime,
    updatedAt: DateTime)

  /** An array element is `null`/`undefined` (reading `ex.id` then throws) or an object. */
  datatype PayloadEntry = NullEntry | Entry(raw: RawExercise)

  /** `parsed.exercises`: missing or falsy, truthy but not an array, or an array. */
  datatype ExercisesField = Missing | NotAnArray | Entries(entries: seq<PayloadEntry>)

  /** The text given to `importData`, as `JSON.parse` reads it. */
  datatype ImportInput = InvalidJson | NullDocument | Document(exercises: ExercisesField)

  datatype ImportResult = ImportResult(success: bool, message: string, imported: Option<nat>)

  const INVALID_JSON: string := "Invalid JSON format"
  const NO_ARRAY: string := "Invalid data format: exercises array not found"
  const NO_VALID: string := "No valid exercises found in import data"

  function SuccessMessage(n: nat): string
  {
    "Successfully imported " + NatToString(n) + " exercises"
  }

  /** `ex.id && ex.name && ex.type && ex.duration && ex.intensityLevel && ex.date`. */
  predicate Admissible(r: RawExercise)
  {
    r.id != "" && r.name != "" && r.exerciseType.Some? && r.duration != 0 &&
    r.intensityLevel.Some? && r.date.Some?
  }

  function AsExercise(r: RawExercise): Exercise
    requires Admissible(r)
  {
    Exercise(r.id, r.name, r.exerciseType.value, r.duration, r.intensityLevel.value,
             r.caloriesBurned, r.date.value, r.notes, r.createdAt, r.updatedAt)
  }

  function AsRaw(e: Exercise): RawExercise
  {
    RawExercise(e.id, e.name, Some(e.exerciseType), e.duration, Some(e.intensityLevel),
                e.caloriesBurned, Some(e.date), e.notes, e.createdAt, e.updatedAt)
  }

  /** The admissible entries of the payload, in payload order, as records. */
  function ValidExercises(raws: seq<RawExercise>): (r: seq<Exercise>)
    ensures |r| <= |raws|
    ensures forall e :: e in r ==> e.id != "" && e.name != "" && e.duration != 0
    ensures r == [] <==> forall x :: x in raws ==> !Admissible(x)
    decreases |raws|
  {
    if raws == [] then []
    else
      var rest := ValidExercises(raws[1..]);
      assert forall x :: x in raws <==> x == raws[0] || x in raws[1..];
      if Admissible(raws[0]) then [AsExercise(raws[0])] + rest else rest
  }

  /** The entries of a well-formed payload: `None` when reading them throws or the array is missing. */
  function PayloadEntries(input: ImportInput): (r: Option<seq<RawExercise>>)
    ensures r.Some? <==> input.Document? && input.exercises.Entries? && NullEntry !in input.exercises.entries
    ensures r.Some? ==> |r.value| == |input.exercises.entries|
    ensures r.Some? ==> forall i :: 0 <= i < |r.value| ==> input.exercises.entries[i] == Entry(r.value[i])
  {
    if input.Document? && input.exercises.Entries? && NullEntry !in input.exercises.entries then
      var es := input.exercises.entries;
      assert forall i :: 0 <= i < |es| ==> es[i].Entry? by {
        forall i | 0 <= i < |es| ensures es[i].Entry? {
          assert es[i] in es;
        }
      }
      Some(seq(|es|, i requires 0 <= i < |es| => es[i].raw))
    else None
  }

  function IdNotIn(ids: set<string>): Exercise -> bool
  {
    (e: Exercise) => e.id !in ids
  }

  /** The records an import appends: the valid incoming ones whose id is not in the store yet. */
  function NewRecords(data: seq<Exercise>, raws: seq<RawExercise>): seq<Exercise>
  {
    Filter(ValidExercises(raws), IdNotIn(Ids(data)))
  }

  /** The list and the result `importData` leaves behind, given the list before. */
  function ImportOutcome(data: seq<Exercise>, input: ImportInput): (out: (seq<Exercise>, ImportResult))
    ensures !out.1.success ==> out.0 == data && out.1.imported.None?
    ensures out.1.success <==> PayloadEntries(input).Some? && ValidExercises(PayloadEntries(input).value) != []
    ensures out.1.success ==>
      var added := NewRecords(data, PayloadEntries(input).value);
      out.0 == data + added && out.1.imported == Some(|added|) && out.1.message == SuccessMessage(|added|)
  {
    match input
    case InvalidJson => (data, ImportResult(false, INVALID_JSON, None))
    case NullDocument => (data, ImportResult(false, INVALID_JSON, None))
    case Document(field) =>
      if !field.Entries? then (data, ImportResult(false, NO_ARRAY, None))
      else if NullEntry in field.entries then (data, ImportResult(false, INVALID_JSON, None))
      else
        var valid := ValidExercises(PayloadEntries(input).value);
        if valid == [] then (data, ImportResult(false, NO_VALID, None))
        else
          var added := Filter(valid, IdNotIn(Ids(data)));
          (data + added, ImportResult(true, SuccessMessage(|added|), Some(|added|)))
  }

  /** Which message a failed import reports. */
  lemma ImportFailureMessages(data: seq<Exercise>, input: ImportInput)
    ensures var res := ImportOutcome(data, input).1;
      (input.InvalidJson? || input.NullDocument? ==> !res.success && res.message == INVALID_JSON) &&
      (input.Document? && !input.exercises.Entries? ==> !res.success && res.message == NO_ARRAY) &&
      (input.Document? && input.exercises.Entries? && NullEntry in input.exercises.entries ==>
         !res.success && res.message == INVALID_JSON) &&
      (PayloadEntries(input).Some? && ValidExercises(PayloadEntries(input).value) == [] ==>
         !res.success && res.message == NO_VALID)
  {
  }

  /** The appended records are fresh, come from the payload in its order, and carry distinct-from-store ids. */
  lemma ImportedRecordsAreFresh(data: seq<Exercise>, raws: seq<RawExercise>)
    ensures var added := NewRecords(data, raws);
      IsSubsequence(added, ValidExercises(raws)) &&
      (forall e :: e in added ==> e.id !in Ids(data)) &&
      (forall e :: e in ValidExercises(raws) && e.id !in Ids(data) ==> e in added)
  {
    FilterIsSubsequence(ValidExercises(raws), IdNotIn(Ids(data)));
  }

  /** After an import, every valid incoming id is in the store. */
  lemma ImportCoversPayloadIds(data: seq<Exercise>, raws: seq<RawExercise>)
    ensures forall e :: e in ValidExercises(raws) ==> e.id in Ids(data + NewRecords(data, raws))
  {
    var t := data + NewRecords(data, raws);
    forall e | e in ValidExercises(raws) ensures e.id in Ids(t) {
      if e.id !in Ids(data) {
        assert e in NewRecords(data, raws);
        assert e in t;
      } else {
        var x :| x in data && x.id == e.id;
        assert x in t;
      }
    }
  }

  /** Importing the same text a second time adds nothing and reports the same success. */
  lemma ImportTwiceAddsNothing(data: seq<Exercise>, input: ImportInput)
    ensures var (once, r1) := ImportOutcome(data, input);
      var (twice, r2) := ImportOutcome(once, input);
      twice == once && r2.success == r1.success && (r1.success ==> r2.imported == Some(0))
  {
    var (once, r1) := ImportOutcome(data, input);
    if r1.success {
      var raws := PayloadEntries(input).value;
      ImportCoversPayloadIds(data, raws);
      FilterNone(ValidExercises(raws), IdNotIn(Ids(once)));
      assert NewRecords(once, raws) == [];
      assert once + [] == once;
    }
  }

  /** The text `exportData` produces, read back by `JSON.parse`. */
  function ExportedInput(p: ExportPayload): (r: ImportInput)
    ensures r.Document? && r.exercises.Entries? && |r.exercises.entries| == |p.exercises|
  {
    Document(Entries(seq(|p.exercises|, i requires 0 <= i < |p.exercises| => Entry(AsRaw(p.exercises[i])))))
  }

  /** Reading a record back from its exported form gives the record, when it is admissible. */
  lemma RawRoundTrip(e: Exercise)
    ensures Admissible(AsRaw(e)) <==> e.id != "" && e.name != "" && e.duration != 0
    ensures Admissible(AsRaw(e)) ==> AsExercise(AsRaw(e)) == e
  {
  }

  /**
   * Importing a store's own export into it leaves the list as it was; it
   * succeeds, reporting 0 new records, exactly when some stored record has a
   * non-empty id and name and a non-zero duration.
   */
  lemma ExportImportRoundTrip(data: seq<Exercise>, now: DateTime)
    ensures ImportOutcome(data, ExportedInput(ExportPayload(EXPORT_VERSION, now, data))).0 == data
    ensures var res := ImportOutcome(data, ExportedInput(ExportPayload(EXPORT_VERSION, now, data))).1;
      (res.success <==> exists e :: e in data && e.id != "" && e.name != "" && e.duration != 0) &&
      (res.success ==> res.imported == Some(0))
  {
    var input := ExportedInput(ExportPayload(EXPORT_VERSION, now, data));
    ExportedEntries(data, now);
    var raws := PayloadEntries(input).value;
    assert forall e :: e in ValidExercises(raws) ==> e.id in Ids(data) by {
      ExportedValidAreStored(data, raws);
    }
    FilterNone(ValidExercises(raws), IdNotIn(Ids(data)));
    assert data + [] == data;
    ExportedAnyValid(data, raws);
  }

  /** The export read back holds no null entry, and its i-th entry is the i-th record. */
  lemma ExportedEntries(data: seq<Exercise>, now: DateTime)
    ensures var input := ExportedInput(ExportPayload(EXPORT_VERSION, now, data));
      PayloadEntries(input).Some? &&
      |PayloadEntries(input).value| == |data| &&
      forall i :: 0 <= i < |data| ==> PayloadEntries(input).value[i] == AsRaw(data[i])
  {
    var input := ExportedInput(ExportPayload(EXPORT_VERSION, now, data));
    var entries := input.exercises.entries;
    assert NullEntry !in entries by {
      forall i | 0 <= i < |entries| ensures entries[i] != NullEntry {
        assert entries[i] == Entry(AsRaw(data[i]));
      }
    }
    var raws := PayloadEntries(input).value;
    forall i | 0 <= i < |data| ensures raws[i] == AsRaw(data[i]) {
      assert entries[i] == Entry(raws[i]) && entries[i] == Entry(AsRaw(data[i]));
    }
  }

  /** Some exported entry passes the import check exactly when some record has an id, a name and a duration. */
  lemma {:induction false} ExportedAnyValid(data: seq<Exercise>, raws: seq<RawExercise>)
    requires |raws| == |data| && forall i :: 0 <= i < |raws| ==> raws[i] == AsRaw(data[i])
    ensures ValidExercises(raws) != [] <==>
      exists i :: 0 <= i < |data| && data[i].id != "" && data[i].name != "" && data[i].duration != 0
    decreases |data|
  {
    if data != [] {
      ExportedAnyValid(data[1..], raws[1..]);
      RawRoundTrip(data[0]);
      assert forall i :: 1 <= i < |data| ==> data[i] == data[1..][i - 1];
    }
  }

  lemma {:induction false} ExportedValidAreStored(data: seq<Exercise>, raws: seq<RawExercise>)
    requires |raws| == |data| && forall i :: 0 <= i < |raws| ==> raws[i] == AsRaw(data[i])
    ensures forall e :: e in ValidExercises(raws) ==> e in data
    decreases |raws|
  {
    if raws != [] {
      ExportedValidAreStored(data[1..], raws[1..]);
      assert forall e :: e in data[1..] ==> e in data;
    }
  }

  /** Two admissible entries with the same new id are both appended: ids are checked only against the store. */
  lemma ImportKeepsDuplicatesWithinPayload(r: RawExercise)
    requires Admissible(r)
    ensures var input := Document(Entries([Entry(r), Entry(r)]));
      ImportOutcome([], input).0 == [AsExercise(r), AsExercise(r)]
  {
    var input := Document(Entries([Entry(r), Entry(r)]));
    var raws := PayloadEntries(input).value;
    assert raws == [r, r];
    assert raws[1..] == [r];
    assert [r][1..] == [];
    assert ValidExercises([r]) == [AsExercise(r)];
    var valid := ValidExercises(raws);
    assert valid == [AsExercise(r), AsExercise(r)];
    FilterAll(valid, IdNotIn(Ids([])));
  }

  // ---------------------------------------------------------------------
  // The store

  class ExerciseDataManager {
    /** The records, in the order they were added or imported. */
    var data: seq<Exercise>
    /** What storage holds under `STORAGE_KEY`. */
    var slot: StoredValue

    /** `saveData` has written the current list. */
    predicate Saved()
      reads this
    {
      slot == Stored(data)
    }

    /** `loadData`: start from what storage holds. */
    constructor(stored: StoredValue)
      ensures data == Loaded(stored) && slot == stored
    {
      data := Loaded(stored);
      slot := stored;
    }

    /** A store opened on the slot a saved store left starts from the same records. */
    lemma LoadAfterSave()
      requires Saved()
      ensures Loaded(slot) == data
    {
    }

    /** `saveData`: write the list to storage (a failing write is not modelled). */
    method Save()
      modifies this
      ensures data == old(data) && Saved()
    {
      slot := Stored(data);
    }

    /** `addExercise`: append one new record with a fresh id, created and updated at `now`. */
    method AddExercise(fields: NewExercise, now: DateTime) returns (e: Exercise)
      modifies this
      ensures e.id !in Ids(old(data))
      ensures e == Stamp(fields, e.id, now)
      ensures data == old(data) + [e]
      ensures Saved()
    {
      e := Stamp(fields, FreshId(data), now);
      data := data + [e];
      Save();
    }

    /** `updateExercise`: replace the first record with `id` by its update, or report `null`. */
    method UpdateExercise(id: string, u: ExerciseUpdate, now: DateTime) returns (r: Option<Exercise>)
      modifies this
      ensures r.None? <==> id !in Ids(old(data))
      ensures r.None? ==> data == old(data) && slot == old(slot)
      ensures r.Some? ==>
        var i := FindIndex(old(data), id).value;
        r.value == ApplyUpdate(old(data)[i], u, now) && data == old(data)[i := r.value] && Saved()
    {
      var index := FindIndex(data, id);
      if index.None? {
        return None;
      }
      var updated := ApplyUpdate(data[index.value], u, now);
      data := data[index.value := updated];
      Save();
      r := Some(updated);
    }

    /** `deleteExercise`: remove the first record with `id`, and say whether there was one. */
    method DeleteExercise(id: string) returns (deleted: bool)
      modifies this
      ensures deleted <==> id in Ids(old(data))
      ensures !deleted ==> data == old(data) && slot == old(slot)
      ensures deleted ==> data == RemoveAt(old(data), FindIndex(old(data), id).value) && Saved()
    {
      var index := FindIndex(data, id);
      if index.None? {
        return false;
      }
      data := RemoveAt(data, index.value);
      Save();
      deleted := true;
    }

    /**
     * `getExercises`: the records that pass every active filter, newest
     * first; records with the same date keep their store order.
     */
    function GetExercises(filters: Option<FilterOptions>): (r: seq<Exercise>)
      reads this
      ensures multiset(r) == multiset(Filter(data, Selected(filters)))
      ensures Descending(r, DateInstant)
    {
      StagedIsSelection(data, filters);
      SortDescending(Staged(data, filters), DateInstant)
    }

    /** Among records dated at the same instant, `getExercises` keeps the store order. */
    lemma GetExercisesIsStable(filters: Option<FilterOptions>, k: int)
      ensures Filter(GetExercises(filters), KeyIs(DateInstant, k))
           == Filter(Filter(data, Selected(filters)), KeyIs(DateInstant, k))
    {
      StagedIsSelection(data, filters);
      SortIsStable(Filter(data, Selected(filters)), DateInstant, k);
    }

    /** Without filters, or with every filter off or `'all'`, `getExercises` returns every record. */
    lemma UnfilteredReturnsAll(filters: Option<FilterOptions>)
      requires filters.Some? ==>
        (filters.value.exerciseType.None? || filters.value.exerciseType.value.AllTypes?) &&
        (filters.value.intensityLevel.None? || filters.value.intensityLevel.value.AllLevels?) &&
        filters.value.dateRange.None?
      ensures multiset(GetExercises(filters)) == multiset(data)
    {
      FilterAll(data, Selected(filters));
    }

    /** `getExerciseById`: the first record with `id`, or `null`. */
    function GetExerciseById(id: string): (r: Option<Exercise>)
      reads this
      ensures r.Some? ==> r.value in data && r.value.id == id
      ensures r.None? <==> id !in Ids(data)
    {
      match FindIndex(data, id)
      case None => None
      case Some(i) => Some(data[i])
    }

    /** A record just added is found by its id. */
    lemma AddedIsFound(e: Exercise)
      requires e in data && UniqueIds(data)
      ensures GetExerciseById(e.id) == Some(e)
    {
      var i := FindIndex(data, e.id).value;
      var j :| 0 <= j < |data| && data[j] == e;
      FindIndexUnique(data, e.id);
    }

    /** `getStats`, against the clock reading `clock`. */
    method GetStats(clock: Clock) returns (stats: ExerciseStats)
      ensures stats.totalWorkouts == |data|
      ensures stats.totalDuration == Sum(data, Duration)
      ensures stats.totalCalories == Sum(data, CaloriesOrZero)
      ensures stats.averageIntensity == AverageIntensity(data)
      ensures stats.thisWeekWorkouts == |Filter(data, DatedWithin(ThisWeek(clock)))|
      ensures stats.thisMonthWorkouts == |Filter(data, DatedWithin(ThisMonth(clock)))|
      ensures stats.currentStreak == CurrentRun(DistinctDays(Dates(data)), clock.now.day)
      ensures IsLongestRun(DistinctDays(Dates(data)), NextCalendarDay, stats.longestStreak)
      ensures stats.longestStreak == 0 <==> data == []
      ensures stats.currentStreak <= stats.longestStreak <= |RecordDays(data)|
      ensures stats.currentStreak > 0 <==>
        var days := DistinctDays(Dates(data)); var f := FutureCount(days, clock.now.day);
        f < |days| && clock.now.day - 1 <= days[f].day
    {
      var totalWorkouts := |data|;
      var totalDuration := Sum(data, Duration);
      var totalCalories := Sum(data, CaloriesOrZero);
      var averageIntensity := AverageIntensity(data);
      var thisWeekWorkouts := |Filter(data, DatedWithin(ThisWeek(clock)))|;
      var thisMonthWorkouts := |Filter(data, DatedWithin(ThisMonth(clock)))|;

      var sortedDates := DistinctDays(Dates(data));
      var currentStreak := 0;
      var longestStreak := 0;
      if |sortedDates| > 0 {
        currentStreak := CurrentStreak(sortedDates, clock.now.day);
        longestStreak := LongestStreak(sortedDates, NextCalendarDay);
      } else {
        assert RunAt(sortedDates, 0, 0, NextCalendarDay);
      }
      LongestRunBounds(sortedDates, NextCalendarDay, longestStreak);
      CurrentWithinLongest(sortedDates, clock.now.day, longestStreak);
      CurrentRunAnchor(sortedDates, clock.now.day);
      DatesHaveRecordDays(data);
      stats := ExerciseStats(totalWorkouts, totalDuration, totalCalories, averageIntensity,
                             currentStreak, longestStreak, thisWeekWorkouts, thisMonthWorkouts);
    }

    /** `exportData`, before `JSON.stringify`. */
    function ExportData(now: DateTime): (p: ExportPayload)
      reads this
      ensures p.version == EXPORT_VERSION && p.exportDate == now && p.exercises == data
    {
      ExportPayload(EXPORT_VERSION, now, data)
    }

    /** `importData`: merge the valid incoming records whose id is new, and report the outcome. */
    method ImportData(input: ImportInput) returns (result: ImportResult)
      modifies this
      ensures (data, result) == ImportOutcome(old(data), input)
      ensures result.success ==> Saved()
      ensures !result.success ==> slot == old(slot)
    {
      if input.InvalidJson? || input.NullDocument? {
        return ImportResult(false, INVALID_JSON, None);
      }
      if !input.exercises.Entries? {
        return ImportResult(false, NO_ARRAY, None);
      }
      if NullEntry in input.exercises.entries {
        return ImportResult(false, INVALID_JSON, None);
      }
      var validExercises := ValidExercises(PayloadEntries(input).value);
      if |validExercises| == 0 {
        return ImportResult(false, NO_VALID, None);
      }
      var existingIds := Ids(data);
      var newExercises := Filter(validExercises, IdNotIn(existingIds));
      data := data + newExercises;
      Save();
      result := ImportResult(true, SuccessMessage(|newExercises|), Some(|newExercises|));
    }

    /** `clearAllData`. */
    method ClearAllData()
      modifies this
      ensures data == [] && Saved()
    {
      data := [];
      Save();
    }

    /** `getWorkoutsByDate`: the records grouped by the day they are dated on. */
    method GetWorkoutsByDate() returns (workoutMap: map<int, seq<Exercise>>)
      ensures GroupsOf(data, workoutMap)
    {
      workoutMap := map[];
      var records := data;
      assert records[..0] == [];
      for i := 0 to |records|
        invariant GroupsOf(records[..i], workoutMap)
      {
        var exercise := records[i];
        var dateKey := exercise.date.day;
        GroupStep(records, i, workoutMap);
        ghost var before := workoutMap;
        if dateKey !in workoutMap {
          workoutMap := workoutMap[dateKey := []];
        }
        workoutMap := workoutMap[dateKey := workoutMap[dateKey] + [exercise]];
        PushedOntoGroup(before, exercise, workoutMap);
      }
      assert records[..|records|] == records;
    }
  }
}
