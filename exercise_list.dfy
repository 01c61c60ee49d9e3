/**
 * The list view's filtering: a case-insensitive search of names and notes,
 * combined with a type filter and an intensity filter that can each be set
 * to `'all'`.
 */
module ExerciseList {
  import opened Wrappers
  import opened Seqs
  import opened Text
  import opened ExerciseTypes
  import opened DataManager

  /** The list's filter state, `{ type, intensityLevel }`, each of which may be `'all'`. */
  datatype ListFilters = ListFilters(exerciseType: TypeFilter, intensityLevel: IntensityFilter)

  /** `name.toLowerCase().includes(term)`, or the same of the notes when there are any. */
  predicate MatchesSearch(e: Exercise, searchTerm: string)
  {
    var term := ToLower(searchTerm);
    Contains(ToLower(e.name), term) || (e.notes.Some? && Contains(ToLower(e.notes.value), term))
  }

  /** `matchesSearch && matchesType && matchesIntensity`. */
  predicate Matches(e: Exercise, searchTerm: string, filters: ListFilters)
  {
    MatchesSearch(e, searchTerm) &&
    PassesType(Some(filters.exerciseType), e) &&
    PassesLevel(Some(filters.intensityLevel), e)
  }

  function Keeps(searchTerm: string, filters: ListFilters): Exercise -> bool
  {
    e => Matches(e, searchTerm, filters)
  }

  /**
   * `filteredExercises`: a record is listed exactly when it is in the input,
   * passes the search, has the selected type unless the type filter is
   * `'all'`, and has the selected intensity unless the intensity filter is
   * `'all'`.
   */
  function FilteredExercises(exercises: seq<Exercise>, searchTerm: string, filters: ListFilters): (r: seq<Exercise>)
    ensures forall e :: e in r <==>
      e in exercises && MatchesSearch(e, searchTerm) &&
      (filters.exerciseType.AllTypes? || e.exerciseType == filters.exerciseType.exerciseType) &&
      (filters.intensityLevel.AllLevels? || e.intensityLevel == filters.intensityLevel.level)
  {
    Filter(exercises, Keeps(searchTerm, filters))
  }

  /**
   * The list keeps its input order and drops records, so "Showing N of M"
   * never shows more than the total.
   */
  lemma FilteredIsSubsequence(exercises: seq<Exercise>, searchTerm: string, filters: ListFilters)
    ensures IsSubsequence(FilteredExercises(exercises, searchTerm, filters), exercises)
    ensures |FilteredExercises(exercises, searchTerm, filters)| <= |exercises|
  {
    FilterIsSubsequence(exercises, Keeps(searchTerm, filters));
    SubsequenceLength(FilteredExercises(exercises, searchTerm, filters), exercises);
  }

  /** The search passes a record exactly when the lower-cased term occurs in its lower-cased name or notes. */
  lemma SearchIffOccurs(e: Exercise, searchTerm: string)
    ensures MatchesSearch(e, searchTerm) <==>
      (exists i :: OccursAt(ToLower(e.name), ToLower(searchTerm), i)) ||
      (e.notes.Some? && exists i :: OccursAt(ToLower(e.notes.value), ToLower(searchTerm), i))
  {
    ContainsIffOccurs(ToLower(e.name), ToLower(searchTerm));
    if e.notes.Some? {
      ContainsIffOccurs(ToLower(e.notes.value), ToLower(searchTerm));
    }
  }

  /** An empty search passes every record. */
  lemma EmptySearchMatches(e: Exercise)
    ensures MatchesSearch(e, "")
  {
    assert ToLower("") == "";
    ContainsEmpty(ToLower(e.name));
  }

  /** With an empty search and both filters on `'all'`, the whole list is shown. */
  lemma NoFiltersShowsAll(exercises: seq<Exercise>)
    ensures FilteredExercises(exercises, "", ListFilters(AllTypes, AllLevels)) == exercises
  {
    forall e | e in exercises ensures Keeps("", ListFilters(AllTypes, AllLevels))(e) {
      EmptySearchMatches(e);
    }
    FilterAll(exercises, Keeps("", ListFilters(AllTypes, AllLevels)));
  }

  /** Lower-casing twice is lower-casing once. */
  lemma ToLowerIdempotent(s: string)
    ensures ToLower(ToLower(s)) == ToLower(s)
  {
    forall i | 0 <= i < |s| ensures ToLower(ToLower(s))[i] == ToLower(s)[i] {
      assert ToLower(s)[i] == LowerChar(s[i]);
    }
  }

  /** The search ignores the case of the term. */
  lemma SearchIgnoresTermCase(e: Exercise, searchTerm: string)
    ensures MatchesSearch(e, ToLower(searchTerm)) == MatchesSearch(e, searchTerm)
  {
    ToLowerIdempotent(searchTerm);
  }

  /**
   * With an empty search, the list shows the records the store's
   * `getExercises` selects for the same type and intensity filters, in the
   * list's own order.
   */
  lemma EmptySearchAgreesWithStore(exercises: seq<Exercise>, filters: ListFilters)
    ensures FilteredExercises(exercises, "", filters)
         == Filter(exercises, Selected(Some(FilterOptions(Some(filters.exerciseType), None, Some(filters.intensityLevel)))))
  {
    var options := Some(FilterOptions(Some(filters.exerciseType), None, Some(filters.intensityLevel)));
    forall e | e in exercises ensures Keeps("", filters)(e) == Selected(options)(e) {
      EmptySearchMatches(e);
    }
    FilterCongruent(exercises, Keeps("", filters), Selected(options));
  }
}
