/**
 * The record types of the workout log and their constant tables
 * (`Exercise`, `ExerciseType`, `IntensityLevel`, `ExerciseStats`,
 * `FilterOptions`, `EXERCISE_TYPES`, `INTENSITY_LEVELS`).
 */
module ExerciseTypes {
  import opened Wrappers
  import opened Calendar

  datatype ExerciseType =
    | Cardio | Strength | Flexibility | Balance | Sports | Yoga | Pilates
    | Dance | MartialArts | Swimming | Cycling | Running | Walking | Other

  /** Declared in increasing order of effort. */
  datatype IntensityLevel = Low | Moderate | High | VeryHigh

  /** The string each type is stored and exchanged as. */
  function TypeValue(t: ExerciseType): string
  {
    match t
    case Cardio => "cardio"
    case Strength => "strength"
    case Flexibility => "flexibility"
    case Balance => "balance"
    case Sports => "sports"
    case Yoga => "yoga"
    case Pilates => "pilates"
    case Dance => "dance"
    case MartialArts => "martial-arts"
    case Swimming => "swimming"
    case Cycling => "cycling"
    case Running => "running"
    case Walking => "walking"
    case Other => "other"
  }

  /** The string each level is stored and exchanged as. */
  function LevelValue(l: IntensityLevel): string
  {
    match l
    case Low => "low"
    case Moderate => "moderate"
    case High => "high"
    case VeryHigh => "very-high"
  }

  /** `{ 'low': 1, 'moderate': 2, 'high': 3, 'very-high': 4 }`. */
  function Ordinal(l: IntensityLevel): (n: int)
    ensures 1 <= n <= 4
  {
    match l
    case Low => 1
    case Moderate => 2
    case High => 3
    case VeryHigh => 4
  }

  /**
   * One exercise record.  Only `caloriesBurned` and `notes` may be absent;
   * `date`, `createdAt` and `updatedAt` are ISO date strings in the app and
   * are represented here by the local date and time they denote.
   */
  datatype Exercise = Exercise(
    id: string,
    name: string,
    exerciseType: ExerciseType,
    duration: int,
    intensityLevel: IntensityLevel,
    caloriesBurned: Option<int>,
    date: DateTime,
    notes: Option<string>,
    createdAt: DateTime,
    updatedAt: DateTime)

  /** `Omit<Exercise, 'id' | 'createdAt' | 'updatedAt'>`: what a caller supplies to create a record. */
  datatype NewExercise = NewExercise(
    name: string,
    exerciseType: ExerciseType,
    duration: int,
    intensityLevel: IntensityLevel,
    caloriesBurned: Option<int>,
    date: DateTime,
    notes: Option<string>)

  /**
   * `Partial<Omit<Exercise, 'id' | 'createdAt'>>`.  The outer `None` is a
   * key left out of the object; for the optional fields the inner `None` is
   * a key present with the value `undefined`, which the object spread copies.
   * A supplied `updatedAt` is always overwritten, so it is not represented.
   */
  datatype ExerciseUpdate = ExerciseUpdate(
    name: Option<string>,
    exerciseType: Option<ExerciseType>,
    duration: Option<int>,
    intensityLevel: Option<IntensityLevel>,
    caloriesBurned: Option<Option<int>>,
    date: Option<DateTime>,
    notes: Option<Option<string>>)

  const NO_UPDATE: ExerciseUpdate := ExerciseUpdate(None, None, None, None, None, None, None)

  datatype ExerciseStats = ExerciseStats(
    totalWorkouts: nat,
    totalDuration: int,
    totalCalories: int,
    averageIntensity: real,
    currentStreak: nat,
    longestStreak: nat,
    thisWeekWorkouts: nat,
    thisMonthWorkouts: nat)

  /** `ExerciseType | 'all'`. */
  datatype TypeFilter = AllTypes | OnlyType(exerciseType: ExerciseType)

  /** `IntensityLevel | 'all'`. */
  datatype IntensityFilter = AllLevels | OnlyLevel(level: IntensityLevel)

  /** Every filter is optional. */
  datatype FilterOptions = FilterOptions(
    exerciseType: Option<TypeFilter>,
    dateRange: Option<Interval>,
    intensityLevel: Option<IntensityFilter>)

  /** `ex.caloriesBurned || 0`. */
  function CaloriesOrZero(e: Exercise): int
  {
    if e.caloriesBurned.Some? then e.caloriesBurned.value else 0
  }

  function Duration(e: Exercise): int
  {
    e.duration
  }

  const EXERCISE_TYPES: seq<(ExerciseType, string)> := [
    (Cardio, "Cardio"),
    (Strength, "Strength Training"),
    (Flexibility, "Flexibility"),
    (Balance, "Balance"),
    (Sports, "Sports"),
    (Yoga, "Yoga"),
    (Pilates, "Pilates"),
    (Dance, "Dance"),
    (MartialArts, "Martial Arts"),
    (Swimming, "Swimming"),
    (Cycling, "Cycling"),
    (Running, "Running"),
    (Walking, "Walking"),
    (Other, "Other")
  ]

  const INTENSITY_LEVELS: seq<(IntensityLevel, string, string)> := [
    (Low, "Low", "Light activity, can easily hold a conversation"),
    (Moderate, "Moderate", "Some effort, can speak in short sentences"),
    (High, "High", "Vigorous effort, difficult to speak"),
    (VeryHigh, "Very High", "Maximum effort, cannot speak comfortably")
  ]

  /** The position of a type's row in `EXERCISE_TYPES`. */
  function TypeRow(t: ExerciseType): (i: nat)
    ensures i < |EXERCISE_TYPES| && EXERCISE_TYPES[i].0 == t
  {
    match t
    case Cardio => 0
    case Strength => 1
    case Flexibility => 2
    case Balance => 3
    case Sports => 4
    case Yoga => 5
    case Pilates => 6
    case Dance => 7
    case MartialArts => 8
    case Swimming => 9
    case Cycling => 10
    case Running => 11
    case Walking => 12
    case Other => 13
  }

  /** `EXERCISE_TYPES` lists every type exactly once. */
  lemma ExerciseTypesTableIsExact()
    ensures |EXERCISE_TYPES| == 14
    ensures forall i :: 0 <= i < |EXERCISE_TYPES| ==> TypeRow(EXERCISE_TYPES[i].0) == i
  {
  }

  /** The label the app shows for a level. */
  function LevelLabel(l: IntensityLevel): string
  {
    INTENSITY_LEVELS[Ordinal(l) - 1].1
  }

  /** `INTENSITY_LEVELS` lists the four levels in their ordinal order. */
  lemma IntensityLevelsInOrder()
    ensures |INTENSITY_LEVELS| == 4
    ensures forall i :: 0 <= i < 4 ==> Ordinal(INTENSITY_LEVELS[i].0) == i + 1
  {
  }

  /** The fourteen strings of the `ExerciseType` union, read back as types; any other string gives none. */
  function ParseType(s: string): (r: Option<ExerciseType>)
    ensures r.Some? ==> TypeValue(r.value) == s
  {
    if s == "cardio" then Some(Cardio)
    else if s == "strength" then Some(Strength)
    else if s == "flexibility" then Some(Flexibility)
    else if s == "balance" then Some(Balance)
    else if s == "sports" then Some(Sports)
    else if s == "yoga" then Some(Yoga)
    else if s == "pilates" then Some(Pilates)
    else if s == "dance" then Some(Dance)
    else if s == "martial-arts" then Some(MartialArts)
    else if s == "swimming" then Some(Swimming)
    else if s == "cycling" then Some(Cycling)
    else if s == "running" then Some(Running)
    else if s == "walking" then Some(Walking)
    else if s == "other" then Some(Other)
    else None
  }

  /** Every type's string is recognised as that type, so the fourteen strings are distinct. */
  lemma ParseTypeValue(t: ExerciseType)
    ensures ParseType(TypeValue(t)) == Some(t)
  {
  }
}
