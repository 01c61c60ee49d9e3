/**
 * The form that creates or edits one record: its field values, the errors
 * shown beside the fields, validation, the shaping of the submitted values
 * into a record, and the hand-over to the store.
 */
module ExerciseForm {
  import opened Wrappers
  import opened Text
  import opened Calendar
  import opened ExerciseTypes
  import opened DataManager

  /** The calories input: left empty, or holding a number. */
  datatype CaloriesInput = Blank | Entered(value: int)

  /** The form's fields; `date` is the day the `yyyy-MM-dd` input holds. */
  datatype FormData = FormData(
    name: string,
    exerciseType: ExerciseType,
    duration: int,
    intensityLevel: IntensityLevel,
    calories: CaloriesInput,
    date: int,
    notes: string)

  /** The keys of `formData`, under which the errors are kept. */
  datatype Field = NameField | TypeField | DurationField | IntensityField | CaloriesField | DateField | NotesField

  /** One input changing: the field and its new value. */
  datatype Edit =
    | SetName(name: string)
    | SetType(exerciseType: ExerciseType)
    | SetDuration(duration: int)
    | SetIntensity(level: IntensityLevel)
    | SetCalories(calories: CaloriesInput)
    | SetDate(day: int)
    | SetNotes(notes: string)

  const NAME_REQUIRED: string := "Exercise name is required"
  const DURATION_POSITIVE: string := "Duration must be greater than 0"
  const CALORIES_POSITIVE: string := "Calories must be a positive number"

  /**
   * The initial `formData`: the edited record's values, with `||` falling
   * back to the defaults for falsy ones (a duration or calories of 0, empty
   * notes), or the defaults with today's date for a new record.
   */
  function FormFor(editing: Option<Exercise>, today: int): FormData
  {
    match editing
    case None => FormData("", Cardio, 30, Moderate, Blank, today, "")
    case Some(e) =>
      FormData(e.name, e.exerciseType, if e.duration == 0 then 30 else e.duration, e.intensityLevel,
        if e.caloriesBurned.Some? && e.caloriesBurned.value != 0 then Entered(e.caloriesBurned.value) else Blank,
        e.date.day, if e.notes.Some? then e.notes.value else "")
  }

  /** The message shown for a field that fails its check. */
  function Message(field: Field): string
  {
    match field
    case NameField => NAME_REQUIRED
    case DurationField => DURATION_POSITIVE
    case CaloriesField => CALORIES_POSITIVE
    case _ => ""
  }

  /** The fields whose check fails. */
  function Failed(f: FormData): set<Field>
  {
    (if IsBlank(f.name) then {NameField} else {}) +
    (if f.duration <= 0 then {DurationField} else {}) +
    (if f.calories.Entered? && f.calories.value < 0 then {CaloriesField} else {})
  }

  /** `validateForm`'s `newErrors`: the message of each field whose check fails. */
  function Validate(f: FormData): (errors: map<Field, string>)
    ensures NameField in errors <==> IsBlank(f.name)
    ensures DurationField in errors <==> f.duration <= 0
    ensures CaloriesField in errors <==> f.calories.Entered? && f.calories.value < 0
    ensures errors.Keys <= {NameField, DurationField, CaloriesField}
    ensures forall k :: k in errors ==> errors[k] == Message(k)
  {
    map k | k in Failed(f) :: Message(k)
  }

  /** `exerciseData`: the submitted values as the fields of a record. */
  function Shape(f: FormData): NewExercise
  {
    var notes := Trim(f.notes);
    NewExercise(Trim(f.name), f.exerciseType, f.duration, f.intensityLevel,
      if f.calories.Entered? then Some(f.calories.value) else None,
      StartOfDay(f.date),
      if notes == [] then None else Some(notes))
  }

  /** The field an edit sets. */
  function FieldOf(edit: Edit): Field
  {
    match edit
    case SetName(_) => NameField
    case SetType(_) => TypeField
    case SetDuration(_) => DurationField
    case SetIntensity(_) => IntensityField
    case SetCalories(_) => CaloriesField
    case SetDate(_) => DateField
    case SetNotes(_) => NotesField
  }

  /** `{ ...prev, [field]: value }`: the edited field takes the new value and no other field changes. */
  function Edited(f: FormData, edit: Edit): (g: FormData)
    ensures g.name != f.name ==> FieldOf(edit) == NameField
    ensures g.exerciseType != f.exerciseType ==> FieldOf(edit) == TypeField
    ensures g.duration != f.duration ==> FieldOf(edit) == DurationField
    ensures g.intensityLevel != f.intensityLevel ==> FieldOf(edit) == IntensityField
    ensures g.calories != f.calories ==> FieldOf(edit) == CaloriesField
    ensures g.date != f.date ==> FieldOf(edit) == DateField
    ensures g.notes != f.notes ==> FieldOf(edit) == NotesField
    ensures edit.SetName? ==> g.name == edit.name
    ensures edit.SetType? ==> g.exerciseType == edit.exerciseType
    ensures edit.SetDuration? ==> g.duration == edit.duration
    ensures edit.SetIntensity? ==> g.intensityLevel == edit.level
    ensures edit.SetCalories? ==> g.calories == edit.calories
    ensures edit.SetDate? ==> g.date == edit.day
    ensures edit.SetNotes? ==> g.notes == edit.notes
  {
    match edit
    case SetName(v) => f.(name := v)
    case SetType(v) => f.(exerciseType := v)
    case SetDuration(v) => f.(duration := v)
    case SetIntensity(v) => f.(intensityLevel := v)
    case SetCalories(v) => f.(calories := v)
    case SetDate(v) => f.(date := v)
    case SetNotes(v) => f.(notes := v)
  }

  /** The update `updateExercise` receives: every field of the submitted values. */
  function FullUpdate(n: NewExercise): ExerciseUpdate
  {
    ExerciseUpdate(Some(n.name), Some(n.exerciseType), Some(n.duration), Some(n.intensityLevel),
      Some(n.caloriesBurned), Some(n.date), Some(n.notes))
  }

  /** Submitting an edit replaces every field the form holds, and keeps the id and the creation time. */
  lemma FullUpdateSetsFields(e: Exercise, n: NewExercise, now: DateTime)
    ensures var r := ApplyUpdate(e, FullUpdate(n), now);
      Fields(r) == n && r.id == e.id && r.createdAt == e.createdAt && r.updatedAt == now
  {
    ApplyUpdateFields(e, FullUpdate(n), now);
  }

  /**
   * Values as a valid form submits them: a non-empty name without
   * surrounding whitespace, a positive duration, no negative calories, a
   * date at the start of its day, and notes that are either absent or
   * non-empty and trimmed.
   */
  predicate Clean(n: NewExercise)
  {
    n.name != [] && Trim(n.name) == n.name && n.duration > 0 &&
    (n.caloriesBurned.Some? ==> n.caloriesBurned.value >= 0) &&
    n.date == StartOfDay(n.date.day) &&
    (n.notes.Some? ==> n.notes.value != [] && Trim(n.notes.value) == n.notes.value)
  }

  /** What a valid form submits is clean. */
  lemma ShapedIsClean(f: FormData)
    requires Validate(f) == map[]
    ensures Clean(Shape(f))
  {
    assert NameField !in Validate(f);
    TrimEmpty(f.name);
    TrimIdempotent(f.name);
    TrimIdempotent(f.notes);
  }

  /** The form opened on a record with clean values passes validation. */
  lemma ReopenedFormIsValid(e: Exercise, today: int)
    requires Clean(Fields(e))
    ensures Validate(FormFor(Some(e), today)) == map[]
  {
    var g := FormFor(Some(e), today);
    assert g.name == e.name && g.duration == e.duration;
    TrimEmpty(e.name);
    assert g.calories.Entered? ==> g.calories.value >= 0;
    assert Validate(g).Keys == {} by {
      assert NameField !in Validate(g);
      assert DurationField !in Validate(g);
      assert CaloriesField !in Validate(g);
    }
  }

  /** Clean notes come back from the form unchanged. */
  lemma ReopenedNotes(e: Exercise, today: int)
    requires e.notes.Some? ==> e.notes.value != [] && Trim(e.notes.value) == e.notes.value
    ensures Shape(FormFor(Some(e), today)).notes == e.notes
  {
    var g := FormFor(Some(e), today);
    if e.notes.Some? {
      assert Trim(g.notes) == e.notes.value;
    } else {
      assert g.notes == [];
    }
  }

  /** A trimmed name comes back from the form unchanged. */
  lemma ReopenedName(e: Exercise, today: int)
    requires Trim(e.name) == e.name
    ensures Shape(FormFor(Some(e), today)).name == e.name
  {
  }

  /** The form opened on a record with clean values submits them again, less a calories value of 0. */
  lemma ReopenedFormShape(e: Exercise, today: int)
    requires Clean(Fields(e))
    ensures Shape(FormFor(Some(e), today))
         == if e.caloriesBurned == Some(0) then Fields(e).(caloriesBurned := None) else Fields(e)
  {
    ReopenedNotes(e, today);
    ReopenedName(e, today);
    var n := Shape(FormFor(Some(e), today));
    assert n.duration == e.duration && n.date == e.date;
  }

  /**
   * Opening a record that was saved from a valid form and submitting it
   * unchanged stores the same values, except that a calories value of 0 is
   * dropped (`caloriesBurned || ''` turns it into an empty input).
   */
  lemma ReopenedFormResubmits(f: FormData, e: Exercise, today: int)
    requires Validate(f) == map[] && Fields(e) == Shape(f)
    ensures Validate(FormFor(Some(e), today)) == map[]
    ensures Shape(FormFor(Some(e), today))
         == if e.caloriesBurned == Some(0) then Fields(e).(caloriesBurned := None) else Fields(e)
  {
    ShapedIsClean(f);
    ReopenedFormIsValid(e, today);
    ReopenedFormShape(e, today);
  }

  /** The form component: its field values and error messages, and the store it submits to. */
  class ExerciseFormState {
    var form: FormData
    var errors: map<Field, string>
    /** The record being edited, if any. */
    const editing: Option<Exercise>
    const store: ExerciseDataManager

    constructor(editing: Option<Exercise>, store: ExerciseDataManager, today: int)
      ensures this.editing == editing && this.store == store
      ensures form == FormFor(editing, today) && errors == map[]
    {
      this.editing := editing;
      this.store := store;
      form := FormFor(editing, today);
      errors := map[];
    }

    /** `validateForm`: record the failed checks as the shown errors, and say whether there were none. */
    method ValidateForm() returns (valid: bool)
      modifies this`errors
      ensures errors == Validate(form)
      ensures valid <==> errors == map[]
    {
      var f := form;
      var newErrors: map<Field, string> := map[];
      if IsBlank(f.name) {
        newErrors := newErrors[NameField := NAME_REQUIRED];
      }
      if f.duration <= 0 {
        newErrors := newErrors[DurationField := DURATION_POSITIVE];
      }
      if f.calories.Entered? && f.calories.value < 0 {
        newErrors := newErrors[CaloriesField := CALORIES_POSITIVE];
      }
      assert newErrors.Keys == Failed(f);
      assert newErrors == Validate(f);
      errors := newErrors;
      valid := newErrors.Keys == {};
    }

    /**
     * `handleSubmit`: when the form is valid, update the edited record or add
     * a new one, and clear the form back to its defaults only after adding.
     */
    method HandleSubmit(now: DateTime) returns (result: Option<Exercise>)
      modifies this`form, this`errors, store
      ensures errors == Validate(old(form))
      ensures errors != map[] ==>
        result.None? && form == old(form) && store.data == old(store.data) && store.slot == old(store.slot)
      ensures errors == map[] && editing.None? ==>
        result.Some? && Fields(result.value) == Shape(old(form)) &&
        result.value.id !in Ids(old(store.data)) &&
        result.value.createdAt == now && result.value.updatedAt == now &&
        store.data == old(store.data) + [result.value] && store.Saved() &&
        form == FormFor(None, now.day)
      ensures errors == map[] && editing.Some? ==>
        form == old(form) &&
        (result.None? <==> editing.value.id !in Ids(old(store.data))) &&
        (result.None? ==> store.data == old(store.data) && store.slot == old(store.slot)) &&
        (result.Some? ==>
          var i := FindIndex(old(store.data), editing.value.id).value;
          Fields(result.value) == Shape(old(form)) && result.value.id == editing.value.id &&
          result.value.createdAt == old(store.data)[i].createdAt && result.value.updatedAt == now &&
          store.data == old(store.data)[i := result.value] && store.Saved())
    {
      var valid := ValidateForm();
      if !valid {
        return None;
      }
      var exerciseData := Shape(form);
      if editing.Some? {
        result := store.UpdateExercise(editing.value.id, FullUpdate(exerciseData), now);
        if result.Some? {
          FullUpdateSetsFields(old(store.data)[FindIndex(old(store.data), editing.value.id).value], exerciseData, now);
        }
      } else {
        var added := store.AddExercise(exerciseData, now);
        result := Some(added);
        form := FormFor(None, now.day);
      }
    }

    /** `handleChange`: set the field, and blank out that field's error if one is shown. */
    method HandleChange(edit: Edit)
      modifies this`form, this`errors
      ensures form == Edited(old(form), edit)
      ensures errors.Keys == old(errors).Keys
      ensures forall k :: k in errors ==> errors[k] == if k == FieldOf(edit) then "" else old(errors)[k]
    {
      form := Edited(form, edit);
      var field := FieldOf(edit);
      if field in errors && errors[field] != "" {
        errors := errors[field := ""];
      }
    }
  }
}
