/**
 * `ExerciseHubView` with its two forms: the signed-in user's exercises and
 * routines, each routine shown with the exercises its ids resolve to, and
 * the forms that create exercises and routines.
 */
module ExerciseHub {
  import opened Wrappers
  import opened Seqs
  import opened Text
  import opened Domain

  function ExerciseOwner(x: Exercise): Option<string> {
    x.ownerIdentifier
  }

  function RoutineOwner(x: Routine): Option<string> {
    x.ownerIdentifier
  }

  /** `userExercises`: the signed-in user's exercises in store order; none when signed out. */
  function UserExercises(exercises: seq<Exercise>, userID: Option<string>): (r: seq<Exercise>)
    ensures userID.None? ==> r == []
    ensures userID.Some? ==> forall x :: x in r <==> x in exercises && x.ownerIdentifier == userID
    ensures userID.Some? ==> IsSubsequence(r, exercises)
    ensures userID.Some? ==> forall x :: multiset(r)[x] == if x.ownerIdentifier == userID then multiset(exercises)[x] else 0
  {
    OwnedBy(exercises, ExerciseOwner, userID)
  }

  /** `userRoutines`: the signed-in user's routines in store order; none when signed out. */
  function UserRoutines(routines: seq<Routine>, userID: Option<string>): (r: seq<Routine>)
    ensures userID.None? ==> r == []
    ensures userID.Some? ==> forall x :: x in r <==> x in routines && x.ownerIdentifier == userID
    ensures userID.Some? ==> IsSubsequence(r, routines)
    ensures userID.Some? ==> forall x :: multiset(r)[x] == if x.ownerIdentifier == userID then multiset(routines)[x] else 0
  {
    OwnedBy(routines, RoutineOwner, userID)
  }

  /** No two exercises of the list share an id. */
  predicate DistinctIds(exercises: seq<Exercise>) {
    forall i, j :: 0 <= i < j < |exercises| ==> exercises[i].id != exercises[j].id
  }

  /**
   * `exercisesByID`: `Dictionary(uniqueKeysWithValues:)`, which traps on a
   * repeated key, so the ids must be distinct.
   */
  function ExercisesByID(exercises: seq<Exercise>): (m: map<Uuid, Exercise>)
    requires DistinctIds(exercises)
    ensures forall x :: x in exercises ==> x.id in m && m[x.id] == x
    ensures forall id :: id in m ==> m[id] in exercises && m[id].id == id
  {
    if |exercises| == 0 then map[]
    else
      var rest := exercises[1..];
      assert DistinctIds(rest) by {
        forall i, j | 0 <= i < j < |rest| ensures rest[i].id != rest[j].id {
          assert rest[i] == exercises[i + 1] && rest[j] == exercises[j + 1];
        }
      }
      assert forall x :: x in rest ==> x.id != exercises[0].id by {
        forall x | x in rest ensures x.id != exercises[0].id {
          var k :| 0 <= k < |rest| && rest[k] == x;
          assert exercises[k + 1] == x;
        }
      }
      ExercisesByID(rest)[exercises[0].id := exercises[0]]
  }

  /** The dictionary's keys are exactly the exercises' ids. */
  lemma ExercisesByIDKeys(exercises: seq<Exercise>)
    requires DistinctIds(exercises)
    ensures ExercisesByID(exercises).Keys == IdsOf(exercises)
  {
    var m := ExercisesByID(exercises);
    forall id | id in m ensures id in IdsOf(exercises) {
      assert m[id] in exercises && m[id].id == id;
    }
    forall id | id in IdsOf(exercises) ensures id in m {
      var x :| x in exercises && x.id == id;
    }
  }

  /** The test "this id is a key of `byID`". */
  function IdIn(byID: map<Uuid, Exercise>): Uuid -> bool {
    id => id in byID
  }

  /**
   * `routine.exerciseIDs.compactMap { exercisesByID[$0] }`: the exercises
   * the ids resolve to, in the routine's order; ids that resolve to nothing
   * are skipped. Stated against filter-then-map: keep the ids that resolve,
   * then look each one up.
   */
  function ResolveExercises(ids: seq<Uuid>, byID: map<Uuid, Exercise>): (r: seq<Exercise>)
    ensures var known := Keep(ids, IdIn(byID));
            && |r| == |known|
            && forall i :: 0 <= i < |r| ==> known[i] in byID && r[i] == byID[known[i]]
  {
    if |ids| == 0 then []
    else
      var rest := ResolveExercises(ids[1..], byID);
      if ids[0] in byID then [byID[ids[0]]] + rest else rest
  }

  /**
   * A routine card shows, in the routine's order, one exercise for each of
   * the routine's ids that names one of the user's exercises, and skips the
   * rest; so every exercise shown is the user's own and named by the routine.
   */
  lemma RoutineShowsOwnedExercises(routine: Routine, exercises: seq<Exercise>, userID: Option<string>)
    requires DistinctIds(UserExercises(exercises, userID))
    ensures var mine := UserExercises(exercises, userID);
            var shown := ResolveExercises(routine.exerciseIDs, ExercisesByID(mine));
            var named := Keep(routine.exerciseIDs, IdIn(ExercisesByID(mine)));
            && (forall id :: IdIn(ExercisesByID(mine))(id) <==> id in IdsOf(mine))
            && |shown| == |named|
            && (forall i :: 0 <= i < |shown| ==> shown[i].id == named[i])
            && (forall x :: x in shown ==> x in exercises && x.ownerIdentifier == userID && x.id in routine.exerciseIDs)
  {
    var mine := UserExercises(exercises, userID);
    var byID := ExercisesByID(mine);
    var shown := ResolveExercises(routine.exerciseIDs, byID);
    var named := Keep(routine.exerciseIDs, IdIn(byID));
    ExercisesByIDKeys(mine);
    forall x | x in shown
      ensures x in exercises && x.ownerIdentifier == userID && x.id in routine.exerciseIDs
    {
      var i :| 0 <= i < |shown| && shown[i] == x;
      assert named[i] in named;
      assert byID[named[i]] in mine;
    }
  }

  // ------------------------------------------------------------ exercise form

  datatype ExerciseForm = ExerciseForm(name: string, sets: string, reps: string, instructions: string)

  /** `canSave`: a name that is not blank, and positive whole numbers of sets and repetitions. */
  predicate CanSaveExercise(form: ExerciseForm)
    ensures CanSaveExercise(form) ==> !IsBlank(form.name)
    ensures CanSaveExercise(form) ==> ParseInt(form.sets).Some? && 0 < ParseInt(form.sets).value <= Int64Max
    ensures CanSaveExercise(form) ==> ParseInt(form.reps).Some? && 0 < ParseInt(form.reps).value <= Int64Max
    ensures && !IsBlank(form.name)
            && ParseInt(form.sets).Some? && ParseInt(form.sets).value > 0
            && ParseInt(form.reps).Some? && ParseInt(form.reps).value > 0
            ==> CanSaveExercise(form)
  {
    && Trimmed(form.name) != ""
    && ParseInt(form.sets).Some? && ParseInt(form.sets).value > 0
    && ParseInt(form.reps).Some? && ParseInt(form.reps).value > 0
  }

  /**
   * The Save button, disabled unless the form can be saved: the name and
   * instructions are trimmed of spaces and line breaks, and blank
   * instructions are stored as none.
   */
  function SaveExercise(form: ExerciseForm, ownerIdentifier: Option<string>, id: Uuid): (r: Option<Exercise>)
    ensures r.Some? <==> CanSaveExercise(form)
    ensures r.Some? ==> && r.value.id == id && r.value.ownerIdentifier == ownerIdentifier
                        && r.value.name == Trimmed(form.name) && |r.value.name| > 0
                        && r.value.numberOfSets > 0 && r.value.repetitionsPerSet > 0
    ensures r.Some? ==> (r.value.instructions.None? <==> Trimmed(form.instructions) == "")
    ensures r.Some? && r.value.instructions.Some? ==> r.value.instructions.value == Trimmed(form.instructions)
  {
    if !CanSaveExercise(form) then None
    else
      var instructions := Trimmed(form.instructions);
      Some(Exercise(id, Trimmed(form.name), ParseInt(form.sets).value, ParseInt(form.reps).value,
                    if instructions == "" then None else Some(instructions), ownerIdentifier))
  }

  /** An exercise as the form can produce it: tidy name and instructions, positive counts. */
  predicate Presentable(x: Exercise) {
    && |x.name| > 0 && Trimmed(x.name) == x.name
    && 0 < x.numberOfSets <= Int64Max && 0 < x.repetitionsPerSet <= Int64Max
    && (x.instructions.Some? ==> |x.instructions.value| > 0 && Trimmed(x.instructions.value) == x.instructions.value)
  }

  /** The form filled in with an exercise's own fields. */
  function FormOf(x: Exercise): ExerciseForm {
    ExerciseForm(x.name, ShowInt(x.numberOfSets), ShowInt(x.repetitionsPerSet), x.instructions.GetOr(""))
  }

  /** Typing an exercise's fields into the form saves exactly that exercise back. */
  lemma SaveExerciseRoundTrip(x: Exercise)
    requires Presentable(x)
    ensures SaveExercise(FormOf(x), x.ownerIdentifier, x.id) == Some(x)
  {
    ParseShowInt(x.numberOfSets);
    ParseShowInt(x.repetitionsPerSet);
    if x.instructions.None? {
      assert Trimmed("") == "";
    }
  }

  // ------------------------------------------------------------- routine form

  datatype RoutineForm = RoutineForm(name: string, selected: set<Uuid>)

  /** The ids of a list of exercises. */
  function IdsOf(exercises: seq<Exercise>): set<Uuid> {
    set x | x in exercises :: x.id
  }

  /** The toggle binding's setter for one exercise. */
  function ToggleExercise(form: RoutineForm, exerciseID: Uuid, isOn: bool): (r: RoutineForm)
    ensures r.name == form.name
    ensures (exerciseID in r.selected) == isOn
    ensures forall other :: other != exerciseID ==> (other in r.selected <==> other in form.selected)
  {
    if isOn then form.(selected := form.selected + {exerciseID})
    else form.(selected := form.selected - {exerciseID})
  }

  /**
   * Toggles are offered only for the available exercises, so the selection
   * never holds an id outside them.
   */
  lemma ToggleKeepsSelectionAvailable(form: RoutineForm, available: seq<Exercise>, x: Exercise, isOn: bool)
    requires form.selected <= IdsOf(available)
    requires x in available
    ensures ToggleExercise(form, x.id, isOn).selected <= IdsOf(available)
  {
  }

  /** Switching an exercise on and then off again restores a selection that lacked it. */
  lemma ToggleOnThenOff(form: RoutineForm, exerciseID: Uuid)
    requires exerciseID !in form.selected
    ensures ToggleExercise(ToggleExercise(form, exerciseID, true), exerciseID, false) == form
  {
  }

  /** `canSave`: a name that is not blank; no exercise needs to be selected. */
  predicate CanSaveRoutine(form: RoutineForm)
    ensures CanSaveRoutine(form) <==> !IsBlank(form.name)
  {
    Trimmed(form.name) != ""
  }

  /**
   * The Save button: a routine named by the trimmed name, holding the
   * selected ids as `Array(selectedExerciseIDs)`, each once, in an order
   * the set leaves unspecified.
   */
  method SaveRoutine(form: RoutineForm, ownerIdentifier: Option<string>, id: Uuid) returns (r: Option<Routine>)
    ensures r.Some? <==> CanSaveRoutine(form)
    ensures r.Some? ==> && r.value.id == id && r.value.ownerIdentifier == ownerIdentifier
                        && r.value.name == Trimmed(form.name)
    ensures r.Some? ==> && NoDuplicates(r.value.exerciseIDs)
                        && |r.value.exerciseIDs| == |form.selected|
                        && forall x :: x in r.value.exerciseIDs <==> x in form.selected
  {
    if !CanSaveRoutine(form) {
      return None;
    }
    var ids: seq<Uuid> := [];
    var rest := form.selected;
    while rest != {}
      invariant rest <= form.selected
      invariant forall x :: x in ids <==> x in form.selected && x !in rest
      invariant NoDuplicates(ids)
      invariant |ids| + |rest| == |form.selected|
      decreases |rest|
    {
      var x :| x in rest;
      ids := ids + [x];
      rest := rest - {x};
    }
    return Some(Routine(id, Trimmed(form.name), ids, ownerIdentifier));
  }

  /**
   * A routine holding only ids of the user's exercises shows every one of
   * them on its card.
   */
  lemma SelectedExercisesAllShown(ids: seq<Uuid>, mine: seq<Exercise>)
    requires DistinctIds(mine)
    requires forall x :: x in ids ==> x in IdsOf(mine)
    ensures |ResolveExercises(ids, ExercisesByID(mine))| == |ids|
  {
    var byID := ExercisesByID(mine);
    ExercisesByIDKeys(mine);
    assert forall i :: 0 <= i < |ids| ==> IdIn(byID)(ids[i]) by {
      forall i | 0 <= i < |ids| ensures IdIn(byID)(ids[i]) {
        assert ids[i] in ids;
      }
    }
    KeepAllOrNone(ids, IdIn(byID));
  }
}
