/** The workout planner page: the list of the user's workouts, the selected workout, and the
    handlers that create and delete workouts and add and remove their exercises. */
module WorkoutPlanner {
  import opened Wrappers
  import opened Seqs

  /** One exercise of a workout, as `GET /workouts/{id}` lists it. */
  datatype WorkoutExercise = WorkoutExercise(
    id: string,
    exerciseId: string,
    sets: int,
    reps: int,
    restSeconds: int,
    orderIndex: int)

  /** A workout as the backend returns it; only `GET /workouts/{id}` includes `exercises`. */
  datatype Workout = Workout(
    id: string,
    name: string,
    description: Option<string>,
    difficultyLevel: string,
    durationMinutes: Option<int>,
    exercises: Option<seq<WorkoutExercise>>)

  /** The create-workout form; `duration` is `Number.parseInt` of its field, `None` for NaN
      (which `JSON.stringify` sends as `null`). */
  datatype WorkoutForm = WorkoutForm(name: string, description: string, difficulty: string, duration: Option<int>)

  /** The add-exercise form, numbers parsed the same way. */
  datatype ExerciseForm = ExerciseForm(exerciseId: string, sets: Option<int>, reps: Option<int>, rest: Option<int>)

  /** The requests the page sends, in the order it sends them. */
  datatype Request =
    | ListWorkouts                                               // GET /workouts
    | FetchWorkout(workoutId: string)                            // GET /workouts/{id}
    | SubmitWorkout(name: string, description: string, difficultyLevel: string, durationMinutes: Option<int>) // POST /workouts
    | SubmitExercise(workoutId: string, exerciseId: string, sets: Option<int>, reps: Option<int>,
                  restSeconds: Option<int>, orderIndex: nat)     // POST /workouts/{id}/exercises
    | DropExercise(workoutId: string, exerciseId: string)      // DELETE /workouts/{id}/exercises/{exerciseId}
    | DropWorkout(workoutId: string)                             // DELETE /workouts/{id}

  /** `currentWorkout.exercises || []`. */
  function ExercisesOf(w: Workout): (exercises: seq<WorkoutExercise>)
  {
    w.exercises.GetOr([])
  }

  /** The arrow `w => w.id !== workoutId`. */
  function IdIsNot(workoutId: string): (p: Workout -> bool)
  {
    (w: Workout) => w.id != workoutId
  }

  /** `allWorkouts.filter(w => w.id !== workoutId)`. */
  function WithoutWorkout(workouts: seq<Workout>, workoutId: string): (r: seq<Workout>)
    ensures |r| <= |workouts|
  {
    Filter(workouts, IdIsNot(workoutId))
  }

  /** Deleting by id removes every workout with that id and keeps every other one, as often as
      it was listed and in the same relative order. */
  lemma WithoutWorkoutExactly(workouts: seq<Workout>, workoutId: string, w: Workout)
    ensures w in WithoutWorkout(workouts, workoutId) <==> w in workouts && w.id != workoutId
    ensures multiset(WithoutWorkout(workouts, workoutId))[w] == if w.id == workoutId then 0 else multiset(workouts)[w]
    ensures IsSubsequence(WithoutWorkout(workouts, workoutId), workouts)
  {
    FilterMembership(workouts, IdIsNot(workoutId), w);
    FilterMultiplicity(workouts, IdIsNot(workoutId), w);
    FilterIsSubsequence(workouts, IdIsNot(workoutId));
  }

  /** Deleting an id no workout has changes nothing. */
  lemma WithoutAbsentWorkout(workouts: seq<Workout>, workoutId: string)
    requires forall i :: 0 <= i < |workouts| ==> workouts[i].id != workoutId
    ensures WithoutWorkout(workouts, workoutId) == workouts
  {
    FilterKeepsAll(workouts, IdIsNot(workoutId));
  }

  /** A workout created with a fresh id and then deleted leaves the list as it was. */
  lemma {:induction false} DeleteUndoesCreate(workouts: seq<Workout>, created: Workout)
    requires forall i :: 0 <= i < |workouts| ==> workouts[i].id != created.id
    ensures WithoutWorkout(workouts + [created], created.id) == workouts
  {
    FilterAppend(workouts, created, IdIsNot(created.id));
    WithoutAbsentWorkout(workouts, created.id);
  }

  /** The module-level state of the planner page. */
  class Planner {
    var allWorkouts: seq<Workout>
    var currentWorkout: Option<Workout>
    var createModalOpen: bool
    var addExerciseModalOpen: bool

    constructor()
      ensures allWorkouts == [] && currentWorkout == None && !createModalOpen && !addExerciseModalOpen
    {
      allWorkouts := [];
      currentWorkout := None;
      createModalOpen := false;
      addExerciseModalOpen := false;
    }

    /** `loadWorkouts`: an ok answer replaces the list; a failure leaves it. */
    method LoadWorkouts(ok: bool, response: seq<Workout>) returns (requests: seq<Request>)
      modifies this`allWorkouts
      ensures requests == [ListWorkouts]
      ensures allWorkouts == if ok then response else old(allWorkouts)
    {
      requests := [ListWorkouts];
      if ok {
        allWorkouts := response;
      }
    }

    /** `selectWorkout`: an ok answer becomes the selected workout; a failure leaves the
        selection. */
    method SelectWorkout(workoutId: string, ok: bool, fetched: Workout) returns (requests: seq<Request>)
      modifies this`currentWorkout
      ensures requests == [FetchWorkout(workoutId)]
      ensures currentWorkout == if ok then Some(fetched) else old(currentWorkout)
    {
      requests := [FetchWorkout(workoutId)];
      if ok {
        currentWorkout := Some(fetched);
      }
    }

    method OpenCreateWorkoutModal()
      modifies this`createModalOpen
      ensures createModalOpen
    {
      createModalOpen := true;
    }

    method CloseCreateWorkoutModal()
      modifies this`createModalOpen
      ensures !createModalOpen
    {
      createModalOpen := false;
    }

    /** `openAddExerciseModal`: refused (with an alert) while no workout is selected. */
    method OpenAddExerciseModal() returns (alerted: bool)
      modifies this`addExerciseModalOpen
      ensures alerted <==> currentWorkout.None?
      ensures addExerciseModalOpen == if alerted then old(addExerciseModalOpen) else true
    {
      if currentWorkout.None? {
        return true;
      }
      addExerciseModalOpen := true;
      alerted := false;
    }

    method CloseAddExerciseModal()
      modifies this`addExerciseModalOpen
      ensures !addExerciseModalOpen
    {
      addExerciseModalOpen := false;
    }

    /** `handleCreateWorkout`: the form is always sent; an ok answer appends the created workout
        at the end of the list, closes the modal and schedules its selection; a failure changes
        nothing. */
    method HandleCreateWorkout(form: WorkoutForm, ok: bool, created: Workout) returns (requests: seq<Request>)
      modifies this`allWorkouts, this`createModalOpen
      ensures var submit := SubmitWorkout(form.name, form.description, form.difficulty, form.duration);
        requests == if ok then [submit, FetchWorkout(created.id)] else [submit]
      ensures ok ==> allWorkouts == old(allWorkouts) + [created] && !createModalOpen
      ensures !ok ==> allWorkouts == old(allWorkouts) && createModalOpen == old(createModalOpen)
    {
      requests := [SubmitWorkout(form.name, form.description, form.difficulty, form.duration)];
      if !ok {
        return;
      }
      allWorkouts := allWorkouts + [created];
      CloseCreateWorkoutModal();
      requests := requests + [FetchWorkout(created.id)];
    }

    /** `handleAddExercise`: refused (with an alert) while no workout is selected; otherwise the
        new exercise is sent with `order_index` equal to the selected workout's exercise count,
        and an ok answer reloads the workout and closes the modal. */
    method HandleAddExercise(form: ExerciseForm, ok: bool) returns (requests: seq<Request>)
      modifies this`addExerciseModalOpen
      ensures old(currentWorkout).None? ==> requests == [] && addExerciseModalOpen == old(addExerciseModalOpen)
      ensures old(currentWorkout).Some? ==>
        var w := old(currentWorkout).value;
        var add := SubmitExercise(w.id, form.exerciseId, form.sets, form.reps, form.rest, |ExercisesOf(w)|);
        requests == (if ok then [add, FetchWorkout(w.id)] else [add])
        && addExerciseModalOpen == (if ok then false else old(addExerciseModalOpen))
    {
      if currentWorkout.None? {
        return [];
      }
      var w := currentWorkout.value;
      requests := [SubmitExercise(w.id, form.exerciseId, form.sets, form.reps, form.rest, |ExercisesOf(w)|)];
      if !ok {
        return;
      }
      requests := requests + [FetchWorkout(w.id)];
      CloseAddExerciseModal();
    }

    /** `removeExercise`: a declined confirm sends nothing; with no selected workout the request
        cannot be built (the error is caught and alerted); otherwise the removal is sent and an ok
        answer reloads the workout. The page's own state is never changed here. */
    method RemoveExercise(exerciseId: string, confirmed: bool, ok: bool) returns (requests: seq<Request>)
      ensures !confirmed || currentWorkout.None? ==> requests == []
      ensures confirmed && currentWorkout.Some? ==>
        var id := currentWorkout.value.id;
        requests == [DropExercise(id, exerciseId)] + (if ok then [FetchWorkout(id)] else [])
    {
      if !confirmed {
        return [];
      }
      if currentWorkout.None? {
        return [];
      }
      var id := currentWorkout.value.id;
      requests := [DropExercise(id, exerciseId)];
      if ok {
        requests := requests + [FetchWorkout(id)];
      }
    }

    /** `deleteWorkout`: a declined confirm sends nothing; an ok answer removes every workout with
        that id from the list and clears the selection; a failure changes nothing. */
    method DeleteWorkout(workoutId: string, confirmed: bool, ok: bool) returns (requests: seq<Request>)
      modifies this`allWorkouts, this`currentWorkout
      ensures requests == if confirmed then [DropWorkout(workoutId)] else []
      ensures confirmed && ok ==> allWorkouts == WithoutWorkout(old(allWorkouts), workoutId) && currentWorkout == None
      ensures !(confirmed && ok) ==> allWorkouts == old(allWorkouts) && currentWorkout == old(currentWorkout)
    {
      if !confirmed {
        return [];
      }
      requests := [DropWorkout(workoutId)];
      if !ok {
        return;
      }
      allWorkouts := WithoutWorkout(allWorkouts, workoutId);
      currentWorkout := None;
    }
  }
}
