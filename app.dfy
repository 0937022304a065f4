/** The state logic of the `App` component (App.tsx): the component's state
    variables as the fields of one object, and each event handler as a
    method that updates them in one atomic step. The generation service and
    the database are not modelled; what they return, or whether they fail,
    is a parameter of the handler that awaits them. */
module App {
  import opened Types
  import opened Pagination
  import opened Saving
  import opened Generation

  /** The message shown when generation fails. */
  const GenerateErrorMessage: string :=
    "Failed to generate workouts. Please check your connection and try again."

  /** The value of every state variable at one moment. */
  datatype Snapshot = Snapshot(
    user: Option<UserProfile>,
    authLoading: bool,
    workouts: seq<Workout>,
    savedWorkouts: seq<Workout>,
    workoutHistory: seq<CompletedWorkout>,
    loading: bool,
    isFilterOpen: bool,
    error: Option<string>,
    currentPage: int,
    generatedHistory: seq<string>,
    activeWorkout: Option<Workout>)

  class AppState {
    var user: Option<UserProfile>
    var authLoading: bool
    var workouts: seq<Workout>
    var savedWorkouts: seq<Workout>
    var workoutHistory: seq<CompletedWorkout>
    var loading: bool
    var isFilterOpen: bool
    var error: Option<string>
    var currentPage: int
    var generatedHistory: seq<string>
    var activeWorkout: Option<Workout>

    function State(): Snapshot
      reads this
    {
      Snapshot(user, authLoading, workouts, savedWorkouts, workoutHistory, loading,
               isFilterOpen, error, currentPage, generatedHistory, activeWorkout)
    }

    /** The page is at least 1, and while there are results to page
        through it is one of their pages. (With no results the page number
        may be stale: going back home keeps it, and nothing shows it.) */
    predicate Valid()
      reads this
    {
      currentPage >= 1 && (workouts == [] || currentPage <= TotalPages(|workouts|))
    }

    /** `totalPages` for the current results. */
    function PageCount(): nat
      reads this
    {
      TotalPages(|workouts|)
    }

    /** `currentWorkouts`, the page of results on screen. While there are
        results (the only time the pager is shown) it is never empty and
        holds at most `ItemsPerPage` of them, starting at the current
        page's first item. */
    function VisibleWorkouts(): (r: seq<Workout>)
      reads this
      requires Valid()
      ensures workouts != [] ==>
        0 < |r| <= ItemsPerPage &&
        PageStart(currentPage) + |r| <= |workouts| &&
        r == workouts[PageStart(currentPage)..PageStart(currentPage) + |r|]
    {
      CurrentWorkouts(workouts, currentPage)
    }

    /** The initial value of every `useState`. */
    constructor ()
      ensures Valid()
      ensures State() == Snapshot(None, true, [], [], [], false, false, None, 1, [], None)
    {
      user := None;
      authLoading := true;
      workouts := [];
      savedWorkouts := [];
      workoutHistory := [];
      loading := false;
      isFilterOpen := false;
      error := None;
      currentPage := 1;
      generatedHistory := [];
      activeWorkout := None;
    }

    /** The auth subscription callback. A signed-in user is set at once,
        then the saved list and history are read from the database; if that
        read rejects, the lists stay as they were and auth loading does not
        end. Signing out clears both lists; auth loading then ends. */
    method OnAuthChange(currentUser: Option<UserProfile>, dbOk: bool,
                        saved: seq<Workout>, history: seq<CompletedWorkout>)
      requires Valid()
      modifies this
      ensures Valid()
      ensures currentUser.Some? && !dbOk ==> State() == old(State()).(user := currentUser)
      ensures currentUser.Some? && dbOk ==> State() == old(State()).(
        user := currentUser,
        savedWorkouts := saved,
        workoutHistory := history,
        authLoading := false)
      ensures currentUser.None? ==> State() == old(State()).(
        user := None,
        savedWorkouts := [],
        workoutHistory := [],
        authLoading := false)
    {
      if currentUser.Some? {
        user := currentUser;
        if !dbOk {
          return;
        }
        savedWorkouts := saved;
        workoutHistory := history;
      } else {
        user := None;
        savedWorkouts := [];
        workoutHistory := [];
      }
      authLoading := false;
    }

    /** `handleLoginSuccess`. */
    method LoginSuccess(loggedInUser: UserProfile)
      requires Valid()
      modifies this
      ensures Valid()
      ensures State() == old(State()).(user := Some(loggedInUser))
    {
      user := Some(loggedInUser);
    }

    /** Starting a workout from a card or the profile screen. */
    method StartWorkout(w: Workout)
      requires Valid()
      modifies this
      ensures Valid()
      ensures State() == old(State()).(activeWorkout := Some(w))
    {
      activeWorkout := Some(w);
    }

    /** Closing the active-workout overlay without completing it. */
    method CloseWorkout()
      requires Valid()
      modifies this
      ensures Valid()
      ensures State() == old(State()).(activeWorkout := None)
    {
      activeWorkout := None;
    }

    /** `goToNextPage`: forward one page unless on the last one; a page in
        range stays in range. */
    method GoToNextPage()
      requires Valid()
      modifies this
      ensures Valid()
      ensures State() == old(State()).(currentPage := NextPage(old(currentPage), old(PageCount())))
      ensures currentPage == old(currentPage) + 1 <==> old(currentPage) < PageCount()
      ensures InRange(old(currentPage), PageCount()) ==> InRange(currentPage, PageCount())
    {
      if currentPage < TotalPages(|workouts|) {
        currentPage := currentPage + 1;
      }
    }

    /** `goToPrevPage`: back one page unless on the first; never below 1. */
    method GoToPrevPage()
      requires Valid()
      modifies this
      ensures Valid()
      ensures State() == old(State()).(currentPage := PrevPage(old(currentPage)))
      ensures currentPage == old(currentPage) - 1 <==> old(currentPage) > 1
      ensures InRange(old(currentPage), PageCount()) ==> InRange(currentPage, PageCount())
    {
      if currentPage > 1 {
        currentPage := currentPage - 1;
      }
    }

    /** `toggleSaveWorkout`. Without a signed-in user, or when the database
        call rejects, nothing changes; otherwise the saved list becomes
        `Toggle` of the old one, which keeps its ids distinct. */
    method ToggleSaveWorkout(id: string, dbOk: bool)
      requires Valid()
      modifies this
      ensures Valid()
      ensures user.None? || !dbOk ==> State() == old(State())
      ensures user.Some? && dbOk ==> State() == old(State()).(
        savedWorkouts := Toggle(workouts, old(savedWorkouts), workoutHistory, id))
      ensures UniqueIds(old(savedWorkouts)) ==> UniqueIds(savedWorkouts)
    {
      if user.None? {
        return;
      }
      if UniqueIds(savedWorkouts) {
        ToggleKeepsUnique(workouts, savedWorkouts, workoutHistory, id);
      }
      var isAlreadySaved := HasId(savedWorkouts, id);
      if isAlreadySaved {
        if dbOk {
          savedWorkouts := RemoveById(savedWorkouts, id);
        }
      } else {
        var workoutToSave := WorkoutToSave(workouts, savedWorkouts, workoutHistory, id);
        if workoutToSave.Some? && dbOk {
          savedWorkouts := savedWorkouts + [workoutToSave.value];
        }
      }
    }

    /** `handleGenerate`. The filter sheet closes, the error clears and the
        page returns to 1; the exclusion list sent is the history for a
        "load more" and empty for a fresh search. On success the results
        are replaced and the history updated; on failure the results stay,
        the error is set, and a fresh search has already cleared the
        history. Returns the exclusion list passed to the generator. */
    method HandleGenerate(isNewBatch: bool, outcome: Outcome) returns (exclusions: seq<string>)
      requires Valid()
      modifies this
      ensures Valid()
      ensures exclusions == if isNewBatch then old(generatedHistory) else []
      ensures State() == old(State()).(
        isFilterOpen := false,
        loading := false,
        error := if outcome.Failed? then Some(GenerateErrorMessage) else None,
        currentPage := 1,
        workouts := if outcome.Generated? then outcome.result else old(workouts),
        generatedHistory := HistoryAfter(isNewBatch, old(generatedHistory), outcome))
    {
      isFilterOpen := false;
      loading := true;
      error := None;
      currentPage := 1;

      exclusions := generatedHistory;
      if !isNewBatch {
        exclusions := [];
        generatedHistory := [];
      }

      match outcome {
        case Generated(result) =>
          workouts := result;
          var newNames := Names(result);
          generatedHistory := if isNewBatch then generatedHistory + newNames else newNames;
        case Failed =>
          error := Some(GenerateErrorMessage);
      }
      loading := false;
    }

    /** `handleBackToHome`: the results, the error and the history go; the
        page number is left as it was. */
    method HandleBackToHome()
      requires Valid()
      modifies this
      ensures Valid()
      ensures State() == old(State()).(workouts := [], error := None, generatedHistory := [])
    {
      workouts := [];
      error := None;
      generatedHistory := [];
    }

    /** `handleWorkoutComplete`. With no active workout or no user nothing
        happens, and nothing happens either when an awaited database call
        rejects. Otherwise the saved list and history become what the
        database returned, the user's completion count goes up by exactly
        one, and the active workout is cleared. */
    method HandleWorkoutComplete(dbOk: bool,
                                 freshSaved: seq<Workout>, freshHistory: seq<CompletedWorkout>)
      requires Valid()
      modifies this
      ensures Valid()
      ensures old(activeWorkout).None? || old(user).None? || !dbOk ==> State() == old(State())
      ensures old(activeWorkout).Some? && old(user).Some? && dbOk ==>
        user.Some? &&
        user.value.workoutsCompleted == old(user).value.workoutsCompleted + 1 &&
        State() == old(State()).(
          savedWorkouts := freshSaved,
          workoutHistory := freshHistory,
          user := Some(old(user).value.(workoutsCompleted := old(user).value.workoutsCompleted + 1)),
          activeWorkout := None)
    {
      if activeWorkout.None? || user.None? {
        return;
      }
      if !dbOk {
        return;
      }
      savedWorkouts := freshSaved;
      workoutHistory := freshHistory;
      var prev := user.value;
      user := Some(prev.(workoutsCompleted := prev.workoutsCompleted + 1));
      activeWorkout := None;
    }
  }
}
