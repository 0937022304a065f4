/** The save/unsave toggle (App.tsx `toggleSaveWorkout`): the saved list is
    an ordered list of workouts keyed by `id`. */
module Saving {
  import opened Types

  /** `list.some(w => w.id === id)`. */
  predicate HasId(list: seq<Workout>, id: string)
  {
    exists i :: 0 <= i < |list| && list[i].id == id
  }

  /** Some history entry's workout carries `id`. */
  predicate HistoryHasId(history: seq<CompletedWorkout>, id: string)
  {
    exists i :: 0 <= i < |history| && history[i].workout.id == id
  }

  /** No two entries of the list share an `id`. */
  predicate UniqueIds(list: seq<Workout>)
  {
    forall i, j :: 0 <= i < j < |list| ==> list[i].id != list[j].id
  }

  /** `i` is the first position of `list` whose workout carries `id`. */
  predicate FirstWithId(list: seq<Workout>, id: string, i: int)
  {
    0 <= i < |list| && list[i].id == id &&
    forall j :: 0 <= j < i ==> list[j].id != id
  }

  /** `i` is the first history entry whose workout carries `id`. */
  predicate FirstInHistory(history: seq<CompletedWorkout>, id: string, i: int)
  {
    0 <= i < |history| && history[i].workout.id == id &&
    forall j :: 0 <= j < i ==> history[j].workout.id != id
  }

  /** `list.filter(w => w.id !== id)`: every entry with `id` goes, every
      other entry stays. */
  function RemoveById(list: seq<Workout>, id: string): (r: seq<Workout>)
    ensures !HasId(r, id)
    ensures forall w :: w in r <==> w in list && w.id != id
    ensures |r| <= |list|
    ensures !HasId(list, id) ==> r == list
  {
    if list == [] then []
    else
      var rest := RemoveById(list[1..], id);
      assert forall w :: w in list <==> w == list[0] || w in list[1..];
      if list[0].id == id then rest else [list[0]] + rest
  }

  /** Removing distributes over concatenation, so what is kept stays in its
      original order. */
  lemma {:induction false} RemoveByIdConcat(a: seq<Workout>, b: seq<Workout>, id: string)
    ensures RemoveById(a + b, id) == RemoveById(a, id) + RemoveById(b, id)
  {
    if a != [] {
      assert (a + b)[1..] == a[1..] + b;
      RemoveByIdConcat(a[1..], b, id);
    } else {
      assert a + b == b;
    }
  }

  /** Removing keeps the ids of what is left distinct. */
  lemma {:induction false} RemoveByIdKeepsUnique(list: seq<Workout>, id: string)
    requires UniqueIds(list)
    ensures UniqueIds(RemoveById(list, id))
  {
    if list != [] {
      var rest := list[1..];
      assert UniqueIds(rest) by {
        forall i, j | 0 <= i < j < |rest| ensures rest[i].id != rest[j].id {
          assert rest[i] == list[i + 1] && rest[j] == list[j + 1];
        }
      }
      RemoveByIdKeepsUnique(rest, id);
      var r := RemoveById(rest, id);
      if list[0].id != id {
        assert !HasId(r, list[0].id);
        var s := [list[0]] + r;
        forall i, j | 0 <= i < j < |s| ensures s[i].id != s[j].id {
          if i == 0 {
            assert s[j] == r[j - 1];
          } else {
            assert s[i] == r[i - 1] && s[j] == r[j - 1];
          }
        }
      }
    }
  }

  /** `list.find(w => w.id === id)`: the first entry carrying `id`, if any. */
  function FindById(list: seq<Workout>, id: string): (r: Option<Workout>)
    ensures r.Some? <==> HasId(list, id)
    ensures r.Some? ==>
      r.value.id == id && exists i :: FirstWithId(list, id, i) && list[i] == r.value
  {
    if list == [] then None
    else if list[0].id == id then
      assert FirstWithId(list, id, 0);
      Some(list[0])
    else
      var r := FindById(list[1..], id);
      assert HasId(list, id) ==> HasId(list[1..], id) by {
        if HasId(list, id) {
          var k :| 0 <= k < |list| && list[k].id == id;
          assert list[1..][k - 1] == list[k];
        }
      }
      assert HasId(list[1..], id) ==> HasId(list, id) by {
        if HasId(list[1..], id) {
          var k :| 0 <= k < |list[1..]| && list[1..][k].id == id;
          assert list[k + 1] == list[1..][k];
        }
      }
      if r.Some? then
        var k :| FirstWithId(list[1..], id, k) && list[1..][k] == r.value;
        assert FirstWithId(list, id, k + 1) by {
          forall j | 0 <= j < k + 1 ensures list[j].id != id {
            if j > 0 { assert list[j] == list[1..][j - 1]; }
          }
        }
        assert list[k + 1] == r.value;
        r
      else r
  }

  /** `history.find(h => h.workout.id === id)?.workout`. */
  function FindInHistory(history: seq<CompletedWorkout>, id: string): (r: Option<Workout>)
    ensures r.Some? <==> HistoryHasId(history, id)
    ensures r.Some? ==>
      r.value.id == id && exists i :: FirstInHistory(history, id, i) && history[i].workout == r.value
  {
    if history == [] then None
    else if history[0].workout.id == id then
      assert FirstInHistory(history, id, 0);
      Some(history[0].workout)
    else
      var r := FindInHistory(history[1..], id);
      assert HistoryHasId(history, id) ==> HistoryHasId(history[1..], id) by {
        if HistoryHasId(history, id) {
          var k :| 0 <= k < |history| && history[k].workout.id == id;
          assert history[1..][k - 1] == history[k];
        }
      }
      assert HistoryHasId(history[1..], id) ==> HistoryHasId(history, id) by {
        if HistoryHasId(history[1..], id) {
          var k :| 0 <= k < |history[1..]| && history[1..][k].workout.id == id;
          assert history[k + 1] == history[1..][k];
        }
      }
      if r.Some? then
        var k :| FirstInHistory(history[1..], id, k) && history[1..][k].workout == r.value;
        assert FirstInHistory(history, id, k + 1) by {
          forall j | 0 <= j < k + 1 ensures history[j].workout.id != id {
            if j > 0 { assert history[j] == history[1..][j - 1]; }
          }
        }
        assert history[k + 1].workout == r.value;
        r
      else r
  }

  /** The workout to save for `id`: the first match among the current
      results, else among the saved list, else among the history. */
  function WorkoutToSave(workouts: seq<Workout>, saved: seq<Workout>,
                         history: seq<CompletedWorkout>, id: string): (r: Option<Workout>)
    ensures r.Some? <==> HasId(workouts, id) || HasId(saved, id) || HistoryHasId(history, id)
    ensures r.Some? ==> r.value.id == id
    ensures HasId(workouts, id) ==> r == FindById(workouts, id)
    ensures !HasId(workouts, id) && HasId(saved, id) ==> r == FindById(saved, id)
    ensures !HasId(workouts, id) && !HasId(saved, id) ==> r == FindInHistory(history, id)
  {
    match FindById(workouts, id)
    case Some(w) => Some(w)
    case None =>
      match FindById(saved, id)
      case Some(w) => Some(w)
      case None => FindInHistory(history, id)
  }

  /** The saved list after toggling `id` (for a signed-in user whose
      database call succeeds). A saved `id` is removed everywhere and the
      rest kept; an unsaved one is appended once if some list holds it, and
      otherwise nothing changes. */
  function Toggle(workouts: seq<Workout>, saved: seq<Workout>,
                  history: seq<CompletedWorkout>, id: string): (r: seq<Workout>)
    ensures HasId(saved, id) ==> r == RemoveById(saved, id)
    ensures !HasId(saved, id) ==>
      (HasId(r, id) <==> HasId(workouts, id) || HistoryHasId(history, id))
    ensures !HasId(saved, id) && HasId(r, id) ==>
      |r| == |saved| + 1 && r[..|saved|] == saved && r[|saved|].id == id &&
      r[|saved|] == WorkoutToSave(workouts, saved, history, id).value
    ensures !HasId(saved, id) && !HasId(r, id) ==> r == saved
  {
    if HasId(saved, id) then RemoveById(saved, id)
    else
      match WorkoutToSave(workouts, saved, history, id)
      case Some(w) =>
        assert (saved + [w])[|saved|] == w;
        saved + [w]
      case None => saved
  }

  /** When `id` is not yet saved, the fallback search of the saved list
      itself never finds anything. */
  lemma UnsavedNotFoundInSaved(saved: seq<Workout>, id: string)
    requires !HasId(saved, id)
    ensures FindById(saved, id) == None
  {
  }

  /** Toggling keeps the ids of the saved list distinct. */
  lemma ToggleKeepsUnique(workouts: seq<Workout>, saved: seq<Workout>,
                          history: seq<CompletedWorkout>, id: string)
    requires UniqueIds(saved)
    ensures UniqueIds(Toggle(workouts, saved, history, id))
  {
    if HasId(saved, id) {
      RemoveByIdKeepsUnique(saved, id);
    } else {
      var r := Toggle(workouts, saved, history, id);
      if HasId(r, id) {
        forall i, j | 0 <= i < j < |r| ensures r[i].id != r[j].id {
          if j == |saved| {
            assert r[i] == saved[i];
          } else {
            assert r[i] == saved[i] && r[j] == saved[j];
          }
        }
      }
    }
  }

  /** Saving and then unsaving an `id` that was not saved gives back the
      saved list exactly. */
  lemma ToggleTwiceFromUnsaved(workouts: seq<Workout>, saved: seq<Workout>,
                               history: seq<CompletedWorkout>, id: string)
    requires !HasId(saved, id)
    ensures Toggle(workouts, Toggle(workouts, saved, history, id), history, id) == saved
  {
    var once := Toggle(workouts, saved, history, id);
    if HasId(once, id) {
      var w := once[|saved|];
      assert once == saved + [w];
      RemoveByIdConcat(saved, [w], id);
      assert RemoveById([w], id) == [];
    }
  }

  /** Unsaving and then saving a saved `id` keeps every other entry as it
      was, and brings `id` back exactly when the current results or the
      history still hold a workout with that `id`: the saved list no longer
      does. */
  lemma ToggleTwiceFromSaved(workouts: seq<Workout>, saved: seq<Workout>,
                             history: seq<CompletedWorkout>, id: string)
    requires HasId(saved, id)
    ensures var twice := Toggle(workouts, Toggle(workouts, saved, history, id), history, id);
      (HasId(twice, id) <==> HasId(workouts, id) || HistoryHasId(history, id)) &&
      RemoveById(twice, id) == RemoveById(saved, id)
  {
    var once := Toggle(workouts, saved, history, id);
    var twice := Toggle(workouts, once, history, id);
    if HasId(twice, id) {
      var w := twice[|once|];
      assert twice == once + [w];
      RemoveByIdConcat(once, [w], id);
      assert RemoveById([w], id) == [];
    }
  }

  /** Toggling twice restores whether `id` is saved, provided that, if it
      was saved, a workout with that `id` can still be found outside the
      saved list. */
  lemma ToggleTwiceMembership(workouts: seq<Workout>, saved: seq<Workout>,
                              history: seq<CompletedWorkout>, id: string)
    requires HasId(saved, id) ==> HasId(workouts, id) || HistoryHasId(history, id)
    ensures HasId(Toggle(workouts, Toggle(workouts, saved, history, id), history, id), id)
      == HasId(saved, id)
  {
    if HasId(saved, id) {
      ToggleTwiceFromSaved(workouts, saved, history, id);
    } else {
      ToggleTwiceFromUnsaved(workouts, saved, history, id);
    }
  }

  /** A workout that is only in the saved list cannot be saved again once
      unsaved: the second toggle finds nothing to append. */
  lemma SavedOnlyWorkoutIsLost()
    ensures var w := Workout("w1", "Cindy", "AMRAP", "", "20m", [], "Intermediate", "Full Body", "", true);
      HasId(Toggle([], Toggle([], [w], [], "w1"), [], "w1"), "w1") == false
  {
    var w := Workout("w1", "Cindy", "AMRAP", "", "20m", [], "Intermediate", "Full Body", "", true);
    assert HasId([w], "w1") by { assert [w][0].id == "w1"; }
  }
}
