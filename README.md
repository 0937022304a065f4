# MetconMaster app state, modelled in Dafny

This project models the state logic of the single `App` component of the
MetconMaster workout-discovery client. The user asks an AI service for
workouts, pages through the results five at a time, saves favourites, and
completes an active workout. With rendering, scrolling and the awaited
service calls stripped away, the component is a small sequential state
machine over these fields: `workouts`, `savedWorkouts`, `workoutHistory`,
`currentPage`, `generatedHistory`, `error`, `activeWorkout` and the
user's `workoutsCompleted` counter.

Modules:

- `Types` (`types.dfy`): the record shapes of `types.ts` (`Workout`,
  `CompletedWorkout`, `UserProfile`) and an `Option`.
- `Pagination` (`pagination.dfy`): the page size, the page count, the visible
  slice (with `Array.prototype.slice`'s clamping and negative-index rules),
  and the next/previous moves as pure functions, with lemmas about them.
- `Saving` (`saving.dfy`): the save/unsave toggle as pure functions over the
  ordered saved list: `filter`, the three `find`s, and the combined `Toggle`.
- `Generation` (`generation.dfy`): the exclusion-history bookkeeping of a
  generation request, and what it amounts to over a run of requests.
- `App` (`app.dfy`): class `AppState`, whose fields are the component's state
  variables. Each handler is a method that updates them in one atomic step.
  Its `ensures` give the whole new `State()` in terms of the old one and the
  pure functions above.

The external services become parameters of the handlers:

- `HandleGenerate` takes the generator's `Outcome`: a list of workouts, or
  a failure.
- `ToggleSaveWorkout` and `HandleWorkoutComplete` take `dbOk`. It is false
  when an awaited database call rejects; then none of the later state
  updates happen.
- `HandleWorkoutComplete` also takes the lists the database returns when the
  app re-reads it.
- `OnAuthChange` takes the user the auth subscription delivers, and for a
  signed-in user `dbOk` and the saved list and history that
  `dbService.getSavedWorkouts` and `dbService.getWorkoutHistory` return.

Notes on how the model reads the code:

- The invariant `1 <= currentPage <= max(1, totalPages)` is not kept by
  `handleBackToHome`. That handler empties the results but leaves the page
  number alone (App.tsx:109-114). `AppState.Valid` therefore states what is
  always kept: the page is at least 1, and while there are results it is
  one of their pages. The pager is only rendered while there are results
  (App.tsx:310), and the next search resets the page to 1. The stronger
  `InRange` is kept by both navigation moves (`GoToNextPage`,
  `GoToPrevPage`, `Pagination.NavigationKeepsRange`).
- Toggling twice does not always restore the saved state. An id that was
  saved is re-saved by the second toggle only when the current results or
  the history still hold a workout with that id: after the removal, the
  search of the saved list (App.tsx:126) cannot find it
  (`Saving.ToggleTwiceFromSaved`, `Saving.SavedOnlyWorkoutIsLost`). So
  toggling twice does not restore a workout that only the saved list held.
- Ids in the saved list stay distinct under toggling
  (`Saving.ToggleKeepsUnique`). That holds only when they were distinct
  before: lists loaded from the database are taken as they come.

## Model

| member | source | states |
|---|---|---|
| `Pagination.TotalPages` | App.tsx:159 | the page count is the ceiling of the item count over the page size 5 (`n <= r*5 < n+5`), and is 0 exactly when there are no results |
| `Pagination.SliceIndex` | App.tsx:160-163 | a `slice` argument becomes a position in `0..len`: an in-range one is kept, a negative one counts back from the end, one past the end becomes `len`, and one below `-len` becomes 0 |
| `Pagination.CurrentWorkouts` | App.tsx:160-163 | a page in range is the contiguous run of results starting at `(page-1)*5`, non-empty, at most 5 long, full unless it is the last page, and the last page reaches the end of the list; a page past the last is empty |
| `Pagination.PagesFromIsSuffix` | App.tsx:160-163 | the pages from a given page up to the last, concatenated, are exactly the suffix of the results starting at that page |
| `Pagination.PagesPartition` | App.tsx:159-163 | reading pages 1 to `totalPages` in order gives back the whole result list, each item once |
| `Pagination.PageOfItem` | App.tsx:159-163 | result `i` is shown on page `i/5 + 1` at position `i%5`, and that page is in range |
| `Pagination.NavigationKeepsRange` | App.tsx:165-177 | next and previous keep a page within `1..max(1,totalPages)`; next advances exactly when the page is before the last, previous goes back exactly when the page is above 1 |
| `Pagination.NavigationRoundTrip` | App.tsx:165-177 | next undoes previous, and previous undoes next, whenever the first move moved |
| `Pagination.NextPagesStopsAtLast` | App.tsx:165-170 | pressing next `k` times lands on `min(page+k, totalPages)`, and never moves back |
| `Pagination.PrevPagesStopsAtFirst` | App.tsx:172-177 | pressing previous `k` times lands on `max(1, page-k)` |
| `Saving.RemoveById` | App.tsx:123 | no entry with the id remains; every other entry is kept (membership in both directions); a list without the id is returned unchanged |
| `Saving.RemoveByIdConcat` | App.tsx:123 | removal distributes over concatenation, so the kept entries stay in their original order |
| `Saving.RemoveByIdKeepsUnique` | App.tsx:123 | removal keeps the ids of a list distinct |
| `Saving.FindById` | App.tsx:125-126 | `find` returns a workout exactly when one carries the id, and it is the first such entry |
| `Saving.FindInHistory` | App.tsx:127 | the history search returns a workout exactly when an entry's workout carries the id, and it is the first such entry's workout |
| `Saving.WorkoutToSave` | App.tsx:125-127 | the workout to save is found exactly when one of the three lists holds the id; it carries the id; the current results take precedence over the saved list, and the saved list over the history |
| `Saving.Toggle` | App.tsx:119-131 | a saved id is removed everywhere and the other entries stay, in order and once each (the list is `RemoveById` of the old one); an unsaved id is appended once at the end exactly when the results or the history hold it, the appended workout being the first match with the results searched before the history; otherwise the list is unchanged |
| `Saving.UnsavedNotFoundInSaved` | App.tsx:126 | for an id that is not saved, the fallback search of the saved list finds nothing |
| `Saving.ToggleKeepsUnique` | App.tsx:116-133 | toggling keeps the ids of the saved list distinct |
| `Saving.ToggleTwiceFromUnsaved` | App.tsx:116-133 | saving then unsaving an unsaved id gives back exactly the same saved list |
| `Saving.ToggleTwiceFromSaved` | App.tsx:116-133 | unsaving then saving a saved id leaves the other entries as they were, and restores the id exactly when the results or the history hold it |
| `Saving.ToggleTwiceMembership` | App.tsx:116-133 | toggling twice restores whether the id is saved, given that, when it was saved, a workout with it can be found outside the saved list |
| `Saving.SavedOnlyWorkoutIsLost` | App.tsx:116-133 | a concrete case: a workout held only by the saved list is not saved again after unsave and save |
| `Generation.Names` | App.tsx:99 | the name list has one entry per workout, and entry `i` is workout `i`'s name |
| `Generation.NamesConcat` | App.tsx:99 | the names of a concatenation are the concatenated names |
| `Generation.HistoryAfter` | App.tsx:90-103 | a "load more" only extends the history, by the names just returned (by nothing on failure); a fresh search leaves exactly the names just returned, or nothing on failure |
| `Generation.LoadMoreAccumulates` | App.tsx:82-107 | a run of "load more" requests leaves the old history followed by the names of everything they returned, in order |
| `Generation.SinceLastFreshSearch` | App.tsx:82-107 | after a fresh search and any number of "load more" requests, the history is exactly the names generated since that search, whatever it held before |
| `App.AppState.VisibleWorkouts` | App.tsx:160-163 | in a valid state with results, the page on screen is non-empty, holds at most 5 workouts, and is the run of results starting at the current page's first item |
| `App.AppState.constructor` | App.tsx:17-33 | the initial state: no user, auth loading, no results, page 1, empty history, no error, no active workout |
| `App.AppState.OnAuthChange` | App.tsx:54-68 | a signed-in user is set; if the database reads then succeed the saved list and history become what they returned and auth loading ends, and if they reject nothing else changes and auth loading is left as it was; signing out clears both lists and ends auth loading |
| `App.AppState.LoginSuccess` | App.tsx:73-75 | only the user changes |
| `App.AppState.StartWorkout` | App.tsx:319 | only the active workout changes, to the one started |
| `App.AppState.CloseWorkout` | App.tsx:388 | only the active workout changes, to none |
| `App.AppState.GoToNextPage` | App.tsx:165-170 | the page goes up by exactly 1 when it is before the last page and stays otherwise; nothing else changes; a page in range stays in range |
| `App.AppState.GoToPrevPage` | App.tsx:172-177 | the page goes down by exactly 1 when it is above 1 and stays otherwise; nothing else changes; a page in range stays in range |
| `App.AppState.ToggleSaveWorkout` | App.tsx:116-133 | with no user, or a rejected database call, nothing changes; otherwise only the saved list changes, to `Toggle` of the old one; distinct ids stay distinct |
| `App.AppState.HandleGenerate` | App.tsx:82-107 | the sheet closes, the error clears and the page becomes 1; the exclusions sent are the history for "load more" and empty otherwise; on success the results are replaced and the history updated; on failure the error message is set, the results are unchanged and a fresh search leaves the history empty |
| `App.AppState.HandleBackToHome` | App.tsx:109-114 | the results, the error and the history are emptied; the page and everything else are unchanged |
| `App.AppState.HandleWorkoutComplete` | App.tsx:135-157 | with no active workout or no user, or a rejected database call, nothing changes; otherwise the completion count goes up by exactly 1, the active workout is cleared, and the saved list and history are what the database returned |

## Left out

- Rendering (JSX, CSS classes, icons) and `window.scrollTo`: they hold no state.
- The generation service, the auth service and the database: their sources
  are not part of this model. Their results are handler parameters. The
  database's own side effects (the saved, removed and recorded workouts) are
  not modelled.
- Asynchrony: every handler is one atomic step. So the model does not show
  `loading` being true during a request, interleaved handlers, or React's
  updater functions seeing a newer state than the handler read.
- `dbOk` is one flag per handler. It does not say which of several awaited
  calls rejected. In `toggleSaveWorkout` and `handleWorkoutComplete` no state
  changes before the last await; in the auth callback only the user does.
- `handleWorkoutComplete`'s `rating` and `shouldSave` arguments only reach
  the database, so the model has no parameters for them.
- The `view` and `filters` state, the buttons that open and close the filter
  sheet, `handleLogout` and the profile screen's `onUpdateUser`: navigation
  and form plumbing outside the named state machine. The filters are passed to the
  generator, which is not modelled.
- The optional numeric rating fields of `Workout` and `CompletedWorkout`: the
  state logic never reads them.
- `workoutsCompleted` and the page arithmetic use unbounded integers. The
  source uses JavaScript numbers, which are exact on integers below 2^53.
  `Math.ceil` of a float quotient is modelled by integer ceiling division.
- `sw.js` (offline cache) and `constants.ts` (static option lists): no state
  logic.
