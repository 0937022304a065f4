/** Bookkeeping of the exclusion history around a generation request
    (App.tsx `handleGenerate`): the names of the workouts generated since the
    last fresh search, sent to the generator so that a "load more" request
    does not repeat them. */
module Generation {
  import opened Types

  /** What the generation service did with one request: returned a list of
      workouts, or failed. */
  datatype Outcome = Generated(result: seq<Workout>) | Failed

  /** One generation request: a fresh search (`isNewBatch` false) or a
      "load more" (`isNewBatch` true), with the service's outcome. */
  datatype Request = Request(isNewBatch: bool, outcome: Outcome)

  /** `result.map(w => w.name)`. */
  function Names(workouts: seq<Workout>): (r: seq<string>)
    ensures |r| == |workouts|
    ensures forall i :: 0 <= i < |workouts| ==> r[i] == workouts[i].name
  {
    if workouts == [] then [] else [workouts[0].name] + Names(workouts[1..])
  }

  lemma NamesConcat(a: seq<Workout>, b: seq<Workout>)
    ensures Names(a + b) == Names(a) + Names(b)
  {
  }

  /** The history after one request. A fresh search clears it before the
      call and then holds exactly the new names; a "load more" appends the
      new names to what was there. A failed call appends nothing. */
  function HistoryAfter(isNewBatch: bool, history: seq<string>, outcome: Outcome): (r: seq<string>)
    ensures isNewBatch ==> history <= r
    ensures isNewBatch && outcome.Failed? ==> r == history
    ensures isNewBatch && outcome.Generated? ==> r[|history|..] == Names(outcome.result)
    ensures !isNewBatch ==> r == (if outcome.Generated? then Names(outcome.result) else [])
  {
    var cleared := if isNewBatch then history else [];
    match outcome
    case Generated(result) => if isNewBatch then cleared + Names(result) else Names(result)
    case Failed => cleared
  }

  /** The history after a run of requests, in order. */
  function HistoryAfterRun(history: seq<string>, run: seq<Request>): seq<string>
    decreases |run|
  {
    if run == [] then history
    else HistoryAfterRun(HistoryAfter(run[0].isNewBatch, history, run[0].outcome), run[1..])
  }

  /** Every workout the run's successful requests returned, in order. */
  function AllGenerated(run: seq<Request>): seq<Workout>
    decreases |run|
  {
    if run == [] then []
    else (if run[0].outcome.Generated? then run[0].outcome.result else []) + AllGenerated(run[1..])
  }

  /** Concatenation is associative; stated apart so that the proof below
      does not have to rediscover it among the facts about `Names`. */
  lemma ConcatAssoc<T>(x: seq<T>, y: seq<T>, z: seq<T>)
    ensures (x + y) + z == x + (y + z)
  {
  }

  /** A run of "load more" requests only ever appends: the history ends as
      the old history followed by the names of everything they returned. */
  lemma {:induction false} LoadMoreAccumulates(history: seq<string>, run: seq<Request>)
    requires forall i :: 0 <= i < |run| ==> run[i].isNewBatch
    ensures HistoryAfterRun(history, run) == history + Names(AllGenerated(run))
    decreases |run|
  {
    if run != [] {
      var first := if run[0].outcome.Generated? then run[0].outcome.result else [];
      var next := HistoryAfter(true, history, run[0].outcome);
      assert next == history + Names(first);
      assert forall i :: 0 <= i < |run[1..]| ==> run[1..][i] == run[i + 1];
      LoadMoreAccumulates(next, run[1..]);
      var rest := AllGenerated(run[1..]);
      assert AllGenerated(run) == first + rest;
      NamesConcat(first, rest);
      var a, b := Names(first), Names(rest);
      ConcatAssoc(history, a, b);
    }
  }

  /** After a fresh search followed by any number of "load more" requests,
      the history holds exactly the names of the workouts generated since
      that fresh search, whatever it held before. */
  lemma SinceLastFreshSearch(history: seq<string>, run: seq<Request>)
    requires |run| > 0 && !run[0].isNewBatch
    requires forall i :: 1 <= i < |run| ==> run[i].isNewBatch
    ensures HistoryAfterRun(history, run) == Names(AllGenerated(run))
  {
    var first := if run[0].outcome.Generated? then run[0].outcome.result else [];
    var next := HistoryAfter(false, history, run[0].outcome);
    assert next == Names(first);
    LoadMoreAccumulates(next, run[1..]);
    NamesConcat(first, AllGenerated(run[1..]));
  }
}
