/** What save_run and delete_run promise: an existing run takes only the new
    status and completed_at, its results are replaced by exactly the supplied
    list, other runs' results are untouched, and a delete cascades to the
    run's results. */
module RunLemmas {
  import opened Types
  import opened Rows
  import opened Statements
  import opened Query

  lemma {:induction false} ResultsOfRunAppend(a: seq<ResultRow>, b: seq<ResultRow>, id: string)
    ensures ResultsOfRun(a + b, id) == ResultsOfRun(a, id) + ResultsOfRun(b, id)
    decreases |b|
  {
    if b != [] {
      assert (a + b)[..|a + b| - 1] == a + b[..|b| - 1];
      ResultsOfRunAppend(a, b[..|b| - 1], id);
    } else {
      assert a + b == a;
    }
  }

  /** Deleting the results of the runs in `gone` empties those runs' result
      lists and leaves every other run's list as it was. */
  lemma {:induction false} ResultsOfRunNotIn(rs: seq<ResultRow>, gone: set<string>, id: string)
    ensures ResultsOfRun(ResultsNotIn(rs, gone), id) == if id in gone then [] else ResultsOfRun(rs, id)
  {
    if rs != [] {
      var front := rs[..|rs| - 1];
      var last := rs[|rs| - 1];
      ResultsOfRunNotIn(front, gone, id);
      ResultsOfRunAppend(ResultsNotIn(front, gone), if last.runId in gone then [] else [last], id);
    }
  }

  lemma {:induction false} ResultsOfRunNone(rs: seq<ResultRow>, id: string)
    requires forall x :: x in rs ==> x.runId != id
    ensures ResultsOfRun(rs, id) == []
  {
    if rs != [] {
      ResultsOfRunNone(rs[..|rs| - 1], id);
    }
  }

  lemma {:induction false} ResultsOfRunAll(rs: seq<ResultRow>, id: string)
    requires forall x :: x in rs ==> x.runId == id
    ensures ResultsOfRun(rs, id) == rs
  {
    if rs != [] {
      ResultsOfRunAll(rs[..|rs| - 1], id);
      assert rs == rs[..|rs| - 1] + [rs[|rs| - 1]];
    }
  }

  /** The result rows of run `id` after appending the rows of run `rid`. */
  lemma AppendResultsOfRun(st: Store, rid: string, rs: seq<TestCaseResult>, id: string)
    ensures ResultsOfRun(AppendResults(st, rid, rs).results, id) ==
              ResultsOfRun(st.results, id) + (if id == rid then ResultRows(rid, rs) else [])
  {
    var rows := ResultRows(rid, rs);
    ResultsOfRunAppend(st.results, rows, id);
    if id == rid {
      ResultsOfRunAll(rows, id);
    } else {
      ResultsOfRunNone(rows, id);
    }
  }

  /** The result table after save_run: the other runs' rows in stored order,
      then the rows of the supplied results. */
  lemma SaveRunResults(st: Store, r: RunResult)
    ensures SaveRun(st, r).results == ResultsNotIn(st.results, {r.id}) + ResultRows(r.id, r.results)
  {
  }

  /** save_run leaves the results of every other run as they were. */
  lemma SaveRunKeepsOtherResults(st: Store, r: RunResult, id: string)
    requires id != r.id
    ensures ResultsOfRun(SaveRun(st, r).results, id) == ResultsOfRun(st.results, id)
  {
    SaveRunResults(st, r);
    var kept := ResultsNotIn(st.results, {r.id});
    var rows := ResultRows(r.id, r.results);
    ResultsOfRunNotIn(st.results, {r.id}, id);
    ResultsOfRunAppend(kept, rows, id);
    ResultsOfRunNone(rows, id);
  }

  /** After save_run the run's results are exactly the supplied ones, in
      order; every other run keeps its results. */
  lemma SaveRunReplacesResults(st: Store, r: RunResult)
    ensures ResultsOfRun(SaveRun(st, r).results, r.id) == ResultRows(r.id, r.results)
    ensures ResultViews(ResultsOfRun(SaveRun(st, r).results, r.id)) == r.results
    ensures forall id :: id != r.id ==> ResultsOfRun(SaveRun(st, r).results, id) == ResultsOfRun(st.results, id)
  {
    SaveRunOwnResults(st, r);
    forall id | id != r.id
      ensures ResultsOfRun(SaveRun(st, r).results, id) == ResultsOfRun(st.results, id)
    {
      SaveRunKeepsOtherResults(st, r, id);
    }
  }

  /** After save_run the run's results are exactly the supplied ones. */
  lemma SaveRunOwnResults(st: Store, r: RunResult)
    ensures ResultsOfRun(SaveRun(st, r).results, r.id) == ResultRows(r.id, r.results)
  {
    SaveRunResults(st, r);
    var kept := ResultsNotIn(st.results, {r.id});
    var rows := ResultRows(r.id, r.results);
    ResultsOfRunNotIn(st.results, {r.id}, r.id);
    ResultsOfRunAppend(kept, rows, r.id);
    ResultsOfRunAll(rows, r.id);
    assert [] + rows == rows;
  }

  /** The run row after save_run: a new run is stored as given; a stored run
      keeps test_suite_id, test_suite_name, models, parameters, started_at and
      judge_model and takes the new status and completed_at. Nothing else
      but its results changes. */
  lemma SaveRunUpsert(st: Store, r: RunResult)
    ensures var after := SaveRun(st, r);
      && after.runs.Keys == st.runs.Keys + {r.id}
      && (r.id !in st.runs ==> after.runs[r.id] == RunRowOf(r))
      && (r.id in st.runs ==>
            after.runs[r.id] == st.runs[r.id].(status := r.status, completedAt := r.completedAt))
      && (forall id :: id in st.runs && id != r.id ==> after.runs[id] == st.runs[id])
      && after.suites == st.suites && after.cases == st.cases && after.appState == st.appState
      && after.version == st.version
  {
  }

  /** save_run followed by get_all_runs: the run is listed once, with exactly
      the supplied results; a new run reads back as given, a stored one with
      its first-stored fields and the new status and completed_at. */
  lemma ListingAfterSaveRun(st: Store, r: RunResult, list: seq<RunResult>)
    requires RunListing(SaveRun(st, r), list)
    ensures exists k :: 0 <= k < |list| && list[k].id == r.id
    ensures forall k :: 0 <= k < |list| && list[k].id == r.id ==>
              && list[k].results == r.results
              && (r.id !in st.runs ==> list[k] == r)
              && (r.id in st.runs ==>
                    list[k] == RunView(r.id, st.runs[r.id], r.results).(status := r.status, completedAt := r.completedAt))
  {
    SaveRunReplacesResults(st, r);
    SaveRunUpsert(st, r);
    assert r.id in RunIds(list);
    var k0 :| 0 <= k0 < |list| && RunIds(list)[k0] == r.id;
  }

  /** delete_run leaves no result of that run, and touches no other run's
      results, no suite and no case. */
  lemma DeleteRunCascades(st: Store, id: string)
    requires Inv(st)
    ensures var after := DeleteRuns(st, {id});
      && id !in after.runs
      && (forall x :: x in after.results ==> x.runId != id)
      && (forall other :: other != id ==> ResultsOfRun(after.results, other) == ResultsOfRun(st.results, other))
      && (forall rid :: rid in st.runs && rid != id ==> rid in after.runs && after.runs[rid] == st.runs[rid])
      && after.suites == st.suites && after.cases == st.cases
  {
    var g := {id} * st.runs.Keys;
    ResultsNotInKept(st.results, g);
    if id in st.runs {
      assert g == {id};
    } else {
      assert g == {};
      forall x | x in ResultsNotIn(st.results, g)
        ensures x.runId != id
      {
        assert x in st.results;
      }
    }
    forall other | other != id
      ensures ResultsOfRun(DeleteRuns(st, {id}).results, other) == ResultsOfRun(st.results, other)
    {
      ResultsOfRunNotIn(st.results, g, other);
    }
  }
}
