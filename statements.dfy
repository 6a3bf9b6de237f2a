/** The row-level effect of every SQL statement of the storage layer, and of
    each command as the sequence of statements it issues, as functions on the
    database value. Statements run one after another with no transaction: a
    command that fails part-way leaves the effects of the statements before the
    failing one in place. Foreign keys are on, so deleting a parent row (also
    the delete half of INSERT OR REPLACE) deletes its child rows. */
module Statements {
  import opened Types
  import opened Codec
  import opened Rows

  /** What every reachable database satisfies: the two foreign keys hold, a
      legacy row lives in an existing legacy table, and a migrated database has
      its app_state row (the migration seeds it and nothing deletes it). */
  ghost predicate Inv(st: Store) {
    && (forall c :: c in st.cases ==> st.cases[c].testSuiteId in st.suites)
    && (forall x :: x in st.results ==> x.runId in st.runs)
    && (st.legacyPayload.Some? ==> st.legacyTable)
    && (st.version.Some? && st.version.value >= CurrentSchemaVersion ==> st.appState.Some?)
  }

  // ---------------------------------------------------------------------
  // Row filters
  // ---------------------------------------------------------------------

  /** The case rows whose suite is not in `gone`. */
  function CasesNotIn(cases: map<string, CaseRow>, gone: set<string>): map<string, CaseRow> {
    map c | c in cases && cases[c].testSuiteId !in gone :: cases[c]
  }

  /** The result rows whose run is not in `gone`, in stored order. */
  function ResultsNotIn(rs: seq<ResultRow>, gone: set<string>): seq<ResultRow> {
    if rs == [] then []
    else ResultsNotIn(rs[..|rs| - 1], gone) + (if rs[|rs| - 1].runId in gone then [] else [rs[|rs| - 1]])
  }

  /** The delete keeps only stored rows, none of a run in `gone`. */
  lemma {:induction false} ResultsNotInKept(rs: seq<ResultRow>, gone: set<string>)
    ensures forall x :: x in ResultsNotIn(rs, gone) ==> x in rs && x.runId !in gone
  {
    if rs != [] {
      ResultsNotInKept(rs[..|rs| - 1], gone);
    }
  }

  /** `SELECT ... FROM test_case_results WHERE run_id = ?`: the rows of one run,
      in stored order. */
  function ResultsOfRun(rs: seq<ResultRow>, runId: string): seq<ResultRow> {
    if rs == [] then []
    else ResultsOfRun(rs[..|rs| - 1], runId) + (if rs[|rs| - 1].runId == runId then [rs[|rs| - 1]] else [])
  }

  /** The query returns only stored rows of that run. */
  lemma {:induction false} ResultsOfRunKept(rs: seq<ResultRow>, runId: string)
    ensures forall x :: x in ResultsOfRun(rs, runId) ==> x in rs && x.runId == runId
  {
    if rs != [] {
      ResultsOfRunKept(rs[..|rs| - 1], runId);
    }
  }

  // ---------------------------------------------------------------------
  // Suites and cases (save_test_suite, delete_test_suite)
  // ---------------------------------------------------------------------

  /** INSERT INTO test_suites ... ON CONFLICT(id) DO UPDATE: a stored suite
      takes every new field except created_at, which it keeps. */
  function UpsertSuite(st: Store, s: TestSuite): Store {
    var row := if s.id in st.suites then SuiteRowOf(s).(createdAt := st.suites[s.id].createdAt)
               else SuiteRowOf(s);
    st.(suites := st.suites[s.id := row])
  }

  /** DELETE FROM test_cases WHERE test_suite_id = ? */
  function DeleteCasesOf(st: Store, sid: string): Store {
    st.(cases := CasesNotIn(st.cases, {sid}))
  }

  /** Plain INSERT INTO test_cases; it fails when the case id is already stored. */
  function InsertCase(st: Store, sid: string, tc: TestCase, idx: int): (Store, Outcome) {
    if tc.id in st.cases then (st, Fail(UniqueViolation(tc.id)))
    else (st.(cases := st.cases[tc.id := CaseRowOf(sid, tc, idx)]), Pass)
  }

  /** The insert loop over the first `n` cases, case i at sort position i;
      it stops at the first failing insert. */
  function InsertCases(st: Store, sid: string, tcs: seq<TestCase>, n: nat): (Store, Outcome)
    requires n <= |tcs|
  {
    if n == 0 then (st, Pass)
    else
      var prev := InsertCases(st, sid, tcs, n - 1);
      if prev.1.Fail? then prev else InsertCase(prev.0, sid, tcs[n - 1], n - 1)
  }

  /** save_test_suite: upsert the suite, delete its cases, insert the new ones. */
  function SaveSuite(st: Store, s: TestSuite): (Store, Outcome) {
    InsertCases(DeleteCasesOf(UpsertSuite(st, s), s.id), s.id, s.testCases, |s.testCases|)
  }

  /** DELETE FROM test_suites for the stored ids in `gone`, cascading to their cases. */
  function DeleteSuites(st: Store, gone: set<string>): Store {
    var g := gone * st.suites.Keys;
    st.(suites := st.suites - g, cases := CasesNotIn(st.cases, g))
  }

  // ---------------------------------------------------------------------
  // Runs and results (save_run, delete_run)
  // ---------------------------------------------------------------------

  /** INSERT INTO runs ... ON CONFLICT(id) DO UPDATE: a stored run takes only
      the new status and completed_at. */
  function UpsertRun(st: Store, r: RunResult): Store {
    var row := if r.id in st.runs then st.runs[r.id].(status := r.status, completedAt := r.completedAt)
               else RunRowOf(r);
    st.(runs := st.runs[r.id := row])
  }

  /** DELETE FROM test_case_results WHERE run_id = ? */
  function DeleteResultsOf(st: Store, runId: string): Store {
    st.(results := ResultsNotIn(st.results, {runId}))
  }

  /** The insert loop over a run's results; these inserts cannot fail. */
  function AppendResults(st: Store, runId: string, rs: seq<TestCaseResult>): Store {
    st.(results := st.results + ResultRows(runId, rs))
  }

  /** save_run: upsert the run, delete its results, insert the new ones. */
  function SaveRun(st: Store, r: RunResult): Store {
    AppendResults(DeleteResultsOf(UpsertRun(st, r), r.id), r.id, r.results)
  }

  /** DELETE FROM runs for the stored ids in `gone`, cascading to their results. */
  function DeleteRuns(st: Store, gone: set<string>): Store {
    var g := gone * st.runs.Keys;
    st.(runs := st.runs - g, results := ResultsNotIn(st.results, g))
  }

  // ---------------------------------------------------------------------
  // App state
  // ---------------------------------------------------------------------

  /** get_app_state: the singleton row, or two absent ids when there is none. */
  function AppStateOrDefault(st: Store): (a: AppState)
    ensures st.appState.None? ==> a == AppState(None, None)
    ensures st.appState.Some? ==> a == st.appState.value
  {
    if st.appState.Some? then st.appState.value else AppState(None, None)
  }

  /** save_app_state: INSERT ... ON CONFLICT(id) DO UPDATE, so the row exists afterwards. */
  function SaveAppState(st: Store, a: AppState): Store {
    st.(appState := Some(a))
  }

  /** UPDATE app_state ... WHERE id = 1: changes the row only if there is one. */
  function UpdateAppState(st: Store, active: Option<string>, current: Option<string>): Store {
    if st.appState.Some? then st.(appState := Some(AppState(active, current))) else st
  }

  // ---------------------------------------------------------------------
  // Migration (migrate_database, create_normalized_tables, migrate_from_snapshot)
  // ---------------------------------------------------------------------

  /** create_normalized_tables: the CREATE TABLE IF NOT EXISTS statements add no
      rows; INSERT OR IGNORE seeds the app_state row when it is missing. */
  function CreateNormalizedTables(st: Store): Store {
    if st.appState.Some? then st else st.(appState := Some(AppState(None, None)))
  }

  /** INSERT OR REPLACE INTO test_suites: a stored row of that id is deleted
      first, which cascades to its cases. */
  function ReplaceSuite(st: Store, s: TestSuite): Store {
    st.(suites := st.suites[s.id := SuiteRowOf(s)],
        cases := if s.id in st.suites then CasesNotIn(st.cases, {s.id}) else st.cases)
  }

  /** INSERT OR REPLACE of the first `n` cases of a legacy suite. */
  function ImportCases(st: Store, sid: string, tcs: seq<TestCase>, n: nat): Store
    requires n <= |tcs|
  {
    if n == 0 then st
    else
      var prev := ImportCases(st, sid, tcs, n - 1);
      prev.(cases := prev.cases[tcs[n - 1].id := CaseRowOf(sid, tcs[n - 1], n - 1)])
  }

  /** The outer legacy loop over the first `n` suites. */
  function ImportSuites(st: Store, ss: seq<TestSuite>, n: nat): Store
    requires n <= |ss|
  {
    if n == 0 then st
    else
      var s := ss[n - 1];
      ImportCases(ReplaceSuite(ImportSuites(st, ss, n - 1), s), s.id, s.testCases, |s.testCases|)
  }

  /** INSERT OR REPLACE INTO runs: a stored row of that id is deleted first,
      which cascades to its results. */
  function ReplaceRun(st: Store, r: RunResult): Store {
    st.(runs := st.runs[r.id := RunRowOf(r)],
        results := if r.id in st.runs then ResultsNotIn(st.results, {r.id}) else st.results)
  }

  /** The legacy loop over the first `n` runs, each followed by plain inserts of its results. */
  function ImportRuns(st: Store, rs: seq<RunResult>, n: nat): Store
    requires n <= |rs|
  {
    if n == 0 then st
    else AppendResults(ReplaceRun(ImportRuns(st, rs, n - 1), rs[n - 1]), rs[n - 1].id, rs[n - 1].results)
  }

  /** Copying a decoded legacy document, then DROP TABLE benchmaker_snapshot. */
  function ImportLegacy(st: Store, doc: Snapshot): Store {
    var withSuites := ImportSuites(st, doc.testSuites, |doc.testSuites|);
    var withRuns := ImportRuns(withSuites, doc.runs, |doc.runs|);
    var withState := UpdateAppState(withRuns, doc.activeTestSuiteId, doc.currentRunId);
    withState.(legacyTable := false, legacyPayload := None)
  }

  /** migrate_from_snapshot: nothing to do without a legacy row; a blob that does
      not parse is an error reported before any row is written. */
  function MigrateFromSnapshot(st: Store): (Store, Outcome) {
    match st.legacyPayload
    case None => (st, Pass)
    case Some(Malformed(_)) => (st, Fail(SnapshotParseFailed))
    case Some(Encoded(doc)) => (ImportLegacy(st, doc), Pass)
  }

  /** migrate_database: below version 2, create the tables, copy a legacy table
      if there is one, and only then record version 2. */
  function Migrate(st: Store): (Store, Outcome) {
    var current := if st.version.Some? then st.version.value else 0;
    if current < CurrentSchemaVersion then
      var hasOld := st.legacyTable;
      var created := CreateNormalizedTables(st);
      var copied := if hasOld && current < 2 then MigrateFromSnapshot(created) else (created, Pass);
      if copied.1.Fail? then copied
      else (copied.0.(version := Some(CurrentSchemaVersion)), Pass)
    else (st, Pass)
  }

  // ---------------------------------------------------------------------
  // Snapshot facade (write_snapshot)
  // ---------------------------------------------------------------------

  /** The suite loop of write_snapshot over the first `n` suites; it stops at
      the first suite whose save fails. */
  function WriteSuites(st: Store, ss: seq<TestSuite>, n: nat): (Store, Outcome)
    requires n <= |ss|
  {
    if n == 0 then (st, Pass)
    else
      var prev := WriteSuites(st, ss, n - 1);
      if prev.1.Fail? then prev else SaveSuite(prev.0, ss[n - 1])
  }

  /** "Delete suites not in snapshot": `DELETE ... WHERE id NOT IN (ids)` for a
      non-empty list, `DELETE FROM test_suites` for an empty one. */
  function PruneSuites(st: Store, ids: seq<string>): Store {
    if |ids| > 0 then DeleteSuites(st, set id | id in st.suites && id !in ids)
    else DeleteSuites(st, st.suites.Keys)
  }

  function WriteRuns(st: Store, rs: seq<RunResult>, n: nat): Store
    requires n <= |rs|
  {
    if n == 0 then st else SaveRun(WriteRuns(st, rs, n - 1), rs[n - 1])
  }

  function PruneRuns(st: Store, ids: seq<string>): Store {
    if |ids| > 0 then DeleteRuns(st, set id | id in st.runs && id !in ids)
    else DeleteRuns(st, st.runs.Keys)
  }

  /** write_snapshot: save every suite, prune suites, save every run, prune
      runs, then UPDATE the app_state row. */
  function WriteSnapshot(st: Store, doc: Snapshot): (Store, Outcome) {
    var suitesWritten := WriteSuites(st, doc.testSuites, |doc.testSuites|);
    if suitesWritten.1.Fail? then suitesWritten
    else
      var pruned := PruneSuites(suitesWritten.0, SuiteIds(doc.testSuites));
      var runsWritten := WriteRuns(pruned, doc.runs, |doc.runs|);
      var runsPruned := PruneRuns(runsWritten, RunIds(doc.runs));
      (UpdateAppState(runsPruned, doc.activeTestSuiteId, doc.currentRunId), Pass)
  }
}
