/** The storage layer as the commands of src-tauri/src/main.rs run it, one
    statement after another, against a database whose tables are the fields of
    one object. Each command first opens the database, which runs
    migrate_database; a failed migration is the command's error, otherwise
    the command's statements run. Each is proved to have exactly the row-level
    effect of its function in `Statements`; the properties of those functions
    are proved in the lemma modules. */
module Database {
  import opened Types
  import opened Codec
  import opened Rows
  import opened Statements
  import opened Invariant
  import opened Query

  class Database {
    var version: Option<int>
    var legacyTable: bool
    var legacyPayload: Option<Json<Snapshot>>
    var suites: map<string, SuiteRow>
    var cases: map<string, CaseRow>
    var runs: map<string, RunRow>
    var results: seq<ResultRow>
    var appState: Option<AppState>

    /** The tables as one value. */
    function State(): Store
      reads this
    {
      Store(version, legacyTable, legacyPayload, suites, cases, runs, results, appState)
    }

    ghost predicate Valid()
      reads this
    {
      Inv(State())
    }

    /** A database file before its first migration: no version row, no
        normalized rows, and possibly the legacy snapshot table. */
    constructor (legacyTable: bool, legacyPayload: Option<Json<Snapshot>>)
      requires legacyPayload.Some? ==> legacyTable
      ensures Valid()
      ensures State() == Store(None, legacyTable, legacyPayload, map[], map[], map[], [], None)
    {
      this.version := None;
      this.legacyTable := legacyTable;
      this.legacyPayload := legacyPayload;
      this.suites := map[];
      this.cases := map[];
      this.runs := map[];
      this.results := [];
      this.appState := None;
    }

    // -------------------------------------------------------------------
    // Migration
    // -------------------------------------------------------------------

    /** migrate_database, run by every command when it opens the database. */
    method Migrate() returns (out: Outcome)
      requires Valid()
      modifies this
      ensures Valid()
      ensures (State(), out) == Statements.Migrate(old(State()))
    {
      ghost var st0 := State();
      MigrateKeepsInv(st0);
      var current := if version.Some? then version.value else 0;
      if current < CurrentSchemaVersion {
        var hasOld := legacyTable;
        CreateNormalizedTables();
        if hasOld && current < 2 {
          out := MigrateFromSnapshot();
          if out.Fail? {
            return;
          }
        }
        version := Some(CurrentSchemaVersion);
      }
      out := Pass;
    }

    /** create_normalized_tables: INSERT OR IGNORE of the app_state row. */
    method CreateNormalizedTables()
      modifies this
      ensures State() == Statements.CreateNormalizedTables(old(State()))
    {
      if appState.None? {
        appState := Some(AppState(None, None));
      }
    }

    /** migrate_from_snapshot: copy the legacy document, then drop its table. */
    method MigrateFromSnapshot() returns (out: Outcome)
      modifies this
      ensures (State(), out) == Statements.MigrateFromSnapshot(old(State()))
    {
      match legacyPayload {
        case None =>
          out := Pass;
        case Some(Malformed(_)) =>
          out := Fail(SnapshotParseFailed);
        case Some(Encoded(doc)) =>
          ImportSuiteRows(doc.testSuites);
          ImportRunRows(doc.runs);
          if appState.Some? {
            appState := Some(AppState(doc.activeTestSuiteId, doc.currentRunId));
          }
          legacyTable := false;
          legacyPayload := None;
          out := Pass;
      }
    }

    /** The suite loop of migrate_from_snapshot. */
    method ImportSuiteRows(ss: seq<TestSuite>)
      modifies this
      ensures State() == ImportSuites(old(State()), ss, |ss|)
    {
      ghost var st0 := State();
      for i := 0 to |ss|
        invariant State() == ImportSuites(st0, ss, i)
      {
        var s := ss[i];
        ReplaceSuiteRow(s);
        ImportCaseRows(s.id, s.testCases);
      }
    }

    /** INSERT OR REPLACE of the cases of one legacy suite, case j at sort position j. */
    method ImportCaseRows(sid: string, tcs: seq<TestCase>)
      modifies this
      ensures State() == ImportCases(old(State()), sid, tcs, |tcs|)
    {
      ghost var st0 := State();
      for j := 0 to |tcs|
        invariant State() == ImportCases(st0, sid, tcs, j)
      {
        cases := cases[tcs[j].id := CaseRowOf(sid, tcs[j], j)];
      }
    }

    /** The run loop of migrate_from_snapshot. */
    method ImportRunRows(rs: seq<RunResult>)
      modifies this
      ensures State() == ImportRuns(old(State()), rs, |rs|)
    {
      ghost var st0 := State();
      for i := 0 to |rs|
        invariant State() == ImportRuns(st0, rs, i)
      {
        var r := rs[i];
        ReplaceRunRow(r);
        InsertResults(r.id, r.results);
      }
    }

    /** INSERT OR REPLACE INTO test_suites. */
    method ReplaceSuiteRow(s: TestSuite)
      modifies this
      ensures State() == ReplaceSuite(old(State()), s)
    {
      if s.id in suites {
        cases := CasesNotIn(cases, {s.id});
      }
      suites := suites[s.id := SuiteRowOf(s)];
    }

    /** INSERT OR REPLACE INTO runs. */
    method ReplaceRunRow(r: RunResult)
      modifies this
      ensures State() == ReplaceRun(old(State()), r)
    {
      if r.id in runs {
        results := ResultsNotIn(results, {r.id});
      }
      runs := runs[r.id := RunRowOf(r)];
    }

    /** The loop of plain INSERT INTO test_case_results for one run. */
    method InsertResults(runId: string, rs: seq<TestCaseResult>)
      modifies this
      ensures State() == AppendResults(old(State()), runId, rs)
    {
      ghost var st0 := State();
      for k := 0 to |rs|
        invariant State() == AppendResults(st0, runId, rs[..k])
      {
        ResultRowsSnoc(runId, rs, k);
        results := results + [ResultRowOf(runId, rs[k])];
      }
      assert rs[..|rs|] == rs;
    }

    // -------------------------------------------------------------------
    // Suites
    // -------------------------------------------------------------------

    /** get_test_cases_for_suite. */
    method GetTestCasesForSuite(sid: string) returns (list: seq<TestCase>)
      ensures CaseListing(cases, sid, list)
    {
      var rank := map c | c in cases && cases[c].testSuiteId == sid :: cases[c].sortOrder;
      assert rank.Keys == CaseKeysOf(cases, sid);
      var ids := OrderBy(rank, false);
      list := [];
      for k := 0 to |ids|
        invariant |list| == k
        invariant forall i :: 0 <= i < k ==> list[i] == CaseView(ids[i], cases[ids[i]])
      {
        list := list + [CaseView(ids[k], cases[ids[k]])];
      }
      assert CaseIds(list) == ids;
    }

    /** get_all_test_suites_internal: the suite listing on an open connection. */
    method SelectSuites() returns (list: seq<TestSuite>)
      ensures SuiteListing(State(), list)
    {
      var rank := map id | id in suites :: suites[id].updatedAt;
      var ids := OrderBy(rank, true);
      list := [];
      for k := 0 to |ids|
        invariant |list| == k
        invariant forall i :: 0 <= i < k ==>
                    && list[i].id == ids[i]
                    && list[i] == SuiteView(ids[i], suites[ids[i]], list[i].testCases)
                    && CaseListing(cases, ids[i], list[i].testCases)
      {
        var tcs := GetTestCasesForSuite(ids[k]);
        list := list + [SuiteView(ids[k], suites[ids[k]], tcs)];
      }
      SuiteListingOf(State(), rank, ids, list);
    }

    /** get_all_test_suites: open (and so migrate) the database, then list the
        suites as get_all_test_suites_internal does. */
    method ListSuites() returns (out: Outcome, list: seq<TestSuite>)
      requires Valid()
      modifies this
      ensures Valid()
      ensures (State(), out) == Statements.Migrate(old(State()))
      ensures out.Pass? ==> SuiteListing(State(), list)
    {
      list := [];
      out := Migrate();
      if out.Pass? {
        list := SelectSuites();
      }
    }

    /** save_test_suite: open the database, then run its statements. */
    method SaveTestSuite(s: TestSuite) returns (out: Outcome)
      requires Valid()
      modifies this
      ensures Valid()
      ensures var migrated := Statements.Migrate(old(State()));
        (State(), out) == if migrated.1.Fail? then migrated else SaveSuite(migrated.0, s)
    {
      out := Migrate();
      if out.Pass? {
        out := SaveSuiteRows(s);
      }
    }

    /** The statements of save_test_suite on an open connection. */
    method SaveSuiteRows(s: TestSuite) returns (out: Outcome)
      requires Valid()
      modifies this
      ensures Valid()
      ensures (State(), out) == SaveSuite(old(State()), s)
    {
      SaveSuiteKeepsInv(State(), s);
      if s.id in suites {
        suites := suites[s.id := SuiteRowOf(s).(createdAt := suites[s.id].createdAt)];
      } else {
        suites := suites[s.id := SuiteRowOf(s)];
      }
      cases := CasesNotIn(cases, {s.id});
      ghost var base := State();
      out := Pass;
      for idx := 0 to |s.testCases|
        invariant (State(), out) == InsertCases(base, s.id, s.testCases, idx)
        invariant out == Pass
      {
        var tc := s.testCases[idx];
        if tc.id in cases {
          out := Fail(UniqueViolation(tc.id));
          InsertCasesStuck(base, s.id, s.testCases, idx + 1, |s.testCases|);
          return;
        }
        cases := cases[tc.id := CaseRowOf(s.id, tc, idx)];
      }
    }

    /** Once an insert has failed, the rest of the loop is not run. */
    static lemma {:induction false} InsertCasesStuck(st: Store, sid: string, tcs: seq<TestCase>, k: nat, n: nat)
      requires k <= n <= |tcs|
      requires InsertCases(st, sid, tcs, k).1.Fail?
      ensures InsertCases(st, sid, tcs, n) == InsertCases(st, sid, tcs, k)
      decreases n
    {
      if n > k {
        InsertCasesStuck(st, sid, tcs, k, n - 1);
      }
    }

    /** DELETE FROM test_suites for the stored ids in `gone`, with the cascade. */
    method DeleteSuiteRows(gone: set<string>)
      requires Valid()
      modifies this
      ensures Valid()
      ensures State() == DeleteSuites(old(State()), gone)
    {
      DeleteSuitesKeepsInv(State(), gone);
      var g := gone * suites.Keys;
      suites := suites - g;
      cases := CasesNotIn(cases, g);
    }

    /** delete_test_suite: open the database, then delete the suite. */
    method DeleteTestSuite(id: string) returns (out: Outcome)
      requires Valid()
      modifies this
      ensures Valid()
      ensures var migrated := Statements.Migrate(old(State()));
        (State(), out) == if migrated.1.Fail? then migrated else (DeleteSuites(migrated.0, {id}), Pass)
    {
      out := Migrate();
      if out.Pass? {
        DeleteSuiteRows({id});
      }
    }

    // -------------------------------------------------------------------
    // Runs
    // -------------------------------------------------------------------

    /** get_results_for_run: the run's rows, taken in stored (rowid) order,
        which the model assumes for a SELECT without ORDER BY. */
    method GetResultsForRun(runId: string) returns (list: seq<TestCaseResult>)
      ensures list == ResultViews(ResultsOfRun(results, runId))
    {
      list := [];
      for k := 0 to |results|
        invariant list == ResultViews(ResultsOfRun(results[..k], runId))
      {
        assert results[..k + 1][..k] == results[..k];
        if results[k].runId == runId {
          list := list + [ResultView(results[k])];
        }
      }
      assert results[..|results|] == results;
    }

    /** get_all_runs_internal: the run listing on an open connection. */
    method SelectRuns() returns (list: seq<RunResult>)
      ensures RunListing(State(), list)
    {
      var rank := map id | id in runs :: runs[id].startedAt;
      var ids := OrderBy(rank, true);
      list := [];
      for k := 0 to |ids|
        invariant |list| == k
        invariant forall i :: 0 <= i < k ==>
                    && list[i].id == ids[i]
                    && list[i] == RunView(ids[i], runs[ids[i]], ResultViews(ResultsOfRun(results, ids[i])))
      {
        var rs := GetResultsForRun(ids[k]);
        list := list + [RunView(ids[k], runs[ids[k]], rs)];
      }
      RunListingOf(State(), rank, ids, list);
    }

    /** get_all_runs: open (and so migrate) the database, then list the runs
        as get_all_runs_internal does. */
    method ListRuns() returns (out: Outcome, list: seq<RunResult>)
      requires Valid()
      modifies this
      ensures Valid()
      ensures (State(), out) == Statements.Migrate(old(State()))
      ensures out.Pass? ==> RunListing(State(), list)
    {
      list := [];
      out := Migrate();
      if out.Pass? {
        list := SelectRuns();
      }
    }

    /** save_run: open the database, then run its statements. */
    method SaveRun(run: RunResult) returns (out: Outcome)
      requires Valid()
      modifies this
      ensures Valid()
      ensures var migrated := Statements.Migrate(old(State()));
        (State(), out) == if migrated.1.Fail? then migrated else (Statements.SaveRun(migrated.0, run), Pass)
    {
      out := Migrate();
      if out.Pass? {
        SaveRunRows(run);
      }
    }

    /** The statements of save_run on an open connection. */
    method SaveRunRows(run: RunResult)
      requires Valid()
      modifies this
      ensures Valid()
      ensures State() == Statements.SaveRun(old(State()), run)
    {
      SaveRunKeepsInv(State(), run);
      if run.id in runs {
        runs := runs[run.id := runs[run.id].(status := run.status, completedAt := run.completedAt)];
      } else {
        runs := runs[run.id := RunRowOf(run)];
      }
      results := ResultsNotIn(results, {run.id});
      InsertResults(run.id, run.results);
    }

    /** DELETE FROM runs for the stored ids in `gone`, with the cascade. */
    method DeleteRunRows(gone: set<string>)
      requires Valid()
      modifies this
      ensures Valid()
      ensures State() == DeleteRuns(old(State()), gone)
    {
      DeleteRunsKeepsInv(State(), gone);
      var g := gone * runs.Keys;
      runs := runs - g;
      results := ResultsNotIn(results, g);
    }

    /** delete_run: open the database, then delete the run. */
    method DeleteRun(id: string) returns (out: Outcome)
      requires Valid()
      modifies this
      ensures Valid()
      ensures var migrated := Statements.Migrate(old(State()));
        (State(), out) == if migrated.1.Fail? then migrated else (DeleteRuns(migrated.0, {id}), Pass)
    {
      out := Migrate();
      if out.Pass? {
        DeleteRunRows({id});
      }
    }

    // -------------------------------------------------------------------
    // App state
    // -------------------------------------------------------------------

    /** The app_state row as get_app_state and read_snapshot read it: two
        absent ids when there is no row. */
    function StoredAppState(): (a: AppState)
      reads this
      ensures a == AppStateOrDefault(State())
    {
      if appState.Some? then appState.value else AppState(None, None)
    }

    /** get_app_state: open the database, then read the row. */
    method GetAppState() returns (out: Outcome, a: AppState)
      requires Valid()
      modifies this
      ensures Valid()
      ensures (State(), out) == Statements.Migrate(old(State()))
      ensures out.Pass? ==> a == AppStateOrDefault(State())
    {
      a := AppState(None, None);
      out := Migrate();
      if out.Pass? {
        a := StoredAppState();
      }
    }

    /** save_app_state: open the database, then upsert the row; afterwards
        the row holds exactly `state`. */
    method SaveAppState(state: AppState) returns (out: Outcome)
      requires Valid()
      modifies this
      ensures Valid()
      ensures var migrated := Statements.Migrate(old(State()));
        (State(), out) == if migrated.1.Fail? then migrated else (Statements.SaveAppState(migrated.0, state), Pass)
      ensures out.Pass? ==> StoredAppState() == state
    {
      out := Migrate();
      if out.Pass? {
        appState := Some(state);
      }
    }

    // -------------------------------------------------------------------
    // Snapshot facade
    // -------------------------------------------------------------------

    /** read_snapshot: open the database, then put the two listings and the
        app-state ids in one document stamped with version 2 and the clock
        reading `now`. A failed migration is the command's error. */
    method ReadSnapshot(now: int) returns (out: Outcome, doc: Option<Snapshot>)
      requires Valid()
      modifies this
      ensures Valid()
      ensures (State(), out) == Statements.Migrate(old(State()))
      ensures out.Fail? ==> doc.None?
      ensures out.Pass? ==>
        && doc.Some?
        && doc.value.version == CurrentSchemaVersion && doc.value.updatedAt == now
        && SuiteListing(State(), doc.value.testSuites)
        && RunListing(State(), doc.value.runs)
        && AppState(doc.value.activeTestSuiteId, doc.value.currentRunId) == AppStateOrDefault(State())
    {
      doc := None;
      out := Migrate();
      if out.Fail? {
        return;
      }
      var testSuites := SelectSuites();
      var runList := SelectRuns();
      var state := StoredAppState();
      doc := Some(Snapshot(CurrentSchemaVersion, now, testSuites, runList,
                           state.activeTestSuiteId, state.currentRunId));
    }

    /** write_snapshot: open the database, then run its statements. */
    method WriteSnapshot(doc: Snapshot) returns (out: Outcome)
      requires Valid()
      modifies this
      ensures Valid()
      ensures var migrated := Statements.Migrate(old(State()));
        (State(), out) == if migrated.1.Fail? then migrated else Statements.WriteSnapshot(migrated.0, doc)
    {
      out := Migrate();
      if out.Pass? {
        out := WriteSnapshotRows(doc);
      }
    }

    /** The statements of write_snapshot on an open connection. */
    method WriteSnapshotRows(doc: Snapshot) returns (out: Outcome)
      requires Valid()
      modifies this
      ensures Valid()
      ensures (State(), out) == Statements.WriteSnapshot(old(State()), doc)
    {
      out := WriteSuiteList(doc.testSuites);
      if out.Fail? {
        return;
      }
      PruneSuiteRows(SuiteIds(doc.testSuites));
      WriteRunList(doc.runs);
      PruneRunRows(RunIds(doc.runs));
      if appState.Some? {
        appState := Some(AppState(doc.activeTestSuiteId, doc.currentRunId));
      }
    }

    /** The suite loop of write_snapshot. */
    method WriteSuiteList(ss: seq<TestSuite>) returns (out: Outcome)
      requires Valid()
      modifies this
      ensures Valid()
      ensures (State(), out) == WriteSuites(old(State()), ss, |ss|)
    {
      ghost var st0 := State();
      out := Pass;
      for i := 0 to |ss|
        invariant Valid()
        invariant (State(), out) == WriteSuites(st0, ss, i)
        invariant out == Pass
      {
        out := SaveSuiteRows(ss[i]);
        if out.Fail? {
          WriteSuitesStuck(st0, ss, i + 1, |ss|);
          return;
        }
      }
    }

    /** "Delete suites not in snapshot". */
    method PruneSuiteRows(ids: seq<string>)
      requires Valid()
      modifies this
      ensures Valid()
      ensures State() == PruneSuites(old(State()), ids)
    {
      if |ids| > 0 {
        DeleteSuiteRows(set id | id in suites && id !in ids);
      } else {
        DeleteSuiteRows(suites.Keys);
      }
    }

    /** The run loop of write_snapshot. */
    method WriteRunList(rs: seq<RunResult>)
      requires Valid()
      modifies this
      ensures Valid()
      ensures State() == WriteRuns(old(State()), rs, |rs|)
    {
      ghost var st0 := State();
      for i := 0 to |rs|
        invariant Valid()
        invariant State() == WriteRuns(st0, rs, i)
      {
        SaveRunRows(rs[i]);
      }
    }

    /** "Delete runs not in snapshot". */
    method PruneRunRows(ids: seq<string>)
      requires Valid()
      modifies this
      ensures Valid()
      ensures State() == PruneRuns(old(State()), ids)
    {
      if |ids| > 0 {
        DeleteRunRows(set id | id in runs && id !in ids);
      } else {
        DeleteRunRows(runs.Keys);
      }
    }

    /** Once a suite save has failed, write_snapshot returns. */
    static lemma {:induction false} WriteSuitesStuck(st: Store, ss: seq<TestSuite>, k: nat, n: nat)
      requires k <= n <= |ss|
      requires WriteSuites(st, ss, k).1.Fail?
      ensures WriteSuites(st, ss, n) == WriteSuites(st, ss, k)
      decreases n
    {
      if n > k {
        WriteSuitesStuck(st, ss, k, n - 1);
      }
    }
  }
}
