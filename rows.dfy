/** The six tables of the normalized schema (src-tauri/src/main.rs, lines
    141-263) as rows, the whole database as one value, and the conversions
    between records and rows used by the write and read paths. */
module Rows {
  import opened Types
  import opened Codec

  /** A `test_suites` row; its id is the key of the map that holds it. */
  datatype SuiteRow = SuiteRow(
    name: string,
    description: Option<string>,
    systemPrompt: string,
    judgeSystemPrompt: Option<string>,
    createdAt: int,
    updatedAt: int)

  /** A `test_cases` row, keyed by the case id. */
  datatype CaseRow = CaseRow(
    testSuiteId: string,
    prompt: string,
    expectedOutput: Option<string>,
    scoringMethod: string,
    weight: real,
    category: Option<string>,
    difficulty: Option<string>,
    tags: Json<seq<string>>,
    sortOrder: int)

  /** A `runs` row, keyed by the run id. */
  datatype RunRow = RunRow(
    testSuiteId: string,
    testSuiteName: string,
    models: Json<seq<string>>,
    parameters: Json<ModelParameters>,
    status: string,
    startedAt: int,
    completedAt: Option<int>,
    judgeModel: Option<string>)

  /** A `test_case_results` row. The table's key is an autoincrement surrogate,
      so rows are kept as a sequence in insertion order. */
  datatype ResultRow = ResultRow(
    runId: string,
    testCaseId: string,
    modelId: string,
    response: string,
    tokenCount: Option<int>,
    latencyMs: Option<int>,
    status: string,
    error: Option<string>,
    score: Option<Json<ScoringResult>>,
    streamedContent: Option<string>)

  /** The database file: the `schema_version` row (absent before the first
      migration), the legacy `benchmaker_snapshot` table (whether it exists, and
      its row 1 if it has one), the normalized tables and the `app_state` row. */
  datatype Store = Store(
    version: Option<int>,
    legacyTable: bool,
    legacyPayload: Option<Json<Snapshot>>,
    suites: map<string, SuiteRow>,
    cases: map<string, CaseRow>,
    runs: map<string, RunRow>,
    results: seq<ResultRow>,
    appState: Option<AppState>)

  // ---------------------------------------------------------------------
  // Read path: rows to records, with the decode fallbacks
  // ---------------------------------------------------------------------

  /** A case as get_test_cases_for_suite builds it; undecodable tags read as []. */
  function CaseView(id: string, row: CaseRow): (tc: TestCase)
    ensures tc.id == id && tc.prompt == row.prompt && tc.weight == row.weight
    ensures row.tags.Malformed? ==> tc.metadata.tags == []
  {
    TestCase(id, row.prompt, row.expectedOutput, row.scoringMethod, row.weight,
             TestCaseMetadata(row.category, row.difficulty, DecodeOr(row.tags, [])))
  }

  function SuiteView(id: string, row: SuiteRow, tcs: seq<TestCase>): (s: TestSuite)
    ensures s.id == id && s.testCases == tcs
    ensures s.createdAt == row.createdAt && s.updatedAt == row.updatedAt
  {
    TestSuite(id, row.name, row.description, row.systemPrompt, row.judgeSystemPrompt,
              tcs, row.createdAt, row.updatedAt)
  }

  /** A result as get_results_for_run builds it; a score that is absent or does
      not decode reads as None. */
  function ResultView(row: ResultRow): (r: TestCaseResult)
    ensures row.score.None? ==> r.score.None?
    ensures row.score.Some? && row.score.value.Malformed? ==> r.score.None?
  {
    TestCaseResult(row.testCaseId, row.modelId, row.response, row.tokenCount, row.latencyMs,
                   row.status, row.error,
                   if row.score.Some? then Decode(row.score.value) else None,
                   row.streamedContent)
  }

  function ResultViews(rows: seq<ResultRow>): (rs: seq<TestCaseResult>)
    ensures |rs| == |rows| && forall i :: 0 <= i < |rows| ==> rs[i] == ResultView(rows[i])
  {
    seq(|rows|, i requires 0 <= i < |rows| => ResultView(rows[i]))
  }

  /** A run as get_all_runs builds it: undecodable models read as [],
      undecodable parameters as DefaultParameters(). */
  function RunView(id: string, row: RunRow, rs: seq<TestCaseResult>): (r: RunResult)
    ensures r.id == id && r.results == rs && r.startedAt == row.startedAt
    ensures row.models.Malformed? ==> r.models == []
    ensures row.parameters.Malformed? ==> r.parameters == DefaultParameters()
  {
    RunResult(id, row.testSuiteId, row.testSuiteName, DecodeOr(row.models, []),
              DecodeOr(row.parameters, DefaultParameters()), rs, row.status,
              row.startedAt, row.completedAt, row.judgeModel)
  }

  // ---------------------------------------------------------------------
  // Write path: records to rows; each is undone by the matching view
  // ---------------------------------------------------------------------

  function SuiteRowOf(s: TestSuite): (row: SuiteRow)
    ensures SuiteView(s.id, row, s.testCases) == s
  {
    SuiteRow(s.name, s.description, s.systemPrompt, s.judgeSystemPrompt, s.createdAt, s.updatedAt)
  }

  /** A suite row read and written back is the same row: no column of
      test_suites has a read fallback. */
  lemma SuiteRowOfView(id: string, row: SuiteRow, tcs: seq<TestCase>)
    ensures SuiteRowOf(SuiteView(id, row, tcs)) == row
  {
  }

  /** The row inserted for case `tc` at position `idx` of suite `sid`. */
  function CaseRowOf(sid: string, tc: TestCase, idx: int): (row: CaseRow)
    ensures row.testSuiteId == sid && row.sortOrder == idx
    ensures CaseView(tc.id, row) == tc
  {
    CaseRow(sid, tc.prompt, tc.expectedOutput, tc.scoringMethod, tc.weight,
            tc.metadata.category, tc.metadata.difficulty, Encode(tc.metadata.tags), idx)
  }

  function RunRowOf(r: RunResult): (row: RunRow)
    ensures RunView(r.id, row, r.results) == r
  {
    RunRow(r.testSuiteId, r.testSuiteName, Encode(r.models), Encode(r.parameters),
           r.status, r.startedAt, r.completedAt, r.judgeModel)
  }

  function ResultRowOf(runId: string, r: TestCaseResult): (row: ResultRow)
    ensures row.runId == runId
    ensures ResultView(row) == r
  {
    ResultRow(runId, r.testCaseId, r.modelId, r.response, r.tokenCount, r.latencyMs,
              r.status, r.error,
              if r.score.Some? then Some(Encode(r.score.value)) else None,
              r.streamedContent)
  }

  /** The rows inserted for a run's result list, in list order. */
  function ResultRows(runId: string, rs: seq<TestCaseResult>): (rows: seq<ResultRow>)
    ensures |rows| == |rs|
    ensures forall i :: 0 <= i < |rs| ==> rows[i] == ResultRowOf(runId, rs[i])
    ensures ResultViews(rows) == rs
  {
    seq(|rs|, i requires 0 <= i < |rs| => ResultRowOf(runId, rs[i]))
  }

  /** The result rows of one more result. */
  lemma ResultRowsSnoc(runId: string, rs: seq<TestCaseResult>, k: nat)
    requires k < |rs|
    ensures ResultRows(runId, rs[..k + 1]) == ResultRows(runId, rs[..k]) + [ResultRowOf(runId, rs[k])]
  {
  }
}
