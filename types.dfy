/** The records the storage layer exchanges with the user interface
    (src-tauri/src/main.rs, lines 15-112). Floating-point fields are kept as
    `real` values that are stored and compared, never computed with. */
module Types {

  datatype Option<+T> = None | Some(value: T)

  /** The schema generation this build writes (CURRENT_SCHEMA_VERSION). */
  const CurrentSchemaVersion: int := 2

  /** Why a command gave up. */
  datatype StoreError =
    | SnapshotParseFailed             // the legacy blob does not parse as a snapshot document
    | UniqueViolation(caseId: string) // a plain INSERT met a test case id that is already stored

  /** The `Result<(), String>` of a command. */
  datatype Outcome = Pass | Fail(error: StoreError)

  datatype TestCaseMetadata = TestCaseMetadata(
    category: Option<string>,
    difficulty: Option<string>,
    tags: seq<string>)

  datatype TestCase = TestCase(
    id: string,
    prompt: string,
    expectedOutput: Option<string>,
    scoringMethod: string,
    weight: real,
    metadata: TestCaseMetadata)

  datatype TestSuite = TestSuite(
    id: string,
    name: string,
    description: Option<string>,
    systemPrompt: string,
    judgeSystemPrompt: Option<string>,
    testCases: seq<TestCase>,
    createdAt: int,
    updatedAt: int)

  datatype ScoringResult = ScoringResult(
    score: real,
    confidence: Option<real>,
    notes: Option<string>,
    rawScore: Option<real>,
    maxScore: Option<real>)

  datatype ModelParameters = ModelParameters(
    temperature: real,
    topP: real,
    maxTokens: int,
    frequencyPenalty: real,
    presencePenalty: real)

  datatype TestCaseResult = TestCaseResult(
    testCaseId: string,
    modelId: string,
    response: string,
    tokenCount: Option<int>,
    latencyMs: Option<int>,
    status: string,
    error: Option<string>,
    score: Option<ScoringResult>,
    streamedContent: Option<string>)

  datatype RunResult = RunResult(
    id: string,
    testSuiteId: string,
    testSuiteName: string,
    models: seq<string>,
    parameters: ModelParameters,
    results: seq<TestCaseResult>,
    status: string,
    startedAt: int,
    completedAt: Option<int>,
    judgeModel: Option<string>)

  datatype AppState = AppState(activeTestSuiteId: Option<string>, currentRunId: Option<string>)

  /** The whole-database document of the legacy interface (BenchmakerDb). */
  datatype Snapshot = Snapshot(
    version: int,
    updatedAt: int,
    testSuites: seq<TestSuite>,
    runs: seq<RunResult>,
    activeTestSuiteId: Option<string>,
    currentRunId: Option<string>)

  function SuiteIds(ss: seq<TestSuite>): (ids: seq<string>)
    ensures |ids| == |ss| && forall i :: 0 <= i < |ss| ==> ids[i] == ss[i].id
  {
    seq(|ss|, i requires 0 <= i < |ss| => ss[i].id)
  }

  function RunIds(rs: seq<RunResult>): (ids: seq<string>)
    ensures |ids| == |rs| && forall i :: 0 <= i < |rs| ==> ids[i] == rs[i].id
  {
    seq(|rs|, i requires 0 <= i < |rs| => rs[i].id)
  }

  function CaseIds(tcs: seq<TestCase>): (ids: seq<string>)
    ensures |ids| == |tcs| && forall i :: 0 <= i < |tcs| ==> ids[i] == tcs[i].id
  {
    seq(|tcs|, i requires 0 <= i < |tcs| => tcs[i].id)
  }

  /** No identifier occurs twice. */
  predicate Distinct(ids: seq<string>) {
    forall i, j :: 0 <= i < j < |ids| ==> ids[i] != ids[j]
  }
}
