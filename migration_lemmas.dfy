/** What migrate_database promises: it runs once (a database at version 2 is
    left alone, and running it twice is running it once), a parse failure of
    the legacy blob leaves the version unadvanced, and a legacy document is
    carried completely into the normalized tables before its table is dropped. */
module MigrationLemmas {
  import opened Types
  import opened Codec
  import opened Rows
  import opened Statements
  import opened Invariant
  import opened SuiteLemmas
  import opened RunLemmas

  /** The stored version, 0 when the row is absent. */
  function StoredVersion(st: Store): int {
    if st.version.Some? then st.version.value else 0
  }

  /** At version 2 or later the migration changes nothing. */
  lemma MigrateAtCurrentVersion(st: Store)
    requires StoredVersion(st) >= CurrentSchemaVersion
    ensures Migrate(st) == (st, Pass)
  {
  }

  /** Running the migration twice in a row is the same as running it once,
      whether the first run succeeded or failed. */
  lemma MigrateIdempotent(st: Store)
    ensures Migrate(Migrate(st).0) == Migrate(st)
  {
    if StoredVersion(st) < CurrentSchemaVersion {
      var created := CreateNormalizedTables(st);
      assert CreateNormalizedTables(created) == created;
    }
  }

  /** Below version 2: the migration fails exactly when the legacy table holds
      a blob that does not parse, and then only the app_state row may have been
      seeded; otherwise it ends at version 2 with the app_state row present,
      and the legacy table is gone unless it held no row. */
  lemma MigrateOutcome(st: Store)
    requires StoredVersion(st) < CurrentSchemaVersion
    ensures var (after, out) := Migrate(st);
      && (out.Fail? <==> st.legacyTable && st.legacyPayload.Some? && st.legacyPayload.value.Malformed?)
      && (out.Fail? ==> out == Fail(SnapshotParseFailed) && after == CreateNormalizedTables(st))
      && (out.Fail? ==> after.version == st.version && after.legacyTable && after.suites == st.suites
                        && after.cases == st.cases && after.runs == st.runs && after.results == st.results)
      && (out == Pass ==> after.version == Some(CurrentSchemaVersion) && after.appState.Some?)
      && (out == Pass ==> (after.legacyTable <==> st.legacyTable && st.legacyPayload.None?))
      && (!st.legacyTable || st.legacyPayload.None? ==>
            after == CreateNormalizedTables(st).(version := Some(CurrentSchemaVersion)))
  {
    if st.legacyTable && st.legacyPayload.Some? && st.legacyPayload.value.Encoded? {
      ImportLegacyFrame(CreateNormalizedTables(st), st.legacyPayload.value.value);
    }
  }

  /** Copying a legacy document keeps the version and an app_state row, and
      drops the legacy table. */
  lemma ImportLegacyFrame(st: Store, doc: Snapshot)
    ensures ImportLegacy(st, doc).version == st.version
    ensures ImportLegacy(st, doc).appState.Some? <==> st.appState.Some?
    ensures !ImportLegacy(st, doc).legacyTable
  {
    ImportSuitesFrameAny(st, doc.testSuites, |doc.testSuites|);
    var withSuites := ImportSuites(st, doc.testSuites, |doc.testSuites|);
    ImportRunsFrameAny(withSuites, doc.runs, |doc.runs|);
  }

  lemma {:induction false} ImportSuitesFrameAny(st: Store, ss: seq<TestSuite>, n: nat)
    requires n <= |ss|
    ensures ImportSuites(st, ss, n) ==
      st.(suites := ImportSuites(st, ss, n).suites, cases := ImportSuites(st, ss, n).cases)
  {
    if n > 0 {
      ImportSuitesFrameAny(st, ss, n - 1);
      var s := ss[n - 1];
      ImportCasesOnlyCases(ReplaceSuite(ImportSuites(st, ss, n - 1), s), s.id, s.testCases, |s.testCases|);
    }
  }

  lemma {:induction false} ImportRunsFrameAny(st: Store, rs: seq<RunResult>, n: nat)
    requires n <= |rs|
    ensures ImportRuns(st, rs, n) ==
      st.(runs := ImportRuns(st, rs, n).runs, results := ImportRuns(st, rs, n).results)
  {
    if n > 0 {
      ImportRunsFrameAny(st, rs, n - 1);
    }
  }

  /** Legacy inserts touch only the case table. */
  lemma {:induction false} ImportCasesOnlyCases(st: Store, sid: string, tcs: seq<TestCase>, n: nat)
    requires n <= |tcs|
    ensures ImportCases(st, sid, tcs, n) == st.(cases := ImportCases(st, sid, tcs, n).cases)
  {
    if n > 0 {
      ImportCasesOnlyCases(st, sid, tcs, n - 1);
    }
  }

  /** INSERT OR REPLACE of the first `n` cases adds exactly their ids, each of suite `sid`. */
  lemma {:induction false} ImportCasesKeys(st: Store, sid: string, tcs: seq<TestCase>, n: nat)
    requires n <= |tcs|
    ensures ImportCases(st, sid, tcs, n).cases.Keys == st.cases.Keys + IdsUpTo(tcs, n)
    ensures forall c :: c in IdsUpTo(tcs, n) ==> ImportCases(st, sid, tcs, n).cases[c].testSuiteId == sid
  {
    if n > 0 {
      ImportCasesKeys(st, sid, tcs, n - 1);
      var prev := ImportCases(st, sid, tcs, n - 1).cases;
      var now := ImportCases(st, sid, tcs, n).cases;
      assert now == prev[tcs[n - 1].id := CaseRowOf(sid, tcs[n - 1], n - 1)];
      IdsUpToStep(tcs, n);
    }
  }

  /** ... and leaves every other stored case as it was. */
  lemma {:induction false} ImportCasesKeeps(st: Store, sid: string, tcs: seq<TestCase>, n: nat)
    requires n <= |tcs|
    ensures forall c :: c in st.cases && c !in IdsUpTo(tcs, n) ==>
      c in ImportCases(st, sid, tcs, n).cases && ImportCases(st, sid, tcs, n).cases[c] == st.cases[c]
  {
    if n > 0 {
      ImportCasesKeeps(st, sid, tcs, n - 1);
      ImportCasesKeys(st, sid, tcs, n - 1);
      var prev := ImportCases(st, sid, tcs, n - 1).cases;
      var now := ImportCases(st, sid, tcs, n).cases;
      assert now == prev[tcs[n - 1].id := CaseRowOf(sid, tcs[n - 1], n - 1)];
      IdsUpToStep(tcs, n);
    }
  }

  /** With distinct ids, case i is stored at sort position i. */
  lemma {:induction false} ImportCasesRows(st: Store, sid: string, tcs: seq<TestCase>, n: nat)
    requires n <= |tcs| && Distinct(CaseIds(tcs))
    ensures forall i :: 0 <= i < n ==>
      tcs[i].id in ImportCases(st, sid, tcs, n).cases && ImportCases(st, sid, tcs, n).cases[tcs[i].id] == CaseRowOf(sid, tcs[i], i)
  {
    if n > 0 {
      ImportCasesRows(st, sid, tcs, n - 1);
      var prev := ImportCases(st, sid, tcs, n - 1).cases;
      var now := ImportCases(st, sid, tcs, n).cases;
      assert now == prev[tcs[n - 1].id := CaseRowOf(sid, tcs[n - 1], n - 1)];
      forall i | 0 <= i < n - 1
        ensures tcs[i].id != tcs[n - 1].id
      {
        assert CaseIds(tcs)[i] != CaseIds(tcs)[n - 1];
      }
    }
  }

  lemma IdsUpToAll(tcs: seq<TestCase>, c: string)
    ensures c in IdsUpTo(tcs, |tcs|) <==> c in CaseIds(tcs)
  {
    if c in CaseIds(tcs) {
      var a :| 0 <= a < |tcs| && CaseIds(tcs)[a] == c;
      assert tcs[a].id == c;
    }
  }

  /** A legacy document whose identifiers are unique: suite ids, run ids, and
      case ids within and across suites. */
  ghost predicate UniqueIds(doc: Snapshot) {
    && Distinct(SuiteIds(doc.testSuites))
    && Distinct(RunIds(doc.runs))
    && (forall i :: 0 <= i < |doc.testSuites| ==> OwnCasesDistinct(doc, i))
    && (forall i, j :: 0 <= i < j < |doc.testSuites| ==> SuitesApart(doc, i, j))
  }

  /** The case ids of suite i are distinct. */
  ghost predicate OwnCasesDistinct(doc: Snapshot, i: nat)
    requires i < |doc.testSuites|
  {
    Distinct(CaseIds(doc.testSuites[i].testCases))
  }

  /** Suites i and j share no case id. */
  ghost predicate SuitesApart(doc: Snapshot, i: nat, j: nat)
    requires i < |doc.testSuites| && j < |doc.testSuites|
  {
    Disjoint(doc.testSuites[i], doc.testSuites[j])
  }

  /** No case id of suite `t` is a case id of suite `s`. */
  ghost predicate Disjoint(t: TestSuite, s: TestSuite) {
    forall a :: 0 <= a < |t.testCases| ==> t.testCases[a].id !in CaseIds(s.testCases)
  }

  lemma DisjointSymmetric(t: TestSuite, s: TestSuite)
    requires Disjoint(t, s)
    ensures Disjoint(s, t)
  {
    forall b | 0 <= b < |s.testCases|
      ensures s.testCases[b].id !in CaseIds(t.testCases)
    {
      assert CaseIds(s.testCases)[b] == s.testCases[b].id;
    }
  }

  /** Suite `s` is stored as given, with exactly its cases, case i at position i. */
  ghost predicate SuiteCopied(st: Store, s: TestSuite) {
    && s.id in st.suites
    && st.suites[s.id] == SuiteRowOf(s)
    && SuiteCasesAre(st.cases, s.id, s.testCases)
  }

  /** Run `r` is stored as given, with exactly its results, in order. */
  ghost predicate RunCopied(st: Store, r: RunResult) {
    && r.id in st.runs
    && st.runs[r.id] == RunRowOf(r)
    && ResultsOfRun(st.results, r.id) == ResultRows(r.id, r.results)
  }

  /** INSERT OR REPLACE INTO test_suites leaves no case of that suite behind
      (a stored suite loses its cases by the cascade; a new one had none). */
  lemma ReplaceSuiteClears(prev: Store, s: TestSuite)
    requires Inv(prev)
    ensures forall c :: c in ReplaceSuite(prev, s).cases ==>
      c in prev.cases && ReplaceSuite(prev, s).cases[c] == prev.cases[c] && prev.cases[c].testSuiteId != s.id
  {
  }

  /** The state after importing suite `s` on top of `prev`. */
  function AfterImport(prev: Store, s: TestSuite): Store {
    ImportCases(ReplaceSuite(prev, s), s.id, s.testCases, |s.testCases|)
  }

  /** Importing `s` leaves an already copied suite with other ids copied. */
  lemma SuiteCopiedKept(prev: Store, s: TestSuite, t: TestSuite)
    requires Inv(prev) && SuiteCopied(prev, t) && t.id != s.id
    requires Disjoint(t, s)
    ensures SuiteCopied(AfterImport(prev, s), t)
  {
    var rep := ReplaceSuite(prev, s);
    var tcs := s.testCases;
    ReplaceSuiteClears(prev, s);
    ImportCasesOnlyCases(rep, s.id, tcs, |tcs|);
    ImportCasesKeys(rep, s.id, tcs, |tcs|);
    ImportCasesKeeps(rep, s.id, tcs, |tcs|);
    var after := AfterImport(prev, s).cases;
    forall a | 0 <= a < |t.testCases|
      ensures t.testCases[a].id in after && after[t.testCases[a].id] == CaseRowOf(t.id, t.testCases[a], a)
    {
      var c := t.testCases[a].id;
      IdsUpToAll(tcs, c);
      assert prev.cases[c].testSuiteId == t.id;
    }
    forall c | c in after && after[c].testSuiteId == t.id
      ensures c in CaseIds(t.testCases)
    {
      assert c !in IdsUpTo(tcs, |tcs|);
    }
  }

  /** Importing `s` with distinct case ids leaves `s` copied. */
  lemma SuiteCopiedNew(prev: Store, s: TestSuite)
    requires Inv(prev) && Distinct(CaseIds(s.testCases))
    ensures SuiteCopied(AfterImport(prev, s), s)
  {
    var rep := ReplaceSuite(prev, s);
    var tcs := s.testCases;
    ReplaceSuiteClears(prev, s);
    ImportCasesOnlyCases(rep, s.id, tcs, |tcs|);
    ImportCasesKeys(rep, s.id, tcs, |tcs|);
    ImportCasesKeeps(rep, s.id, tcs, |tcs|);
    ImportCasesRows(rep, s.id, tcs, |tcs|);
    var after := AfterImport(prev, s).cases;
    forall c | c in after && after[c].testSuiteId == s.id
      ensures c in CaseIds(tcs)
    {
      assert c in IdsUpTo(tcs, |tcs|);
      IdsUpToAll(tcs, c);
    }
  }

  /** Suites i and j of a document with unique ids share neither id nor case id. */
  lemma CasesApart(doc: Snapshot, i: nat, j: nat)
    requires UniqueIds(doc) && i < j < |doc.testSuites|
    ensures doc.testSuites[i].id != doc.testSuites[j].id
    ensures Disjoint(doc.testSuites[i], doc.testSuites[j]) && Disjoint(doc.testSuites[j], doc.testSuites[i])
  {
    assert SuiteIds(doc.testSuites)[i] != SuiteIds(doc.testSuites)[j];
    assert SuitesApart(doc, i, j);
    DisjointSymmetric(doc.testSuites[i], doc.testSuites[j]);
  }

  /** After importing the first `n` suites, suite i < n is copied. */
  lemma {:induction false} ImportSuitesCopies(st: Store, doc: Snapshot, n: nat, i: nat)
    requires i < n <= |doc.testSuites| && Inv(st) && UniqueIds(doc)
    ensures SuiteCopied(ImportSuites(st, doc.testSuites, n), doc.testSuites[i])
  {
    if i == n - 1 {
      assert OwnCasesDistinct(doc, i);
      ImportSuitesCopiesLast(st, doc, n);
    } else {
      var ss := doc.testSuites;
      ImportSuitesInv(st, ss, n - 1);
      var prev := ImportSuites(st, ss, n - 1);
      ImportSuitesCopies(st, doc, n - 1, i);
      ImportKeepsCopied(prev, doc, n - 1, i);
      ImportSuitesStep(st, ss, n, prev, ss[i]);
    }
  }

  /** The suite imported last is copied. */
  lemma ImportSuitesCopiesLast(st: Store, doc: Snapshot, n: nat)
    requires 0 < n <= |doc.testSuites| && Inv(st) && Distinct(CaseIds(doc.testSuites[n - 1].testCases))
    ensures SuiteCopied(ImportSuites(st, doc.testSuites, n), doc.testSuites[n - 1])
  {
    var ss := doc.testSuites;
    ImportSuitesInv(st, ss, n - 1);
    var prev := ImportSuites(st, ss, n - 1);
    SuiteCopiedNew(prev, ss[n - 1]);
    ImportSuitesStep(st, ss, n, prev, ss[n - 1]);
  }

  /** The n-th step of the legacy suite loop is `AfterImport`. */
  lemma ImportSuitesStep(st: Store, ss: seq<TestSuite>, n: nat, prev: Store, t: TestSuite)
    requires 0 < n <= |ss| && prev == ImportSuites(st, ss, n - 1) && SuiteCopied(AfterImport(prev, ss[n - 1]), t)
    ensures SuiteCopied(ImportSuites(st, ss, n), t)
  {
  }

  /** The legacy suite loop keeps the invariant. */
  lemma ImportSuitesInv(st: Store, ss: seq<TestSuite>, n: nat)
    requires n <= |ss| && Inv(st)
    ensures Inv(ImportSuites(st, ss, n))
  {
    ImportSuitesFrame(st, ss, n);
  }

  /** Importing suite k keeps an earlier suite i copied. */
  lemma ImportKeepsCopied(prev: Store, doc: Snapshot, k: nat, i: nat)
    requires i < k < |doc.testSuites| && Inv(prev) && UniqueIds(doc)
    requires SuiteCopied(prev, doc.testSuites[i])
    ensures SuiteCopied(AfterImport(prev, doc.testSuites[k]), doc.testSuites[i])
  {
    CasesApart(doc, i, k);
    SuiteCopiedKept(prev, doc.testSuites[k], doc.testSuites[i]);
  }

  /** After INSERT OR REPLACE INTO runs, no result row of that run is left. */
  lemma ReplaceRunClears(prev: Store, r: RunResult)
    requires Inv(prev)
    ensures ResultsOfRun(ReplaceRun(prev, r).results, r.id) == []
  {
    if r.id in prev.runs {
      ResultsOfRunNotIn(prev.results, {r.id}, r.id);
    } else {
      ResultsOfRunNone(prev.results, r.id);
    }
  }

  /** The state after importing run `r` on top of `prev`. */
  function AfterRunImport(prev: Store, r: RunResult): Store {
    AppendResults(ReplaceRun(prev, r), r.id, r.results)
  }

  /** Importing `r` copies it. */
  lemma RunCopiedNew(prev: Store, r: RunResult)
    requires Inv(prev)
    ensures RunCopied(AfterRunImport(prev, r), r)
  {
    ReplaceRunClears(prev, r);
    ClearedThenAppended(ReplaceRun(prev, r), r);
  }

  /** Appending the results of `r` to a state without results of that run
      leaves exactly those results. */
  lemma ClearedThenAppended(rep: Store, r: RunResult)
    requires ResultsOfRun(rep.results, r.id) == []
    ensures ResultsOfRun(AppendResults(rep, r.id, r.results).results, r.id) == ResultRows(r.id, r.results)
  {
    AppendResultsOfRun(rep, r.id, r.results, r.id);
    assert [] + ResultRows(r.id, r.results) == ResultRows(r.id, r.results);
  }

  /** Importing `r` leaves a copied run of another id copied. */
  lemma RunCopiedKept(prev: Store, r: RunResult, t: RunResult)
    requires RunCopied(prev, t) && t.id != r.id
    ensures RunCopied(AfterRunImport(prev, r), t)
  {
    var rep := ReplaceRun(prev, r);
    if r.id in prev.runs {
      ResultsOfRunNotIn(prev.results, {r.id}, t.id);
    }
    assert ResultsOfRun(rep.results, t.id) == ResultsOfRun(prev.results, t.id);
    AppendResultsOfRun(rep, r.id, r.results, t.id);
  }

  /** After importing the first `n` runs, run i < n is copied. */
  lemma ImportRunsInv(st: Store, rs: seq<RunResult>, n: nat)
    requires n <= |rs| && Inv(st)
    ensures Inv(ImportRuns(st, rs, n))
  {
    ImportRunsFrame(st, rs, n);
  }

  lemma {:induction false} ImportRunsCopies(st: Store, rs: seq<RunResult>, n: nat, i: nat)
    requires i < n <= |rs| && Inv(st) && Distinct(RunIds(rs))
    ensures RunCopied(ImportRuns(st, rs, n), rs[i])
  {
    ImportRunsInv(st, rs, n - 1);
    var prev := ImportRuns(st, rs, n - 1);
    var after := AfterRunImport(prev, rs[n - 1]);
    assert ImportRuns(st, rs, n) == after;
    if i == n - 1 {
      RunCopiedNew(prev, rs[i]);
    } else {
      ImportRunsCopies(st, rs, n - 1, i);
      assert RunIds(rs)[i] != RunIds(rs)[n - 1];
      RunCopiedKept(prev, rs[n - 1], rs[i]);
    }
    assert RunCopied(after, rs[i]);
  }

  /** What the copy of a legacy document leaves in the tables. */
  lemma ImportLegacyCopies(created: Store, doc: Snapshot)
    requires Inv(created) && created.appState.Some? && UniqueIds(doc)
    ensures var after := ImportLegacy(created, doc);
      && after.version == created.version
      && !after.legacyTable && after.legacyPayload.None?
      && (forall i :: 0 <= i < |doc.testSuites| ==> SuiteCopied(after, doc.testSuites[i]))
      && (forall i :: 0 <= i < |doc.runs| ==> RunCopied(after, doc.runs[i]))
      && after.appState == Some(AppState(doc.activeTestSuiteId, doc.currentRunId))
  {
    var withSuites := ImportSuites(created, doc.testSuites, |doc.testSuites|);
    var withRuns := ImportRuns(withSuites, doc.runs, |doc.runs|);
    var after := ImportLegacy(created, doc);
    ImportSuitesFrame(created, doc.testSuites, |doc.testSuites|);
    ImportRunsFrame(withSuites, doc.runs, |doc.runs|);
    assert after.suites == withSuites.suites && after.cases == withSuites.cases;
    assert after.runs == withRuns.runs && after.results == withRuns.results;
    forall i | 0 <= i < |doc.testSuites|
      ensures SuiteCopied(after, doc.testSuites[i])
    {
      ImportSuitesCopies(created, doc, |doc.testSuites|, i);
    }
    forall i | 0 <= i < |doc.runs|
      ensures RunCopied(after, doc.runs[i])
    {
      ImportRunsCopies(withSuites, doc.runs, |doc.runs|, i);
    }
  }

  /** A database below version 2 whose legacy table holds a parsable document
      with unique ids: the migration succeeds, every legacy suite (with its
      cases at positions 0..n-1), run (with its results) and app-state id
      is in the normalized tables, and the legacy table is dropped. */
  lemma LegacyCopied(st: Store, doc: Snapshot)
    requires Inv(st) && StoredVersion(st) < CurrentSchemaVersion
    requires st.legacyTable && st.legacyPayload == Some(Encoded(doc))
    requires UniqueIds(doc)
    ensures var (after, out) := Migrate(st);
      && out == Pass
      && after.version == Some(CurrentSchemaVersion)
      && !after.legacyTable && after.legacyPayload.None?
      && (forall i :: 0 <= i < |doc.testSuites| ==> SuiteCopied(after, doc.testSuites[i]))
      && (forall i :: 0 <= i < |doc.runs| ==> RunCopied(after, doc.runs[i]))
      && after.appState == Some(AppState(doc.activeTestSuiteId, doc.currentRunId))
  {
    var created := CreateNormalizedTables(st);
    MigrateEncoded(st, doc);
    ImportLegacyCopies(created, doc);
    VersionKeepsCopies(ImportLegacy(created, doc), doc, Some(CurrentSchemaVersion));
  }

  /** Below version 2 with a decodable legacy row, the migration is the
      legacy import followed by recording version 2. */
  lemma MigrateEncoded(st: Store, doc: Snapshot)
    requires StoredVersion(st) < CurrentSchemaVersion
    requires st.legacyTable && st.legacyPayload == Some(Encoded(doc))
    ensures Migrate(st) == (ImportLegacy(CreateNormalizedTables(st), doc).(version := Some(CurrentSchemaVersion)), Pass)
  {
  }

  /** Recording a version changes no copied row. */
  lemma VersionKeepsCopies(copied: Store, doc: Snapshot, v: Option<int>)
    requires forall i :: 0 <= i < |doc.testSuites| ==> SuiteCopied(copied, doc.testSuites[i])
    requires forall i :: 0 <= i < |doc.runs| ==> RunCopied(copied, doc.runs[i])
    ensures forall i :: 0 <= i < |doc.testSuites| ==> SuiteCopied(copied.(version := v), doc.testSuites[i])
    ensures forall i :: 0 <= i < |doc.runs| ==> RunCopied(copied.(version := v), doc.runs[i])
  {
    forall i | 0 <= i < |doc.testSuites|
      ensures SuiteCopied(copied.(version := v), doc.testSuites[i])
    {
      assert SuiteCopied(copied, doc.testSuites[i]);
    }
  }
}
