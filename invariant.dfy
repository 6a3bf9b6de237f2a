/** Every command keeps the database invariant `Inv`, and the statements
    change only the tables they name. */
module Invariant {
  import opened Types
  import opened Rows
  import opened Statements

  lemma InsertCasesFrame(st: Store, sid: string, tcs: seq<TestCase>, n: nat)
    requires n <= |tcs|
    ensures InsertCases(st, sid, tcs, n).0 == st.(cases := InsertCases(st, sid, tcs, n).0.cases)
    ensures st.cases.Keys <= InsertCases(st, sid, tcs, n).0.cases.Keys
    ensures forall c :: c in InsertCases(st, sid, tcs, n).0.cases && c !in st.cases ==>
              InsertCases(st, sid, tcs, n).0.cases[c].testSuiteId == sid
    ensures forall c :: c in st.cases ==> InsertCases(st, sid, tcs, n).0.cases[c] == st.cases[c]
  {
    InsertCasesOnlyCases(st, sid, tcs, n);
    InsertCasesGrown(st, sid, tcs, n);
  }

  /** The insert loop changes only the case table. */
  lemma {:induction false} InsertCasesOnlyCases(st: Store, sid: string, tcs: seq<TestCase>, n: nat)
    requires n <= |tcs|
    ensures InsertCases(st, sid, tcs, n).0 == st.(cases := InsertCases(st, sid, tcs, n).0.cases)
  {
    if n > 0 {
      InsertCasesOnlyCases(st, sid, tcs, n - 1);
    }
  }

  /** `cases` keeps every row of `base` and adds only rows of suite `sid`. */
  ghost predicate CasesGrown(base: map<string, CaseRow>, cases: map<string, CaseRow>, sid: string) {
    && (forall c :: c in base ==> c in cases && cases[c] == base[c])
    && (forall c :: c in cases && c !in base ==> cases[c].testSuiteId == sid)
  }

  /** The insert loop only adds rows of suite `sid`. */
  lemma {:induction false} InsertCasesGrown(st: Store, sid: string, tcs: seq<TestCase>, n: nat)
    requires n <= |tcs|
    ensures CasesGrown(st.cases, InsertCases(st, sid, tcs, n).0.cases, sid)
  {
    if n > 0 {
      var prev := InsertCases(st, sid, tcs, n - 1);
      InsertCasesGrown(st, sid, tcs, n - 1);
      if prev.1.Pass? && tcs[n - 1].id !in prev.0.cases {
        CasesGrownStep(st.cases, prev.0.cases, sid, tcs[n - 1].id, CaseRowOf(sid, tcs[n - 1], n - 1));
      }
    }
  }

  lemma CasesGrownStep(base: map<string, CaseRow>, prev: map<string, CaseRow>, sid: string, id: string, row: CaseRow)
    requires CasesGrown(base, prev, sid) && id !in prev && row.testSuiteId == sid
    ensures CasesGrown(base, prev[id := row], sid)
  {
  }

  lemma SaveSuiteKeepsInv(st: Store, s: TestSuite)
    requires Inv(st)
    ensures Inv(SaveSuite(st, s).0)
    ensures SaveSuite(st, s).0.runs == st.runs && SaveSuite(st, s).0.results == st.results
    ensures SaveSuite(st, s).0.appState == st.appState && SaveSuite(st, s).0.version == st.version
    ensures SaveSuite(st, s).0.suites.Keys == st.suites.Keys + {s.id}
  {
    var base := DeleteCasesOf(UpsertSuite(st, s), s.id);
    InsertCasesFrame(base, s.id, s.testCases, |s.testCases|);
  }

  lemma DeleteSuitesKeepsInv(st: Store, gone: set<string>)
    requires Inv(st)
    ensures Inv(DeleteSuites(st, gone))
  {
  }

  lemma SaveRunKeepsInv(st: Store, r: RunResult)
    requires Inv(st)
    ensures Inv(SaveRun(st, r))
  {
    var up := UpsertRun(st, r);
    var del := DeleteResultsOf(up, r.id);
    ResultsNotInKept(up.results, {r.id});
    assert Inv(del);
    var rows := ResultRows(r.id, r.results);
    forall x | x in SaveRun(st, r).results
      ensures x.runId in SaveRun(st, r).runs
    {
      if x !in del.results {
        var i :| 0 <= i < |rows| && rows[i] == x;
      }
    }
  }

  lemma DeleteRunsKeepsInv(st: Store, gone: set<string>)
    requires Inv(st)
    ensures Inv(DeleteRuns(st, gone))
  {
    ResultsNotInKept(st.results, gone * st.runs.Keys);
  }

  lemma {:induction false} ImportCasesFrame(st: Store, sid: string, tcs: seq<TestCase>, n: nat)
    requires n <= |tcs|
    requires sid in st.suites && Inv(st)
    ensures ImportCases(st, sid, tcs, n) == st.(cases := ImportCases(st, sid, tcs, n).cases)
    ensures Inv(ImportCases(st, sid, tcs, n))
  {
    if n > 0 {
      ImportCasesFrame(st, sid, tcs, n - 1);
    }
  }

  lemma {:induction false} ImportSuitesFrame(st: Store, ss: seq<TestSuite>, n: nat)
    requires n <= |ss| && Inv(st)
    ensures ImportSuites(st, ss, n) ==
      st.(suites := ImportSuites(st, ss, n).suites, cases := ImportSuites(st, ss, n).cases)
    ensures Inv(ImportSuites(st, ss, n))
  {
    if n > 0 {
      ImportSuitesFrame(st, ss, n - 1);
      var s := ss[n - 1];
      ImportCasesFrame(ReplaceSuite(ImportSuites(st, ss, n - 1), s), s.id, s.testCases, |s.testCases|);
    }
  }

  lemma {:induction false} ImportRunsFrame(st: Store, rs: seq<RunResult>, n: nat)
    requires n <= |rs| && Inv(st)
    ensures ImportRuns(st, rs, n) ==
      st.(runs := ImportRuns(st, rs, n).runs, results := ImportRuns(st, rs, n).results)
    ensures Inv(ImportRuns(st, rs, n))
  {
    if n > 0 {
      ImportRunsFrame(st, rs, n - 1);
      var prev := ImportRuns(st, rs, n - 1);
      var r := rs[n - 1];
      var rep := ReplaceRun(prev, r);
      ResultsNotInKept(prev.results, {r.id});
      assert Inv(rep);
      var rows := ResultRows(r.id, r.results);
      forall x | x in ImportRuns(st, rs, n).results
        ensures x.runId in ImportRuns(st, rs, n).runs
      {
        if x !in rep.results {
          var i :| 0 <= i < |rows| && rows[i] == x;
        }
      }
    }
  }

  lemma ImportLegacyKeepsInv(st: Store, doc: Snapshot)
    requires Inv(st) && st.appState.Some?
    ensures Inv(ImportLegacy(st, doc)) && ImportLegacy(st, doc).appState.Some?
    ensures ImportLegacy(st, doc).version == st.version
  {
    ImportSuitesFrame(st, doc.testSuites, |doc.testSuites|);
    var withSuites := ImportSuites(st, doc.testSuites, |doc.testSuites|);
    ImportRunsFrame(withSuites, doc.runs, |doc.runs|);
  }

  lemma MigrateKeepsInv(st: Store)
    requires Inv(st)
    ensures Inv(Migrate(st).0)
  {
    var created := CreateNormalizedTables(st);
    if created.legacyPayload.Some? && created.legacyPayload.value.Encoded? {
      ImportLegacyKeepsInv(created, created.legacyPayload.value.value);
    }
  }

  lemma {:induction false} WriteSuitesKeepsInv(st: Store, ss: seq<TestSuite>, n: nat)
    requires n <= |ss| && Inv(st)
    ensures Inv(WriteSuites(st, ss, n).0)
    ensures WriteSuites(st, ss, n).0.runs == st.runs && WriteSuites(st, ss, n).0.results == st.results
    ensures WriteSuites(st, ss, n).0.appState == st.appState && WriteSuites(st, ss, n).0.version == st.version
  {
    if n > 0 {
      WriteSuitesKeepsInv(st, ss, n - 1);
      var prev := WriteSuites(st, ss, n - 1);
      if prev.1.Pass? {
        SaveSuiteKeepsInv(prev.0, ss[n - 1]);
      }
    }
  }

  lemma {:induction false} WriteRunsKeepsInv(st: Store, rs: seq<RunResult>, n: nat)
    requires n <= |rs| && Inv(st)
    ensures Inv(WriteRuns(st, rs, n))
    ensures WriteRuns(st, rs, n) ==
      st.(runs := WriteRuns(st, rs, n).runs, results := WriteRuns(st, rs, n).results)
  {
    if n > 0 {
      WriteRunsKeepsInv(st, rs, n - 1);
      SaveRunKeepsInv(WriteRuns(st, rs, n - 1), rs[n - 1]);
    }
  }

  lemma WriteSnapshotKeepsInv(st: Store, doc: Snapshot)
    requires Inv(st)
    ensures Inv(WriteSnapshot(st, doc).0)
  {
    WriteSuitesKeepsInv(st, doc.testSuites, |doc.testSuites|);
    var w := WriteSuites(st, doc.testSuites, |doc.testSuites|);
    if w.1.Pass? {
      PruneSuitesKeepsInv(w.0, SuiteIds(doc.testSuites));
      var pruned := PruneSuites(w.0, SuiteIds(doc.testSuites));
      WriteRunsKeepsInv(pruned, doc.runs, |doc.runs|);
      var runsWritten := WriteRuns(pruned, doc.runs, |doc.runs|);
      PruneRunsKeepsInv(runsWritten, RunIds(doc.runs));
      UpdateAppStateKeepsInv(PruneRuns(runsWritten, RunIds(doc.runs)), doc.activeTestSuiteId, doc.currentRunId);
    }
  }

  /** "Delete suites not in snapshot" keeps the invariant. */
  lemma PruneSuitesKeepsInv(st: Store, ids: seq<string>)
    requires Inv(st)
    ensures Inv(PruneSuites(st, ids))
  {
    DeleteSuitesKeepsInv(st, if |ids| > 0 then set id | id in st.suites && id !in ids else st.suites.Keys);
  }

  /** "Delete runs not in snapshot" keeps the invariant. */
  lemma PruneRunsKeepsInv(st: Store, ids: seq<string>)
    requires Inv(st)
    ensures Inv(PruneRuns(st, ids))
  {
    DeleteRunsKeepsInv(st, if |ids| > 0 then set id | id in st.runs && id !in ids else st.runs.Keys);
  }

  /** Updating the app_state row keeps the invariant. */
  lemma UpdateAppStateKeepsInv(st: Store, active: Option<string>, current: Option<string>)
    requires Inv(st)
    ensures Inv(UpdateAppState(st, active, current))
  {
  }
}
