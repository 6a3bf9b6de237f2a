/** What write_snapshot promises: a successful write replaces the suite and
    run tables by exactly the document's ids (an empty list empties the
    table), each written suite holds exactly its cases and each written run
    exactly its results, and the app-state ids are the document's. A
    failed write stops inside the suite loop and has touched no run. */
module SnapshotLemmas {
  import opened Types
  import opened Rows
  import opened Statements
  import opened Invariant
  import opened Query
  import opened SuiteLemmas
  import opened RunLemmas
  import opened MigrationLemmas

  /** The ids of the first `n` suites. */
  function SuiteIdsUpTo(ss: seq<TestSuite>, n: nat): set<string> {
    set i | 0 <= i < n && i < |ss| :: ss[i].id
  }

  /** The ids of the first `n` runs. */
  function RunIdsUpTo(rs: seq<RunResult>, n: nat): set<string> {
    set i | 0 <= i < n && i < |rs| :: rs[i].id
  }

  // ---------------------------------------------------------------------
  // The suite loop
  // ---------------------------------------------------------------------

  /** The suite loop touches no run, result, app-state row or version; when it
      succeeds it has added exactly the written suite ids. */
  lemma WriteSuitesFrame(st: Store, ss: seq<TestSuite>, n: nat)
    requires n <= |ss|
    ensures var w := WriteSuites(st, ss, n).0;
      w.runs == st.runs && w.results == st.results && w.appState == st.appState && w.version == st.version
    ensures WriteSuites(st, ss, n).1 == Pass ==>
      WriteSuites(st, ss, n).0.suites.Keys == st.suites.Keys + SuiteIdsUpTo(ss, n)
  {
    WriteSuitesOnlySuites(st, ss, n);
    WriteSuitesKeys(st, ss, n);
  }

  /** One save of the suite loop changes only suites and cases. */
  lemma SaveNextOnlySuites(prev: (Store, Outcome), st: Store, s: TestSuite)
    requires prev.0.(suites := st.suites, cases := st.cases) == st
    ensures (if prev.1.Fail? then prev else SaveSuite(prev.0, s)).0.(suites := st.suites, cases := st.cases) == st
  {
    if prev.1 == Pass {
      InsertCasesOnlyCases(DeleteCasesOf(UpsertSuite(prev.0, s), s.id), s.id, s.testCases, |s.testCases|);
    }
  }

  lemma {:induction false} WriteSuitesOnlySuites(st: Store, ss: seq<TestSuite>, n: nat)
    requires n <= |ss|
    ensures WriteSuites(st, ss, n).0.(suites := st.suites, cases := st.cases) == st
  {
    if n > 0 {
      WriteSuitesOnlySuites(st, ss, n - 1);
      SaveNextOnlySuites(WriteSuites(st, ss, n - 1), st, ss[n - 1]);
    }
  }

  /** One successful save of the suite loop adds the saved id. */
  lemma SaveNextKeys(prev: (Store, Outcome), base: set<string>, written: set<string>, s: TestSuite)
    requires prev.1 == Pass ==> prev.0.suites.Keys == base + written
    ensures var w := if prev.1.Fail? then prev else SaveSuite(prev.0, s);
      w.1 == Pass ==> w.0.suites.Keys == base + (written + {s.id})
  {
    if prev.1 == Pass {
      SaveSuiteUpsert(prev.0, s);
    }
  }

  lemma {:induction false} WriteSuitesKeys(st: Store, ss: seq<TestSuite>, n: nat)
    requires n <= |ss|
    ensures WriteSuites(st, ss, n).1 == Pass ==>
      WriteSuites(st, ss, n).0.suites.Keys == st.suites.Keys + SuiteIdsUpTo(ss, n)
  {
    if n > 0 {
      WriteSuitesKeys(st, ss, n - 1);
      SuiteIdsUpToStep(ss, n);
      SaveNextKeys(WriteSuites(st, ss, n - 1), st.suites.Keys, SuiteIdsUpTo(ss, n - 1), ss[n - 1]);
    }
  }

  /** No case id of suite `t` is stored under another suite. */
  ghost predicate OwnedBy(cases: map<string, CaseRow>, t: TestSuite) {
    forall a :: 0 <= a < |t.testCases| && t.testCases[a].id in cases ==> cases[t.testCases[a].id].testSuiteId == t.id
  }

  /** A successful save of `s` keeps `OwnedBy` for a suite that shares no case id with it. */
  lemma SaveSuiteKeepsOwned(st: Store, s: TestSuite, t: TestSuite)
    requires SaveSuite(st, s).1 == Pass && OwnedBy(st.cases, t)
    requires Disjoint(t, s)
    ensures OwnedBy(SaveSuite(st, s).0.cases, t)
  {
    SaveSuiteReplacesCases(st, s);
  }

  /** The suite loop has succeeded so far and no suite still to be saved has
      a case id stored under another suite. */
  ghost predicate SavesAhead(w: (Store, Outcome), doc: Snapshot, n: nat) {
    && w.1 == Pass
    && (forall k :: n <= k < |doc.testSuites| ==> OwnedBy(w.0.cases, doc.testSuites[k]))
  }

  /** One save of the suite loop keeps `SavesAhead`. */
  lemma SavesAheadStep(prev: (Store, Outcome), doc: Snapshot, n: nat)
    requires 0 < n <= |doc.testSuites| && UniqueIds(doc) && SavesAhead(prev, doc, n - 1)
    ensures SavesAhead(if prev.1.Fail? then prev else SaveSuite(prev.0, doc.testSuites[n - 1]), doc, n)
  {
    var ss := doc.testSuites;
    SaveSuiteSucceeds(prev.0, doc, n - 1);
    forall k | n <= k < |ss|
      ensures OwnedBy(SaveSuite(prev.0, ss[n - 1]).0.cases, ss[k])
    {
      CasesApart(doc, n - 1, k);
      SaveSuiteKeepsOwned(prev.0, ss[n - 1], ss[k]);
    }
  }

  /** The suite loop keeps `SavesAhead`. */
  lemma {:induction false} WriteSuitesSavesAhead(st: Store, doc: Snapshot, n: nat)
    requires n <= |doc.testSuites| && UniqueIds(doc)
    requires forall k :: 0 <= k < |doc.testSuites| ==> OwnedBy(st.cases, doc.testSuites[k])
    ensures SavesAhead(WriteSuites(st, doc.testSuites, n), doc, n)
  {
    if n > 0 {
      WriteSuitesSavesAhead(st, doc, n - 1);
      SavesAheadStep(WriteSuites(st, doc.testSuites, n - 1), doc, n);
    }
  }

  /** The suite loop succeeds when the document's ids are unique and none of
      its case ids is stored under a different suite. */
  lemma WriteSuitesSucceed(st: Store, doc: Snapshot, n: nat)
    requires n <= |doc.testSuites| && UniqueIds(doc)
    requires forall k :: 0 <= k < |doc.testSuites| ==> OwnedBy(st.cases, doc.testSuites[k])
    ensures WriteSuites(st, doc.testSuites, n).1 == Pass
  {
    WriteSuitesSavesAhead(st, doc, n);
  }

  /** Suite k of a document with unique ids saves when no other suite owns its cases. */
  lemma SaveSuiteSucceeds(prev: Store, doc: Snapshot, k: nat)
    requires k < |doc.testSuites| && UniqueIds(doc) && OwnedBy(prev.cases, doc.testSuites[k])
    ensures SaveSuite(prev, doc.testSuites[k]).1 == Pass
  {
    assert OwnCasesDistinct(doc, k);
    OwnedIsFree(prev, doc.testSuites[k]);
    SaveSuiteOutcome(prev, doc.testSuites[k]);
  }

  /** A suite with distinct case ids, none stored under another suite, can be saved. */
  lemma OwnedIsFree(st: Store, s: TestSuite)
    requires Distinct(CaseIds(s.testCases)) && OwnedBy(st.cases, s)
    ensures CaseIdsFree(st, s)
  {
  }

  /** A failed suite loop names a case id of one of the suites. */
  lemma {:induction false} WriteSuitesError(st: Store, ss: seq<TestSuite>, n: nat)
    requires n <= |ss|
    ensures WriteSuites(st, ss, n).1.Fail? ==>
      exists k, a :: 0 <= k < n && 0 <= a < |ss[k].testCases| &&
        WriteSuites(st, ss, n).1.error == UniqueViolation(ss[k].testCases[a].id)
  {
    if n > 0 {
      WriteSuitesError(st, ss, n - 1);
      var prev := WriteSuites(st, ss, n - 1);
      var now := WriteSuites(st, ss, n);
      if prev.1 == Pass {
        assert now == SaveSuite(prev.0, ss[n - 1]);
        SaveSuiteOutcome(prev.0, ss[n - 1]);
      } else {
        assert now == prev;
      }
    }
  }

  /** A successful save of suite `s` leaves the cases of another suite as they were. */
  lemma SuiteCasesKept(st: Store, s: TestSuite, sid: string, tcs: seq<TestCase>)
    requires SaveSuite(st, s).1 == Pass && sid != s.id && SuiteCasesAre(st.cases, sid, tcs)
    ensures SuiteCasesAre(SaveSuite(st, s).0.cases, sid, tcs)
  {
    SaveSuiteReplacesCases(st, s);
  }

  /** After a successful suite loop over suites with distinct ids, suite i
      holds exactly its cases, case a at sort position a, and its row carries
      every field of the suite except possibly created_at. */
  lemma {:induction false} WriteSuitesCopies(st: Store, ss: seq<TestSuite>, n: nat, i: nat)
    requires i < n <= |ss| && Distinct(SuiteIds(ss)) && WriteSuites(st, ss, n).1 == Pass
    ensures var w := WriteSuites(st, ss, n).0;
      && SuiteCasesAre(w.cases, ss[i].id, ss[i].testCases)
      && ss[i].id in w.suites && w.suites[ss[i].id].(createdAt := ss[i].createdAt) == SuiteRowOf(ss[i])
  {
    var prev := WriteSuites(st, ss, n - 1);
    assert prev.1 == Pass;
    assert WriteSuites(st, ss, n) == SaveSuite(prev.0, ss[n - 1]);
    SaveSuiteUpsert(prev.0, ss[n - 1]);
    if i == n - 1 {
      SaveSuiteReplacesCases(prev.0, ss[i]);
    } else {
      WriteSuitesCopies(st, ss, n - 1, i);
      assert SuiteIds(ss)[i] != SuiteIds(ss)[n - 1];
      SuiteCasesKept(prev.0, ss[n - 1], ss[i].id, ss[i].testCases);
    }
  }

  // ---------------------------------------------------------------------
  // Pruning
  // ---------------------------------------------------------------------

  /** "Delete suites not in snapshot" keeps exactly the stored suites whose
      id is listed, with their rows and their cases; for an empty list that is
      none, which is what `NOT IN` over an empty list would mean. */
  lemma PruneSuitesEffect(st: Store, ids: seq<string>)
    ensures var p := PruneSuites(st, ids);
      && p.suites.Keys == (set id | id in st.suites && id in ids)
      && (forall id :: id in p.suites ==> p.suites[id] == st.suites[id])
      && p.cases == CasesNotIn(st.cases, set id | id in st.suites && id !in ids)
      && p == st.(suites := p.suites, cases := p.cases)
  {
    var gone := set id | id in st.suites && id !in ids;
    if |ids| == 0 {
      assert gone == st.suites.Keys;
    }
    assert gone * st.suites.Keys == gone;
  }

  /** A listed suite keeps its cases through the prune. */
  lemma PruneKeepsSuiteCases(st: Store, ids: seq<string>, sid: string, tcs: seq<TestCase>)
    requires sid in ids && SuiteCasesAre(st.cases, sid, tcs)
    ensures SuiteCasesAre(PruneSuites(st, ids).cases, sid, tcs)
  {
    PruneSuitesEffect(st, ids);
  }

  /** "Delete runs not in snapshot", likewise. */
  lemma PruneRunsEffect(st: Store, ids: seq<string>)
    ensures var p := PruneRuns(st, ids);
      && p.runs.Keys == (set id | id in st.runs && id in ids)
      && (forall id :: id in p.runs ==> p.runs[id] == st.runs[id])
      && p.results == ResultsNotIn(st.results, set id | id in st.runs && id !in ids)
      && p == st.(runs := p.runs, results := p.results)
  {
    var gone := set id | id in st.runs && id !in ids;
    if |ids| == 0 {
      assert gone == st.runs.Keys;
    }
    assert gone * st.runs.Keys == gone;
  }

  // ---------------------------------------------------------------------
  // The run loop
  // ---------------------------------------------------------------------

  /** The run loop touches no suite, case, app-state row or version, and adds
      exactly the written run ids. */
  lemma WriteRunsFrame(st: Store, rs: seq<RunResult>, n: nat)
    requires n <= |rs|
    ensures var w := WriteRuns(st, rs, n);
      && w.suites == st.suites && w.cases == st.cases && w.appState == st.appState && w.version == st.version
      && w.runs.Keys == st.runs.Keys + RunIdsUpTo(rs, n)
  {
    WriteRunsOnlyRuns(st, rs, n);
    WriteRunsKeys(st, rs, n);
  }

  /** The run loop changes only the run and result tables. */
  lemma {:induction false} WriteRunsOnlyRuns(st: Store, rs: seq<RunResult>, n: nat)
    requires n <= |rs|
    ensures WriteRuns(st, rs, n) == st.(runs := WriteRuns(st, rs, n).runs, results := WriteRuns(st, rs, n).results)
  {
    if n > 0 {
      WriteRunsOnlyRuns(st, rs, n - 1);
    }
  }

  /** The run loop adds exactly the written run ids. */
  lemma WriteRunsKeys(st: Store, rs: seq<RunResult>, n: nat)
    requires n <= |rs|
    ensures WriteRuns(st, rs, n).runs.Keys == st.runs.Keys + RunIdsUpTo(rs, n)
  {
    WriteRunsKeysAre(st, rs, n);
  }

  /** The stored run ids of `w` are `keys`. */
  ghost predicate RunKeysAre(w: Store, keys: set<string>) {
    w.runs.Keys == keys
  }

  /** save_run adds its run id to the stored ids. */
  lemma SaveRunKeys(prev: Store, r: RunResult, base: set<string>, written: set<string>)
    requires RunKeysAre(prev, base + written)
    ensures RunKeysAre(SaveRun(prev, r), base + (written + {r.id}))
  {
  }

  lemma {:induction false} WriteRunsKeysAre(st: Store, rs: seq<RunResult>, n: nat)
    requires n <= |rs|
    ensures RunKeysAre(WriteRuns(st, rs, n), st.runs.Keys + RunIdsUpTo(rs, n))
  {
    if n > 0 {
      WriteRunsKeysAre(st, rs, n - 1);
      RunIdsUpToStep(rs, n);
      SaveRunKeys(WriteRuns(st, rs, n - 1), rs[n - 1], st.runs.Keys, RunIdsUpTo(rs, n - 1));
    }
  }

  lemma SuiteIdsUpToStep(ss: seq<TestSuite>, n: nat)
    requires 0 < n <= |ss|
    ensures SuiteIdsUpTo(ss, n) == SuiteIdsUpTo(ss, n - 1) + {ss[n - 1].id}
  {
  }

  lemma RunIdsUpToStep(rs: seq<RunResult>, n: nat)
    requires 0 < n <= |rs|
    ensures RunIdsUpTo(rs, n) == RunIdsUpTo(rs, n - 1) + {rs[n - 1].id}
  {
  }

  /** After the run loop over runs with distinct ids, run i holds exactly its
      results, in order, and carries its status and completed_at. */
  lemma {:induction false} WriteRunsCopies(st: Store, rs: seq<RunResult>, n: nat, i: nat)
    requires i < n <= |rs| && Distinct(RunIds(rs))
    ensures var w := WriteRuns(st, rs, n);
      && ResultsOfRun(w.results, rs[i].id) == ResultRows(rs[i].id, rs[i].results)
      && rs[i].id in w.runs && w.runs[rs[i].id].status == rs[i].status
      && w.runs[rs[i].id].completedAt == rs[i].completedAt
  {
    WriteRunsWritten(st, rs, n, i);
  }

  /** Run `r` is stored with exactly its results, its status and its completed_at. */
  ghost predicate RunWritten(w: Store, r: RunResult) {
    && ResultsOfRun(w.results, r.id) == ResultRows(r.id, r.results)
    && r.id in w.runs && w.runs[r.id].status == r.status
    && w.runs[r.id].completedAt == r.completedAt
  }

  /** save_run leaves its own run copied ... */
  lemma SaveRunWritten(prev: Store, r: RunResult)
    ensures RunWritten(SaveRun(prev, r), r)
  {
    SaveRunReplacesResults(prev, r);
    SaveRunUpsert(prev, r);
  }

  /** ... and keeps a copied run of another id copied. */
  lemma SaveRunKeepsWritten(prev: Store, r: RunResult, t: RunResult)
    requires RunWritten(prev, t) && t.id != r.id
    ensures RunWritten(SaveRun(prev, r), t)
  {
    SaveRunKeepsOtherResults(prev, r, t.id);
    SaveRunUpsert(prev, r);
  }

  lemma {:induction false} WriteRunsWritten(st: Store, rs: seq<RunResult>, n: nat, i: nat)
    requires i < n <= |rs| && Distinct(RunIds(rs))
    ensures RunWritten(WriteRuns(st, rs, n), rs[i])
  {
    if i == n - 1 {
      SaveRunWritten(WriteRuns(st, rs, n - 1), rs[i]);
    } else {
      WriteRunsWritten(st, rs, n - 1, i);
      assert RunIds(rs)[i] != RunIds(rs)[n - 1];
      SaveRunKeepsWritten(WriteRuns(st, rs, n - 1), rs[n - 1], rs[i]);
    }
  }

  // ---------------------------------------------------------------------
  // write_snapshot
  // ---------------------------------------------------------------------

  /** The stages of a successful write, named. */
  lemma WriteSnapshotStages(st: Store, doc: Snapshot)
    requires WriteSnapshot(st, doc).1 == Pass
    ensures var suitesWritten := WriteSuites(st, doc.testSuites, |doc.testSuites|);
      var pruned := PruneSuites(suitesWritten.0, SuiteIds(doc.testSuites));
      var runsWritten := WriteRuns(pruned, doc.runs, |doc.runs|);
      var runsPruned := PruneRuns(runsWritten, RunIds(doc.runs));
      && suitesWritten.1 == Pass
      && WriteSnapshot(st, doc).0 == UpdateAppState(runsPruned, doc.activeTestSuiteId, doc.currentRunId)
  {
  }

  /** A write fails only in the suite loop, naming a case id of the document,
      and then no run, result, app-state row or version has changed. */
  lemma WriteSnapshotFailure(st: Store, doc: Snapshot)
    requires WriteSnapshot(st, doc).1.Fail?
    ensures var (after, out) := WriteSnapshot(st, doc);
      && after.runs == st.runs && after.results == st.results
      && after.appState == st.appState && after.version == st.version
      && exists k, a :: 0 <= k < |doc.testSuites| && 0 <= a < |doc.testSuites[k].testCases| &&
           out.error == UniqueViolation(doc.testSuites[k].testCases[a].id)
  {
    WriteSuitesFrame(st, doc.testSuites, |doc.testSuites|);
    WriteSuitesError(st, doc.testSuites, |doc.testSuites|);
  }

  /** A write of a document with unique ids, none of whose case ids is stored
      under a different suite, succeeds. */
  lemma WriteSnapshotSucceeds(st: Store, doc: Snapshot)
    requires UniqueIds(doc)
    requires forall k :: 0 <= k < |doc.testSuites| ==> OwnedBy(st.cases, doc.testSuites[k])
    ensures WriteSnapshot(st, doc).1 == Pass
  {
    WriteSuitesSucceed(st, doc, |doc.testSuites|);
  }

  /** After a successful write the suite and run tables hold exactly the
      document's ids, the version is unchanged, and the app-state row, if one
      exists, holds the document's app-state ids. */
  lemma WriteSnapshotTables(st: Store, doc: Snapshot)
    requires WriteSnapshot(st, doc).1 == Pass
    ensures var after := WriteSnapshot(st, doc).0;
      && after.suites.Keys == (set id | id in SuiteIds(doc.testSuites))
      && after.runs.Keys == (set id | id in RunIds(doc.runs))
      && after.version == st.version
      && after.appState == if st.appState.Some? then Some(AppState(doc.activeTestSuiteId, doc.currentRunId)) else None
  {
    var ss := doc.testSuites;
    var rs := doc.runs;
    WriteSnapshotStages(st, doc);
    WriteSuitesFrame(st, ss, |ss|);
    var suitesWritten := WriteSuites(st, ss, |ss|).0;
    PruneSuitesEffect(suitesWritten, SuiteIds(ss));
    var pruned := PruneSuites(suitesWritten, SuiteIds(ss));
    WriteRunsFrame(pruned, rs, |rs|);
    var runsWritten := WriteRuns(pruned, rs, |rs|);
    PruneRunsEffect(runsWritten, RunIds(rs));
    forall id | id in SuiteIds(ss)
      ensures id in SuiteIdsUpTo(ss, |ss|)
    {
      var k :| 0 <= k < |ss| && SuiteIds(ss)[k] == id;
    }
    forall id | id in RunIds(rs)
      ensures id in RunIdsUpTo(rs, |rs|)
    {
      var k :| 0 <= k < |rs| && RunIds(rs)[k] == id;
    }
    assert forall k :: 0 <= k < |ss| ==> SuiteIds(ss)[k] == ss[k].id;
    assert forall k :: 0 <= k < |rs| ==> RunIds(rs)[k] == rs[k].id;
  }

  /** After a successful write of a document with distinct suite ids and
      distinct run ids, each suite holds exactly its cases, at positions
      0..n-1, and each run holds exactly its results, in order. */
  lemma WriteSnapshotContents(st: Store, doc: Snapshot)
    requires WriteSnapshot(st, doc).1 == Pass
    requires Distinct(SuiteIds(doc.testSuites)) && Distinct(RunIds(doc.runs))
    ensures var after := WriteSnapshot(st, doc).0;
      && (forall i :: 0 <= i < |doc.testSuites| ==>
            SuiteCasesAre(after.cases, doc.testSuites[i].id, doc.testSuites[i].testCases))
      && (forall i :: 0 <= i < |doc.runs| ==>
            ResultsOfRun(after.results, doc.runs[i].id) == ResultRows(doc.runs[i].id, doc.runs[i].results))
  {
    var ss := doc.testSuites;
    var rs := doc.runs;
    WriteSnapshotStages(st, doc);
    var suitesWritten := WriteSuites(st, ss, |ss|).0;
    PruneSuitesEffect(suitesWritten, SuiteIds(ss));
    var pruned := PruneSuites(suitesWritten, SuiteIds(ss));
    WriteRunsFrame(pruned, rs, |rs|);
    var runsWritten := WriteRuns(pruned, rs, |rs|);
    PruneRunsEffect(runsWritten, RunIds(rs));
    var after := WriteSnapshot(st, doc).0;
    forall i | 0 <= i < |ss|
      ensures SuiteCasesAre(after.cases, ss[i].id, ss[i].testCases)
    {
      WriteSuitesCopies(st, ss, |ss|, i);
      assert SuiteIds(ss)[i] == ss[i].id;
      PruneKeepsSuiteCases(suitesWritten, SuiteIds(ss), ss[i].id, ss[i].testCases);
    }
    forall i | 0 <= i < |rs|
      ensures ResultsOfRun(after.results, rs[i].id) == ResultRows(rs[i].id, rs[i].results)
    {
      WriteRunsCopies(pruned, rs, |rs|, i);
      assert RunIds(rs)[i] == rs[i].id;
      ResultsOfRunNotIn(runsWritten.results, (set id | id in runsWritten.runs && id !in RunIds(rs)), rs[i].id);
    }
  }

  /** Deleting the results of every run a result row can name leaves none. */
  lemma {:induction false} ResultsNotInAll(rs: seq<ResultRow>, gone: set<string>)
    requires forall x :: x in rs ==> x.runId in gone
    ensures ResultsNotIn(rs, gone) == []
  {
    if rs != [] {
      var front := rs[..|rs| - 1];
      assert rs[|rs| - 1] in rs;
      assert forall x :: x in front ==> x in rs;
      ResultsNotInAll(front, gone);
    }
  }

  /** Writing a document with no suites and no runs succeeds and empties the
      suite, case, run and result tables. */
  lemma WriteEmptySnapshot(st: Store, doc: Snapshot)
    requires Inv(st) && doc.testSuites == [] && doc.runs == []
    ensures var (after, out) := WriteSnapshot(st, doc);
      out == Pass && after.suites == map[] && after.cases == map[] && after.runs == map[] && after.results == []
  {
    assert WriteSnapshot(st, doc).1 == Pass;
    WriteSnapshotTables(st, doc);
    var pruned := PruneSuites(st, []);
    DeleteSuitesKeepsInv(st, st.suites.Keys);
    PruneRunsEffect(pruned, []);
    assert (set id | id in pruned.runs && id !in RunIds([])) == pruned.runs.Keys;
    ResultsNotInAll(pruned.results, pruned.runs.Keys);
  }

  /** write_snapshot followed by get_all_test_suites and get_all_runs lists
      exactly the document's suite ids and run ids. */
  lemma ListingAfterWrite(st: Store, doc: Snapshot, suites: seq<TestSuite>, runs: seq<RunResult>)
    requires WriteSnapshot(st, doc).1 == Pass
    requires SuiteListing(WriteSnapshot(st, doc).0, suites) && RunListing(WriteSnapshot(st, doc).0, runs)
    ensures forall id :: id in SuiteIds(suites) <==> id in SuiteIds(doc.testSuites)
    ensures forall id :: id in RunIds(runs) <==> id in RunIds(doc.runs)
    ensures doc.testSuites == [] ==> suites == []
    ensures doc.runs == [] ==> runs == []
  {
    WriteSnapshotTables(st, doc);
    var after := WriteSnapshot(st, doc).0;
    EnumeratedIds(SuiteIds(suites), after.suites.Keys, SuiteIds(doc.testSuites));
    EnumeratedIds(RunIds(runs), after.runs.Keys, RunIds(doc.runs));
  }

  /** A listing that enumerates the keys `{ x | x in written }` holds exactly
      the ids in `written`, and is empty when `written` is. */
  lemma EnumeratedIds(listed: seq<string>, keys: set<string>, written: seq<string>)
    requires Enumerates(listed, keys) && keys == (set x | x in written)
    ensures forall x :: x in listed <==> x in written
    ensures written == [] ==> listed == []
  {
    assert listed == [] || listed[0] in listed;
  }
  /** A document made of the listings read from a database has unique ids,
      and none of its case ids is stored under another suite. */
  lemma ListedDocumentIsWritable(st: Store, doc: Snapshot)
    requires SuiteListing(st, doc.testSuites) && RunListing(st, doc.runs)
    ensures UniqueIds(doc)
    ensures forall k :: 0 <= k < |doc.testSuites| ==> OwnedBy(st.cases, doc.testSuites[k])
  {
    var ss := doc.testSuites;
    forall k | 0 <= k < |ss|
      ensures OwnedBy(st.cases, ss[k]) && OwnCasesDistinct(doc, k)
      ensures forall c :: c in CaseIds(ss[k].testCases) ==> c in st.cases && st.cases[c].testSuiteId == ss[k].id
    {
      assert CaseListing(st.cases, ss[k].id, ss[k].testCases);
      forall a | 0 <= a < |ss[k].testCases|
        ensures ss[k].testCases[a].id in CaseKeysOf(st.cases, ss[k].id)
      {
        assert CaseIds(ss[k].testCases)[a] == ss[k].testCases[a].id;
      }
      forall c | c in CaseIds(ss[k].testCases)
        ensures c in st.cases && st.cases[c].testSuiteId == ss[k].id
      {
        var a :| 0 <= a < |ss[k].testCases| && CaseIds(ss[k].testCases)[a] == c;
      }
    }
    forall i, j | 0 <= i < j < |ss|
      ensures SuitesApart(doc, i, j)
    {
      assert SuiteIds(ss)[i] != SuiteIds(ss)[j];
      forall a | 0 <= a < |ss[i].testCases|
        ensures ss[i].testCases[a].id !in CaseIds(ss[j].testCases)
      {
        assert CaseIds(ss[i].testCases)[a] == ss[i].testCases[a].id;
      }
    }
  }

  /** Writing back what read_snapshot returned succeeds and leaves the same
      suite ids and run ids, each suite with exactly the cases it was read
      with (renumbered 0..n-1 in listed order) and each run with exactly the
      results it had. */
  lemma ReadThenWrite(st: Store, doc: Snapshot)
    requires SuiteListing(st, doc.testSuites) && RunListing(st, doc.runs)
    ensures var (after, out) := WriteSnapshot(st, doc);
      && out == Pass
      && after.suites.Keys == st.suites.Keys && after.runs.Keys == st.runs.Keys
      && (forall i :: 0 <= i < |doc.testSuites| ==>
            SuiteCasesAre(after.cases, doc.testSuites[i].id, doc.testSuites[i].testCases))
      && (forall i :: 0 <= i < |doc.runs| ==>
            ResultsOfRun(after.results, doc.runs[i].id) == ResultRows(doc.runs[i].id, doc.runs[i].results))
  {
    ListedDocumentIsWritable(st, doc);
    WriteSnapshotSucceeds(st, doc);
    WriteSnapshotTables(st, doc);
    WriteSnapshotContents(st, doc);
  }
}
