/** read_snapshot followed by write_snapshot of the document it returned. The
    write saves every suite and run onto the row it was read from, so it
    rewrites each of those rows with the values it already holds, and a second
    read_snapshot lists the same records. */
module ReadWriteLemmas {
  import opened Types
  import opened Rows
  import opened Statements
  import opened Query
  import opened SuiteLemmas
  import opened SnapshotLemmas

  /** `doc` holds what read_snapshot returns for `st`: the two listings and
      the app-state ids (its version and timestamp are not compared). */
  ghost predicate ReadFrom(st: Store, doc: Snapshot) {
    && SuiteListing(st, doc.testSuites)
    && RunListing(st, doc.runs)
    && AppState(doc.activeTestSuiteId, doc.currentRunId) == AppStateOrDefault(st)
  }

  // ---------------------------------------------------------------------
  // Rows rewritten with their own values
  // ---------------------------------------------------------------------

  /** The first `n` suites of `ss` are stored, each with exactly its row. */
  ghost predicate SuitesAsStored(suites: map<string, SuiteRow>, ss: seq<TestSuite>, n: nat) {
    forall k :: 0 <= k < n && k < |ss| ==> ss[k].id in suites && SuiteRowOf(ss[k]) == suites[ss[k].id]
  }

  /** Saving a suite onto its own row leaves the suite table as it was. */
  lemma SaveStoredSuite(prev: (Store, Outcome), s: TestSuite)
    requires s.id in prev.0.suites && SuiteRowOf(s) == prev.0.suites[s.id]
    ensures (if prev.1.Fail? then prev else SaveSuite(prev.0, s)).0.suites == prev.0.suites
  {
    if prev.1 == Pass {
      SaveSuiteUpsert(prev.0, s);
      assert SaveSuite(prev.0, s).0.suites == prev.0.suites;
    }
  }

  lemma {:induction false} WriteSuitesKeepRows(st: Store, ss: seq<TestSuite>, n: nat)
    requires n <= |ss| && SuitesAsStored(st.suites, ss, n)
    ensures WriteSuites(st, ss, n).0.suites == st.suites
  {
    if n > 0 {
      WriteSuitesKeepRows(st, ss, n - 1);
      SaveStoredSuite(WriteSuites(st, ss, n - 1), ss[n - 1]);
    }
  }

  /** The first `n` runs of `rs` are stored with their status and completed_at. */
  ghost predicate RunsAsStored(runs: map<string, RunRow>, rs: seq<RunResult>, n: nat) {
    forall k :: 0 <= k < n && k < |rs| ==>
      && rs[k].id in runs
      && runs[rs[k].id].status == rs[k].status
      && runs[rs[k].id].completedAt == rs[k].completedAt
  }

  /** Saving a stored run with its stored status and completed_at leaves the
      run table as it was. */
  lemma SaveStoredRun(prev: Store, r: RunResult)
    requires r.id in prev.runs && prev.runs[r.id].status == r.status && prev.runs[r.id].completedAt == r.completedAt
    ensures SaveRun(prev, r).runs == prev.runs
  {
    assert prev.runs[r.id].(status := r.status, completedAt := r.completedAt) == prev.runs[r.id];
  }

  lemma {:induction false} WriteRunsKeepRows(st: Store, rs: seq<RunResult>, n: nat)
    requires n <= |rs| && RunsAsStored(st.runs, rs, n)
    ensures WriteRuns(st, rs, n).runs == st.runs
  {
    if n > 0 {
      WriteRunsKeepRows(st, rs, n - 1);
      SaveStoredRun(WriteRuns(st, rs, n - 1), rs[n - 1]);
    }
  }

  /** A listed suite is its stored row; a listed run carries its stored
      status and completed_at. */
  lemma ListedAsStored(st: Store, doc: Snapshot)
    requires ReadFrom(st, doc)
    ensures SuitesAsStored(st.suites, doc.testSuites, |doc.testSuites|)
    ensures RunsAsStored(st.runs, doc.runs, |doc.runs|)
  {
    forall k | 0 <= k < |doc.testSuites|
      ensures SuiteRowOf(doc.testSuites[k]) == st.suites[doc.testSuites[k].id]
    {
      var s := doc.testSuites[k];
      SuiteRowOfView(s.id, st.suites[s.id], s.testCases);
    }
  }

  /** Pruning by a list that names every stored suite deletes none. */
  lemma PruneNamingAll(st: Store, ids: seq<string>)
    requires forall id :: id in st.suites ==> id in ids
    ensures PruneSuites(st, ids).suites == st.suites
  {
    PruneSuitesEffect(st, ids);
  }

  /** Pruning by a list that names every stored run deletes none. */
  lemma PruneRunsNamingAll(st: Store, ids: seq<string>)
    requires forall id :: id in st.runs ==> id in ids
    ensures PruneRuns(st, ids).runs == st.runs
  {
    PruneRunsEffect(st, ids);
  }

  // ---------------------------------------------------------------------
  // The round trip
  // ---------------------------------------------------------------------

  /** Writing back what read_snapshot returned succeeds and leaves the suite
      table, the run table, the app-state row and the version exactly as
      they were. */
  lemma ReadThenWriteKeepsRows(st: Store, doc: Snapshot)
    requires ReadFrom(st, doc)
    ensures WriteSnapshot(st, doc).1 == Pass
    ensures var after := WriteSnapshot(st, doc).0;
      && after.suites == st.suites && after.runs == st.runs
      && after.appState == st.appState && after.version == st.version
  {
    var ss := doc.testSuites;
    var rs := doc.runs;
    ReadThenWrite(st, doc);
    WriteSnapshotStages(st, doc);
    WriteSnapshotTables(st, doc);
    ListedAsStored(st, doc);
    WriteSuitesFrame(st, ss, |ss|);
    WriteSuitesKeepRows(st, ss, |ss|);
    var suitesWritten := WriteSuites(st, ss, |ss|).0;
    PruneSuitesEffect(suitesWritten, SuiteIds(ss));
    PruneNamingAll(suitesWritten, SuiteIds(ss));
    var pruned := PruneSuites(suitesWritten, SuiteIds(ss));
    WriteRunsFrame(pruned, rs, |rs|);
    WriteRunsKeepRows(pruned, rs, |rs|);
    var runsWritten := WriteRuns(pruned, rs, |rs|);
    PruneRunsEffect(runsWritten, RunIds(rs));
    PruneRunsNamingAll(runsWritten, RunIds(rs));
  }

  /** A distinct sequence has as many elements as the set of its elements. */
  lemma {:induction false} DistinctCard(xs: seq<string>)
    requires Distinct(xs)
    ensures |set x | x in xs| == |xs|
  {
    if xs != [] {
      var front := xs[..|xs| - 1];
      assert Distinct(front);
      DistinctCard(front);
      assert (set x | x in xs) == (set x | x in front) + {xs[|xs| - 1]};
      assert xs[|xs| - 1] !in front;
    }
  }

  /** Two lists that enumerate the same keys have the same length. */
  lemma EnumeratesSameLength(a: seq<string>, b: seq<string>, keys: set<string>)
    requires Enumerates(a, keys) && Enumerates(b, keys)
    ensures |a| == |b|
  {
    DistinctCard(a);
    DistinctCard(b);
    assert (set x | x in a) == keys == (set x | x in b);
  }

  /** The second read lists the same suites as the first, record for record. */
  lemma SuitesReadAgain(st: Store, doc: Snapshot, after: Store, again: seq<TestSuite>)
    requires ReadFrom(st, doc) && after.suites == st.suites
    requires forall i :: 0 <= i < |doc.testSuites| ==>
               SuiteCasesAre(after.cases, doc.testSuites[i].id, doc.testSuites[i].testCases)
    requires SuiteListing(after, again)
    ensures |again| == |doc.testSuites|
    ensures forall id :: id in SuiteIds(again) <==> id in SuiteIds(doc.testSuites)
    ensures forall i, j :: 0 <= i < |again| && 0 <= j < |doc.testSuites| && again[i].id == doc.testSuites[j].id ==>
              again[i] == doc.testSuites[j]
  {
    var ss := doc.testSuites;
    EnumeratesSameLength(SuiteIds(again), SuiteIds(ss), st.suites.Keys);
    forall i, j | 0 <= i < |again| && 0 <= j < |ss| && again[i].id == ss[j].id
      ensures again[i] == ss[j]
    {
      var id := ss[j].id;
      assert CaseListing(st.cases, id, ss[j].testCases);
      CaseListingAfterSave(after.cases, id, ss[j].testCases, again[i].testCases);
    }
  }

  /** The second read lists the same runs as the first, record for record. */
  lemma RunsReadAgain(st: Store, doc: Snapshot, after: Store, again: seq<RunResult>)
    requires ReadFrom(st, doc) && after.runs == st.runs
    requires forall i :: 0 <= i < |doc.runs| ==>
               ResultsOfRun(after.results, doc.runs[i].id) == ResultRows(doc.runs[i].id, doc.runs[i].results)
    requires RunListing(after, again)
    ensures |again| == |doc.runs|
    ensures forall id :: id in RunIds(again) <==> id in RunIds(doc.runs)
    ensures forall i, j :: 0 <= i < |again| && 0 <= j < |doc.runs| && again[i].id == doc.runs[j].id ==>
              again[i] == doc.runs[j]
  {
    var rs := doc.runs;
    EnumeratesSameLength(RunIds(again), RunIds(rs), st.runs.Keys);
    forall i, j | 0 <= i < |again| && 0 <= j < |rs| && again[i].id == rs[j].id
      ensures again[i] == rs[j]
    {
      var id := rs[j].id;
      assert ResultViews(ResultsOfRun(after.results, id)) == rs[j].results;
      assert rs[j] == RunView(id, st.runs[id], rs[j].results);
    }
  }

  /** read_snapshot, write_snapshot of its document, read_snapshot again: the
      write succeeds and the second read lists the same suites (with the same
      cases in the same order) and the same runs (with the same results), each
      record equal to the one first read under its id, and the same app-state
      ids. Only the order among suites of equal updated_at and among runs of
      equal started_at is left to the engine, as for any read. */
  lemma ReadWriteRead(st: Store, doc: Snapshot, again: Snapshot)
    requires ReadFrom(st, doc)
    requires ReadFrom(WriteSnapshot(st, doc).0, again)
    ensures WriteSnapshot(st, doc).1 == Pass
    ensures |again.testSuites| == |doc.testSuites| && |again.runs| == |doc.runs|
    ensures forall id :: id in SuiteIds(again.testSuites) <==> id in SuiteIds(doc.testSuites)
    ensures forall id :: id in RunIds(again.runs) <==> id in RunIds(doc.runs)
    ensures forall i, j ::
              0 <= i < |again.testSuites| && 0 <= j < |doc.testSuites| && again.testSuites[i].id == doc.testSuites[j].id
              ==> again.testSuites[i] == doc.testSuites[j]
    ensures forall i, j ::
              0 <= i < |again.runs| && 0 <= j < |doc.runs| && again.runs[i].id == doc.runs[j].id
              ==> again.runs[i] == doc.runs[j]
    ensures again.activeTestSuiteId == doc.activeTestSuiteId && again.currentRunId == doc.currentRunId
  {
    var after := WriteSnapshot(st, doc).0;
    ReadThenWrite(st, doc);
    ReadThenWriteKeepsRows(st, doc);
    SuitesReadAgain(st, doc, after, again.testSuites);
    RunsReadAgain(st, doc, after, again.runs);
  }
}
