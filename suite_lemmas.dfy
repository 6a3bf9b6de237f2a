/** What save_test_suite and delete_test_suite promise: the suite upsert keeps
    created_at, the save replaces exactly that suite's cases with the supplied
    list at dense sort positions 0..n-1, a case id owned elsewhere makes it fail,
    and a delete cascades to the suite's cases but not to runs. */
module SuiteLemmas {
  import opened Types
  import opened Rows
  import opened Statements
  import opened Query
  import opened Invariant

  /** The case rows of suite `sid` are exactly `tcs`, case i at sort position i. */
  ghost predicate SuiteCasesAre(cases: map<string, CaseRow>, sid: string, tcs: seq<TestCase>) {
    && (forall i :: 0 <= i < |tcs| ==> tcs[i].id in cases && cases[tcs[i].id] == CaseRowOf(sid, tcs[i], i))
    && (forall c :: c in cases && cases[c].testSuiteId == sid ==> c in CaseIds(tcs))
  }

  /** The case ids of `s` are pairwise distinct and none is a case of another suite. */
  ghost predicate CaseIdsFree(st: Store, s: TestSuite) {
    && Distinct(CaseIds(s.testCases))
    && (forall i :: 0 <= i < |s.testCases| ==>
          !(s.testCases[i].id in st.cases && st.cases[s.testCases[i].id].testSuiteId != s.id))
  }

  /** The first `n` ids of `tcs` are pairwise distinct and none is in `cases`. */
  ghost predicate FreshPrefix(cases: map<string, CaseRow>, tcs: seq<TestCase>, n: nat) {
    && (forall i, j :: 0 <= i < j < n && j < |tcs| ==> tcs[i].id != tcs[j].id)
    && (forall i :: 0 <= i < n && i < |tcs| ==> tcs[i].id !in cases)
  }

  /** The ids of the first `n` cases. */
  function IdsUpTo(tcs: seq<TestCase>, n: nat): set<string> {
    set i | 0 <= i < n && i < |tcs| :: tcs[i].id
  }

  lemma IdsUpToStep(tcs: seq<TestCase>, n: nat)
    requires 0 < n <= |tcs|
    ensures IdsUpTo(tcs, n) == IdsUpTo(tcs, n - 1) + {tcs[n - 1].id}
  {
  }

  /** `cases` is `base` plus exactly the rows of the first `n` cases of `tcs`,
      all of suite `sid`, case i at sort position i. */
  ghost predicate RowsAdded(base: map<string, CaseRow>, cases: map<string, CaseRow>, sid: string,
                            tcs: seq<TestCase>, n: nat)
    requires n <= |tcs|
  {
    && cases.Keys == base.Keys + IdsUpTo(tcs, n)
    && (forall i :: 0 <= i < n ==> tcs[i].id in cases && cases[tcs[i].id] == CaseRowOf(sid, tcs[i], i))
    && (forall c :: c in base ==> c in cases && cases[c] == base[c])
    && (forall c :: c in cases && c !in base ==> cases[c].testSuiteId == sid)
  }

  /** One more fresh insert keeps `RowsAdded`. */
  lemma RowsAddedStep(base: map<string, CaseRow>, prev: map<string, CaseRow>, sid: string,
                      tcs: seq<TestCase>, n: nat)
    requires 0 < n <= |tcs| && RowsAdded(base, prev, sid, tcs, n - 1) && tcs[n - 1].id !in prev
    ensures RowsAdded(base, prev[tcs[n - 1].id := CaseRowOf(sid, tcs[n - 1], n - 1)], sid, tcs, n)
  {
    var now := prev[tcs[n - 1].id := CaseRowOf(sid, tcs[n - 1], n - 1)];
    IdsUpToStep(tcs, n);
    forall i | 0 <= i < n
      ensures tcs[i].id in now && now[tcs[i].id] == CaseRowOf(sid, tcs[i], i)
    {
      if i < n - 1 {
        assert tcs[i].id in prev;
      }
    }
  }

  /** The insert loop in terms of `RowsAdded`. */
  lemma {:induction false} InsertCasesAdded(base: Store, sid: string, tcs: seq<TestCase>, n: nat)
    requires n <= |tcs|
    requires InsertCases(base, sid, tcs, n).1 == Pass
    ensures RowsAdded(base.cases, InsertCases(base, sid, tcs, n).0.cases, sid, tcs, n)
  {
    if n > 0 {
      var prev := InsertCases(base, sid, tcs, n - 1);
      assert prev.1 == Pass && tcs[n - 1].id !in prev.0.cases;
      InsertCasesAdded(base, sid, tcs, n - 1);
      RowsAddedStep(base.cases, prev.0.cases, sid, tcs, n);
      assert InsertCases(base, sid, tcs, n).0.cases == prev.0.cases[tcs[n - 1].id := CaseRowOf(sid, tcs[n - 1], n - 1)];
    }
  }

  /** A successful insert loop over the first `n` cases has added exactly
      their rows, all of suite `sid`, and changed no stored row. */
  lemma InsertCasesRows(base: Store, sid: string, tcs: seq<TestCase>, n: nat)
    requires n <= |tcs|
    requires InsertCases(base, sid, tcs, n).1 == Pass
    ensures InsertCases(base, sid, tcs, n).0.cases.Keys == base.cases.Keys + IdsUpTo(tcs, n)
    ensures forall i :: 0 <= i < n ==> InsertCases(base, sid, tcs, n).0.cases[tcs[i].id] == CaseRowOf(sid, tcs[i], i)
    ensures forall c :: c in base.cases ==> InsertCases(base, sid, tcs, n).0.cases[c] == base.cases[c]
    ensures forall c :: c in InsertCases(base, sid, tcs, n).0.cases && c !in base.cases ==>
              InsertCases(base, sid, tcs, n).0.cases[c].testSuiteId == sid
  {
    InsertCasesAdded(base, sid, tcs, n);
  }

  /** The insert loop over the first `n` cases succeeds iff their ids are
      fresh and pairwise distinct; a failure names one of them. */
  lemma InsertCasesPasses(base: Store, sid: string, tcs: seq<TestCase>, n: nat)
    requires n <= |tcs|
    ensures InsertCases(base, sid, tcs, n).1 == Pass <==> FreshPrefix(base.cases, tcs, n)
    ensures InsertCases(base, sid, tcs, n).1.Fail? ==>
              exists k :: 0 <= k < n && InsertCases(base, sid, tcs, n).1.error == UniqueViolation(tcs[k].id)
  {
    InsertCasesOutcome(base, sid, tcs, n);
  }

  /** `w` passes iff the first `n` ids are fresh in `base` and pairwise
      distinct, and a failure names one of them. */
  ghost predicate InsertOutcome(w: (Store, Outcome), base: map<string, CaseRow>, tcs: seq<TestCase>, n: nat)
    requires n <= |tcs|
  {
    && (w.1 == Pass <==> FreshPrefix(base, tcs, n))
    && (w.1.Fail? ==> exists k :: 0 <= k < n && w.1.error == UniqueViolation(tcs[k].id))
  }

  /** One more insert keeps `InsertOutcome`. */
  lemma InsertOutcomeStep(base: map<string, CaseRow>, prev: (Store, Outcome), sid: string, tcs: seq<TestCase>, n: nat)
    requires 0 < n <= |tcs| && InsertOutcome(prev, base, tcs, n - 1)
    requires prev.1 == Pass ==> RowsAdded(base, prev.0.cases, sid, tcs, n - 1)
    ensures InsertOutcome(if prev.1.Fail? then prev else InsertCase(prev.0, sid, tcs[n - 1], n - 1), base, tcs, n)
  {
    if prev.1 == Pass {
      if tcs[n - 1].id in prev.0.cases {
        InsertCollides(base, prev.0.cases, sid, tcs, n);
      } else {
        InsertFresh(base, prev.0.cases, sid, tcs, n);
      }
    }
  }

  /** An id already in `cases` after fresh inserts was in `base` or among the earlier ids. */
  lemma InsertCollides(base: map<string, CaseRow>, cases: map<string, CaseRow>, sid: string, tcs: seq<TestCase>, n: nat)
    requires 0 < n <= |tcs| && RowsAdded(base, cases, sid, tcs, n - 1) && tcs[n - 1].id in cases
    ensures !FreshPrefix(base, tcs, n)
  {
    var tc := tcs[n - 1];
    if tc.id !in base {
      assert tc.id in IdsUpTo(tcs, n - 1);
      var i :| 0 <= i < n - 1 && tcs[i].id == tc.id;
      assert tcs[i].id == tcs[n - 1].id;
    }
  }

  /** An id not in `cases` after fresh inserts extends the fresh prefix. */
  lemma InsertFresh(base: map<string, CaseRow>, cases: map<string, CaseRow>, sid: string, tcs: seq<TestCase>, n: nat)
    requires 0 < n <= |tcs| && RowsAdded(base, cases, sid, tcs, n - 1) && tcs[n - 1].id !in cases
    requires FreshPrefix(base, tcs, n - 1)
    ensures FreshPrefix(base, tcs, n)
  {
    forall i | 0 <= i < n - 1
      ensures tcs[i].id != tcs[n - 1].id
    {
      assert tcs[i].id in cases;
    }
  }

  lemma {:induction false} InsertCasesOutcome(base: Store, sid: string, tcs: seq<TestCase>, n: nat)
    requires n <= |tcs|
    ensures InsertOutcome(InsertCases(base, sid, tcs, n), base.cases, tcs, n)
  {
    if n > 0 {
      InsertCasesOutcome(base, sid, tcs, n - 1);
      if InsertCases(base, sid, tcs, n - 1).1 == Pass {
        InsertCasesAdded(base, sid, tcs, n - 1);
      }
      InsertOutcomeStep(base.cases, InsertCases(base, sid, tcs, n - 1), sid, tcs, n);
    }
  }

  /** save_test_suite succeeds iff its case ids are distinct and owned by no
      other suite; a failure names one of the supplied case ids. */
  lemma SaveSuiteOutcome(st: Store, s: TestSuite)
    ensures SaveSuite(st, s).1 == Pass <==> CaseIdsFree(st, s)
    ensures SaveSuite(st, s).1.Fail? ==>
              exists k :: 0 <= k < |s.testCases| && SaveSuite(st, s).1.error == UniqueViolation(s.testCases[k].id)
  {
    var base := DeleteCasesOf(UpsertSuite(st, s), s.id);
    InsertCasesPasses(base, s.id, s.testCases, |s.testCases|);
  }

  /** After a successful save the suite has exactly the supplied cases, case i
      at sort position i; the cases of every other suite are untouched. */
  lemma SaveSuiteReplacesCases(st: Store, s: TestSuite)
    requires SaveSuite(st, s).1 == Pass
    ensures SuiteCasesAre(SaveSuite(st, s).0.cases, s.id, s.testCases)
    ensures forall c :: c in st.cases && st.cases[c].testSuiteId != s.id ==>
              c in SaveSuite(st, s).0.cases && SaveSuite(st, s).0.cases[c] == st.cases[c]
    ensures forall c :: c in SaveSuite(st, s).0.cases && SaveSuite(st, s).0.cases[c].testSuiteId != s.id ==>
              c in st.cases && st.cases[c] == SaveSuite(st, s).0.cases[c]
  {
    var base := DeleteCasesOf(UpsertSuite(st, s), s.id);
    InsertCasesAdded(base, s.id, s.testCases, |s.testCases|);
    CasesReplaced(st.cases, SaveSuite(st, s).0.cases, s.id, s.testCases);
  }

  /** Adding the rows of `tcs` to `cases` without suite `sid` leaves suite
      `sid` with exactly those rows and every other suite as it was. */
  lemma CasesReplaced(cases: map<string, CaseRow>, after: map<string, CaseRow>, sid: string, tcs: seq<TestCase>)
    requires RowsAdded(CasesNotIn(cases, {sid}), after, sid, tcs, |tcs|)
    ensures SuiteCasesAre(after, sid, tcs)
    ensures forall c :: c in cases && cases[c].testSuiteId != sid ==> c in after && after[c] == cases[c]
    ensures forall c :: c in after && after[c].testSuiteId != sid ==> c in cases && cases[c] == after[c]
  {
    forall c | c in after && after[c].testSuiteId == sid
      ensures c in CaseIds(tcs)
    {
      assert c in IdsUpTo(tcs, |tcs|);
      var i :| 0 <= i < |tcs| && tcs[i].id == c;
      assert CaseIds(tcs)[i] == c;
    }
  }

  /** The suite row after a save (also a failed one): every field from the
      call except created_at, which a stored suite keeps. Other suites keep
      their rows, and runs, results and app state are not touched. */
  lemma SaveSuiteUpsert(st: Store, s: TestSuite)
    ensures var after := SaveSuite(st, s).0;
      && s.id in after.suites
      && after.suites[s.id] == SuiteRowOf(s).(createdAt := if s.id in st.suites then st.suites[s.id].createdAt
                                                             else s.createdAt)
      && (forall id :: id in st.suites && id != s.id ==> id in after.suites && after.suites[id] == st.suites[id])
      && after.suites.Keys == st.suites.Keys + {s.id}
      && after.runs == st.runs && after.results == st.results && after.appState == st.appState
      && after.version == st.version
  {
    var base := DeleteCasesOf(UpsertSuite(st, s), s.id);
    InsertCasesFrame(base, s.id, s.testCases, |s.testCases|);
  }

  /** A strictly increasing sequence of values in [0, n) that takes every value
      in [0, n) is 0, 1, ..., n-1. */
  lemma {:induction false} StrictCover(r: seq<int>, n: nat)
    requires forall i, j :: 0 <= i < j < |r| ==> r[i] < r[j]
    requires forall i :: 0 <= i < |r| ==> 0 <= r[i] < n
    requires forall v :: 0 <= v < n ==> v in r
    ensures |r| == n
    ensures forall k :: 0 <= k < |r| ==> r[k] == k
  {
    if |r| == 0 {
      assert n > 0 ==> 0 in r;
    } else {
      var last := |r| - 1;
      assert 0 <= r[last] < n;
      assert n - 1 in r;
      var k :| 0 <= k < |r| && r[k] == n - 1;
      var front := r[..last];
      forall v | 0 <= v < n - 1
        ensures v in front
      {
        assert v in r;
        var i :| 0 <= i < |r| && r[i] == v;
        assert i != last;
        assert front[i] == v;
      }
      forall i | 0 <= i < |front|
        ensures 0 <= front[i] < n - 1
      {
        assert r[i] < r[last];
      }
      StrictCover(front, n - 1);
    }
  }

  /** Listing a suite after a successful save returns exactly the supplied
      cases, in the supplied order. */
  lemma CaseListingAfterSave(cases: map<string, CaseRow>, sid: string, tcs: seq<TestCase>, list: seq<TestCase>)
    requires Distinct(CaseIds(tcs))
    requires SuiteCasesAre(cases, sid, tcs)
    requires CaseListing(cases, sid, list)
    ensures list == tcs
  {
    var n := |tcs|;
    var L := |list|;
    forall k | 0 <= k < L
      ensures list[k].id in cases
      ensures 0 <= cases[list[k].id].sortOrder < n
      ensures tcs[cases[list[k].id].sortOrder].id == list[k].id
    {
      assert CaseIds(list)[k] == list[k].id;
      assert list[k].id in CaseKeysOf(cases, sid);
      assert list[k].id in CaseIds(tcs);
      var i :| 0 <= i < n && CaseIds(tcs)[i] == list[k].id;
    }
    var r := seq(L, k requires 0 <= k < L => cases[list[k].id].sortOrder);
    forall a, b | 0 <= a < b < L
      ensures r[a] < r[b]
    {
      assert CaseIds(list)[a] != CaseIds(list)[b];
    }
    forall v | 0 <= v < n
      ensures v in r
    {
      assert tcs[v].id in CaseKeysOf(cases, sid);
      var k :| 0 <= k < L && CaseIds(list)[k] == tcs[v].id;
      assert r[k] == v;
    }
    StrictCover(r, n);
    forall k | 0 <= k < n
      ensures list[k] == tcs[k]
    {
      assert r[k] == k;
    }
  }

  /** save_test_suite followed by get_all_test_suites: the suite is listed
      once, with the call's fields (created_at kept if it was stored) and
      exactly the call's cases in the call's order. */
  lemma ListingAfterSave(st: Store, s: TestSuite, list: seq<TestSuite>)
    requires SaveSuite(st, s).1 == Pass
    requires SuiteListing(SaveSuite(st, s).0, list)
    ensures exists k :: 0 <= k < |list| && list[k].id == s.id
    ensures forall k :: 0 <= k < |list| && list[k].id == s.id ==>
              list[k] == s.(createdAt := if s.id in st.suites then st.suites[s.id].createdAt else s.createdAt)
  {
    var after := SaveSuite(st, s).0;
    SaveSuiteOutcome(st, s);
    SaveSuiteReplacesCases(st, s);
    SaveSuiteUpsert(st, s);
    assert s.id in SuiteIds(list);
    var k0 :| 0 <= k0 < |list| && SuiteIds(list)[k0] == s.id;
    forall k | 0 <= k < |list| && list[k].id == s.id
      ensures list[k] == s.(createdAt := if s.id in st.suites then st.suites[s.id].createdAt else s.createdAt)
    {
      CaseListingAfterSave(after.cases, s.id, s.testCases, list[k].testCases);
    }
  }

  /** delete_test_suite leaves no case of that suite; it touches no other
      suite's cases and no run (runs have no foreign key to suites). */
  lemma DeleteSuiteCascades(st: Store, id: string)
    requires Inv(st)
    ensures var after := DeleteSuites(st, {id});
      && id !in after.suites
      && (forall c :: c in after.cases ==> after.cases[c].testSuiteId != id)
      && (forall c :: c in st.cases && st.cases[c].testSuiteId != id ==> c in after.cases && after.cases[c] == st.cases[c])
      && (forall sid :: sid in st.suites && sid != id ==> sid in after.suites && after.suites[sid] == st.suites[sid])
      && after.runs == st.runs && after.results == st.results
  {
    var after := DeleteSuites(st, {id});
    if id in st.suites {
      assert {id} * st.suites.Keys == {id};
    } else {
      assert {id} * st.suites.Keys == {};
    }
  }
}
