/** The SELECT statements of the read path: an ORDER BY over a table's keys,
    and what a listing returned by get_all_test_suites, get_test_cases_for_suite
    and get_all_runs is. The engine's order among equal sort keys is
    unspecified, so a listing is any order that the ORDER BY allows. */
module Query {
  import opened Types
  import opened Rows
  import opened Statements

  /** `xs` lists every key of `keys` exactly once. */
  ghost predicate Enumerates(xs: seq<string>, keys: set<string>) {
    && Distinct(xs)
    && (forall i :: 0 <= i < |xs| ==> xs[i] in keys)
    && (forall k :: k in keys ==> k in xs)
  }

  /** Order of two sort keys under ASC or DESC. */
  predicate InOrder(a: int, b: int, descending: bool) {
    if descending then a >= b else a <= b
  }

  /** A finite non-empty set of keys has a first element under the order. */
  lemma {:induction false} FirstExists(keys: set<string>, rank: map<string, int>, descending: bool)
    requires keys != {} && keys <= rank.Keys
    ensures exists m :: m in keys && forall k :: k in keys ==> InOrder(rank[m], rank[k], descending)
  {
    var x :| x in keys;
    if keys == {x} {
      assert InOrder(rank[x], rank[x], descending);
    } else {
      var rest := keys - {x};
      FirstExists(rest, rank, descending);
      var m :| m in rest && forall k :: k in rest ==> InOrder(rank[m], rank[k], descending);
      if InOrder(rank[m], rank[x], descending) {
        forall k | k in keys ensures InOrder(rank[m], rank[k], descending) {
          if k != x { assert k in rest; }
        }
      } else {
        forall k | k in keys ensures InOrder(rank[x], rank[k], descending) {
          if k != x { assert k in rest && InOrder(rank[m], rank[k], descending); }
        }
      }
    }
  }

  /** `order` lists, once each and in sort order, keys of `rank` that all
      come before every key still in `remaining`; together the two hold
      every key. */
  ghost predicate Selected(rank: map<string, int>, descending: bool, order: seq<string>, remaining: set<string>) {
    && remaining <= rank.Keys
    && Distinct(order)
    && (forall i :: 0 <= i < |order| ==> order[i] in rank && order[i] !in remaining)
    && (forall k :: k in rank ==> k in remaining || k in order)
    && (forall i, j :: 0 <= i < j < |order| ==> InOrder(rank[order[i]], rank[order[j]], descending))
    && (forall i, k :: 0 <= i < |order| && k in remaining ==> InOrder(rank[order[i]], rank[k], descending))
  }

  /** Moving a first remaining key to the end of `order` keeps `Selected`. */
  lemma SelectedStep(rank: map<string, int>, descending: bool, order: seq<string>, remaining: set<string>, m: string)
    requires Selected(rank, descending, order, remaining)
    requires m in remaining && forall k :: k in remaining ==> InOrder(rank[m], rank[k], descending)
    ensures Selected(rank, descending, order + [m], remaining - {m})
  {
    var next := order + [m];
    forall i, j | 0 <= i < j < |next|
      ensures next[i] != next[j]
    {
      if j < |order| {
        assert next[i] == order[i] && next[j] == order[j];
      }
    }
  }

  /** `SELECT id ... ORDER BY rank [DESC]`: every key once, in sort order. */
  method OrderBy(rank: map<string, int>, descending: bool) returns (order: seq<string>)
    ensures Enumerates(order, rank.Keys)
    ensures forall i, j :: 0 <= i < j < |order| ==>
              order[i] in rank && order[j] in rank && InOrder(rank[order[i]], rank[order[j]], descending)
  {
    var remaining := rank.Keys;
    order := [];
    while remaining != {}
      invariant Selected(rank, descending, order, remaining)
      decreases remaining
    {
      FirstExists(remaining, rank, descending);
      var m :| m in remaining && forall k :: k in remaining ==> InOrder(rank[m], rank[k], descending);
      SelectedStep(rank, descending, order, remaining, m);
      order := order + [m];
      remaining := remaining - {m};
    }
  }

  /** The case rows of suite `sid`. */
  function CaseKeysOf(cases: map<string, CaseRow>, sid: string): set<string> {
    set c | c in cases && cases[c].testSuiteId == sid
  }

  /** A result of get_test_cases_for_suite: every case of the suite once,
      decoded, by ascending sort_order. */
  ghost predicate CaseListing(cases: map<string, CaseRow>, sid: string, list: seq<TestCase>) {
    && Enumerates(CaseIds(list), CaseKeysOf(cases, sid))
    && (forall k :: 0 <= k < |list| ==> list[k].id in cases && list[k] == CaseView(list[k].id, cases[list[k].id]))
    && (forall i, j :: 0 <= i < j < |list| && list[i].id in cases && list[j].id in cases ==>
          cases[list[i].id].sortOrder <= cases[list[j].id].sortOrder)
  }

  /** A result of get_all_test_suites: every suite once, with its case listing,
      by descending updated_at. */
  ghost predicate SuiteListing(st: Store, list: seq<TestSuite>) {
    && Enumerates(SuiteIds(list), st.suites.Keys)
    && (forall k :: 0 <= k < |list| ==>
          && list[k].id in st.suites
          && list[k] == SuiteView(list[k].id, st.suites[list[k].id], list[k].testCases)
          && CaseListing(st.cases, list[k].id, list[k].testCases))
    && (forall i, j :: 0 <= i < j < |list| ==> list[i].updatedAt >= list[j].updatedAt)
  }

  /** A result of get_all_runs: every run once, decoded, with the results of
      that run in stored order, by descending started_at. */
  ghost predicate RunListing(st: Store, list: seq<RunResult>) {
    && Enumerates(RunIds(list), st.runs.Keys)
    && (forall k :: 0 <= k < |list| ==>
          && list[k].id in st.runs
          && list[k] == RunView(list[k].id, st.runs[list[k].id], ResultViews(ResultsOfRun(st.results, list[k].id))))
    && (forall i, j :: 0 <= i < j < |list| ==> list[i].startedAt >= list[j].startedAt)
  }

  /** Suites read in the order of an ORDER BY updated_at DESC, each with its
      case listing, form a suite listing. */
  lemma SuiteListingOf(st: Store, rank: map<string, int>, ids: seq<string>, list: seq<TestSuite>)
    requires rank == map id | id in st.suites :: st.suites[id].updatedAt
    requires Enumerates(ids, rank.Keys)
    requires forall i, j :: 0 <= i < j < |ids| ==>
               ids[i] in rank && ids[j] in rank && InOrder(rank[ids[i]], rank[ids[j]], true)
    requires |list| == |ids|
    requires forall i :: 0 <= i < |ids| ==>
               && list[i].id == ids[i] && ids[i] in st.suites
               && list[i] == SuiteView(ids[i], st.suites[ids[i]], list[i].testCases)
               && CaseListing(st.cases, ids[i], list[i].testCases)
    ensures SuiteListing(st, list)
  {
    assert SuiteIds(list) == ids;
  }

  /** Runs read in the order of an ORDER BY started_at DESC, each with its
      results, form a run listing. */
  lemma RunListingOf(st: Store, rank: map<string, int>, ids: seq<string>, list: seq<RunResult>)
    requires rank == map id | id in st.runs :: st.runs[id].startedAt
    requires Enumerates(ids, rank.Keys)
    requires forall i, j :: 0 <= i < j < |ids| ==>
               ids[i] in rank && ids[j] in rank && InOrder(rank[ids[i]], rank[ids[j]], true)
    requires |list| == |ids|
    requires forall i :: 0 <= i < |ids| ==>
               && list[i].id == ids[i] && ids[i] in st.runs
               && list[i] == RunView(ids[i], st.runs[ids[i]], ResultViews(ResultsOfRun(st.results, ids[i])))
    ensures RunListing(st, list)
  {
    assert RunIds(list) == ids;
  }
}
