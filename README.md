# Benchmaker storage layer in Dafny

Benchmaker is a desktop application for benchmarking language models. It
keeps test suites, their test cases, benchmark runs, their per-case results
and two app-state ids (the active suite and the current run) in one
SQLite database. This project models that storage layer,
`src-tauri/src/main.rs` lines 141–1026:

- the schema migration (`migrate_database`, `create_normalized_tables`,
  `migrate_from_snapshot`), which moves a legacy single-blob snapshot table
  into normalized tables once;
- the suite commands (`save_test_suite`, `delete_test_suite`,
  `get_all_test_suites`, `get_test_cases_for_suite`);
- the run commands (`save_run`, `delete_run`, `get_all_runs`,
  `get_results_for_run`);
- the app-state commands (`get_app_state`, `save_app_state`);
- the legacy whole-database commands (`read_snapshot`, `write_snapshot`).

How the model is built:

- **The database is a class.** `Database.Database` holds the tables as
  fields: the schema version, the legacy table and its payload, maps from id
  to row for suites, cases and runs, the result rows as a sequence in rowid
  order, and the optional app-state row. Each command is a method that
  changes those fields.
- **Each statement is a pure function.** In module `Statements`, each SQL
  statement is a function on the value `Store` (`Database.State()`), with
  its exact row-level effect:
  - upserts (`INSERT ... ON CONFLICT(id) DO UPDATE`);
  - `INSERT OR REPLACE`, which deletes the old row first and so cascades,
    because `PRAGMA foreign_keys = ON` is set;
  - plain `INSERT` into a primary key, which fails on a duplicate;
  - `DELETE` with its `ON DELETE CASCADE`;
  - the empty-list special case of the "not in snapshot" pruning.

  Every method's `ensures` ties its new state and outcome to that function.
- **A failed statement returns an error.** Its outcome is
  `Fail(UniqueViolation(id))` or `Fail(SnapshotParseFailed)`. The statements
  that ran before it stay applied, as they do on a connection without a
  transaction.
- **JSON columns are `Json<T>`.** A column is either `Encoded(value)` or
  `Malformed(text)`. Reads apply the source's fallbacks: tags and models
  read as `[]`, parameters as `temperature 0.7, top_p 1.0, max_tokens 1024,
  penalties 0.0`, and a score as `None`.
- **ORDER BY is `Query.OrderBy`.** It is a selection loop that returns every
  key once, ordered by the rank. Ties may come out in any order, as in
  SQLite.
- **Every command opens the database first.** Opening runs
  `migrate_database`, so each command method calls `Migrate` and returns its
  error when the migration fails; otherwise the command's statements run on
  the migrated tables.
- **Properties are lemmas.** The lemma modules prove them about the
  statement functions: migration idempotence, how a save replaces a suite's
  cases, the cascades, the bulk replace done by `write_snapshot`, and the
  round trip of `read_snapshot`, then `write_snapshot` of what it returned,
  then `read_snapshot` again.

Behaviour of the source worth noting:

- **`read_snapshot` never returns `None`.** It returns `Ok(Some(..))`, even
  for an empty database.
- **A migration failure leaves the database below version 2.** The legacy
  blob is parsed before any row is written, so a parse error leaves only the
  seeded app-state row behind. The next start retries the migration.
- **The version check is redundant.** The condition
  `has_old_snapshot && current_version < 2` repeats the enclosing bound, and
  the model keeps it as written.
- **A suite save keeps `created_at`.** `save_test_suite` and the suite loop
  of `write_snapshot` keep the stored value on conflict.
- **A run save refreshes only two fields.** `save_run` and the run loop of
  `write_snapshot` update only `status` and `completed_at` of a stored run.
  Its other fields keep their first-saved values, while its results are
  replaced.
- **A case id owned by another suite makes the save fail.** The plain
  `INSERT INTO test_cases` fails with a unique-constraint error. By then the
  suite row has already been upserted and its old cases deleted.

## Model

| member | source | states |
|---|---|---|
| Codec.Encode | src-tauri/src/main.rs:522-524 | a serialized value decodes back to itself |
| Codec.Decode | src-tauri/src/main.rs:475 | decoding succeeds exactly on text that is the serialization of a value |
| Codec.DecodeOr | src-tauri/src/main.rs:587-595 | the `unwrap_or` fallback: the default exactly when decoding fails, the decoded value otherwise |
| Rows.CaseView | src-tauri/src/main.rs:471-488 | a case read back keeps the id, prompt and weight; undecodable tags read as an empty list |
| Rows.ResultView | src-tauri/src/main.rs:634-655 | a result whose score column is NULL or does not decode reads with no score |
| Rows.RunView | src-tauri/src/main.rs:584-610 | a run read back has its id, its results and its started_at; undecodable models read as [] and undecodable parameters as 0.7/1.0/1024/0.0/0.0 |
| Rows.SuiteRowOf | src-tauri/src/main.rs:499-516 | the stored suite row reads back as the suite |
| Rows.CaseRowOf | src-tauri/src/main.rs:521-544 | the stored case row belongs to the suite, has sort_order equal to the list index and reads back as the case |
| Rows.SuiteRowOfView | src-tauri/src/main.rs:425-446 | a suite row read back and written again is the same row: no column of test_suites has a read fallback |
| Rows.RunRowOf | src-tauri/src/main.rs:663-686 | the stored run row reads back as the run (given its results) |
| Rows.ResultRowOf | src-tauri/src/main.rs:692-713 | the stored result row names the run and reads back as the result, score included |
| Rows.ResultRows | src-tauri/src/main.rs:691-714 | one row per result in list order, and the rows read back as the list |
| Statements.CasesNotIn | src-tauri/src/main.rs:215 | the `ON DELETE CASCADE` of test_cases: exactly the case rows whose suite is not deleted (proved of deletes in `SuiteLemmas.DeleteSuiteCascades`) |
| Statements.ResultsNotIn | src-tauri/src/main.rs:250 | the `ON DELETE CASCADE` of test_case_results: the result rows, in stored order, whose run is not deleted (proved in `Statements.ResultsNotInKept` and `RunLemmas.ResultsOfRunNotIn`) |
| Statements.ResultsOfRun | src-tauri/src/main.rs:616-620 | `SELECT ... FROM test_case_results WHERE run_id = ?`: the run's rows in stored order (its meaning is `Statements.ResultsOfRunKept` and the `RunLemmas.ResultsOfRun*` lemmas) |
| Statements.UpsertSuite | src-tauri/src/main.rs:499-516 | the suite upsert; a stored suite keeps created_at (proved in `SuiteLemmas.SaveSuiteUpsert`) |
| Statements.SaveSuite | src-tauri/src/main.rs:495-545 | save_test_suite's statements: upsert, delete the suite's cases, insert the new ones (proved in `SuiteLemmas.SaveSuiteOutcome`, `SaveSuiteReplacesCases`, `SaveSuiteUpsert`) |
| Statements.DeleteSuites | src-tauri/src/main.rs:548-553 | the suite delete with its cascade (proved in `SuiteLemmas.DeleteSuiteCascades`) |
| Statements.UpsertRun | src-tauri/src/main.rs:670-686 | the run upsert; a stored run takes only status and completed_at (proved in `RunLemmas.SaveRunUpsert`) |
| Statements.SaveRun | src-tauri/src/main.rs:661-715 | save_run's statements: upsert, delete the run's results, insert the new ones (proved in `RunLemmas.SaveRunReplacesResults`, `SaveRunUpsert`) |
| Statements.DeleteRuns | src-tauri/src/main.rs:718-723 | the run delete with its cascade (proved in `RunLemmas.DeleteRunCascades`) |
| Statements.CreateNormalizedTables | src-tauri/src/main.rs:187-288 | create_normalized_tables: no rows except the seeded app_state row (proved in `Invariant.MigrateKeepsInv` and `MigrationLemmas.MigrateOutcome`) |
| Statements.ReplaceSuite | src-tauri/src/main.rs:307-318 | INSERT OR REPLACE of a legacy suite, which deletes the old row and its cases first (proved in `MigrationLemmas.ReplaceSuiteClears`) |
| Statements.ReplaceRun | src-tauri/src/main.rs:351-364 | INSERT OR REPLACE of a legacy run, which deletes the old row and its results first (proved in `MigrationLemmas.ReplaceRunClears`) |
| Statements.ImportLegacy | src-tauri/src/main.rs:303-399 | the copy of a parsed legacy document, then the drop of the legacy table (proved in `MigrationLemmas.ImportLegacyCopies`, `ImportLegacyFrame`) |
| Statements.MigrateFromSnapshot | src-tauri/src/main.rs:290-402 | migrate_from_snapshot: no legacy row, an unparsable one, or the copy (proved in `MigrationLemmas.MigrateOutcome`) |
| Statements.Migrate | src-tauri/src/main.rs:141-185 | migrate_database (proved in `MigrationLemmas.MigrateOutcome`, `MigrateAtCurrentVersion`, `MigrateIdempotent`, `LegacyCopied`) |
| Statements.WriteSuites | src-tauri/src/main.rs:803-849 | the suite loop of write_snapshot, stopping at the first failing save (proved in `SnapshotLemmas.WriteSuitesFrame`, `WriteSuitesCopies`, `WriteSuitesError`) |
| Statements.PruneSuites | src-tauri/src/main.rs:851-860 | "delete suites not in snapshot", with the empty-list case (proved in `SnapshotLemmas.PruneSuitesEffect`) |
| Statements.WriteRuns | src-tauri/src/main.rs:862-912 | the run loop of write_snapshot (proved in `SnapshotLemmas.WriteRunsFrame`, `WriteRunsCopies`) |
| Statements.PruneRuns | src-tauri/src/main.rs:914-923 | "delete runs not in snapshot", with the empty-list case (proved in `SnapshotLemmas.PruneRunsEffect`) |
| Statements.WriteSnapshot | src-tauri/src/main.rs:800-932 | write_snapshot's statements (proved in `SnapshotLemmas.WriteSnapshotTables`, `WriteSnapshotContents`, `WriteSnapshotFailure`, `WriteSnapshotSucceeds`) |
| Statements.ResultsNotInKept | src-tauri/src/main.rs:250 | the cascade keeps only stored rows whose run is not deleted |
| Statements.ResultsOfRunKept | src-tauri/src/main.rs:616-620 | `WHERE run_id = ?` returns only stored rows of that run |
| Statements.AppStateOrDefault | src-tauri/src/main.rs:730-750 | a missing app_state row reads as two absent ids, an existing one as stored |
| Invariant.InsertCasesFrame | src-tauri/src/main.rs:521-544 | the case insert loop changes only the case table, never overwrites a stored case, and adds only cases of the saved suite |
| Invariant.SaveSuiteKeepsInv | src-tauri/src/main.rs:495-545 | save_test_suite keeps every case attached to a stored suite; it adds exactly the suite id and touches no run, result, app-state row or version |
| Invariant.DeleteSuitesKeepsInv | src-tauri/src/main.rs:548-553 | deleting suites with their cascade keeps every case attached to a stored suite |
| Invariant.SaveRunKeepsInv | src-tauri/src/main.rs:661-715 | save_run keeps every result attached to a stored run |
| Invariant.DeleteRunsKeepsInv | src-tauri/src/main.rs:718-723 | deleting runs with their cascade keeps every result attached to a stored run |
| Invariant.ImportCasesFrame | src-tauri/src/main.rs:320-342 | the legacy case inserts change only the case table and keep the invariant |
| Invariant.ImportSuitesFrame | src-tauri/src/main.rs:305-342 | the legacy suite loop changes only suites and cases and keeps the invariant |
| Invariant.ImportRunsFrame | src-tauri/src/main.rs:344-388 | the legacy run loop changes only runs and results and keeps the invariant |
| Invariant.ImportLegacyKeepsInv | src-tauri/src/main.rs:303-399 | copying a legacy document keeps the invariant, the app-state row and the version |
| Invariant.MigrateKeepsInv | src-tauri/src/main.rs:141-185 | migrate_database keeps the invariant, and at version 2 the app-state row exists |
| Invariant.WriteSuitesKeepsInv | src-tauri/src/main.rs:803-849 | the suite loop of write_snapshot keeps the invariant and touches no run, result, app-state row or version |
| Invariant.WriteRunsKeepsInv | src-tauri/src/main.rs:862-912 | the run loop of write_snapshot keeps the invariant and changes only runs and results |
| Invariant.WriteSnapshotKeepsInv | src-tauri/src/main.rs:800-932 | write_snapshot keeps the invariant |
| Query.FirstExists | src-tauri/src/main.rs:413 | a non-empty key set has a key whose rank comes first (largest when descending, smallest when ascending) |
| Query.OrderBy | src-tauri/src/main.rs:413 | `ORDER BY` lists every key exactly once, each adjacent-or-not pair in rank order |
| Query.SuiteListingOf | src-tauri/src/main.rs:409-450 | suites read in `ORDER BY updated_at DESC` order, each with its case listing, are a get_all_test_suites result |
| Query.RunListingOf | src-tauri/src/main.rs:560-614 | runs read in `ORDER BY started_at DESC` order, each with its results, are a get_all_runs result |
| Database.Database.constructor | src-tauri/src/main.rs:127-139 | an opened database before migration: no schema version, no normalized rows, the legacy table as found |
| Database.Database.Migrate | src-tauri/src/main.rs:141-185 | migrate_database changes the tables exactly as `Statements.Migrate` and keeps the invariant |
| Database.Database.CreateNormalizedTables | src-tauri/src/main.rs:187-288 | create_normalized_tables adds no row except the app_state row when it is missing |
| Database.Database.MigrateFromSnapshot | src-tauri/src/main.rs:290-402 | migrate_from_snapshot: nothing without a legacy row, an error before any write on a blob that does not parse, otherwise the copy then the drop |
| Database.Database.ImportSuiteRows | src-tauri/src/main.rs:305-342 | the legacy suite loop changes the tables exactly as `Statements.ImportSuites` |
| Database.Database.ImportCaseRows | src-tauri/src/main.rs:320-342 | the legacy case inserts of one suite change the tables exactly as `Statements.ImportCases` |
| Database.Database.ImportRunRows | src-tauri/src/main.rs:344-388 | the legacy run loop changes the tables exactly as `Statements.ImportRuns` |
| Database.Database.ReplaceSuiteRow | src-tauri/src/main.rs:307-318 | INSERT OR REPLACE of a suite deletes the stored row first, with its cases |
| Database.Database.ReplaceRunRow | src-tauri/src/main.rs:351-364 | INSERT OR REPLACE of a run deletes the stored row first, with its results |
| Database.Database.InsertResults | src-tauri/src/main.rs:366-387 | the result inserts append one row per result, in list order |
| Database.Database.GetTestCasesForSuite | src-tauri/src/main.rs:452-492 | get_test_cases_for_suite lists each case of the suite once, decoded, by ascending sort_order |
| Database.Database.SelectSuites | src-tauri/src/main.rs:935-972 | get_all_test_suites_internal lists each suite once with its case listing, by descending updated_at |
| Database.Database.ListSuites | src-tauri/src/main.rs:408-450 | get_all_test_suites: the migration runs first and its error is the command's; on success the suite listing of the migrated tables |
| Database.Database.SaveTestSuite | src-tauri/src/main.rs:494-545 | save_test_suite: the migration's error, or on the migrated tables exactly `Statements.SaveSuite` |
| Database.Database.SaveSuiteRows | src-tauri/src/main.rs:497-544 | the statements of save_test_suite: the upsert, the delete of the suite's cases, then the inserts, stopping at the first duplicate |
| Database.Database.InsertCasesStuck | src-tauri/src/main.rs:526-543 | after a failed insert the remaining inserts are not run |
| Database.Database.DeleteSuiteRows | src-tauri/src/main.rs:855-859 | deleting a set of stored suites removes them and their cases |
| Database.Database.DeleteTestSuite | src-tauri/src/main.rs:547-553 | delete_test_suite: the migration's error, or on the migrated tables the delete of the suite and its cases |
| Database.Database.GetResultsForRun | src-tauri/src/main.rs:616-658 | get_results_for_run returns the decoded rows of that run in stored order |
| Database.Database.SelectRuns | src-tauri/src/main.rs:974-1026 | get_all_runs_internal lists each run once with its results, by descending started_at |
| Database.Database.ListRuns | src-tauri/src/main.rs:559-614 | get_all_runs: the migration's error, or on success the run listing of the migrated tables |
| Database.Database.SaveRun | src-tauri/src/main.rs:660-715 | save_run: the migration's error, or on the migrated tables exactly `Statements.SaveRun` |
| Database.Database.SaveRunRows | src-tauri/src/main.rs:663-714 | the statements of save_run: the upsert, the delete of the run's results, then the inserts |
| Database.Database.DeleteRunRows | src-tauri/src/main.rs:918-922 | deleting a set of stored runs removes them and their results |
| Database.Database.DeleteRun | src-tauri/src/main.rs:717-723 | delete_run: the migration's error, or on the migrated tables the delete of the run and its results |
| Database.Database.StoredAppState | src-tauri/src/main.rs:733-747 | the app_state row as read, or two absent ids when there is none |
| Database.Database.GetAppState | src-tauri/src/main.rs:729-750 | get_app_state: the migration's error, or the app-state ids of the migrated tables |
| Database.Database.SaveAppState | src-tauri/src/main.rs:752-767 | save_app_state: the migration's error, or the upsert of the row, after which it holds exactly what was saved |
| Database.Database.ReadSnapshot | src-tauri/src/main.rs:772-797 | read_snapshot: the migration's error, or a document (never `None`) with version 2, the given time, the suite and run listings and the app-state ids |
| Database.Database.WriteSnapshot | src-tauri/src/main.rs:799-932 | write_snapshot: the migration's error, or on the migrated tables exactly `Statements.WriteSnapshot` |
| Database.Database.WriteSnapshotRows | src-tauri/src/main.rs:803-932 | the statements of write_snapshot: suite loop, suite prune, run loop, run prune, app-state update, keeping the invariant |
| Database.Database.WriteSuiteList | src-tauri/src/main.rs:803-849 | the suite loop of write_snapshot, stopping at the first failing save |
| Database.Database.PruneSuiteRows | src-tauri/src/main.rs:851-860 | the suite prune, with the empty-list case |
| Database.Database.WriteRunList | src-tauri/src/main.rs:862-912 | the run loop of write_snapshot |
| Database.Database.PruneRunRows | src-tauri/src/main.rs:914-923 | the run prune, with the empty-list case |
| Database.Database.WriteSuitesStuck | src-tauri/src/main.rs:803-849 | after a failed suite save the remaining suites are not written |
| SuiteLemmas.InsertCasesRows | src-tauri/src/main.rs:521-544 | a successful insert loop adds exactly the listed ids, case i at sort_order i, and keeps every stored case |
| SuiteLemmas.InsertCasesPasses | src-tauri/src/main.rs:526-543 | the insert loop succeeds iff the ids are pairwise distinct and none is stored; on failure it names one of them |
| SuiteLemmas.SaveSuiteOutcome | src-tauri/src/main.rs:495-545 | save_test_suite succeeds iff its case ids are distinct and none belongs to another suite; a failure names one of its case ids |
| SuiteLemmas.SaveSuiteReplacesCases | src-tauri/src/main.rs:518-544 | after a successful save the suite has exactly the supplied cases at sort positions 0..n-1, and no other suite's case changed |
| SuiteLemmas.CasesReplaced | src-tauri/src/main.rs:518-544 | deleting a suite's cases and inserting the new list leaves that suite with exactly the list and every other suite's cases as they were |
| SuiteLemmas.SaveSuiteUpsert | src-tauri/src/main.rs:499-516 | the upsert takes every field but keeps a stored created_at, even on a failed save; other suites, runs, results and app state are untouched |
| SuiteLemmas.StrictCover | src-tauri/src/main.rs:454 | a strictly increasing sequence over all of 0..n-1 is 0, 1, ..., n-1 (the listed order is the saved order) |
| SuiteLemmas.CaseListingAfterSave | src-tauri/src/main.rs:452-492 | after the save, get_test_cases_for_suite returns exactly the saved list, in order |
| SuiteLemmas.ListingAfterSave | src-tauri/src/main.rs:409-450 | after a successful save the suite is listed once, as saved except for a kept created_at |
| SuiteLemmas.DeleteSuiteCascades | src-tauri/src/main.rs:548-553 | delete_test_suite leaves no case of that suite, keeps every other suite and case, and does not touch runs or results |
| RunLemmas.ResultsOfRunAppend | src-tauri/src/main.rs:616-620 | selecting one run's results distributes over appended rows |
| RunLemmas.ResultsOfRunNotIn | src-tauri/src/main.rs:250 | after a cascade, a deleted run has no results and a kept run keeps all of them |
| RunLemmas.ResultsOfRunNone | src-tauri/src/main.rs:616-620 | a run with no stored row selects nothing |
| RunLemmas.ResultsOfRunAll | src-tauri/src/main.rs:616-620 | rows that all belong to the run are all selected, in order |
| RunLemmas.AppendResultsOfRun | src-tauri/src/main.rs:691-714 | appending a run's results extends that run's selection by exactly those rows and leaves every other run's unchanged |
| RunLemmas.SaveRunReplacesResults | src-tauri/src/main.rs:688-714 | after save_run the run's results are exactly the supplied ones in order, and every other run's results are unchanged |
| RunLemmas.SaveRunOwnResults | src-tauri/src/main.rs:688-714 | after save_run the run's results are exactly the supplied ones, in order |
| RunLemmas.SaveRunKeepsOtherResults | src-tauri/src/main.rs:688-714 | save_run leaves every other run's results as they were |
| RunLemmas.SaveRunUpsert | src-tauri/src/main.rs:670-686 | a new run is stored as given; a stored run changes only status and completed_at; suites, cases and app state are untouched |
| RunLemmas.ListingAfterSaveRun | src-tauri/src/main.rs:560-614 | after save_run the run is listed with the supplied results; a stored run keeps its first-saved fields apart from status and completed_at |
| RunLemmas.DeleteRunCascades | src-tauri/src/main.rs:718-723 | delete_run leaves no result of that run, keeps every other run and its results, and does not touch suites or cases |
| MigrationLemmas.MigrateAtCurrentVersion | src-tauri/src/main.rs:158 | at version 2 or later the migration changes nothing |
| MigrationLemmas.MigrateIdempotent | src-tauri/src/main.rs:141-185 | running the migration twice is the same as running it once, after a success or a failure |
| MigrationLemmas.MigrateOutcome | src-tauri/src/main.rs:158-182 | below version 2: it fails exactly on an unparsable legacy blob and then leaves the version and data unchanged; on success the version is 2 and the app-state row exists; without a legacy row nothing is copied |
| MigrationLemmas.ImportLegacyFrame | src-tauri/src/main.rs:303-399 | the legacy copy keeps the version and whether an app_state row exists, and drops the legacy table |
| MigrationLemmas.ImportSuitesFrameAny | src-tauri/src/main.rs:305-342 | the legacy suite loop touches only suites and cases |
| MigrationLemmas.ImportRunsFrameAny | src-tauri/src/main.rs:344-388 | the legacy run loop touches only runs and results |
| MigrationLemmas.ImportCasesOnlyCases | src-tauri/src/main.rs:320-342 | the legacy case inserts touch only the case table |
| MigrationLemmas.ImportCasesKeys | src-tauri/src/main.rs:320-342 | the legacy case inserts add exactly the listed ids, each under the suite |
| MigrationLemmas.ImportCasesKeeps | src-tauri/src/main.rs:320-342 | the legacy case inserts leave every unlisted stored case unchanged |
| MigrationLemmas.ImportCasesRows | src-tauri/src/main.rs:320-342 | with distinct ids, legacy case i is stored at sort_order i |
| MigrationLemmas.IdsUpToAll | src-tauri/src/main.rs:320-342 | the ids of all cases are the elements of the case id list |
| MigrationLemmas.ReplaceSuiteClears | src-tauri/src/main.rs:307-318 | after INSERT OR REPLACE of a suite no case of it remains |
| MigrationLemmas.SuiteCopiedKept | src-tauri/src/main.rs:305-342 | copying a legacy suite leaves an already copied suite with other case ids intact |
| MigrationLemmas.SuiteCopiedNew | src-tauri/src/main.rs:305-342 | copying a legacy suite with distinct case ids stores it with exactly its cases |
| MigrationLemmas.CasesApart | src-tauri/src/main.rs:305-342 | in a document with unique ids, two suites share neither id nor case id |
| MigrationLemmas.ImportSuitesCopies | src-tauri/src/main.rs:305-342 | after the legacy suite loop every suite is stored with exactly its cases |
| MigrationLemmas.ReplaceRunClears | src-tauri/src/main.rs:351-364 | after INSERT OR REPLACE of a run no result of it remains |
| MigrationLemmas.RunCopiedNew | src-tauri/src/main.rs:344-388 | copying a legacy run stores it with exactly its results |
| MigrationLemmas.RunCopiedKept | src-tauri/src/main.rs:344-388 | copying a legacy run leaves an already copied run of another id intact |
| MigrationLemmas.ImportRunsInv | src-tauri/src/main.rs:344-388 | the legacy run loop keeps every result attached to a stored run |
| MigrationLemmas.ImportRunsCopies | src-tauri/src/main.rs:344-388 | after the legacy run loop every run with a distinct id is stored with exactly its results |
| MigrationLemmas.ImportLegacyCopies | src-tauri/src/main.rs:303-399 | copying a legacy document stores every suite, case, run, result and app-state id of it and drops the legacy table |
| MigrationLemmas.LegacyCopied | src-tauri/src/main.rs:141-185 | a legacy database whose document has unique ids migrates successfully to version 2 with all of its data and app-state ids in the normalized tables |
| SnapshotLemmas.WriteSuitesFrame | src-tauri/src/main.rs:803-849 | the suite loop of write_snapshot touches no run, result, app-state row or version, and a success adds exactly the written suite ids |
| SnapshotLemmas.SaveSuiteKeepsOwned | src-tauri/src/main.rs:803-849 | a suite save keeps a suite with other case ids owning (or not having) its cases |
| SnapshotLemmas.WriteSuitesSucceed | src-tauri/src/main.rs:803-849 | the suite loop succeeds when the document's ids are unique and none of its case ids is stored under a different suite |
| SnapshotLemmas.WriteSuitesError | src-tauri/src/main.rs:832-847 | a failed suite loop names a case id of one of the document's suites |
| SnapshotLemmas.SuiteCasesKept | src-tauri/src/main.rs:825-847 | a suite save leaves another suite's cases exactly as they were |
| SnapshotLemmas.WriteSuitesCopies | src-tauri/src/main.rs:803-849 | after the suite loop over distinct suite ids each suite holds exactly its cases, and its row holds every field except possibly created_at |
| SnapshotLemmas.PruneSuitesEffect | src-tauri/src/main.rs:851-860 | the suite prune keeps exactly the listed stored suites; an empty list deletes all, which is what NOT IN over no ids means |
| SnapshotLemmas.PruneKeepsSuiteCases | src-tauri/src/main.rs:851-860 | a listed suite keeps its cases through the prune |
| SnapshotLemmas.PruneRunsEffect | src-tauri/src/main.rs:914-923 | the run prune keeps exactly the listed stored runs; an empty list deletes all |
| SnapshotLemmas.WriteRunsFrame | src-tauri/src/main.rs:862-912 | the run loop touches no suite, case, app-state row or version, and adds exactly the written run ids |
| SnapshotLemmas.WriteRunsKeys | src-tauri/src/main.rs:862-912 | the run loop adds exactly the written run ids to the stored ones |
| SnapshotLemmas.WriteRunsCopies | src-tauri/src/main.rs:862-912 | after the run loop over distinct run ids each run holds exactly its results and has its status and completed_at |
| SnapshotLemmas.WriteSnapshotFailure | src-tauri/src/main.rs:803-849 | write_snapshot fails only in the suite loop, naming a case id of the document, with no run, result, app state or version changed |
| SnapshotLemmas.WriteSnapshotSucceeds | src-tauri/src/main.rs:800-932 | a write of a document with unique ids and no case id stored under another suite succeeds |
| SnapshotLemmas.WriteSnapshotTables | src-tauri/src/main.rs:800-932 | after a successful write the suite and run tables hold exactly the document's ids, the version is unchanged, and an existing app-state row holds the document's app-state ids |
| SnapshotLemmas.WriteSnapshotContents | src-tauri/src/main.rs:800-932 | after a successful write with distinct ids each suite holds exactly its cases and each run exactly its results |
| SnapshotLemmas.ResultsNotInAll | src-tauri/src/main.rs:922 | deleting every run removes every result |
| SnapshotLemmas.WriteEmptySnapshot | src-tauri/src/main.rs:858-860 | writing a document with no suites and no runs succeeds and empties suites, cases, runs and results |
| SnapshotLemmas.ListingAfterWrite | src-tauri/src/main.rs:773-932 | after a successful write the listings show exactly the document's suite and run ids, and none when its lists are empty |
| SnapshotLemmas.ListedDocumentIsWritable | src-tauri/src/main.rs:773-797 | a document built from the listings has unique ids and owns its case ids |
| SnapshotLemmas.ReadThenWrite | src-tauri/src/main.rs:773-932 | writing back the listings read_snapshot returned succeeds, keeps the same suite and run ids, gives each suite exactly the cases it was read with (renumbered 0..n-1 in listed order) and each run exactly the results it was read with |
| ReadWriteLemmas.SaveStoredSuite | src-tauri/src/main.rs:805-826 | saving a suite onto the row it was read from leaves the suite table unchanged |
| ReadWriteLemmas.WriteSuitesKeepRows | src-tauri/src/main.rs:803-849 | the suite loop over suites that are their stored rows leaves the suite table unchanged |
| ReadWriteLemmas.SaveStoredRun | src-tauri/src/main.rs:869-888 | saving a stored run with its stored status and completed_at leaves the run table unchanged |
| ReadWriteLemmas.WriteRunsKeepRows | src-tauri/src/main.rs:862-912 | the run loop over runs read from the table leaves the run table unchanged |
| ReadWriteLemmas.ListedAsStored | src-tauri/src/main.rs:773-797 | each suite read_snapshot lists is its stored row, and each run it lists carries its stored status and completed_at |
| ReadWriteLemmas.PruneNamingAll | src-tauri/src/main.rs:851-860 | a suite prune whose list names every stored suite deletes none |
| ReadWriteLemmas.PruneRunsNamingAll | src-tauri/src/main.rs:914-923 | a run prune whose list names every stored run deletes none |
| ReadWriteLemmas.ReadThenWriteKeepsRows | src-tauri/src/main.rs:773-932 | writing back what read_snapshot returned succeeds and leaves the suite table, the run table, the app_state row and the version exactly as they were |
| ReadWriteLemmas.SuitesReadAgain | src-tauri/src/main.rs:935-972 | after that write, a suite listing has as many suites as the first read, the same ids, and under each id the record first read, cases and their order included |
| ReadWriteLemmas.RunsReadAgain | src-tauri/src/main.rs:974-1026 | after that write, a run listing has as many runs as the first read, the same ids, and under each id the record first read, results included |
| ReadWriteLemmas.ReadWriteRead | src-tauri/src/main.rs:773-932 | read_snapshot, write_snapshot of its document, read_snapshot again: the write succeeds and the second document has the same suites and runs, record for record by id, and the same app-state ids |

## Left out

- Finding and opening the database file (`db_path`, `Connection::open` and `PRAGMA foreign_keys = ON`, lines 118–133) is not modelled, nor are its errors. Each command method models the rest of `open_db`: it runs `Migrate` first and returns the migration's error when it fails.
- The SQL text, the `CREATE TABLE` column types and the indexes (lines 271–285) are not modelled. The indexes do not change any result.
- serde_json itself is not modelled. A JSON column is either an encoding of a value or text that does not parse. The serializer never fails on these records, so the fallback texts `"[]"`, `"{}"` and `"null"` for a failed encode are not modelled.
- Floating-point weights, scores and sampling parameters are `real` values that are copied and never computed with.
- A legacy row whose payload is NULL is not modelled: its payload is always text, which may fail to parse.
- The clock (`chrono_now`, lines 1028–1034) becomes the `now` parameter of `ReadSnapshot`.
- Tauri's `main`, the command registration and errors from opening the connection (lines 1036–1058) are not modelled.
- Transactions and concurrency are not modelled. Commands run one at a time, and a failed statement ends the command with an error and no rollback, as in the source.
- Failures other than a duplicate case id and an unparsable legacy blob are not modelled. This covers I/O errors and the foreign-key check on plain inserts, whose parent row each command writes just before.
- `Query.OrderBy` is a selection loop that stands in for SQLite's sorter, and the order it gives to rows of equal rank is left open.
- get_results_for_run (lines 616–620) has no `ORDER BY`, and SQLite promises no order for it. The model assumes the stored (rowid, insertion) order: `Statements.ResultsOfRun`, `Query.RunListing`, `Database.Database.GetResultsForRun`, `RunLemmas.SaveRunReplacesResults` and the round-trip lemmas rely on it.
- ReadWriteLemmas.ReadWriteRead: does not promise the second read lists suites (runs) in the same order as the first when several share an updated_at (started_at); the order of such ties is the engine's, as for any read. It promises the same records under the same ids and the same length.
- SnapshotLemmas.WriteSuitesSucceed: gives a sufficient condition for success rather than an if-and-only-if. `SuiteLemmas.SaveSuiteOutcome` is the exact condition for one suite.
- SnapshotLemmas.WriteSnapshotContents: does not state the suite rows' created_at or a stored run's other fields, because they depend on what was stored before (see `SuiteLemmas.SaveSuiteUpsert` and `RunLemmas.SaveRunUpsert`).
