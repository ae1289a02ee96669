# Job tracker: what its protocols keep

A Dafny model of the parts of the job tracker where something has to hold across many steps: a usage
ledger and its hourly cache, schema changes run beside live writers, the browser extension's state
machines, the admission of filter runs, and a few small engines on strings and logs. `dafny verify
dfyconfig.toml` checks all of it.

| module | what it models |
|---|---|
| Ledger | answers, model calls and page fetches, and the view that gives a call's numbers to its first answer |
| Rollup, LedgerTriggers | the ledger summed per UTC hour, and the triggers that log the hours a write changes |
| LedgerGroups | what the view's rows, a group and a read say, told of the answers, calls and fetches themselves |
| RollupRefresh, RollupTables | the refresh that keeps the hourly table and the read that trusts it; the tables as they are changed in place |
| ContractSteps | a guard added NOT VALID, validated, then columns dropped in one transaction, beside writers and through crashes |
| ResumeCopies | completeness of parts asked through aggregates, before a drop |
| IndexSwap | indexes rebuilt and swapped concurrently by starts that may die anywhere |
| PageFetchMove | page fetches moving between tables under views that must not change, and the rename after it |
| OperationLease | the lease one fill holds on a page: start, pause, resume, stop, finish, checkpoint, wait, sleep |
| HumanAnswers | what autofill may write, and what is the person's |
| Submissions | the receipt of a submission: one run at a time for a tab and frame, through restarts |
| ReportUploads | chunked page reports, the extension's queue and the server's routes |
| RecipeChain, RecipeValidation | a recipe's chunk chain and what is accepted under a revision |
| PolicyResponse, PolicyCache | the policy response, and the store that caches it |
| FilterRuns | lock, check and insert of filter runs by many processes |
| PauseWindows, RecipeDates | the skipped backlog of a switch; date printing and parsing |
| PathExpansion, PathReadings, PathTemplates | placeholder expansion: its passes, any string read once from the left, and templates |
| Options, Extremes | optional values; the least and greatest of a set |

How to read it. A protocol is a state with a step function or relation, an invariant every step keeps,
and theorems over all runs: every interleaving of its processes, with failures and restarts where the
system has them. Code between two awaits, and one SQL statement, is one step. Where the system changes
things in place there is also a class whose methods follow its code and are proved against the same
steps. Fields called ghost records (what was sent, what was seen at admission, the latest response)
only remember; no step depends on them. The trigger, the log, the snapshot and the row lock work as
PostgreSQL documents them under READ COMMITTED, each statement reading what was committed when it began.

What turned out not to hold as hoped, each with its exact condition or an input that shows it:

- A new answer that takes a call's first place from an answer in another hour changes that hour unlogged
  (`FirstsDecideInserts`); so does a call inserted after an answer that names it (`NamesDecideCallInserts`),
  and an update of a call that overlaps the insert of a sibling it cannot see (`SiblingsDecidePricing`).
- The downgrade of 0b6e2f1c9a47 returns at once when no index is under the name, so a start that died between
  its DROP and RENAME is never made good, nor is an INVALID bare index (`DowngradeNeedsTheName`,
  `DowngradeCanLoseTheName`).
- A moved fetch whose reason is 'verification' leaves the filtered ledger (`MoveChangesNoView`).
- A report of an empty page is never delivered (`EmptyPageStays`).
- Recovering a failed chunk sets its failed parent going again, which may then overlap a run admitted since:
  the only way two runs overlap whose later is interactive (`OverlapsAreRevivals`, `FirstOverlap`,
  `RevivalOverlaps`); and the admission lock needs the user's row (`NoRowNoLock`).
- Of two log entries at one instant, an off entry that ends a pause and is overruled by a later on entry loses
  part of the pause, and only such an entry does (`OverruledDecides`, `OverruledMisses`).
- Stray percent signs can make a placeholder out of text (`StraySignsMakeAPlaceholder`); when the passes are
  one substitution is told for every string (`NeverDisturbedIsAlwaysSimultaneous`) and, per context, for
  templates (`TidyDecidesExpand`).
- Two branches of the date printer are shadowed by earlier ones (`DashMonthYearIsShadowed`, `CommaIsShadowed`).

The refresh's documentation speaks of one snapshot; its code reads the state, reads the log and aggregates
in separate statements, and it is the code that is modelled.

## Model

| member | source | states |
|---|---|---|
| `Ledger.UsageIsConserved` | alembic/versions/a0e5b60bf58d_drop_the_copies_answers_carried.py:66-121 | Any usage column added over all answers of the view is the sum over the distinct existing calls some answer names, each once however many answers share it |
| `Ledger.OneAnswerMore` | alembic/versions/a0e5b60bf58d_drop_the_copies_answers_carried.py:66-79 | One answer more adds its call's amount if it is the first naming it, and nothing otherwise |
| `Ledger.FlattenedIsSealed` | alembic/versions/58e4e8b6b54d_ledger_rows_fetch_arm_flattened.py:59-104 | The view with the filter outside lists every row as often as the one with the filter in the fetch arm, under three-valued logic: no answer is dropped for its reason, no fetch without a method is kept |
| `Ledger.FirstIsMinimum` | src/api/ledger_rollup.py:53-61 | The rollup's min(id) and the view's NOT EXISTS a smaller id name the same first answer |
| `LedgerGroups.ViewLists` | alembic/versions/a0e5b60bf58d_drop_the_copies_answers_carried.py:66-121 | The view lists a row once for an answer whose own columns it has, with its call's numbers on the call's first answer, zeros on the others and NULLs without a call, and once for a fetch by a known method other than 'verification'; and no other row |
| `LedgerGroups.GroupTells` | src/api/ledger_rollup.py:64-111 | A group over [lo, hi) counts exactly the answers, and the fetches by a known method other than 'verification', of its window, hour and dimensions; its counts, sums, first and last time are the counts, sums, least and greatest over them, NULL where there is none |
| `LedgerGroups.EveryReadTells` | src/api/ledger_rollup.py:114-153 | Over every run of writers and refreshes a read of any window lists a row, once, if and only if its group has an answer or fetch, its dimensions pass and its numbers are those of the answers and fetches in it |
| `LedgerTriggers.ChangedHoursAreLogged` | alembic/versions/d4428913f75e_ledger_rollup_tables.py:40-106 | Whatever a statement does to answers, calls or fetches, also by changing which answer is a call's first, every group of an hour its trigger does not log is as before, provided writers keep their order (a call before its answers, no first place taken in another hour) and the trigger of an update or delete saw, unchanged, every committed answer naming a call it touches |
| `LedgerTriggers.FirstsDecideInserts` | alembic/versions/d4428913f75e_ledger_rollup_tables.py:44-47 | For one new answer to a call whose numbers tell a first answer from a later one: all changed hours are logged if and only if it takes no first place in an hour other than its own |
| `LedgerTriggers.NamesDecideCallInserts` | alembic/versions/d4428913f75e_ledger_rollup_tables.py:95-98 | For one new call, whose numbers show in the ledger and which no trigger sees: all changed hours are logged if and only if no answer names it yet |
| `LedgerTriggers.SiblingsDecidePricing` | alembic/versions/d4428913f75e_ledger_rollup_tables.py:63-70 | Pricing an unpriced call: all changed hours are logged if and only if every committed answer naming the call shares its hour with one naming it that the trigger saw |
| `LedgerTriggers.SeenSiblingsAreLogged` | alembic/versions/d4428913f75e_ledger_rollup_tables.py:48-60 | A trigger that sees every answer naming a touched call as it is logs the hours of them all |
| `LedgerTriggers.DirtyIs` | alembic/versions/d4428913f75e_ledger_rollup_tables.py:40-106 | The triggers log the hours of the answers or fetches written, as they were and as they become, and, but for inserts, of every answer naming a call written or named by an answer written; no others |
| `RollupRefresh.AggregateLists` | src/api/ledger_rollup.py:64-111 | The aggregate over a list of ranges lists each group that has a row exactly once, with its sum, and no other |
| `RollupRefresh.WholeHours` | src/api/ledger_rollup.py:64-111 | A range of whole hours holds each of its hours' groups whole and no other hour's |
| `RollupRefresh.WriteKeepsInv` | alembic/versions/d4428913f75e_ledger_rollup_tables.py:3-17 | A committed write keeps every hour below the watermark either exact or logged, in the tables and in what a refresh has staged but not committed |
| `RollupRefresh.RestateKeepsInv` | src/api/ledger_rollup.py:178-186 | Restating the dirty hours under a later snapshot than the log was read in leaves every hour exact that is not logged anew |
| `RollupRefresh.AdvanceKeepsInv` | src/api/ledger_rollup.py:187-199 | Advancing the watermark keeps every unlogged hour below it exact |
| `RollupRefresh.NextKeepsInv` | src/api/ledger_rollup.py:156-206 | Every step of writers and refresh, broken off or finished, keeps the table right below the watermark but for logged hours |
| `RollupRefresh.ReadIsExact` | src/api/ledger_rollup.py:114-153 | A read of any window, open at either end or both, cut by any dimensions, lists the rows aggregating the whole window from the source would list, each as often |
| `RollupRefresh.EveryReadIsExact` | src/api/ledger_rollup.py:3-18 | Over every run of writers and refreshes from the migration on, at every moment every read is exact |
| `RollupTables.Tables.AnswersTrigger` | alembic/versions/d4428913f75e_ledger_rollup_tables.py:41-61 | Appends log rows for exactly the hours of the new rows, the old rows and the answers naming their calls, by operation, one at least for each |
| `RollupTables.Tables.CallsTrigger` | alembic/versions/d4428913f75e_ledger_rollup_tables.py:63-70 | Appends log rows for exactly the hours of the answers naming an updated or deleted call |
| `RollupTables.Tables.FetchesTrigger` | alembic/versions/d4428913f75e_ledger_rollup_tables.py:72-84 | Appends log rows for exactly the hours of the new and the old fetches, by operation |
| `RollupTables.Tables.Execute` | alembic/versions/d4428913f75e_ledger_rollup_tables.py:87-106 | One statement with the trigger wired to it, which reads the tables just as the statement left them, is one commit step of the rollup, and keeps its invariant |
| `RollupTables.Tables.Refresh` | src/api/ledger_rollup.py:156-206 | Undisturbed: nothing stays dirty, every hour up to the new watermark is stored exactly, and the result says how far it got; with the lock taken nothing changes |
| `ContractSteps.NoValueIsDiscarded` | alembic/versions/7ca95d34ef5f_drop_inline_review_decision_columns.py:83-109 | Over every interleaving of a guarded program with writers, scans and crashes the table holds exactly what its writers wrote; once done no row has a value in a dropped column and every row has one in each column made NOT NULL |
| `ContractSteps.StepKeepsInv` | alembic/versions/35d943a012cd_drop_batch_requests_snapshot.py:46-64 | No step of a migration, finished, rolled back or begun again, changes a row |
| `ContractSteps.CommitFindsGuardsMet` | alembic/versions/8aa6dcf6aede_drop_listings_pattern_copy.py:42-58 | While the transaction runs, and so when it commits, every row meets every guard validated before it: dropped cells are NULL and demanded references present |
| `ContractSteps.NotNullIsProved` | alembic/versions/35d943a012cd_drop_batch_requests_snapshot.py:59-62 | SET NOT NULL on a column the validated guard demands never raises |
| `ContractSteps.ScanSuffices` | alembic/versions/7ca95d34ef5f_drop_inline_review_decision_columns.py:94-95 | VALIDATE's scan speaks for the rows written since it began as well, because the NOT VALID guard refused the others |
| `ContractSteps.ReviewDecisionsIsWellGuarded` | alembic/versions/7ca95d34ef5f_drop_inline_review_decision_columns.py:83-109 | The twelve-column program drops only what its guard, validated by then, says is NULL |
| `ContractSteps.AnswerCopiesIsWellGuarded` | alembic/versions/a0e5b60bf58d_drop_the_copies_answers_carried.py:138-153 | So does the one dropping the ten copies answers carried, whose views come down before the table is locked |
| `ContractSteps.ShortProgramsAreWellGuarded` | alembic/versions/63f0ea027862_drop_jobs_uploaded_by.py:53-65 | So do the programs for the snapshot, the listing pattern, uploaded_by and each table of resume copies |
| `ContractSteps.ReviewDecisionsFinishes` | alembic/versions/7ca95d34ef5f_drop_inline_review_decision_columns.py:83-109 | From whatever an earlier start left under the guard's name, a start is done exactly when every row has both references and nothing in the twelve columns, and the fourteen are there; then the twelve are gone, the two NOT NULL and no guard is left; otherwise nothing but the guard has changed |
| `ContractSteps.BatchRequestsFinishes` | alembic/versions/35d943a012cd_drop_batch_requests_snapshot.py:46-64 | The same of the snapshot and its reference: done exactly when every request has the reference and no snapshot |
| `ContractSteps.ListingsPatternFinishes` | alembic/versions/8aa6dcf6aede_drop_listings_pattern_copy.py:42-58 | The same of the listing pattern and its row |
| `ContractSteps.JobsUploadedByFinishes` | alembic/versions/63f0ea027862_drop_jobs_uploaded_by.py:53-65 | The same of uploaded_by, which nothing must name; the guard goes with the column |
| `ContractSteps.AnswerCopiesFinishes` | alembic/versions/a0e5b60bf58d_drop_the_copies_answers_carried.py:138-153 | The same of the ten copies answers carried, none of which may be left |
| `ContractSteps.ResumeCopiesFinishes` | alembic/versions/5a04926d6434_drop_legacy_resume_values_after_.py:83-105 | The same of each table of resume copies, whose guard is kept if an earlier start left it, NOT VALID or validated |
| `ContractSteps.StartIsARun` | alembic/versions/7ca95d34ef5f_drop_inline_review_decision_columns.py:83-109 | Among the steps, a start nothing disturbs ends as its statements, one by one, come to |
| `ContractSteps.BrokenOffCanFinish` | alembic/versions/35d943a012cd_drop_batch_requests_snapshot.py:14-24 | However the run of one of the six went, broken off once more and begun again it comes to be done if and only if the rows are as it asks and its columns are there |
| `ContractSteps.UnvalidatedDropDiscards` | alembic/versions/63f0ea027862_drop_jobs_uploaded_by.py:59-60 | Without the VALIDATE step any value already there is lost |
| `ContractSteps.Upgrade.Start` | alembic/versions/7ca95d34ef5f_drop_inline_review_decision_columns.py:83-109 | A start run statement by statement: of each of the six, done exactly when the rows and columns it finds allow it, with the columns gone and NOT NULL that it is for; else columns and NOT NULLs as before; no row changes either way |
| `ResumeCopies.AggregatesMeanComplete` | alembic/versions/5a04926d6434_drop_legacy_resume_values_after_.py:51-74 | count = n, min = 0, max = n-1 with their empty-case defaults and the size sum hold if and only if the indices are exactly 0..n-1 and the parts read in order have the recorded length |
| `ResumeCopies.RowPassesIffCanonical` | alembic/versions/5a04926d6434_drop_legacy_resume_values_after_.py:51-80 | A resume row passes the query if and only if it points at its own user's finished version, complete, and at a complete verified PDF if at any |
| `ResumeCopies.RequireCanonicalCopies` | alembic/versions/5a04926d6434_drop_legacy_resume_values_after_.py:27-80 | The gate passes exactly when no retired switch is on, no retired job is active and every row of both tables is canonical; each refusal says which came first |
| `IndexSwap.RebuildSurvivesDeaths` | alembic/versions/1afab52e064c_company_page_and_task_kind_indexes.py:74-86 | However often its starts die, between operations or inside one: a valid index on the key at every moment, and a start that ends leaves the new one under the name, valid, with nothing staged |
| `IndexSwap.VerdictUpgradeSurvivesDeaths` | alembic/versions/1afab52e064c_company_page_and_task_kind_indexes.py:61-97 | The whole upgrade through any deaths: as above for the verdict index, and both added indexes valid as defined once a start ends |
| `IndexSwap.UpgradedStays` | alembic/versions/1afab52e064c_company_page_and_task_kind_indexes.py:89-97 | A further run of the finished upgrade changes nothing |
| `IndexSwap.PlansAreApt` | alembic/versions/0b6e2f1c9a47_cover_the_current_match_index.py:41-70 | The two rebuilds, the first in both directions, are ones the theorem is about: their test tells the new definition from the old |
| `IndexSwap.SwapSurvivesDeaths` | alembic/versions/507fe2f38949_listings_index_on_source_alone_.py:52-77 | The swap to another name: one of the two is valid at every moment, and a start that ends leaves the built one alone |
| `IndexSwap.SwappedStays` | alembic/versions/507fe2f38949_listings_index_on_source_alone_.py:65-72 | A further run of the finished swap changes nothing |
| `IndexSwap.DowngradeNeedsTheName` | alembic/versions/0b6e2f1c9a47_cover_the_current_match_index.py:41-50 | Whatever indexes there are: a start of the downgrade ends with the bare index in place if and only if it was, or a covering one is under the name and no other valid index is staged; with no index under the name it changes nothing |
| `IndexSwap.DowngradeCanLoseTheName` | alembic/versions/0b6e2f1c9a47_cover_the_current_match_index.py:62-63 | A death between its DROP and its RENAME leaves no index under the name |
| `IndexSwap.Catalogue.RebuildIndex` | alembic/versions/1afab52e064c_company_page_and_task_kind_indexes.py:74-86 | The method, dying anywhere: what it leaves the next start can begin on; alive it ends rebuilt; on a rebuilt index it does nothing |
| `IndexSwap.Catalogue.SwapIndex` | alembic/versions/507fe2f38949_listings_index_on_source_alone_.py:65-72 | The method, dying anywhere, keeps one of the two valid; alive it ends with the built one and the other gone |
| `PageFetchMove.MoveChangesNoView` | alembic/versions/5460c0343629_page_fetch_rows.py:43-84 | A fetch moved by one statement: page_fetches, page_texts and the unfiltered ledger list what they listed; the filtered ledger does if and only if the fetch is not itself called 'verification' |
| `PageFetchMove.CopyIsNoSecondRow` | alembic/versions/95018279350d_ledger_rows_skip_verification_fetches.py:25-47 | A fetch made from an answer's copy lists its text once and, with the filter, the ledger's rows as before; without it the answer is listed twice |
| `PageFetchMove.MovesAreInvisible` | alembic/versions/5460c0343629_page_fetch_rows.py:67-84 | Through any sequence of moves and copies page_texts on (id, url, text) and ledger_rows on the columns a fetch carries list the same rows |
| `PageFetchMove.TextsAre` | alembic/versions/5460c0343629_page_fetch_rows.py:46-59 | page_texts lists a text under an id exactly for a fetch in either place that brought it back, or for the copy on an answer with no fetch of its id, neither content nor custom; no blank text |
| `PageFetchMove.PreflightDecidesTheRename` | alembic/versions/213749d456b4_page_fetches_table.py:41-135 | After any moves, copies and inserts since the table was made, the two checks pass if and only if the rename keeps page_fetches as a bag and the set of urls that have page text |
| `PageFetchMove.PageStore.Upgrade` | alembic/versions/213749d456b4_page_fetches_table.py:126-135 | Refused before anything changes exactly when a check fails; otherwise the same fetches are listed and the same urls have text |
| `OperationLease.StepKeepsInv` | extension/runtime/operation.ts:27-117 | In every interleaving: leased exactly while not idle, the signal fired exactly while stopped, waiters parked only while paused, no race on a fired signal |
| `OperationLease.ExitReleases` | extension/runtime/operation.ts:113-117 | Every exit from paused releases every parked task |
| `OperationLease.HandsBackOnlyWhileRunning` | extension/runtime/operation.ts:60-74 | A checkpoint, wait or sleep hands back under a lease only while running, on the url the fill started on |
| `OperationLease.NothingIsTouchedMeanwhile` | extension/runtime/operation.ts:35-58 | Over every run, after a pause of a running fill nobody goes on to touch the page until a resume, after a stop not even then, unless the fill finishes; and under a lease only once a new one starts |
| `OperationLease.StopRejects` | extension/runtime/operation.ts:46-51 | A stop of a running or paused fill keeps the lease, rejects every race on its signal and releases what is parked, and none of these hands back |
| `OperationLease.RunningHandsBack` | extension/runtime/operation.ts:60-74 | While the fill runs on its url whoever reaches a checkpoint, or the end of a wait, goes on; a resume sends on whoever was parked |
| `OperationLease.Operation.Start` | extension/runtime/operation.ts:27-33 | Throws and changes nothing when leased, otherwise takes the lease, a new signal and the present url |
| `OperationLease.Operation.Resume` | extension/runtime/operation.ts:39-44 | Runs on and releases every waiter, or throws having stopped when the page has moved |
| `OperationLease.Operation.Stop` | extension/runtime/operation.ts:46-51 | When active, fires the signal of the lease it keeps, stops and releases every waiter; otherwise nothing |
| `OperationLease.Operation.Pause` | extension/runtime/operation.ts:35-37 | A running fill is paused, its lease, signal, url and waiters as they were; otherwise nothing |
| `OperationLease.Operation.Checkpoint` | extension/runtime/operation.ts:60-74 | Parks while paused, throws when stopped or navigated away, and returns under a lease only while running on the starting url |
| `Submissions.OneRunAtATime` | extension/background/submissions.js:10-17 | Over every run of messages, awaits and restarts, runs of one tab and frame never overlap and begin in the order their messages came |
| `Submissions.BeginsInTurn` | extension/background/submissions.js:10-17 | Over every run a message is taken up as soon as, and not before, every earlier one of its tab and frame has been dealt with |
| `Submissions.NextKeepsInv` | extension/background/submissions.js:19-65 | Through every await, failure and restart a run's own copy of the receipt matches the stored one as far as it acts on it |
| `Submissions.PostsFollowConfirmation` | extension/background/submissions.js:38-54 | A submission is posted only with a confirmed receipt stored, its fields still in it |
| `Submissions.ReceiptMovesForward` | extension/background/submissions.js:38-62 | Between arms status only moves forward, fields and origin stay until recorded, and a receipt goes only by a clear |
| `Submissions.RecordedWasTaken` | extension/background/submissions.js:54-63 | Over every run a receipt is recorded only by a job that posted it and was answered that the server took it; it is then what was posted, with a good result and no fields |
| `Submissions.FailedPostKeepsFields` | extension/background/submissions.js:54-63 | A POST refused or lost leaves the receipt confirmed with its fields, the result not good |
| `Submissions.RecordedSendsNothing` | extension/background/submissions.js:34-36 | Once recorded, nothing more is posted until a clear, or an arm that does not name that fill or comes from another origin |
| `Submissions.SubmissionStore.Handle` | extension/background/submissions.js:19-65 | Each message's effect on the receipt it finds, and its answer: a confirm, or a retry of what is confirmed, leaves it recorded exactly when there is a fill and the server took the submission, otherwise confirmed with its fields; which is what the awaits of its run come to; other tabs' receipts stay |
| `RecipeChain.ChainBinds` | extension/background/policy.js:56-71 | Two different non-empty chunk lists, in content, boundaries, order or count, have one digest only if two of the strings their chains hash collide |
| `RecipeChain.HexIsInjective` | extension/background/policy.js:70 | The hex of a digest determines it |
| `RecipeChain.ChunkChainDigest` | extension/background/policy.js:56-71 | The loop over chunks, each header built in place, computes the chain |
| `RecipeChain.Reassemble` | extension/background/policy.js:99-101 | Copying the parts into one array in order gives exactly their concatenation |
| `RecipeValidation.OneRevisionOneTable` | extension/background/policy.js:77-110 | Two responses accepted under one revision, live or cached, decode to one table for one adapter, unless two strings their chains hash collide |
| `RecipeValidation.CachedReadsBack` | extension/background/policy.js:209-227 | What is stored of an accepted live response is accepted again, without a fetch, as the same configuration |
| `RecipeValidation.AcceptedExactly` | extension/background/policy.js:77-110 | A response is accepted, live or read back, if and only if it is a manifest for the adapter whose chunks, one good reply each if live, decode, chain to its revision and hold a table for that adapter |
| `RecipeValidation.FetchChunks` | extension/background/policy.js:212-224 | The chunk loop ends with every payload in order, or with none at the first reply that is not that chunk |
| `RecipeValidation.ValidateRecipe` | extension/background/policy.js:91-110 | Accepts exactly responses with the cached keys whose chunks decode, chain to the revision and hold a table for the adapter |
| `PolicyResponse.PolicyIsStrict` | extension/background/policy.js:26-54 | A response is accepted as a policy if and only if it is that policy written out, proper for the adapter: nothing unknown carried, nothing missing |
| `PolicyResponse.CopyFeatures` | extension/background/policy.js:37-46 | The loop over the four features ends with their strict copies, or with none |
| `PolicyCache.NoOverlap` | extension/background/policy.js:142-155 | Over every run two live refreshes are of two keys |
| `PolicyCache.NextKeepsInv` | extension/background/policy.js:157-187 | The cache always holds the last valid response whose refresh completed, or nothing if it gave no age |
| `PolicyCache.ResultsAreHonest` | extension/background/policy.js:157-200 | Over every run of responses, clock moves and restarts an ok result validates for its adapter and is this refresh's own response or the last valid one, inside its max_age when the refresh began; and there is none only if there was no such response |
| `PolicyCache.PolicyStore.Refresh` | extension/background/policy.js:157-187 | Undisturbed: a valid response is the result and is kept or removed by its age; otherwise storage stays and the stored one is the result if valid, not from the future and in its age, which must be positive |
| `ReportUploads.PartsAreThePage` | extension/background/report-uploads.js:34-49 | The chunks joined are the page, none over 65,536 bytes, none empty but an empty page's only one |
| `ReportUploads.ServeKeeps` | src/api/routers/apply_routes/report_uploads.py:111-227 | Whatever requests arrive, late or twice, an upload holds only its page's chunks, a completed one all of them, and completion is never undone |
| `ReportUploads.RemovedMeansDelivered` | extension/background/report-uploads.js:12-55 | Over failures, lost replies and restarts a report no longer queued is complete on the server, its chunks in order exactly the page's bytes |
| `ReportUploads.EmptyPageStays` | src/api/routers/apply_routes/report_uploads.py:168-169 | A report of an empty page is never taken off the queue: the server refuses an empty chunk |
| `ReportUploads.WakeDelivers` | extension/background/report-uploads.js:12-55 | Whatever came before, a pump woken to a list of keys, with every request answered, rests with each of those reports complete on the server and off the queue, but for empty pages; the others stay queued |
| `ReportUploads.ServeKeepsReportsApart` | src/api/routers/apply_routes/report_uploads.py:192-227 | Whatever is served, uploads that complete do so as different reports |
| `ReportUploads.Server.PutChunk` | src/api/routers/apply_routes/report_uploads.py:156-189 | Which chunk is refused, with which status, and which is received: stored once, a repeat received unchanged |
| `ReportUploads.ReportUploadQueue.UploadRecord` | extension/background/report-uploads.js:34-54 | Ends well only with the report complete; over a network that fails nothing, exactly when the page is not empty |
| `HumanAnswers.WritesAreAllowed` | extension/runtime/application.js:319-342 | In every run a write nobody asked for is of a control not touched, not kept, found blank or holding what automation last recorded, with no manual edit since |
| `HumanAnswers.PutBegins` | extension/runtime/application.js:319-342 | In every run a put begins a fill of its control under exactly that condition |
| `HumanAnswers.FillLands` | extension/runtime/application.js:329-341 | The fill begun, its write lands while the operation runs, and its end is recorded |
| `HumanAnswers.StoppedFillEnds` | extension/runtime/application.js:329-336 | A stopped fill throws out of its reader with nothing recorded, and the next fill may start |
| `HumanAnswers.HumanAnswerSurvives` | extension/runtime/application.js:194-206 | An answer a person gives a field that has been read is what it holds from then on, until they edit it, ask for it, or the page changes it |
| `HumanAnswers.TheirsStays` | extension/runtime/application.js:319-406 | Any answer automation did not record or was told to keep stays through fills, reveals, verifications, model answers, stops, resets and pages |
| `HumanAnswers.ResetKeepsPopulated` | extension/runtime/page-fill.js:53-62 | A fill begins by keeping every populated field of its entries, and no other |
| `HumanAnswers.Application.PutAnswer` | extension/runtime/application.js:319-342 | put writes and records exactly when the field has been read and it was asked for, or nobody touched or kept the control, it is blank or holds what automation recorded, and that was no failed attempt; otherwise it leaves the control, and records it as kept unless it was such an attempt |
| `HumanAnswers.Application.ManualEdit` | extension/runtime/application.js:194-206 | An edit touches a field that has been read and stops an active operation |
| `HumanAnswers.Application.BeginFill` | extension/runtime/page-fill.js:53-62 | The reset loop keeps exactly the populated fields of the entries |
| `FilterRuns.OverlapsAreScheduled` | src/api/filter_runs.py:77-108 | Over every run, of two overlapping runs both active the later was admitted as scheduled over the earlier awaiting or waiting for its chunks; or the earlier had ended by the later's conflict check, was set going again after it and is going since |
| `FilterRuns.OverlapsAreRevivals` | src/api/filter_runs.py:77-108 | Where the later is interactive, both are active if and only if the later is and the earlier was set going again since the later's check and is going since |
| `FilterRuns.FirstOverlap` | src/api/filter_runs.py:77-108 | The steps at which two overlapping runs come to be active together are exactly those that bring one back or in beside the other; with the later interactive the earlier was by then set going again since the later's check |
| `FilterRuns.NoTwoActiveRunsOverlap` | src/api/filter_runs.py:53-66 | Where every admission is interactive and what has ended stays so, no two active runs overlap |
| `FilterRuns.NoKeyTwice` | src/api/filter_runs.py:98-106 | Over every run two tasks never carry one dedupe key |
| `FilterRuns.RevivalOverlaps` | src/tasks/runtime/payload_recovery.py:88-92 | From the first enqueue on, one process at a time under the lock: a run admitted, failed, a second admitted in its place, and the first set going again beside it |
| `FilterRuns.NoRowNoLock` | src/api/filter_runs.py:92-95 | Without the user's row two processes let each other through |
| `FilterRuns.Conflict` | src/api/filter_runs.py:29-44 | None exactly when no run overlaps in a blocking status, otherwise the overlapping one of greatest id |
| `FilterRuns.Queue.Enqueue` | src/api/filter_runs.py:77-108 | Under the lock: a conflict exactly if a task of the user, of the filter or either of all, is in a status that blocks the policy; nothing inserted on a taken dedupe key; otherwise one new pending run of a greater id, the others as they were |
| `PathReadings.UndisturbedIsSimultaneous` | extension/adapters/recipe-selectors.js:15-29 | For every string, stray signs and all, and values free of % and $: passes that meet no mark but the placeholders read from the left equal one simultaneous substitution |
| `PathReadings.NeverDisturbedIsAlwaysSimultaneous` | extension/adapters/recipe-selectors.js:15-29 | For every string: the passes equal one simultaneous substitution whatever such values are put in, if and only if under none of them a pass meets another mark |
| `PathTemplates.TidyDecidesExpand` | extension/adapters/recipe-selectors.js:15-29 | For every template whose signs all belong to placeholders, and every context: the ten passes of expand equal one simultaneous substitution if and only if none finds its name between two placeholders |
| `PathTemplates.SeparatedIsNeverDisturbed` | extension/adapters/recipe-selectors.js:15-29 | Text with a character no name has, between any two placeholders, is enough |
| `PathTemplates.StraySignsMakeAPlaceholder` | extension/adapters/recipe-selectors.js:15-29 | With no input path expand turns %VA%INPUTPATH%LUE% into the value, where simultaneous substitution gives %VALUE% |
| `PathExpansion.PassesAreSimultaneous` | extension/adapters/recipe-selectors.js:15-29 | For templates whose placeholders are kept apart and values free of % and $, the passes in any order equal one simultaneous substitution |
| `PathExpansion.ExpandIsSimultaneous` | extension/adapters/recipe-selectors.js:15-29 | So do the ten passes of expand in the order written |
| `PathExpansion.PlaceholdersStandFor` | extension/adapters/recipe-selectors.js:15-29 | What each of the ten placeholders is replaced by |
| `RecipeDates.PrintedDatesReadBack` | extension/adapters/recipe-values.js:58-103 | Every printed form of every valid date read back: the date, its month, its year or nothing as the form keeps it, and nothing when the year has not four digits |
| `RecipeDates.FormatThenParse` | extension/adapters/recipe-values.js:58-103 | The same by field name, under the order in which formatDate tries its patterns |
| `RecipeDates.SlashMonthDayYearNames` | extension/adapters/recipe-values.js:91 | Names ending slashes_MMDDYYYY reach that form unless an earlier mark is in them |
| `RecipeDates.SlashPlainNames` | extension/adapters/recipe-values.js:93 | The same of slashes_MDYYYY |
| `RecipeDates.SlashMonthYearNames` | extension/adapters/recipe-values.js:94 | The same of slashes_MMYYYY |
| `RecipeDates.DashYearMonthDayNames` | extension/adapters/recipe-values.js:95 | The same of dashes_YYYYMMDD |
| `RecipeDates.DashYearMonthNames` | extension/adapters/recipe-values.js:96 | The same of dashes_YYYYMM |
| `RecipeDates.BareNames` | extension/adapters/recipe-values.js:101-102 | A name with no underscore takes the full date for today and birthday and month and year otherwise |
| `RecipeDates.DashMonthYearIsShadowed` | extension/adapters/recipe-values.js:94-98 | No name ending dashes_MMYYYY reaches the dashed form |
| `RecipeDates.CommaIsShadowed` | extension/adapters/recipe-values.js:87-99 | No name ending month_DD_comma_YYYY reaches the comma form |
| `PauseWindows.SkipWindows` | src/api/ai_pause.py:42-61 | Over any log in order, ties and all: the loop's windows are non-empty and one after the other and hold only instants from which the switch was on through keep later and has gone off since; they hold all of those if and only if keep is zero or no entry is overruled at its own instant |
| `PauseWindows.OverruledDecides` | src/api/ai_pause.py:42-76 | The same of the scan: the windows are exact if and only if keep is zero or no off entry that ends a pause stands at an instant the switch reads on at, staying on until keep after the pause began |
| `PauseWindows.OverruledMisses` | src/api/ai_pause.py:46-50 | An overruled entry leaves out an instant that was on throughout |
| `PauseWindows.OverruledIsATie` | src/api/ai_pause.py:46-50 | The switch reads on at the instant of an off entry if and only if a later entry of that instant, the last of it, is on |
| `PauseWindows.DistinctTimesAreExact` | src/api/ai_pause.py:42-76 | With no two entries at one instant the windows are exact |
| `PauseWindows.WindowsAreInOrder` | src/api/ai_pause.py:42-61 | The windows are non-empty and one after the other; with no two entries at one instant, apart |
| `PauseWindows.RepeatedEntryChangesNothing` | src/api/ai_pause.py:52-60 | An entry that repeats the switch's value changes nothing, wherever it stands |
| `PauseWindows.OpenPauseIsTheLastEntry` | src/api/ai_pause.py:52-60 | The scan has a pause open exactly when the log's last entry is on |

## Left out

- LedgerTriggers.FirstsDecideInserts: of a call with no numbers to show, or only zeros and a known cache count, nothing is claimed; its answers look the same in the ledger, first or not.
- LedgerTriggers.ChangedHoursAreLogged: an update never changes a row's id; a transaction of several statements is the run of them, since no other process reads between.
- RollupRefresh.EveryReadIsExact: the refresh's span is a number of whole hours, as both callers pass it.
- ContractSteps.NoValueIsDiscarded: foreign keys and other constraints only refuse more writes than the model does, so they are not there; each table of a migration is a program of its own.
- ContractSteps.Upgrade.Start: statements on other objects (views, indexes, other tables, and the canonical gate that ResumeCopies models) are taken to succeed.
- IndexSwap.RebuildSurvivesDeaths: an index staged under the name by some other migration is not considered, nor the drops of the two added indexes in the downgrade of 1afab52e064c.
- OperationLease.NothingIsTouchedMeanwhile: the return of a checkpoint and the code its caller runs next are one step; a task left over from a stopped fill may return without a lease once the fill has finished.
- HumanAnswers.HumanAnswerSurvives: a reader writes a control only right after a checkpoint, as every reader's fill begins with one; an edit is one a human gesture preceded.
- Submissions.RecordedSendsNothing: closing a tab, which clears its receipts, is not a step; a missing fill id and a null one are the same.
- RecipeChain.ChainBinds: nothing is assumed of SHA-256 (section 6.2 of FIPS 180-4) but the length of its digests, so the conclusion names the colliding strings instead of equality.
- PolicyCache.ResultsAreHonest: of the two stores that share the code it is the policy store; storage starts empty and nobody else writes it.
- ReportUploads.RemovedMeansDelivered: one user's uploads, random ids that do not repeat, and start requests whose texts are within the server's length limits.
- FilterRuns.OverlapsAreScheduled: filter runs enter the queue only through enqueue, and users' rows stay.
- PathReadings.UndisturbedIsSimultaneous: for one given list of values and a template with stray signs the condition is sufficient only; over all values it is exact.
- PathExpansion.PassesAreSimultaneous: values with % or $, which replaceAll gives a further meaning, are not covered.
- Ledger.UsageIsConserved: the text columns of the view, assembled from a page's content, are carried as one opaque column.
- PageFetchMove.MovesAreInvisible: index and constraint renames, and the compatibility view for older images, have no effect on what is listed.
- The page itself, its widgets and XPath, browser APIs and HTTP: a control is a cell, a request a reply or its loss.
- Planning, lock waits, index sizes and timing in PostgreSQL: only statement atomicity, snapshots, checks and index validity matter here.
- The bounded advance over the pages of a form, the panel, experiments, profile measurements and configuration converters: they would only add easy members.
- Migrations that add columns before an autocommit block, which a crash leaves half done.
