# Verified model of the finance platform's hard parts

This project states in Dafny what the services of a personal-finance platform promise about their
concurrent and data-moving code, and proves it for every input, every run and every reachable state.

- **Bank sync** (`BankConnections`, `SyncProtocol`, `SyncInvariant`, `SyncRows`, `SyncInbox`, `SyncService`,
  `SyncScheduler`). One row per bank connection holds a claim. Any number of calls to `start_sync_saga` claim,
  retry, steal or defer, and any number of deliveries of `mark_sync_complete` complete, be redelivered or race.
  Each unit-of-work transaction is one action of a state machine with arbitrary clock readings. `SyncService` is
  the same code as methods over a mutable database with other processes acting between any two transactions,
  and every execution of it is shown to be a run of the state machine.
- **Taxonomy reclassification** (`Reclassification`, `ReclassificationRun`, `BudgetReclassification`,
  `BudgetScan`, `CategorizationReclassification`, `ReclassificationReport`, `Counters`). Scan, fail-closed aggregation into
  execution manifests, and the service-owned apply commands, which share one engine that moves references row by
  row. Conservation, idempotence, kept uniqueness and "the dry run predicts the execution" cross all three stages.
- **Taxonomy and rules** (`Taxonomy`, `TaxonomyService`, `LearnedRules`, `MerchantPatterns`, `LearnedMatching`,
  `RuleOverlays`, `RuleEngineProvider`). Category, subcategory and rule operations with their outbox, the learning
  consumer, and the per-user overlay cache with its TTL and size bound.
- **Self-contained algorithms** (`MonthClose`, `MonthCloseService`, `RankFusion`, `Backfill`,
  `DuplicateCleanup`).

`dafny verify dfyconfig.toml` checks the whole project.

## What the proofs found

- The inbox key `saga_id:step_name` is not injective in general. `SyncInbox.StepKeyCollisions` gives all
  collisions; ids without a colon, such as uuids, have none.
- A command without a well-formed key is not deduplicated (`SyncInbox.FirstDeliveryEmitsOnce`).
- The scheduler's query uses a strict comparison where the entity uses `>=`; the difference is exactly one instant
  (`SyncScheduler.QueryMissesOnlyTheCutoffInstant`).
- Neither "the dry run predicts the execution" nor "a rerun is idle" holds for every manifest
  (`Reclassification.ChainedTargetsBreakBoth`, `Reclassification.SharedTargetBreaksTheDryRun`). The exact
  conditions are `Reclassification.DryRunIsExactIff` and `Reclassification.RerunIsIdleIff`. Targets that within one
  monthly budget are neither shared nor legacy references meet both, and the scanner's collision flags together with
  a resolver that avoids legacy ids supply such targets (`BudgetScan.ScannedMovesAreSafe`).
- The category delete guard looks at active subcategories only; the foreign key is what keeps deprecated
  subcategories from losing their parent (`Taxonomy.GuardAloneWouldOrphan`). Names are checked against active rows
  only, so the name of a retired row can return; `Taxonomy.CategoryNamesStayDistinctIff` and
  `Taxonomy.SubNamesStayDistinctIff` say exactly when all names stay distinct.
- The documentation of the normaliser says a learned pattern is found in later descriptions of the same shop. The
  code drops letterless tokens from the middle as well, so "REMA 1000 Valby" teaches "rema valby", which its own
  description does not contain. `LearnedMatching.LearnedPatternMatchesItsDescription` gives the exact condition,
  `LearnedMatching.NumberInTheMiddleIsNeverFound` the failing family.
- The bound k+1 for reciprocal rank fusion is sharp for every k (`RankFusion.BoundIsSharp`).

## Modelling choices

Times are integers on a UTC axis and amounts integer cents. Clock readings, saga ids, port answers, page contents,
the order of events and what other processes do are parameters, all universally quantified. Saga ids are fresh. The
saga service may answer anything, but says terminal only of a saga that has ended. Adapter queries are modelled from
the repository's own adapters. In `SyncProtocol` the history holds the outbox rows and, in the same order, two kinds
of observation: a manual caller deferring to a saga, and a saga ending.

## Model

| member | source | states |
|---|---|---|
| `BankConnections.ParseSyncTrigger` | services/banking-service/app/workers/saga_command_consumer.py:41-66 | scheduled exactly for the stored value "scheduled"; NULL and every unknown value read as manual |
| `BankConnections.TryClaimRow` | services/banking-service/app/adapters/outbound/postgres_bank_connection_repository.py:120-152 | the conditional claim writes exactly when the entity calls the claim stale, so SQL and entity agree at every clock reading; it sets the three claim columns and touches no other |
| `BankConnections.StealRow` | services/banking-service/app/adapters/outbound/postgres_bank_connection_repository.py:154-176 | writes exactly when the old saga still owns the claim; sets the three claim columns and touches no other |
| `BankConnections.EscalateRow` | services/banking-service/app/adapters/outbound/postgres_bank_connection_repository.py:178-197 | marks the claim manual exactly when the named saga owns it, and touches nothing else |
| `BankConnections.CompletionStamp` | services/banking-service/app/workers/saga_command_consumer.py:331-376 | for every row: an overtaken, foreign or absent claim, a NULL trigger and an unknown one stamp manual; the saga's own scheduled claim stamps scheduled |
| `BankConnections.CompleteRow` | services/banking-service/app/workers/saga_command_consumer.py:335-364 | the sync time is the commit time, owner, status and expiry stay, and the claim is released if it was the saga's own and untouched otherwise |
| `SyncInvariant.NextKeepsInv` | services/banking-service/app/application/service.py:273-388 | every transaction of every call and delivery keeps the claim columns, the calls and the history consistent |
| `SyncInvariant.RunKeepsInv` | services/banking-service/app/application/service.py:273-388 | the protocol invariant holds after every interleaving of calls, deliveries, saga ends and connection edits |
| `SyncInvariant.ScheduledStampIsEarned` | services/banking-service/app/workers/saga_command_consumer.py:331-376 | in every run a completion stamped scheduled belongs to a saga that a scheduled call started and that no manual caller had joined before |
| `SyncInvariant.StampIsExact` | services/banking-service/app/workers/saga_command_consumer.py:331-376 | in every reachable state the stamp is scheduled if and only if the claim is the saga's own, a scheduled call started it and no manual caller joined it |
| `SyncInvariant.ManualIsNeverDowngraded` | services/banking-service/app/application/service.py:339-360 | in every reachable state, while one saga owns the claim its trigger never returns from manual |
| `SyncInvariant.TakeoverOnlyFromReleasedFinishedOrStale` | services/banking-service/app/application/service.py:273-337 | between two consecutive starts on one connection the first saga completed, was ended, or held a claim older than the TTL at the second caller's clock reading |
| `SyncInvariant.OnlyReportedTerminalIsStolen` | services/banking-service/app/application/service.py:311-337 | a call is about to steal only with a status port wired and the holder really terminal; unknown status or no port never steals |
| `SyncInvariant.ClaimHasExactlyOneStart` | services/banking-service/app/application/service.py:276-307 | every id in a claim column has exactly one start event in the whole outbox, and it is for that connection |
| `SyncInvariant.OneStartPerSaga` | services/banking-service/app/application/service.py:276-307 | no saga id has two start events |
| `SyncInvariant.ReturnsNotRunningIffItStarted` | services/banking-service/app/application/service.py:276-307 | a call returns (id, False) if and only if the start event for its own id is persisted, and then with its own origin and time |
| `SyncInvariant.OnlyTheOwnerClears` | services/banking-service/app/workers/saga_command_consumer.py:349-364 | a claim becomes empty only by the completion commit of the saga that owns it |
| `SyncRows.SyncTimeIsLastCompletion` | services/banking-service/app/workers/saga_command_consumer.py:335-381 | in every reachable state a connection's last_synced_at is the time of its last completion event, and empty exactly when it has none |
| `SyncRows.DrawnWasValidated` | services/banking-service/app/application/service.py:258-274 | in every run a call that has drawn its id was validated before: the connection was then active, unexpired at the clock reading and its caller's own, and the account resolved |
| `SyncRows.DrawnCallsAreOwned` | services/banking-service/app/application/service.py:258-274 | in every reachable state a call that has drawn its id is for a connection of its caller |
| `SyncRows.StartsAreOwned` | services/banking-service/app/application/service.py:258-307 | every start event was persisted by a call of the owner of its connection |
| `SyncService.Database.StartSyncSaga` | services/banking-service/app/application/service.py:234-337 | under any interference the call is a run of the protocol made of its own actions and its environment's; it steals only with a status port, draws no id when it raises, and its reply tells truthfully whether its own start event was persisted; undisturbed, reply and rows are given exactly by the columns it finds |
| `SyncService.Database.ResolveConflict` | services/banking-service/app/application/service.py:293-337 | undisturbed, a holder reported terminal loses the claim to the call and any other holder's id is handed over, with a manual caller marking the claim |
| `SyncService.Database.FindWinner` | services/banking-service/app/application/service.py:306-307 | hands over whoever holds the claim at that moment, and the fallback only when nobody does |
| `SyncService.Database.AskSagaStatus` | services/banking-service/app/application/service.py:309-313 | terminal exactly when a port is wired and answers completed, failed or timed_out |
| `SyncService.Database.ValidateCall` | services/banking-service/app/application/service.py:258-274 | refuses exactly a missing, inactive, foreign, expired or unresolved connection, each with its own error and in that order, and otherwise draws the id |
| `SyncService.Database.ClaimTransaction` | services/banking-service/app/adapters/outbound/postgres_bank_connection_repository.py:120-152 | wins exactly when the claim is absent or older than the TTL; claim columns and start event change together or not at all |
| `SyncService.Database.StealTransaction` | services/banking-service/app/adapters/outbound/postgres_bank_connection_repository.py:154-176 | wins exactly when the old id still owns the claim; claim columns and start event change together or not at all |
| `SyncService.Database.DeferToRunningSaga` | services/banking-service/app/application/service.py:339-360 | only a manual caller escalates, only while the named saga still owns the claim |
| `SyncService.Database.CommitCompletion` | services/banking-service/app/workers/saga_command_consumer.py:331-412 | without the row or with its key in the inbox nothing; else the row is synced now, an own claim is released, one event carries the claim's trigger and a keyed command leaves its key |
| `SyncInbox.RunKeepsInbox` | services/banking-service/app/workers/saga_command_consumer.py:306-421 | after every interleaving of deliveries, inbox keys and keyed completion events correspond one to one and retries stay bounded |
| `SyncInbox.AtMostOneCompletion` | services/banking-service/app/workers/saga_command_consumer.py:306-421 | each well-formed (saga_id, step_name) yields at most one completion event under any redelivery and concurrency |
| `SyncInbox.EventIffInboxRow` | services/banking-service/app/workers/saga_command_consumer.py:306-421 | a keyed completion event exists if and only if its inbox row exists |
| `SyncInbox.DuplicateRepliesSuccess` | services/banking-service/app/workers/saga_command_consumer.py:306-330 | whatever other actions come before, between and after its handler's steps, a delivery of a command already in the inbox writes nothing and, unless it fails itself, is answered with success |
| `SyncInbox.FirstDeliveryEmitsOnce` | services/banking-service/app/workers/saga_command_consumer.py:306-421 | an undisturbed first delivery emits one event and becomes a duplicate exactly when it carries a well-formed key; unkeyed commands can complete again |
| `SyncInbox.RetriesAreBounded` | services/banking-service/app/workers/saga_command_consumer.py:162-218 | at most three republications, and failure is reported only after the last |
| `SyncInbox.FailureRepublishes` | services/banking-service/app/workers/saga_command_consumer.py:162-218 | a failing delivery is published again with one more retry, or after three answered with failure, and writes nothing |
| `SyncInbox.StepKeyCollisions` | services/banking-service/app/workers/saga_command_consumer.py:69-89 | two commands share an inbox key exactly when they are equal or one saga id continues past a colon into the other's step name |
| `SyncInbox.StepKeyIdentifies` | services/banking-service/app/workers/saga_command_consumer.py:69-89 | for saga ids without a colon the key identifies the command |
| `SyncScheduler.QueryMissesOnlyTheCutoffInstant` | services/banking-service/app/adapters/outbound/postgres_bank_connection_repository.py:104-118 | the candidate query lists exactly the active due rows except one synced at the cutoff instant itself |
| `SyncScheduler.ListedAgainAfterTheInterval` | services/banking-service/app/adapters/outbound/postgres_bank_connection_repository.py:104-118 | in every reachable state a completed connection is listed exactly when it is active and more than the interval has passed since its last completion |
| `SyncScheduler.RunOnce` | services/banking-service/app/workers/sync_scheduler.py:45-126 | every due connection whose consent holds and whose session stands gets one scheduled call for its owner, and is counted by what that call answered; started sagas are exactly those with a scheduled start event in the outbox; the sweep never steals; undisturbed, each class is given by the row the query returned |
| `SyncScheduler.SyncOne` | services/banking-service/app/workers/sync_scheduler.py:64-113 | skipped on expired consent without a call, else the scheduled call for the row's owner is over and classed by its reply; undisturbed, a free claim means a new saga |
| `Reclassification.ExecuteKeepsUnique` | services/budget-service/app/application/reclassification.py:52-80 | after any number of rows of any manifest, references of one group are still pairwise distinct and no row appears, disappears or changes group |
| `Reclassification.OnlyLegacyReferencesMove` | services/budget-service/app/application/reclassification.py:38-80 | a reference changes only from the legacy value some row of the manifest named for it, and never on a protected row |
| `Reclassification.DryRunIsExactIff` | services/budget-service/app/application/reclassification.py:23-80 | for unique sources on a table that satisfies the unique constraint, the execution meets row by row what the dry run reported if and only if no earlier validated row takes a later validated row's target or leaves the reference a later row collides with |
| `Reclassification.DryRunIsExact` | services/budget-service/app/application/reclassification.py:23-80 | targets that within a group are neither legacy references nor shared never interfere, so the dry run is exact |
| `Reclassification.RerunIsIdleIff` | services/budget-service/app/application/reclassification.py:23-80 | a second execution changes nothing, and repeats the first outcomes with hits as already applied, if and only if the first one did not free, after skipping it, a target that no later hit took again |
| `Reclassification.SecondExecuteIsIdle` | services/budget-service/app/application/reclassification.py:23-80 | without targets on legacy references of the group nothing is freed and the rerun is idle |
| `Reclassification.SettledTally` | services/budget-service/app/application/reclassification.py:23-80 | counter by counter: hits move to already applied and every other count stays |
| `ReclassificationRun.RerunCounts` | services/budget-service/app/application/reclassification.py:23-80 | all counters of the rerun: applied becomes already applied, everything else stays |
| `ReclassificationRun.UnusedOutcomes` | services/budget-service/app/application/reclassification.py:23-80 | budget runs never count a protected row and categorization runs never a collision |
| `ReclassificationRun.RunIsMoves` | services/budget-service/app/application/reclassification.py:23-80 | a run of column steps is a run of the moves its rows mean, so the theorems about moves hold of it |
| `Reclassification.ChainedTargetsBreakBoth` | services/budget-service/app/application/reclassification.py:52-80 | a concrete chain of targets on legacy references for which the rerun is not idle and the dry run is wrong |
| `Reclassification.SharedTargetBreaksTheDryRun` | services/budget-service/app/application/reclassification.py:52-80 | a concrete shared target for which the dry run validates two rows and the execution applies one |
| `BudgetReclassification.Session.ApplyReclassification` | services/budget-service/app/application/reclassification.py:23-80 | over the columns: a row named once moves to its target exactly in an execution that finds it at its legacy category (a line also needs an uncontested target), rows named by none stay, a one-row manifest counts exactly what it found; the first failing row decides the error and rolls everything back; lines stay unique |
| `BudgetReclassification.ApplyRows` | services/budget-service/app/application/reclassification.py:23-80 | the error of the first failing row, or the columns and counters of all rows, which are those the moves lead to |
| `BudgetReclassification.ResolveOnce` | services/budget-service/app/application/reclassification.py:33-44 | remembered targets answer as the category port would, and are the ones asked for |
| `BudgetReclassification.CollisionQuery` | services/budget-service/app/application/reclassification.py:52-70 | the sibling query is non-empty exactly when the move would break the unique constraint |
| `BudgetReclassification.UniqueLinesUniqueTable` | services/budget-service/app/application/reclassification.py:52-70 | uniqueness of (monthly_budget_id, category_id) is uniqueness within groups |
| `BudgetScan.CollisionGroups` | services/budget-service/app/application/reclassification.py:131-143 | the dictionary holds, for every (monthly budget, target), exactly the ids of the lines that propose it |
| `BudgetScan.InCrowdIff` | services/budget-service/app/application/reclassification.py:131-156 | a line's id sits in a group of two or more if and only if another line of its monthly budget proposes the same target |
| `BudgetScan.BudgetRowByColumns` | services/budget-service/app/application/reclassification.py:83-114 | exactly categories 1 to 10 are reported, with the mapping's disposition and reason or as unresolved, and a target only when it is the single target of a safe entry |
| `BudgetScan.ClashByColumns` | services/budget-service/app/application/reclassification.py:131-143 | two lines clash exactly when they belong to one monthly budget and are reported with the same target |
| `BudgetScan.LineReportByColumns` | services/budget-service/app/application/reclassification.py:143-156 | a clashing line is reported for manual review, any other legacy line as it is |
| `BudgetScan.ScanBudgets` | services/budget-service/app/application/reclassification.py:117-156 | reports every legacy reference, flags a line exactly when another line clashes with it, and counts every reference in the histogram |
| `BudgetScan.ScannedMovesAreSafe` | services/budget-service/app/application/reclassification.py:131-156 | the scanner's collision flags, with a resolver that tells keys apart and avoids legacy ids, supply the conditions under which dry run and rerun are predictable |
| `BudgetScan.ScannedManifestIsPredictable` | services/budget-service/app/application/reclassification.py:23-156 | scan, manifest, any edit that keeps line ownership, then apply: execution counters are the dry-run counters with validated as applied, and a rerun is idle with applied counted as already applied |
| `ReclassificationReport.ExecutionManifest` | scripts/tax07_reclassification.py:54-114 | refused exactly on a repeated identity or an unapproved target; otherwise candidates plus counted exclusions are all rows, each reason with its exact count |
| `ReclassificationReport.ManifestIsApproved` | scripts/tax07_reclassification.py:54-114 | candidates have writable kinds, executable dispositions, mapping-approved targets and pairwise different identities |
| `ReclassificationReport.ManifestByColumns` | scripts/tax07_reclassification.py:54-114 | the manifest holds exactly the rows of a kind the service writes, with an executable disposition and a target identity, unchanged |
| `ReclassificationReport.ExclusionByColumns` | scripts/tax07_reclassification.py:66-81 | every other row is counted under the first reason that keeps it out |
| `ReclassificationReport.AllowedByColumns` | scripts/tax07_reclassification.py:43-51 | approved targets are those of the mapping entry for the subcategory, or for the category when there is none |
| `ReclassificationReport.Lookup` | scripts/tax07_reclassification.py:43-51 | the mapping entry of a legacy id, or none when the mapping has no such id |
| `ReclassificationReport.CountDispositions` | scripts/tax07_reclassification.py:184-194 | refused exactly on an unexplained row; counts and amounts per disposition are exact, so no row and no cent is lost |
| `ReclassificationReport.Analytics` | scripts/tax07_reclassification.py:196-241 | refused exactly when a row changes group untraced; before, after and traces are the sums over the row columns, group by legacy category and by target key; each delta is traced in minus traced out, and the totals guard never fires |
| `ReclassificationReport.DeltasSumToZero` | scripts/tax07_reclassification.py:227-241 | the deltas of the seven reported groups sum to zero for every set of rows |
| `CategorizationReclassification.Session.ApplyReclassification` | services/categorization-service/app/application/reclassification.py:31-90 | over the columns: a row named once moves exactly in an execution that finds it unprotected and at its legacy reference, rows named by none stay, a one-row manifest counts exactly what it found; the first failing row decides the error and rolls everything back |
| `CategorizationReclassification.DryRunPredictsAndRerunIsIdle` | services/categorization-service/app/application/reclassification.py:31-90 | for unique sources the execution counters are the dry-run counters with validated as applied, a rerun changes nothing and counts applied as already applied |
| `CategorizationReclassification.ProtectedRowsAreNeverWritten` | services/categorization-service/app/application/reclassification.py:51-85 | manual, user and gold results and user-owned rules keep their references under every manifest and every prior edit; what changes was still at its legacy reference |
| `CategorizationReclassification.ScanCategorization` | services/categorization-service/app/application/reclassification.py:93-165 | reports rows in order and counts every reference in the histogram, reported or not |
| `CategorizationReclassification.ReportsByColumns` | services/categorization-service/app/application/reclassification.py:125-165 | a reference with a proposal is reported, as protected and without target when somebody chose it, else with the proposal and its single target |
| `CategorizationReclassification.ScannedCandidates` | services/categorization-service/app/application/reclassification.py:125-165 | a manifest row comes out of a scan if and only if it is for an unprotected result or ownerless rule with one approved target, at the reference it was scanned with |
| `Taxonomy.RunKeepsIntegrity` | services/categorization-service/app/application/category_service.py:71-304 | after every sequence of category, subcategory, rule and correction operations parents exist, active names are unique, rules and merchants point at existing subcategories and user patterns are unique |
| `Taxonomy.RunStaysReplayable` | services/categorization-service/app/application/category_service.py:71-304 | replaying the outbox from empty reproduces both tables on the carried columns after every sequence of operations, rejected and empty ones included |
| `Taxonomy.GuardAloneWouldOrphan` | services/categorization-service/migrations/versions/001_create_tables.py:40-48 | the service guard counts active subcategories only; deletion goes through exactly when no subcategory at all remains, which the foreign key decides |
| `Taxonomy.CategoryNamesStayDistinctIff` | services/categorization-service/app/application/category_service.py:71-144 | an operation that succeeds keeps all category names distinct, retired rows included, if and only if it does not create or rename a category to a retired name |
| `Taxonomy.SubNamesStayDistinctIff` | services/categorization-service/app/application/category_service.py:185-264 | the same for subcategory names within a parent, under creation, renaming and moving |
| `Taxonomy.WithoutRetiredNamesStayDistinct` | services/categorization-service/app/application/category_service.py:71-304 | from tables without retired rows every run keeps all category names and all subcategory names within a parent distinct |
| `Taxonomy.RetiredNamesCanReturn` | services/categorization-service/migrations/versions/008_activate_taxonomy_v1.py:184-191 | two accepted operations after which two categories share a name and two subcategories of one parent share a name |
| `Taxonomy.WriteRuleKeepsIntegrity` | services/categorization-service/app/application/rule_service.py:49-101 | a rule may be written when its target exists and its owner has no other rule with that pattern |
| `Taxonomy.CorrectKeepsIntegrity` | services/categorization-service/app/workers/category_corrected_consumer.py:111-167 | a correction never points a rule at a missing subcategory nor duplicates a pattern |
| `TaxonomyService.Service.CreateCategory` | services/categorization-service/app/application/category_service.py:71-95 | succeeds exactly for a known type and a name no active category has; then one active row with the caller's values is new and announced; integrity and replayability are kept, and a rejection changes nothing |
| `TaxonomyService.Service.UpdateCategory` | services/categorization-service/app/application/category_service.py:109-144 | each given field has its new value and every other its old one, no other row changes and the row is announced; integrity and replayability are kept, and a rejection changes nothing |
| `TaxonomyService.Service.DeleteCategory` | services/categorization-service/app/application/category_service.py:146-168 | keeps the tables whole and the outbox replayable, and a rejection changes nothing; succeeds exactly when the category exists and no subcategory of any lifecycle is left in it |
| `TaxonomyService.Service.CreateSubCategory` | services/categorization-service/app/application/category_service.py:185-214 | succeeds exactly for an existing parent without an active subcategory of that name; then one active row is new and announced; integrity and replayability are kept, and a rejection changes nothing |
| `TaxonomyService.Service.UpdateSubCategory` | services/categorization-service/app/application/category_service.py:216-264 | each given field has its new value and every other its old one, a new parent exists, no other row changes and the row is announced; integrity and replayability are kept |
| `TaxonomyService.Service.DeleteSubCategory` | services/categorization-service/app/application/category_service.py:266-304 | keeps the tables whole and the outbox replayable, and a rejection changes nothing; succeeds exactly when the subcategory exists, is not the fallback, and no merchant and no rule refers to it |
| `TaxonomyService.Service.CreateRule` | services/categorization-service/app/application/rule_service.py:49-77 | succeeds exactly for a known subcategory and a new pattern; then one rule with the caller's values is new, and exactly its user is notified; integrity and replayability are kept |
| `TaxonomyService.Service.UpdateRule` | services/categorization-service/app/application/rule_service.py:79-101 | succeeds exactly for the caller's own rule, a known subcategory and a pattern no other rule of the caller has; then each given field has its new value and every other its old one, no other rule changes, and exactly its user is notified |
| `TaxonomyService.Service.DeleteRule` | services/categorization-service/app/application/rule_service.py:103-109 | succeeds exactly for the caller's own rule; exactly that row goes and exactly its user is notified; integrity and replayability are kept |
| `LearnedRules.LearnedRulesAreTheFold` | services/categorization-service/app/workers/category_corrected_consumer.py:77-167 | under any redelivery a learned rule is active and targets the last first-processed learnable correction of its user and pattern, else is as it was; at most one rule per pattern |
| `LearnedRules.RepeatIff` | services/categorization-service/app/workers/category_corrected_consumer.py:81-90 | a delivery is skipped if and only if its non-empty id was processed before |
| `LearnedRules.SameWordsHitTheSameRule` | services/categorization-service/app/workers/category_corrected_consumer.py:111-167 | a correction of one wording is what the only, active rule of every wording with the same lettered words then says |
| `LearnedRules.LearnKeepsTable` | services/categorization-service/app/workers/category_corrected_consumer.py:134-161 | the upsert leaves one active rule for the pattern with the new target and keeps user patterns unique |
| `LearnedRules.Consumer.HandleDelivery` | services/categorization-service/app/workers/category_corrected_consumer.py:77-167 | a repeat changes nothing; any other message leaves its id and, if learnable, retargets and activates the rule of its user and pattern or creates a merchant rule of priority 10; no other rule changes |
| `MerchantPatterns.OnlyLetteredWordsMatter` | services/categorization-service/app/domain/merchant_normalization.py:29-33 | descriptions that differ only in letterless words, wherever they stand, and in white space have the same pattern |
| `MerchantPatterns.LetterlessIsUnlearnable` | services/categorization-service/app/domain/merchant_normalization.py:29-33 | a description without letters has the empty pattern |
| `MerchantPatterns.DanishLettersAreSpelledOut` | services/categorization-service/app/domain/merchant_normalization.py:29-33 | the three Danish letters become oe, ae and aa, and nothing else is respelled |
| `MerchantPatterns.PatternsFit` | services/categorization-service/app/domain/merchant_normalization.py:26-33 | a pattern has at most 200 characters |
| `LearnedMatching.LearnedPatternMatchesItsDescription` | services/categorization-service/app/domain/merchant_normalization.py:29-33 | the engine finds a learned pattern in its own description whenever the lettered words, or those the length bound leaves, stand side by side, and, for patterns within the length bound, only then |
| `LearnedMatching.NumberInTheMiddleIsNeverFound` | services/categorization-service/app/adapters/outbound/rule_engine.py:60-66 | for every two words with a number between them the learned pattern is not found in the description it came from |
| `LearnedMatching.PatternFormIsItself` | services/categorization-service/app/adapters/outbound/rule_engine.py:25-27 | normalising a learned pattern again for matching leaves it unchanged |
| `LearnedMatching.RemaValby` | services/categorization-service/app/domain/merchant_normalization.py:12-15 | the instance "rema 1000 valby" |
| `RuleOverlays.LookupIsCurrent` | services/categorization-service/app/rule_engine_provider.py:118-134 | in one process every lookup is served the overlay of the current rule table and taxonomy maps |
| `RuleOverlays.LookupIsBoundedlyStale` | services/categorization-service/app/rule_engine_provider.py:118-134 | whatever other processes write, a lookup is served an overlay of a rule table in force less than the TTL ago, and at most 512 users are cached |
| `RuleOverlays.BehaviourInvariants` | services/categorization-service/app/rule_engine_provider.py:97-217 | every reachable cache entry was built from a rule table of its own timestamp, and is current while only this process writes |
| `RuleOverlays.OverlayLadder` | services/categorization-service/app/rule_engine_provider.py:136-157 | the tiers are the runs of equal priority among exactly the user's matchable rules: one priority per tier, strictly ascending, losing none |
| `RuleOverlays.RowIsInOverlay` | services/categorization-service/app/rule_engine_provider.py:136-157 | every active keyword or merchant rule of the user with a known subcategory is a keyword of the overlay, under the name of its subcategory |
| `RuleOverlays.OverlayIsOfRows` | services/categorization-service/app/rule_engine_provider.py:136-157 | every keyword of the overlay is that of such a rule, looked up in the taxonomy's own table |
| `RuleOverlays.OrderedIsSorted` | services/categorization-service/app/adapters/outbound/postgres_rule_repository.py:35-46 | the repository order lists each of the user's rules once, by ascending priority, then longer patterns first, then ascending id |
| `RuleOverlays.RuleServiceTouchesOnlyItsUser` | services/categorization-service/app/application/rule_service.py:49-109 | a rule operation changes only rows of its caller, so invalidating that one user is enough |
| `RuleEngineProvider.EngineProvider.GetUserEngines` | services/categorization-service/app/rule_engine_provider.py:118-134 | an entry younger than the TTL is served and nothing changes; otherwise the overlay is rebuilt and stored now, and only a cache of 512 gives up an entry, an oldest one |
| `RuleEngineProvider.EngineProvider.LoadUserEngines` | services/categorization-service/app/rule_engine_provider.py:136-157 | the grouping loop builds exactly the ladder of the loaded rules |
| `RuleEngineProvider.EngineProvider.Reload` | services/categorization-service/app/rule_engine_provider.py:159-217 | new taxonomy maps and no surviving overlay |
| `RuleEngineProvider.EngineProvider.InvalidateUser` | services/categorization-service/app/rule_engine_provider.py:97-99 | drops exactly that user's overlay |
| `MonthClose.ClosedExactlyOnce` | services/budget-service/app/application/monthly_budget_service.py:270-338 | over all interleavings a row gets at most one month-closed event, is closed exactly when it has one, and the surplus is that of the event |
| `MonthClose.BudgetedAmountsAreSnapshots` | services/budget-service/app/application/monthly_budget_service.py:279-309 | the budgeted amount of every event is a total its row really had at some point of the run |
| `MonthClose.Surplus` | services/budget-service/app/application/monthly_budget_service.py:306-307 | never negative, and the exact difference unless that is negative |
| `MonthClose.OnlyItsOwnCallCloses` | services/budget-service/app/adapters/outbound/postgres_monthly_budget_repository.py:130-141 | a row is closed only by the write transaction of a call for its own account and period |
| `MonthClose.FailClosed` | services/budget-service/app/application/monthly_budget_service.py:287-304 | without the spend nothing is written or sent and the call never reaches its write |
| `MonthClose.FilterLosesNoDueRow` | services/budget-service/app/domain/scheduled_close.py:18-23 | the query's before-this-period filter loses no due row for any close day |
| `MonthClose.DueByCalendar` | services/budget-service/app/domain/scheduled_close.py:18-23 | a month is due once a full month later, or in the month after it from the close day on |
| `MonthCloseService.Due` | services/budget-service/app/workers/month_close_scheduler.py:64-76 | exactly the candidates that are due |
| `MonthCloseService.Database.CloseMonth` | services/budget-service/app/application/monthly_budget_service.py:270-338 | under any interference the call is a run of the model for its own account, period and user; undisturbed, the columns decide: no row, no spend, already closed, or closed now with one event of total, spend and what is left |
| `MonthCloseService.Database.WriteTransaction` | services/budget-service/app/adapters/outbound/postgres_monthly_budget_repository.py:130-141 | closes exactly an open row, with one event of the snapshot's total and spend and what is left of it or nothing; else nothing changes |
| `MonthCloseService.Database.RunOnce` | services/budget-service/app/workers/month_close_scheduler.py:48-119 | due are exactly the open due rows of the table; each whose session stands gets a call for its own account, period and user and is counted by its outcome; whatever happens to a row that is not among the due is done by another process; undisturbed, every due row with a known spend is closed; an impossible close day fails before anything is closed |
| `MonthCloseService.SweepTouchesOnlyDue` | services/budget-service/app/workers/month_close_scheduler.py:64-119 | no action of the sweep changes a row that is not among the due or sends an event about it |
| `RankFusion.RrfFuse` | services/analytics-service/app/domain/ranking.py:23-38 | returns a duplicate-free arrangement of the union in the order of exact score, then first sighting |
| `RankFusion.StrictTotalOrder` | services/analytics-service/app/domain/ranking.py:34-38 | the sort key is a strict total order of the items: irreflexive, transitive, and any two distinct items compare |
| `RankFusion.FusionIsUnique` | services/analytics-service/app/domain/ranking.py:34-38 | there is exactly one list with these properties |
| `RankFusion.SingleListIsUnchanged` | services/analytics-service/app/domain/ranking.py:23-38 | one duplicate-free list among empty ones comes back unchanged |
| `RankFusion.GoodInBothBeatsAnySingle` | services/analytics-service/app/domain/ranking.py:23-38 | over two duplicate-free lists an item ranked at most k+1 in both precedes every item of only one |
| `RankFusion.BoundIsSharp` | services/analytics-service/app/domain/ranking.py:23-38 | for every k: at rank k+2 in both lists an item comes after one that tops the first list only |
| `Backfill.BackfillTransactions` | services/analytics-service/app/tools/backfill.py:127-197 | ends after at most one request more than there are ids, for every source over a finite id universe; stores no id twice if no page repeats one; stores a stable source exactly once, in order, with no wasted request |
| `Backfill.StableStep` | services/analytics-service/app/tools/backfill.py:155-193 | against a stable source each of the three stop conditions fires only when everything is stored |
| `DuplicateCleanup.FindDuplicates` | scripts/cleanup_pg_duplicates.py:119-160 | each live row with an older live twin, once, group by group in ascending order of kept id and id; rows without a description are twins of each other, tombstones of nobody |
| `DuplicateCleanup.TransactionDb.DeleteRows` | scripts/cleanup_pg_duplicates.py:216-259 | commits exactly when the ids are distinct and all still live, whatever another writer did; then exactly those rows are marked and one event each carries the id, account, user and amount found; otherwise nothing changes |
| `DuplicateCleanup.EventsAreTheTombstones` | scripts/cleanup_pg_duplicates.py:184-259 | in every committed run delete events and newly tombstoned rows are one to one |
| `DuplicateCleanup.CleanupIsComplete` | scripts/cleanup_pg_duplicates.py:119-160 | afterwards live keys are pairwise distinct and the same set as before, exactly the lowest id of each survives, and a second search finds nothing |
| `DuplicateCleanup.Cleanup` | scripts/cleanup_pg_duplicates.py:262-330 | the whole run on an unchanged table: complete, one event per tombstone, and a no-op on a clean table |

## Left out

- Source ids are integers: the text form and the text order of manifest rows are not modelled; the theorems hold for every order of the rows.
- The shard envelope of the aggregation (schema, mapping and run hashes, missing or extra shards), `_validate_analytics_baseline`, JSON bytes and digests.
- The transaction-service apply command, which repeats the pattern of the two modelled ones.
- SyncService.Database.CommitCompletion: the handler reads the row and writes it back without a version check; read and write are one step here, and only the inbox check is separated from the commit.
- SyncScheduler.RunOnce: a call that dies of an infrastructure error between two of its own transactions is not modelled; one that fails before its first transaction is.
- The connect and pending-authorization flow, the account-name projection (its outcome is a parameter) and the fetch-transactions handler.
- LearnedRules.LearnedRulesAreTheFold: deliveries are atomic, so the benign rollback of two racing first corrections of one merchant is not modelled.
- LearnedMatching.LearnedPatternMatchesItsDescription: for patterns cut at 200 characters the condition is sufficient only, because a cut pattern may also occur elsewhere in the text.
- Unicode: lower-casing is character by character and the letter and white-space classes are parameters.
- Explicit nulls in `update_rule` and the trimming of rule patterns.
- RuleEngineProvider.EngineProvider.Reload: the global engine, its lock and the retry after a failed load are not modelled; it states what a successful reload does to the overlays.
- Matching inside the rule engines beyond the containment test, amount and direction constraints, and the tier above the overlays.
- RankFusion.RrfFuse: scores are exact numbers; floating-point rounding is not modelled.
- `get_summary`, budget periods and alerts, display rounding, logging, message broker topology, HTTP and authentication.
