# Verified models of ContentCloud's governed workflows

ContentCloud runs content production for tenants: knowledge is extracted from sources and
governed, media jobs are billed by external providers, results are handed over by workers,
submissions are approved by clients, and processes are versioned and rolled back. Much of this
happens concurrently or is delivered more than once. This project models the parts whose
correctness depends on interleavings, replays or graph search, and proves what they guarantee for
every input, every run and every schedule.

Protocols are step machines. An operation is a program counter that touches shared state at most
once per step, foreign calls answer nondeterministically, and an operation may stop between any two
steps; `Schedules.Run` folds the step function over a schedule, so a lemma about `Run` is a lemma
about every interleaving. Loops and records that the program updates in place are methods and
classes, each specified by a function or predicate about which the lemmas then speak. Digests are
abstract functions, stores are their compare-and-set, lookup and append contracts, and clocks are
numbers.

| file | component |
|---|---|
| `MediaJobs.dfy`, `MediaOutcomes.dfy` | the media job row, and what provider answers and operators make of it |
| `BatchAdmission.dfy`, `BatchBudget.dfy` | batch admission, and what it is worth over runs |
| `Cleanup.dfy`, `CleanupRuns.dfy` | claim, delete, finalize reconciliation of speculative blobs |
| `Knowledge.dfy`, `KnowledgeService.dfy`, `KnowledgeBlanks.dfy` | evidence and knowledge governance |
| `KnowledgeImport.dfy`, `KnowledgeRedelivery.dfy` | package import and its replays |
| `Lineage.dfy`, `LineageGraph.dfy` | lineage searches, the selected graph, focused impact |
| `Connector.dfy`, `ConnectorRuns.dfy` | one connector sync, and leased syncs over whole runs |
| `RuntimeResult.dfy`, `RuntimeResultRuns.dfy`, `Paths.dfy` | result handover between worker and consumer |
| `ReviewGrants.dfy`, `ReviewRuns.dfy` | client review grants and decisions |
| `Sop.dfy`, `SopDiff.dfy` | lint, rollback and diff of process versions |
| `PerformanceImport.dfy` | all-or-nothing import with deduplication |
| `DaemonSelection.dfy` | the current instance of each device |
| `Schedules.dfy`, `Text.dfy`, `Wrappers.dfy` | runs of a step function; string order and sorting; optional values |

Properties that turned out not to hold of the code as written, each with a concrete input or run and
the exact condition under which the property does hold:

- A queued job whose preflight fails cannot be marked failed, since the transition table has no such
  step (`MediaJobs.QueuedJobStaysQueued`, `MediaJobs.PreflightFailure`).
- A committed cancellation does not always prevent the billable submit
  (`MediaJobs.CancelRaceIsReachable`, `MediaJobs.CancelledYetSubmitted`); it does when the row had not
  yet been claimed (`MediaJobs.CancelBeforeClaimIsFinal`).
- The budget check can be passed by overflow (`BatchAdmission.OverflowSlipsThrough`,
  `BatchAdmission.AdmittedIsWithinLimits`) and by two batches checked at the same time
  (`BatchBudget.ConcurrentChecksOverspend`, `BatchBudget.ConcurrentPairIsSafe`).
- The cost reported for a provider counts a billed job twice until it is settled
  (`BatchBudget.BilledOpenJobCountsTwice`, `BatchBudget.CommittedIsReservedAndDoubled`).
- An approval that races the rejection of its evidence ends up resting on rejected evidence
  (`Knowledge.ApprovalRace`, `Knowledge.LateApproval`).
- Redelivering a package is refused once evidence it quotes has been rejected
  (`KnowledgeRedelivery.RejectionStopsRedelivery`, `KnowledgeRedelivery.RedeliveryCompletes`), and two
  deliveries at once can mix packages (`KnowledgeRedelivery.MixedPackagesAreReachable`,
  `KnowledgeRedelivery.ConcurrentDeliveriesMix`).
- An evidence reference with surrounding blanks passes the check but escapes demotion
  (`KnowledgeBlanks.BlankReferenceEscapes`, `KnowledgeBlanks.RejectionEscapesIff`); what is stored
  without blanks is governed over every run (`KnowledgeBlanks.TrimmedIsGovernedOverRuns`).
- Edges are deduplicated by a joined string, so keys containing the separator can hide a link and the
  node behind it (`LineageGraph.CollisionHidesANode`, `LineageGraph.ImpactIsExact`).
- A connector worker that outlives its lease can overwrite newer mappings
  (`ConnectorRuns.OverlapLosesTheFold`), and an adapter that changes its answer can leave records
  behind (`ConnectorRuns.ChangedPageLeavesAStray`, `ConnectorRuns.CommitsAreFolds`).
- A result reference for an id that is empty, ".", ".." or surrounded by blanks is written but can
  never be read back (`RuntimeResultRuns.BlankIdIsUnreadable`, `RuntimeResult.RefRoundTrip`).
- A finalization whose dispatch commits and then fails to refresh the job deletes the result it
  committed (`RuntimeResultRuns.RefreshErrorLosesTheResult`,
  `RuntimeResultRuns.CommittedResultIsDelivered`); sending it again brings the result back
  (`RuntimeResultRuns.IdenticalRetryRestores`).
- A second finalization of one attempt with the same payload can delete the first one's result
  (`RuntimeResultRuns.TwoDigestsLoseTheResult`, `RuntimeResultRuns.RivalDeletesTheResult`).
- An outcome sent without a state is committed as a success that was never validated
  (`RuntimeResultRuns.UnstatedIsNotValidated`, `RuntimeResultRuns.SuccessIsValidated`).

## Model

| member | source | states |
|---|---|---|
| MediaJobs.SubmitAtMostOnce | internal/application/media_pipeline.go:593-898 | over every interleaving of workers, approvals, cancellations and reconciliations, Submit is called at most once per job, only after the single claim and a recorded attempt |
| MediaJobs.NeverResubmitted | internal/application/media_pipeline.go:418-898 | once the row has left the pre-submission states no write brings it back, so an unknown submit is never repeated |
| MediaJobs.AcceptedCostIsKept | internal/application/media_pipeline.go:793-898 | after a terminal provider answer is accepted the row carries that non-negative amount in every later state until another is accepted |
| MediaJobs.TerminalIsAbsorbing | internal/delivery/work_delivery_model.go:497-517 | succeeded, failed and cancelled are never left in any run |
| MediaJobs.VersionCountsWrites | internal/application/media_pipeline.go:1165-1177 | the row version counts the accepted writes, and equal versions mean the same row |
| MediaJobs.NextKeepsInv | internal/application/media_pipeline.go:593-898 | every step of every operation keeps the inductive invariant: copies are never newer than the row, one claimant, at most one attempt |
| MediaJobs.PreflightFailure | internal/application/media_pipeline.go:1202-1213 | whatever others do between a failed preflight and its write, the write fails the job exactly when it was resuming an external result and the row has not moved, else changes nothing |
| MediaJobs.QueuedJobStaysQueued | internal/application/media_pipeline.go:593-640 | from every initial queued row, a run in which preflight fails and the row stays as it was |
| MediaJobs.CancelledYetSubmitted | internal/application/media_pipeline.go:444-526 | after a committed cancellation a submit is still possible exactly when a worker had already passed its last look at the row |
| MediaJobs.CancelRaceIsReachable | internal/application/media_pipeline.go:444-526 | a run in which the job is cancelled and then submitted |
| MediaJobs.CancelBeforeClaimIsFinal | internal/application/media_pipeline.go:444-526 | a cancellation committed while the row is in a pre-submission state is followed by no submit in any run |
| MediaOutcomes.OutcomeFollowsAnswer | internal/application/media_pipeline.go:793-898 | over every interleaving the job is downloading, validating or succeeded only if the last accepted terminal answer was a completion, at whose cost it is; and a cancelled job's cancellation was requested |
| MediaOutcomes.OnlyTheirMoves | internal/application/media_pipeline.go:418-898 | in every reached state whatever changes the row's state is a step of an operation that may: a worker succeeds only after a completion, cancels only on the provider's confirmation of a requested cancellation, fails a generated job only on another answer or bad output; approvals and cancellations were decided on this version; a reconciliation changes no state |
| MediaOutcomes.AnswerDecides | internal/application/media_pipeline.go:793-898 | whatever happened before, a terminal answer to a current poll, undisturbed, ends in success at that cost exactly on a completion with good output, in cancellation exactly on a requested one, else in failure |
| MediaOutcomes.PollAlone | internal/application/media_pipeline.go:793-898 | the same from any state the invariants describe; a negative amount stops the worker and changes nothing |
| MediaOutcomes.PendingAlone | internal/application/media_pipeline.go:738-792 | without a terminal answer the job waits for the provider again and nothing else changes |
| MediaOutcomes.SubmitAlone | internal/application/media_pipeline.go:674-736 | an accepted submission leaves a generating job polled under the provider's id, a rejected one fails it, an unknown one leaves it waiting; each is one call of the provider |
| MediaOutcomes.QueuedIsClaimed | internal/application/media_pipeline.go:642-676 | a queued job is claimed, gets one new attempt and, if managed, its effect, before it is submitted |
| MediaOutcomes.RetryIsQueued | internal/application/media_pipeline.go:593-604 | a job waiting for a retry is queued first |
| MediaOutcomes.WaitingIsPolled | internal/application/media_pipeline.go:623-641 | a waiting job is polled under its last attempt without another submit, or fails when that has no provider id |
| MediaOutcomes.OthersAreLeft | internal/application/media_pipeline.go:605-608 | a worker leaves a job in any other state alone |
| MediaOutcomes.ClaimFails | internal/application/media_pipeline.go:654-665 | without a recorded attempt or a registered effect the claimed job fails and the provider is not called |
| MediaOutcomes.SaveFails | internal/application/media_pipeline.go:666-898 | an attempt that cannot be saved ends the operation without the row write that was to follow |
| MediaOutcomes.ApproveAlone | internal/application/media_pipeline.go:418-442 | an approval queues a job that waits for it, on the version it was given for, and else changes nothing |
| MediaOutcomes.CancelAlone | internal/application/media_pipeline.go:444-526 | what a cancellation makes of the row, by version, state, provider id and the provider's answer |
| MediaOutcomes.ReconcileAlone | internal/application/media_pipeline.go:535-591 | a reconciliation binds a well-formed provider id exactly to a last attempt without one, on a waiting job of that version, and never changes the state |
| MediaOutcomes.WaysInto | internal/delivery/work_delivery_model.go:497-517 | for each state, exactly the states from which the table lets the row enter it |
| BatchAdmission.GroupByProvider | internal/application/media_pipeline.go:153-163 | groups exactly the jobs of each provider other than the fake one, by index and in order |
| BatchAdmission.BudgetBlockers | internal/application/media_pipeline.go:153-190 | one blocker, at its first job and with its reason, for exactly the named providers that fail the 64-bit budget check |
| BatchAdmission.ConcurrencyBlockers | internal/application/media_pipeline.go:192-223 | one blocker, at its first job and with its reason, for exactly the named providers that fail the concurrency check |
| BatchAdmission.Admission.Prepare | internal/application/media_pipeline.go:101-118 | no blocker exactly when every request is prepared in one currency; then the jobs are all of them and the estimate is their 64-bit sum |
| BatchAdmission.Admission.CreateBatch | internal/application/media_pipeline.go:94-151 | admits exactly when size, preparation, both checks, confirmation and fresh keys allow; then creates every request as prepared but queued, in one currency, else nothing |
| BatchAdmission.ChecksMean | internal/application/media_pipeline.go:153-223 | what each provider's two checks come to, case by case: missing binding, no budget, unreadable usage, sums and places within the limits, and the built-in provider exempt |
| BatchAdmission.AdmittedIsWithinLimits | internal/application/media_pipeline.go:153-223 | an admitted batch keeps each provider within its concurrency, also when the budget check skipped a failed lookup, and within a positive budget exactly when the sum fits 64 bits |
| BatchAdmission.SumsAreExact | internal/application/media_pipeline.go:181-184 | the wrapping sums are the true sums as long as these fit |
| BatchAdmission.OverflowSlipsThrough | internal/application/media_pipeline.go:181-187 | two jobs whose costs overflow pass both checks against a budget of one and are reported at minus two |
| BatchBudget.UsageIsExact | internal/persistence/memory/media.go:175-195 | the store's wrapping sums are the true ones as long as these fit |
| BatchBudget.CommittedIsReservedAndDoubled | internal/persistence/memory/media.go:175-195 | the reported cost is the reserved cost plus the estimates of billed jobs that are still open |
| BatchBudget.BudgetsHoldOverRuns | internal/persistence/memory/media.go:175-195 | over every run of batches, bills and settlements: stored jobs are queued or settled; open ones stay within concurrency; without an overflowing batch the reserved cost exceeds a budget by no more than the overruns; the reported cost is within it exactly when reserved and doubly counted costs together are |
| BatchBudget.AdmitAgainstStore | internal/application/media_pipeline.go:94-151 | admission against the store's own usage is the batch step of these runs |
| BatchBudget.ModestRunsStayWithinBudget | internal/application/media_pipeline.go:153-223 | with estimates under a ceiling that leaves room and bills within estimates, nothing overflows and the reserved cost stays within budget |
| BatchBudget.BilledOpenJobCountsTwice | internal/application/media_pipeline.go:1179-1200 | a run in which a job billed at its estimate is reported at twice that until it is settled |
| BatchBudget.ConcurrentPairIsSafe | internal/application/media_pipeline.go:123-145 | two batches checked against the same usage stay within the limits exactly when checking the second after the first would have admitted it |
| BatchBudget.ConcurrentChecksOverspend | internal/application/media_pipeline.go:123-145 | two such batches, each within budget, that together exceed it |
| Cleanup.RetryDelay | internal/application/runtime_cleanup.go:238-250 | the delay is one minute doubled per attempt, capped at one hour |
| Cleanup.BackoffDoubles | internal/application/runtime_cleanup.go:238-250 | the first delay is a minute and each next one twice the last, up to an hour |
| Cleanup.ProtocolSafety | internal/application/runtime_cleanup.go:87-216 | in every interleaving at most one worker holds the live claim, it is the retrying row, attempts equal successful claims, and a finished cleanup means the blob is gone |
| Cleanup.VersionsIncrease | internal/application/runtime_cleanup.go:164-216 | the row only moves to higher versions |
| Cleanup.DoneIsAbsorbing | internal/runtime/model.go:1113-1127 | cleaned and not-found rows are never changed again |
| Cleanup.LateResultRefused | internal/application/runtime_cleanup.go:164-216 | a worker whose claim was reclaimed never moves the row again |
| Cleanup.AlwaysRecoverable | internal/application/runtime_cleanup.go:87-162 | whatever crashed before, waiting out the lease and starting one worker can finish the cleanup |
| CleanupRuns.LeaseIsRespected | internal/application/runtime_cleanup.go:107-131 | in every reached state a claimed row is failed only by its holder or by a worker that had seen the claim at least three hundred seconds old |
| CleanupRuns.OnlyTheirMoves | internal/application/runtime_cleanup.go:164-216 | in every reached state a row becomes claimed only from pending or failed, counting an attempt, and finished only by the holder of the claim with the blob gone |
| CleanupRuns.WorkerAlone | internal/application/runtime_cleanup.go:101-216 | what an undisturbed worker makes of the diagnostic: nothing while it is done, within its lease or before its retry time; else one more attempt with the status, retry time and blob that the deletion's answer gives |
| CleanupRuns.RetryAlone | internal/application/runtime_cleanup.go:164-216 | the same for a manual retry, which looks at the status only |
| Cleanup.Reconcile | internal/application/runtime_cleanup.go:87-162 | scans up to the limit; each counter is the number of items that came to it, an item is left alone exactly when done, retrying within its lease, failed with its retry time ahead or raced, and every item is accounted for exactly when none aborts the pass |
| Cleanup.Judged | internal/application/runtime_cleanup.go:101-159 | what one item comes to, in terms of its status, its times and the answers |
| Cleanup.TallyCounts | internal/application/runtime_cleanup.go:101-159 | each counter of the tally is the number of items with that verdict |
| Cleanup.TallyConserves | internal/application/runtime_cleanup.go:87-162 | every judged item is counted once as skipped or claimed, and every claim once by its result |
| Knowledge.ApprovedStatus | internal/application/knowledge_objects.go:480-491 | an approval always gives an eligible status |
| Knowledge.CommandKeepsOk | internal/application/content.go:340-464 | each command keeps governance, contiguous versions and every stored version |
| Knowledge.RunsAreGoverned | internal/application/content.go:340-464 | in every state of every run an eligible latest version cites accepted evidence only, versions are contiguous and old ones unaltered |
| Knowledge.CitedIsImpacted | internal/application/content.go:441-464 | whatever cites a span is impacted when all revisions of the span's source are propagated |
| Knowledge.DemotionsMean | internal/application/content.go:395-439 | after propagation the latest version of exactly the eligible citing objects of the project is a copy that needs review without its decision |
| Knowledge.LastIsLatest | internal/persistence/memory/knowledge_objects.go:79-98 | the last version of an object is its latest entry in the log |
| Knowledge.LateApproval | internal/persistence/memory/knowledge_objects.go:33-59 | an approval that commits after its check keeps governance exactly when its evidence is still accepted |
| Knowledge.ApprovalRace | internal/application/knowledge_objects.go:165-224 | a race of approval and rejection that leaves an object verified on rejected evidence |
| KnowledgeBlanks.ImpactIsFoundIffTrimmed | internal/application/content.go:441-464 | the impact search finds an object whatever evidence it rests on exactly when its references were stored without surrounding blanks |
| KnowledgeBlanks.SameWhenTrimmed | internal/application/knowledge_objects.go:137-163 | on references without surrounding blanks, creating and deciding are the commands of the governed model |
| KnowledgeBlanks.TrimmedIsGovernedOverRuns | internal/application/knowledge_objects.go:70-163 | over every run of the commands with references as sent, an eligible latest version stored without blanks rests on accepted evidence |
| KnowledgeBlanks.RejectionEscapesIff | internal/application/content.go:441-464 | rejecting accepted evidence leaves an object governed exactly when it is not eligible, does not rest on it, or is found by the search over references as stored |
| KnowledgeBlanks.BlankReferenceEscapes | internal/application/knowledge_objects.go:137-163 | a run: an object with a blank before its reference is created and approved, and stays verified when the evidence is rejected |
| KnowledgeService.Service.ValidateEvidenceRefs | internal/application/knowledge_objects.go:137-163 | accepts exactly lists of known, distinct, non-empty references of the project, accepted ones where demanded |
| KnowledgeService.Service.FindLatest | internal/persistence/memory/knowledge_objects.go:79-98 | the highest version is the last entry written for the id |
| KnowledgeService.Service.CreateKnowledgeObject | internal/application/knowledge_objects.go:70-135 | succeeds exactly when references, project, status and fields allow, and appends the next version |
| KnowledgeService.Service.MayCreateMeans | internal/application/knowledge_objects.go:70-163 | a creation goes through exactly with known, distinct evidence of the project, well-formed content, an id of no other project and a status a creation may ask for |
| KnowledgeService.CreationMeans | internal/application/knowledge_objects.go:93-107 | which statuses a creation may ask for, kind by kind, and what asking for none means |
| KnowledgeService.Service.ReviewKnowledgeObject | internal/application/knowledge_objects.go:165-224 | decides exactly undecided versions of a reviewable kind at the expected version, to approve only those resting on accepted evidence, and appends one version; a refusal changes nothing |
| KnowledgeService.Service.MayReviewMeans | internal/application/knowledge_objects.go:176-199 | a decision goes through exactly on an undecided latest version of a reviewable kind at the version expected, an approval only with accepted evidence |
| KnowledgeService.Service.CollectSourceImpact | internal/application/content.go:441-464 | lists exactly the project's objects whose latest version cites the revisions, each once |
| KnowledgeService.Service.PropagateSourceChange | internal/application/content.go:395-439 | every impacted eligible object, and nothing else, gets one demoted version; the creation inside never fails |
| KnowledgeService.Service.ReviewEvidence | internal/application/content.go:340-381 | is the governed evidence review: a span that stops being accepted demotes all that rests on its source |
| KnowledgeService.Service.CreateSourceRevision | internal/application/content.go:110-149 | stores the revision and demotes what rests on the earlier ones |
| KnowledgeImport.ObjectIdInjective | internal/application/knowledge_runs.go:246-246 | no two runs and no two candidates share an object id |
| KnowledgeImport.DecimalReadsBack | internal/application/knowledge_runs.go:246-246 | the number in an object id reads back as the candidate's |
| KnowledgeImport.FindSpan | internal/application/knowledge_runs.go:287-293 | finds the first accepted span carrying the quote |
| KnowledgeImport.ResolveEvidence | internal/application/knowledge_runs.go:270-300 | resolves all quotes or none, each to its first match |
| KnowledgeImport.ValidatePackage | internal/application/knowledge_runs.go:192-231 | accepts exactly the packages within the run's contract and renders each candidate with the package's digest |
| KnowledgeImport.PackageValidMeans | internal/application/knowledge_runs.go:192-300 | what a valid package is, field by field and quote by quote |
| KnowledgeImport.ImportPackage | internal/application/knowledge_runs.go:164-190 | a delivery creates exactly the missing objects of the candidates it got through, ends at the first that does not pass, and is complete exactly when the package is valid, not stopped short and every candidate passes |
| KnowledgeImport.DeliveredMeans | internal/application/knowledge_runs.go:164-247 | what a delivery has written, field by field, and that every handled id then carries the package's digest |
| KnowledgeImport.ConflictIffDifferent | internal/application/knowledge_runs.go:172-176 | an existing object conflicts exactly with a different package |
| KnowledgeImport.DifferentPackageWritesNothing | internal/application/knowledge_runs.go:164-190 | once a run has objects, a different package is refused with nothing written |
| KnowledgeImport.CompletedDelivery | internal/application/knowledge_runs.go:164-190 | when every candidate was handled, present objects got no version and missing ones exactly one |
| KnowledgeRedelivery.RedeliveryCompletes | internal/application/knowledge_runs.go:164-190 | redelivering a package of which a prefix is stored never conflicts, and completes it, without extra versions, exactly when it still validates, is not stopped short and the missing candidates can be created |
| KnowledgeRedelivery.AdmissibleExactly | internal/application/knowledge_objects.go:137-163 | a resolved candidate can be created exactly when its fields pass and it quotes no passage twice, however the locators are spelled |
| KnowledgeRedelivery.TwoSpellingsAreRefused | internal/application/knowledge_runs.go:323-334 | one passage quoted with two spellings of its locator is never created |
| KnowledgeRedelivery.ValidNeedsAcceptedSpans | internal/application/knowledge_runs.go:270-300 | a package validates only while every quote has an accepted span |
| KnowledgeRedelivery.RejectionStopsRedelivery | internal/application/knowledge_runs.go:192-231 | a run in which a span is rejected between deliveries and every redelivery is refused |
| KnowledgeRedelivery.ConcurrentDeliveriesMix | internal/application/knowledge_objects.go:88-96 | a creation that another delivery has overtaken adds a second version, and leaves a prefix of some package exactly when both delivered the same one |
| KnowledgeRedelivery.MixedPackagesAreReachable | internal/application/knowledge_runs.go:169-189 | two deliveries that both find the first object missing and leave a prefix of no package |
| KnowledgeRedelivery.VoyageKeepsPrefix | internal/application/knowledge_runs.go:164-190 | the prefix also holds when reviews, propagation and other runs' deliveries come between two candidates of one delivery |
| KnowledgeImport.HistoryKeepsPrefix | internal/application/knowledge_runs.go:164-247 | over any history of stopped deliveries, reviews, propagation and other runs, the objects under a run's ids are a prefix of one package that never changes or shrinks |
| LineageSearch.ConnectedKeys | internal/application/lineage.go:384-405 | terminates and returns exactly the keys reachable in the given direction |
| LineageSearch.FollowedAre | internal/application/lineage.go:384-405 | downstream follows edges from start to end, upstream back, both either way |
| LineageSearch.DownstreamDepth | internal/application/lineage.go:407-427 | terminates; exactly the reachable keys, each at its shortest distance, each reason from an edge one level shallower |
| LineageGraph.PlainEdgesNeverCollide | internal/application/lineage.go:365-369 | edges whose keys lack the separator are never confused |
| LineageGraph.DeduplicationIsLossless | internal/application/lineage.go:356-371 | no link is lost exactly when no two links collide |
| LineageGraph.CollisionExample | internal/application/lineage.go:365-369 | two links, of keys a builder can hold, with one join key |
| LineageGraph.CollisionHidesANode | internal/application/lineage.go:75-124 | whenever these nodes and edges are registered the focused graph lacks a link and the impact lacks the node behind it |
| LineageGraph.RegisteredCollision | internal/application/lineage.go:37-49 | the same state registered through the builder, whose impact lacks the node |
| LineageGraph.ImpactIsExact | internal/application/lineage.go:75-124 | the view over the kept links shows exactly what the focus reaches through registered nodes if and only if no lost link is a shortcut |
| LineageGraph.CollisionFreeImpactIsExact | internal/application/lineage.go:75-124 | without colliding links the view is exact, whatever dangling endpoints selected |
| LineageGraph.Builder.BuildGraph | internal/application/lineage.go:325-382 | exactly the selected nodes in order, edges once per key with both ends among them, stage counts that sum to the nodes |
| LineageGraph.GraphMeans | internal/application/lineage.go:325-382 | which nodes and edges the graph shows, in which order, and what the stage counts are |
| LineageGraph.KeptAre | internal/application/lineage.go:356-371 | an edge is kept exactly when no earlier edge between selected ends joins to the same key |
| LineageGraph.StagesInOrder | internal/application/lineage.go:466-472 | the stages are ordered as the work goes, unknown ones last |
| LineageGraph.Builder.FocusedImpact | internal/application/lineage.go:75-124 | exactly the nodes reachable over the links the graph keeps, each once, at its shortest depth, ordered by depth then key; and exactly those reachable through registered nodes if and only if no lost link is a shortcut |
| LineageGraph.ImpactMeans | internal/application/lineage.go:75-124 | the view's items, their order, distances and reasons, read off the kept links |
| Connector.CheckPage | internal/integration/connector/sync.go:155-215 | accepts exactly well-formed pages with distinct ids and counts every record as upsert or tombstone |
| Connector.Binding.Materialize | internal/application/connector_infra.go:127-196 | the no-op branch and the save give the same mapping: the record's entry wins |
| Connector.Binding.Sync | internal/application/connector_infra.go:67-113 | a stopped sync writes a prefix and leaves the cursor; a full one writes the page and moves it |
| Connector.ReplayConverges | internal/application/connector_infra.go:98-110 | replaying a page after a stop equals one uninterrupted pass |
| Connector.ReplayOfAnotherPage | internal/application/connector_infra.go:98-110 | replaying a different page gives that page's result exactly when each id of the stopped part is rewritten or was unchanged |
| ConnectorRuns.ReceiptsChain | internal/persistence/memory/connectors.go:122-142 | over every interleaving, lease expiry included, committed receipts chain from the first cursor to the current one |
| ConnectorRuns.CommitsAreFolds | internal/application/connector_infra.go:67-113 | under non-overlapping leases and any answers of the adapter, at every commit the mapping is the last-write-wins fold of the committed pages outside the strays, and entirely so exactly when the strays agree with it |
| ConnectorRuns.SteadyCommitsAreFolds | internal/application/connector_infra.go:67-113 | with an adapter that repeats itself every commit is the fold |
| ConnectorRuns.OnlyTheHolderCommits | internal/persistence/memory/connectors.go:122-142 | the cursor moves and a receipt is written exactly when the lease holder commits a page fully written from the present cursor |
| ConnectorRuns.LeaseChanges | internal/application/connector_infra.go:67-113 | the lease is taken only while free and lost only by its holder's end or by expiry |
| ConnectorRuns.OnlyPulledRecordsAreWritten | internal/application/connector_infra.go:98-110 | records are written one at a time in the order of a pulled page |
| ConnectorRuns.SyncAlone | internal/application/connector_infra.go:67-113 | an undisturbed sync writes its page, moves the cursor, leaves a receipt and gives the lease back |
| ConnectorRuns.OverlapLosesTheFold | internal/persistence/memory/connectors.go:98-107 | a run with an outlived lease that ends on an older version |
| ConnectorRuns.ChangedPageLeavesAStray | internal/application/connector_infra.go:98-110 | a run in which a changed page leaves a record behind that no committed page has |
| RuntimeResult.RefRoundTrip | internal/application/runtime_business_results.go:151-163 | for slash-free ids the parser returns the producer's key and digest exactly when the reader's trimmed ids are those written and neither is empty, "." or ".." |
| RuntimeResult.RawRefParses | internal/application/runtime_worker.go:370-434 | under the attempt's own id a reference parses exactly when the id the worker sent can be read back |
| RuntimeResult.KeyInjective | internal/application/runtime_worker.go:551-555 | results share a key only if tenant, attempt and digest agree |
| RuntimeResult.ResultRefsAreReserved | internal/application/runtime_worker.go:376-380 | what the consumer takes for a result reference, the producer refuses from its caller |
| RuntimeResult.SortedRefsInOrder | internal/runtime/context.go:62-78 | the stored references are the trimmed non-blank ones in order, each once |
| RuntimeResult.OutcomeIgnoresOrder | internal/runtime/dispatch.go:616-660 | the committed outcome and its digest do not depend on order, repetition or blanks of the references |
| RuntimeResult.AttemptRefs | internal/application/runtime_worker.go:376-423 | a committed outcome has one result reference, that of the payload stored, or none when nothing was stored or the business check failed |
| RuntimeResult.CommitsExactly | internal/application/runtime_worker.go:370-434 | exactly when a first finalization commits, and with which state, job run and digest |
| RuntimeResult.SameDigestSameOutcome | internal/runtime/dispatch.go:647-659 | computed result digests agree only if state, references, summary, error code and output digest do |
| RuntimeResult.Worker.Persist | internal/application/runtime_worker.go:539-556 | stores a valid payload of bounded size under its content key, else nothing |
| RuntimeResult.Worker.Dispatch | internal/persistence/memory/runtime_dispatch.go:290-345 | commits an open attempt's outcome, accepts a terminal one's again exactly when state and result digest agree, and may still fail after the commit |
| RuntimeResult.Worker.Finalize | internal/application/runtime_worker.go:370-434 | the net effect of body and deferred deletion on every way out, for open and terminal attempts, and exactly when it reports an error after its commit |
| RuntimeResult.Worker.Consume | internal/application/runtime_business_results.go:84-149 | delivers exactly to an event that names a success with the stored job run and digest whose only result reference names a good blob; a conflict is exactly a difference in state, job run or digest |
| RuntimeResult.AgreedCases | internal/application/runtime_business_results.go:103-149 | what an agreeing event gives, by the references stored and the blob they name |
| RuntimeResultRuns.UninterruptedIsFinalized | internal/application/runtime_worker.go:370-434 | the three acts of the protocol, run without interruption, are the worker's finalization |
| RuntimeResultRuns.NextKeepsInv | internal/application/runtime_worker.go:384-434 | every act of every finalization keeps: each blob and each committed outcome comes from something that was sent |
| RuntimeResultRuns.SuccessIsAccountedFor | internal/application/runtime_business_results.go:84-163 | over every schedule of finalizations, retries and crashes the event of a success gives no result, a payload of the digest committed and sent under its id, a bad reference exactly when the id cannot be read back, or a missing result exactly when its key was deleted last; ambiguous and mismatched results are unreachable |
| RuntimeResultRuns.DeliveredWasSent | internal/application/runtime_business_results.go:84-149 | in every reached state an event that names another job run or digest is refused, and what any event is given was sent for its attempt under its job run |
| RuntimeResultRuns.SuccessIsValidated | internal/application/runtime_worker.go:411-423 | an outcome is committed as a success exactly when it was sent as one and passed the business check, or named no state |
| RuntimeResultRuns.KeyIsThere | internal/application/runtime_worker.go:384-395 | after every schedule a key is stored exactly when it was sent and not deleted last |
| RuntimeResultRuns.DeletionHasACause | internal/application/runtime_worker.go:384-434 | behind every deleted key stands a finalization of that key whose dispatch did not keep it, on a store that can delete |
| RuntimeResultRuns.ReadableIdsAreServed | internal/application/runtime_business_results.go:84-163 | over every schedule whose ids can be read back the event finds no result, a sent payload, or misses one that a finalization of the same attempt dropped |
| RuntimeResultRuns.CommittedResultIsDelivered | internal/runtime/dispatch.go:731-739 | through everything finalized later under other ids a first success gives its payload unchanged exactly when its id can be read back and the refresh after the commit succeeded or the store cannot delete; else a readable id finds nothing |
| RuntimeResultRuns.AttemptsAreFinal | internal/persistence/memory/runtime_dispatch.go:304-310 | a committed outcome is never replaced, whatever is scheduled later |
| RuntimeResultRuns.BlankIdIsUnreadable | internal/application/runtime_worker.go:525-555 | a success sent under an id with a leading blank is committed, and its event refused after every later schedule |
| RuntimeResultRuns.RivalDeletesTheResult | internal/application/runtime_worker.go:384-395 | in every reached state, a second finalization of the attempt leaves the result missing exactly when it sent the same id and a payload of the same digest, loses, and the store can delete |
| RuntimeResultRuns.RetryDecides | internal/runtime/dispatch.go:661-679 | a retry with the same id and payload digest leaves the result delivered unless it loses and the store can delete |
| RuntimeResultRuns.IdenticalRetryRestores | internal/runtime/dispatch.go:661-679 | repeating a committed finalization, references in any order, delivers its payload even if it had been lost |
| RuntimeResultRuns.RefreshErrorLosesTheResult | internal/runtime/dispatch.go:731-739 | a run with an ordinary id in which the refresh fails after the commit: the success stays, its result is missing |
| RuntimeResultRuns.UnstatedIsNotValidated | internal/runtime/dispatch.go:624-626 | a run in which a worker names no state: its payload, which the business check would refuse, is committed as a success and delivered |
| RuntimeResultRuns.TwoDigestsLoseTheResult | internal/persistence/memory/runtime_dispatch.go:304-310 | a run in which one payload is sent with two result digests: the refused one deletes the committed one's result |
| ReviewGrants.RequireInternalApproval | internal/application/review_export.go:325-336 | true exactly when an internal approval of the same revision and hash exists |
| ReviewGrants.NextKeepsInv | internal/application/review_export.go:89-362 | every read and every commit of every command keeps the invariant |
| ReviewGrants.OneClientDecision | internal/application/review_export.go:247-323 | over every interleaving each revision gets at most one client decision and at most one snapshot |
| ReviewGrants.MintedForTheCurrentRevision | internal/persistence/memory/submissions.go:272-303 | when a snapshot is minted its revision is current and in client review and the stored grant is still open, although all was read earlier |
| ReviewRuns.SnapshotsAreBacked | internal/application/review_export.go:89-323 | behind every snapshot stand the right code, a grant never revoked and decided before expiry, and an internal approval, all bound to its revision's hash |
| ReviewRuns.VerifiedByCode | internal/application/review_export.go:231-245 | in every run a grant is verified only if the right code was given for it |
| ReviewRuns.CodeDecides | internal/persistence/memory/content.go:323-335 | the right code verifies an open grant before it expires; a wrong one changes nothing |
| ReviewRuns.OpenGrantsAreCurrent | internal/persistence/memory/submissions.go:60-270 | in every run an open grant is on the current revision, in client review unless another client's decision closed it |
| ReviewRuns.ClosedGrantsStayClosed | internal/persistence/memory/submissions.go:272-303 | a revoked grant never decides and a decided one never changes |
| ReviewRuns.RulingAlone | internal/application/submissions.go:233-380 | which internal rulings are possible and what each makes of status, approvals and open grants |
| ReviewRuns.GrantAlone | internal/application/review_export.go:89-136 | a grant is issued, for a week, exactly on a current revision that passed internal review |
| ReviewRuns.DecisionAlone | internal/application/review_export.go:247-323 | the client decides exactly with a verified, open, unexpired grant on the current revision in client review, and what that changes |
| ReviewRuns.RevisionAndRevocation | internal/persistence/memory/submissions.go:60-90 | a new revision revokes the open grants of the others; a revocation closes an open grant only |
| ReviewRuns.OpenGrantCanDecide | internal/application/review_export.go:247-323 | in every reached state such a grant lets its holder decide |
| Sop.Lint | internal/application/orchestration.go:1041-1113 | names exactly what is wrong or doubtful, with its place; no error exactly when the content is publishable |
| Sop.LintsMean | internal/application/orchestration.go:1041-1113 | what publishable content is, stage by stage and gate by gate |
| Sop.LintStage | internal/application/orchestration.go:1080-1094 | no error exactly when all inputs are earlier stages and an execution mode is given |
| Sop.LintGate | internal/application/orchestration.go:1095-1110 | errors exactly on misplaced blocking, warnings exactly on unused gates or missing roles |
| SopRollback.Service.CreateDraft | internal/application/orchestration.go:958-998 | succeeds exactly when the source, or for 0 the newest published version, exists and is well formed, with a copy numbered above all others |
| SopRollback.SourceMeans | internal/application/orchestration.go:958-985 | the source is the version asked for, or for 0 the highest published one |
| SopRollback.Service.Publish | internal/application/orchestration.go:1000-1017 | publishes exactly what lints; a failed lint changes nothing |
| SopRollback.Service.PreviousVersion | internal/application/orchestration.go:879-886 | the current version, or the highest published one |
| SopRollback.Service.MoveEnvironments | internal/application/orchestration.go:903-918 | moves exactly the defaults at the previous version and counts them; a failed save leaves each moved or as it was |
| SopRollback.Service.MoveBindings | internal/application/orchestration.go:919-936 | the same for project bindings, with the new digest |
| SopRollback.Service.Rollback | internal/application/orchestration.go:864-939 | success is exactly the rolled-back catalogue with exact counts; refusal changes nothing; a failed lint leaves a draft |
| SopRollback.MayRollBackMeans | internal/application/orchestration.go:864-900 | to which versions a rollback is possible |
| SopRollback.RolledBackMeans | internal/application/orchestration.go:864-939 | the catalogue after a rollback: the new version, its number, digest and content, and every pin |
| SopRollback.RollbackAddsOnTop | internal/application/orchestration.go:864-998 | the new version is above all others with the target's content, and every earlier version is found unchanged |
| SopRollback.RollbackIsReversible | internal/application/orchestration.go:864-939 | rolling back and back again returns every environment and binding to its content |
| SopDiff.DiffVersions | internal/application/orchestration.go:552-630 | the list of differing paths in order of fields, stage ids and gate ids; same exactly when the compared parts agree |
| SopDiff.ApplyRebuilds | internal/application/orchestration.go:552-630 | applying the changes to the earlier version gives the later one |
| SopDiff.EmptyIffSame | internal/application/orchestration.go:628-629 | no change exactly when fields, stage map and gate map agree |
| SopDiff.ChangeListIsDiff | internal/application/orchestration.go:552-630 | no path occurs twice, exactly the differing paths occur, with their true values |
| SopDiff.FieldsReported | internal/application/orchestration.go:562-565 | each of the four fields is reported under its name exactly when it differs |
| SopDiff.StagesAndGatesReported | internal/application/orchestration.go:566-627 | the last stage and gate of an id on either side are reported under their path exactly when they differ |
| SopDiff.DiffIsSymmetric | internal/application/orchestration.go:552-630 | comparing the other way round visits the same paths and swaps before and after of every change |
| PerformanceImport.Importer.CheckRows | internal/application/performance_results.go:140-219 | no error exactly when every row is valid, no two currencies are mixed and no key repeats |
| PerformanceImport.Importer.Import | internal/application/performance_results.go:109-292 | accepts exactly acceptable batches; rejected and dry-run batches write nothing, the others everything |
| PerformanceImport.AcceptableMeans | internal/application/performance_results.go:109-258 | what an acceptable batch is, row by row and pair by pair |
| PerformanceImport.AcceptedMeans | internal/application/performance_results.go:188-292 | what an accepted batch becomes, field by field |
| PerformanceImport.CommittedMeans | internal/persistence/memory/content.go:499-517 | the store writes all or nothing, exactly by batch id and stored keys |
| PerformanceImport.DryRunPredicts | internal/application/performance_results.go:271-292 | on any state a dry run succeeds exactly when the import would write, with the same rows apart from ids |
| PerformanceImport.CommitKeeps | internal/persistence/memory/content.go:499-517 | the store's commit keeps keys distinct, currencies unmixed and batches complete |
| PerformanceImport.ImportsStayDistinct | internal/application/performance_results.go:109-292 | over any interleaving of imports, stored keys are pairwise distinct in a project, each row is in its batch's currency or none, and batches are complete |
| DaemonSelection.CurrentInstances | internal/application/operations_executors.go:246-263 | one instance for each device present, maximal in liveness, last report, epoch and sequence, the first of equals |
| DaemonSelection.ChoiceIsOrderFree | internal/application/operations_executors.go:246-263 | the rank of the chosen instance is the same for every permutation of the reports |

## Left out

- Role checks, audit records, messages, error texts and timestamps kept only for display.
- HTTP, command line, desktop and web front ends, and worker loops: input and output only.
- Provider, channel and agent adapters, blob streaming, hashing and JSON decoding: answers of the environment or abstract functions.
- Trimming and case folding of fields, except where result references depend on it.
- Field validators: one flag each (well-formed content, valid row fields, valid source metadata).
- The media job and cleanup protocols model one row each, and client review one submission; rows do not interact.
- The attempt table of a media job is written without a version guard; no claim is made about it beyond its length.
- Cleanup backoff is computed but not claimed to be honoured under races, since a manual retry does not look at it.
- The runtime effect machine behind managed media jobs: only that its registration may succeed or fail.
- Impact without a focus, and the severity and advice attached to impact items.
- Connector source uploads and the invalidation of a source after its last record is deleted; only the mapping is modelled.
- Delivery counters and the retry delay of the business result consumer.
- The text from which an observation's deduplication key is hashed: a key is given with its row.
- Submissions other than content batches, comments and review cycles.
- KnowledgeImport.HistoryKeepsPrefix: assumes package digests do not collide; without that only the digests of stored objects agree. Deliveries of one run follow each other; ConcurrentDeliveriesMix says what happens otherwise.
- Knowledge.RunsAreGoverned: commands follow each other; LateApproval says what an overtaken approval does.
- BatchBudget.BudgetsHoldOverRuns: runs are of batches within one calendar month, checked and created one after the other; jobs created one by one are checked against no budget.
- RuntimeResultRuns.SuccessIsAccountedFor: ids are free of slashes, and the event is the one the finalization recorded; the owner, fence and lease checks of a finalization, and the refresh of its job, are answers of the environment.
