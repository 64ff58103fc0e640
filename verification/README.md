# Verified models of the Vector Lake store, schedulers and graph builders

The store keeps one SQLite database as the authority. Derived copies, leased workers and graph
builders around it rely on protocols and algorithms whose safety arguments are otherwise only in
comments. These modules model that logic and prove it, for every input and every run.

| modules | subject |
|---|---|
| `MirrorStore`, `MirrorProtocol` | the FTS table and its native mirror: writers, rebuilds, clears, seeding, replay, late acknowledgements, crashes |
| `OutboxStore`, `OutboxRuns`, `OutboxRetries` | the mutation outbox: revisions, supersession, leases, fenced completion, retries |
| `JobStore`, `JobRuns`, `JobRetries`, `RecompileScope` | ingest jobs and controlled recompiles: dispatch claims, leases, retry caps, the same-content budget, what a pass hands off |
| `EdgePruner`, `EdgeBuilder`, `EdgeUpdates`, `EdgeUpdateFailures` | page-graph edges: scoring, the inverted-index build, pruning, one-page updates and where they differ from a rebuild |
| `ClientManager`, `RateLimiter`, `Batching` | the embedding scheduler: client generations, the rolling window, greedy batches |
| `Communities`, `Chunks`, `Frontmatter`, `MergeCandidates` | stable community ids, overlapping chunks with line numbers, merge candidates |
| `Ordering`, `Sequences` | string order, sorting, concatenation |

Conventions. A method is proved against a function of the old state; what that function means is proved
apart from it, in the store's own terms (who is claimable when, who is left out and why, what a score
adds up to). Each SQL transaction and each lock-protected section is one atomic step. The store
classes hold the tables in fields; a method's contract gives the new state as a function of the old
one, and the run modules prove what those functions preserve over all interleavings. Time is an
integer (real seconds in the limiter) that never goes back between steps; where the source reads its
clock before its transaction, a claim's or a reservation's time is any earlier one; tokens, generations'
identities and minted ids are fresh values; weights are reals. Text handling that depends on
libraries (link resolution, name normalisation, tokens, byte lengths, predicate weights) enters as
function parameters, so results hold for every choice of them. Posting lists and dictionaries that
the source only iterates are sets and maps visited in arbitrary order.

Where code and documentation differ, the code is modelled. `dedupe_and_prune_edges` says that a
rebuild and an incremental update converge on the same set. `UpdateMeetsRebuildIff` says exactly when
they do; `PrunedPairsAreForgotten` and `WeightsGoStale` are two families of runs in which they do not.
The limiter samples its clock before the transaction, so its window can overflow: `LimitsHoldIff` says
for which sample times, `LateCommitBreaksTheWindow` gives some. An FTS write without a content hash can
leave a stale position (`WriteKeepsLedgerIff`).

## Model

| member | source | states |
|---|---|---|
| `MirrorProtocol.ReadyMeansMirrored` | vector_lake/db_store.py:2128-2404 | in every reachable interleaving of writers, rebuilds, clears, seeding, replay, late acknowledgements, failures and crashes, phase `ready` means that no intent is pending and that a native index of the recorded incarnation holds exactly the documents of the FTS table |
| `MirrorProtocol.SearchReadsOneState` | vector_lake/db_store.py:3083-3107 | equal read tokens before and after a native search mean that no FTS write fell in between and that the native index held exactly that FTS table whenever it was read |
| `MirrorProtocol.RunIsMonotone` | vector_lake/db_store.py:2128-2155 | revisions and incarnations only grow along a run, a revision pins the FTS table, and `ready` is left only through a new revision: no ABA of tokens |
| `MirrorProtocol.StepKeeps` | vector_lake/db_store.py:2128-2404 | every step keeps the invariant: a key out of step is queued or its row is still to be seeded into an empty native index; a queued upsert names the current row, a queued delete an absent key; receipts never outrun the queue |
| `MirrorProtocol.RunKeeps` | vector_lake/db_store.py:2128-2404 | the invariant holds in every state of every run |
| `MirrorProtocol.InitEstablishes` | vector_lake/db_store.py:1837-1882 | a store opened over an FTS table with one row per key, positive row numbers and accurate recorded positions starts inside the invariant |
| `MirrorProtocol.CommitKeeps` | vector_lake/tantivy_index.py:400-470 | committing a batch admitted under the lock sets every admitted key to its admitted payload, leaves every other key as it was, and keeps the invariant |
| `MirrorProtocol.AckKeeps` | vector_lake/db_store.py:2372-2381 | an acknowledgement, however late, removes only intents whose exact (key, epoch, generation) was committed, and then the index the store validated holds the key's document; every other intent stays, and so does the invariant |
| `MirrorProtocol.SeedKeeps` | vector_lake/db_store.py:2267-2293 | one seed page queues every row it passes under that row's position; rows beyond it stay covered by the cursor until seeding ends; the invariant is kept |
| `MirrorProtocol.ResetKeeps` | vector_lake/db_store.py:2144-2155 | a rebuild or a clear of the FTS table drops the queue, leaves every older receipt in a past epoch, lets no older clear be acknowledged, and keeps the invariant |
| `MirrorProtocol.AckClearKeeps` | vector_lake/db_store.py:2240-2250 | only the clear of the current epoch opens seeding, and then a native index of the recorded incarnation is empty; the invariant is kept |
| `MirrorProtocol.AdmitOnlyCurrent` | vector_lake/db_store.py:2347-2370 | every admitted intent is still the queued one of its key, due and with attempts left; exactly its attempt is counted and nothing else in the queue changes |
| `MirrorProtocol.TriageReadsCurrentRows` | vector_lake/db_store.py:2307-2345 | every payload that selection hands out is the current document of its key |
| `MirrorProtocol.PointDeleteIsExact` | vector_lake/db_store.py:2516-2531 | while the position ledger is accurate the point delete removes exactly the rows of the key |
| `MirrorProtocol.WriteKeepsLedgerIff` | vector_lake/db_store.py:2468-2504 | an upsert keeps keys unique and recorded positions accurate if and only if `replace_existing=False` is truthful and a content hash is given (or no stale position is left) |
| `MirrorProtocol.UnhashedRewriteOutlivesDelete` | vector_lake/db_store.py:2468-2531 | without that condition: an unhashed rewrite followed by a delete leaves the row in FTS while the mirror is told that it is gone |
| `MirrorStore.MirrorStore.UpsertSearchIndex` | vector_lake/db_store.py:2455-2506 | the whole new state: the key's old rows go, the row gets the next position, the ledger follows when hashed, one intent at the new revision replaces any earlier one, and `ready` falls back to `replay` |
| `MirrorStore.MirrorStore.DeleteSearchIndex` | vector_lake/db_store.py:2714-2729 | row and ledger entry go and a delete intent is queued at a new revision |
| `MirrorStore.MirrorStore.ClearSearchIndex` | vector_lake/db_store.py:2508-2513 | both tables are emptied and the epoch is reset |
| `MirrorStore.MirrorStore.RequestRebuild` | vector_lake/db_store.py:2219-2227 | a new epoch in phase `needs_clear`, or the duplicate-key error and no change |
| `MirrorStore.MirrorStore.AdmitClear` | vector_lake/db_store.py:2229-2238 | a clear is admitted, and its attempt counted, only for the current epoch while attempts and delay allow; bad limits are an error without effect |
| `MirrorStore.MirrorStore.AckClear` | vector_lake/db_store.py:2240-2250 | an admitted clear of the current epoch moves to `seeding` under the new incarnation; a malformed incarnation is an error without effect |
| `MirrorStore.MirrorStore.FailClear` | vector_lake/db_store.py:2257-2265 | a failed clear of the current epoch is delayed; nothing else changes |
| `MirrorStore.MirrorStore.Seed` | vector_lake/db_store.py:2267-2293 | one bounded page of positions becomes intents where none is queued, the cursor moves, and the phase becomes `replay` exactly when the range is finished; wrong epoch or phase reports a conflict, duplicates an error |
| `MirrorStore.MirrorStore.SelectPage` | vector_lake/db_store.py:2277-2284 | the first `limit` positions of the seed range, ascending |
| `MirrorStore.MirrorStore.Select` | vector_lake/db_store.py:2295-2345 | of the due intents it inspects the oldest, and leaves one out only when `max_rows` of no larger generation are inspected; each inspected one is rejected (no row, or too large), selected with its row, or crowded out by older selected ones; the bytes are those selected and within the budget |
| `MirrorStore.MirrorStore.Candidates` | vector_lake/db_store.py:2307-2318 | generations do not decrease along the list, keys ascend within one, and a due intent is left out only by a full list of earlier ones |
| `MirrorStore.SelectionSettles` | vector_lake/db_store.py:2319-2345 | a selection settles every inspected intent and lists no other: rejected, selected, or left for later because older selected intents leave no room for it |
| `MirrorStore.OldestIsSelected` | vector_lake/db_store.py:2307-2345 | no starvation: the oldest due intent is selected whenever its row exists and fits the budget on its own, whatever else is queued |
| `MirrorStore.WriteIsDueAtOnce` | vector_lake/db_store.py:2128-2141 | a write or delete replaces its key's pending intent by one that names the row as it now is, at the new revision, with no attempt spent and no delay; other intents stay |
| `MirrorStore.FailureWaits` | vector_lake/db_store.py:2383-2394 | a reported intent is eligible again exactly from the end of the delay on, if attempts are left; others are untouched |
| `MirrorStore.RejectedIsSpent` | vector_lake/db_store.py:2358-2361 | exactly the named intents are spent for their limit, until a write replaces them |
| `MirrorStore.ClearIsRetried` | vector_lake/db_store.py:2229-2265 | the clear of a new epoch is admitted at once, at most as often as the limit says, and after a failure only from the end of the delay on |
| `MirrorStore.SeedProgresses` | vector_lake/db_store.py:2277-2293 | every page either ends seeding, with every row of the range queued, or is full and moves the cursor on below the end of the range |
| `MirrorStore.MirrorStore.Admit` | vector_lake/db_store.py:2347-2370 | rejected intents are spent, current ones are counted and returned, stale ones dropped; oversized batches are an error |
| `MirrorStore.MirrorStore.Ack` | vector_lake/db_store.py:2372-2381 | exactly the intents whose key, epoch and generation are named disappear, and the result counts them |
| `MirrorStore.MirrorStore.Fail` | vector_lake/db_store.py:2383-2394 | exactly the named intents are delayed, and the result counts the statements that found theirs |
| `MirrorStore.MirrorStore.MarkReady` | vector_lake/db_store.py:2396-2405 | `ready` only from `replay`, with the current epoch and incarnation, an empty queue and unique keys |
| `OutboxRuns.CompletedRevisionsIncrease` | vector_lake/db_store.py:2957-3068 | over every run, binders naming no completed row, the completed revisions of a page strictly increase, the newest intent of a page is never superseded, and a key names one row |
| `OutboxRuns.CompletionNamesNewest` | vector_lake/db_store.py:3036-3049 | every completion names the page's newest intent at that moment |
| `OutboxRuns.CompletionIsNew` | vector_lake/db_store.py:3036-3049 | a completion that validates carries a larger revision than every completion of that page before it |
| `OutboxRuns.OneValidClaim` | vector_lake/db_store.py:2933-2955 | of all claims ever issued for a row at most one passes validation |
| `OutboxRuns.ValidClaimIsNotStolen` | vector_lake/db_store.py:3010-3034 | a row under a valid claim is in nobody's next batch, however early that worker read its clock |
| `OutboxRuns.LostClaimStaysLost` | vector_lake/db_store.py:2933-2955 | a claim that holds its row unexpired now has done so ever since it was issued: once expired, reclaimed, superseded, rebound or reported it never validates again |
| `OutboxRuns.BindKeepsDoneIff` | vector_lake/db_store.py:2994-3005 | what a binder owes: the records of completed revisions stay true if and only if no bound row is completed |
| `OutboxRuns.BatchReturnsOpenRows` | vector_lake/mutation_coordinator.py:315-330 | the one caller meets that: none of the rows its batch of enqueues returns is completed when it binds them in the same transaction |
| `OutboxRuns.RunRecords` | vector_lake/db_store.py:3036-3049 | a row is completed only by a recorded completion under a valid claim |
| `OutboxRuns.StepKeeps` | vector_lake/db_store.py:2957-3068 | every outbox step keeps the invariant on revisions, keys, issued claims and completions |
| `OutboxStore.OutboxStore.EnqueueMutation` | vector_lake/db_store.py:2957-2992 | an idempotent re-enqueue returns the active newest row, a terminal or older one is revived under the next revision, a new one is inserted, and live older rows of the page are superseded; conflicts are errors without effect |
| `OutboxStore.OutboxStore.SupersedeOlder` | vector_lake/db_store.py:2984-2991 | exactly the live older rows of the page are superseded and lose their leases |
| `OutboxStore.OutboxStore.BindMutationVersions` | vector_lake/db_store.py:2994-3005 | each row is bound to its page's version and returned to `pending`, a running lease is fenced off by a new generation; an unknown id, or a delete of a page that still has a version, rolls everything back |
| `OutboxStore.OutboxStore.ClaimBatch` | vector_lake/db_store.py:3018-3027 | the first claimable rows by id: newest of their page, due or with an expired lease |
| `OutboxStore.OutboxStore.ClaimMutationOutbox` | vector_lake/db_store.py:3014-3034 | exactly such a batch is leased, each row under a fresh token and the next generation |
| `OutboxStore.OutboxStore.ValidateMutationClaim` | vector_lake/db_store.py:2933-2955 | true exactly when the claim is of the newest intent, still the row's own lease, and unexpired |
| `OutboxStore.OutboxStore.CompleteMutationOutbox` | vector_lake/db_store.py:3036-3049 | completes the row under a valid claim, otherwise an error without effect |
| `OutboxStore.OutboxStore.FailMutationOutbox` | vector_lake/db_store.py:3051-3068 | backs the row off exponentially below the attempt limit, or fails it at the limit, only under a valid claim; what that means for later claims is `OutboxRetries.ReportDecidesRetry` |
| `OutboxRetries.ReportDecidesRetry` | vector_lake/db_store.py:3051-3068 | after an accepted report a row with fewer attempts than the limit (at least one) can be claimed from now plus the backoff times two to the attempts minus one on, and at no time before; at the limit it can be claimed at no time; no claim on it stays valid and no other row changes |
| `OutboxRetries.FailedWaitsForRevival` | vector_lake/db_store.py:2980-3034 | over every run a failed or superseded row stays so, and out of every claim, until it is enqueued or bound again |
| `OutboxRetries.ReclaimedIffNoValidClaim` | vector_lake/db_store.py:2933-3034 | a leased newest row can be claimed again exactly when no claim on it is valid any more |
| `OutboxRetries.ClaimsAreValid` | vector_lake/db_store.py:3010-3034 | every claim of a batch is valid and has cost its row one attempt; a claimable row is left out only by a full batch of smaller ids; no other row changes |
| `OutboxRetries.EnqueueDelivers` | vector_lake/db_store.py:2957-2992 | the returned row is its page's newest and carries the request; unless it was active already it can be claimed from now on, and nothing else of the page is live |
| `OutboxRetries.EnqueueRefusesIff` | vector_lake/db_store.py:2959-2979 | exactly when an enqueue fails: empty file name, a key of another page or kind, or another payload while the keyed row is the active newest one; a failure changes nothing |
| `OutboxRetries.RepeatedEnqueueIsNoOp` | vector_lake/db_store.py:2970-2979 | repeating a keyed request finds the row it made and changes nothing |
| `OutboxRetries.BindSucceedsIff` | vector_lake/db_store.py:2994-3005 | a binding succeeds if and only if every row exists and none is a delete whose page still has a version |
| `OutboxRetries.BindRestarts` | vector_lake/db_store.py:2994-3005 | a bound row records its page's version and starts again as pending without attempts or lease; other rows are untouched |
| `JobRuns.RecompileBudgetHolds` | vector_lake/controlled_recompile.py:415-487 | over all request identities the attempts spent on one exact content, plus those at stake in handed-off jobs, stay within `MAX_INGEST_ATTEMPTS`, and at most one recompile of a file is handed off |
| `JobRuns.OneLiveRowPerKey` | vector_lake/db_store.py:3281-3368 | whatever the supersede flags, at most one live row ever carries an original idempotency key |
| `JobRuns.RetriesStayWithinCap` | vector_lake/db_store.py:3821-3883 | no job spends more than the cap, and a queued or in-flight job still has an attempt left |
| `JobRuns.FinishedIsFinal` | vector_lake/db_store.py:3589-3617 | a finalized, completed or superseded job never changes status, attempts or payload again |
| `JobRuns.LostLeaseStaysLost` | vector_lake/db_store.py:3589-3617 | a lease that can act now could act at every moment since it was issued: expired and reclaimed leases never finalize, fail or release |
| `JobRuns.OneValidLease` | vector_lake/db_store.py:3469-3516 | of all leases issued for a job at most one is valid |
| `JobRuns.LostDispatchStaysLost` | vector_lake/db_store.py:3370-3466 | the token-less dispatch claim has no ABA: a claim that was lost never matches again, because of the lease and the retry delay, even when dispatchers read their clocks long before their transactions |
| `JobRuns.RedispatchEndsOldClaims` | vector_lake/db_store.py:3370-3397 | a new dispatch makes every earlier claim on the job worthless, under the same stale clocks |
| `JobRuns.ScopeCarries` | vector_lake/controlled_recompile.py:358-487 | a whole pass of the dispatcher over a scope keeps every job invariant, the budget and the one-per-file rule |
| `JobRuns.HandOffKeepsBudget` | vector_lake/controlled_recompile.py:415-487 | handing off an admitted source keeps the same-content budget |
| `JobRuns.StepKeeps` | vector_lake/db_store.py:3281-3883 | every fenced job step keeps the invariant, and rows evolve only forwards |
| `JobStore.HolderIsUnique` | vector_lake/db_store.py:3295-3310 | under unique keys the row found for a key is the only one |
| `JobStore.JobStore.EnqueueJob` | vector_lake/db_store.py:3281-3368 | returns the holder of the key unless it may be replaced; otherwise retires it, clears its key and inserts one fresh row |
| `JobStore.JobStore.ClaimPendingJobs` | vector_lake/db_store.py:3370-3397 | the oldest due rows, or expired dispatches, become dispatched under a lease, and the claims that describe them come back oldest first |
| `JobStore.JobStore.DispatchBatch` | vector_lake/db_store.py:3375-3388 | the batch lists only dispatchable rows, in the order of creation, and leaves out none older than one it takes |
| `JobStore.JobStore.MarkJobAwaitingSubagent` | vector_lake/db_store.py:3442-3466 | hands the job over only while the dispatch claim still matches, otherwise an error without effect |
| `JobStore.JobStore.LeaseBatch` | vector_lake/db_store.py:3480-3497 | the rows a subagent batch takes: leasable, oldest first, none skipped |
| `JobStore.JobStore.ClaimSubagentJobs` | vector_lake/db_store.py:3469-3516 | each row of the batch gets a fresh token and the next generation, and the leases returned are the ones written |
| `JobStore.JobStore.FinalizeIngestJob` | vector_lake/db_store.py:3589-3617 | finalizes once, under the current unexpired lease, otherwise an error without effect |
| `JobStore.JobStore.ReleaseJobForRetry` | vector_lake/db_store.py:3821-3855 | returns the job to retry after the delay without spending an attempt, only under the current fence and a delay of 1 to 3600 seconds; otherwise an error without effect |
| `JobStore.JobStore.UpdateJobFailed` | vector_lake/db_store.py:3857-3883 | a failure under the current fence spends one attempt and delays the next exponentially, otherwise an error without effect |
| `JobStore.JobStore.FailDispatchClaim` | vector_lake/db_store.py:3432-3440 | fails a dispatch only while its claim matches |
| `JobStore.JobStore.ExpireStaleSubagentJobs` | vector_lake/db_store.py:3619-3632 | exactly the jobs that wait for a subagent longer than the age limit fail and spend an attempt, and the result counts them; no other row changes |
| `JobStore.JobStore.TotalSpent` | vector_lake/controlled_recompile.py:430-447 | the attempts spent on one exact content over all recompile jobs |
| `JobStore.JobStore.Admit` | vector_lake/controlled_recompile.py:402-460 | the gates of a source: approved request, accepted marker, no active job elsewhere, budget left, reusable row |
| `JobStore.JobStore.DispatchRecompileScope` | vector_lake/controlled_recompile.py:358-487 | one pass over the frozen scope, rolled back entirely by a refused source; whom it hands off and whom it leaves out is `RecompileScope.ScopeHandsOff` |
| `RecompileScope.ScopeHandsOff` | vector_lake/controlled_recompile.py:374-487 | a successful pass hands off at most `batch` sources, in scope order, each accepted, listed once and not deferred, as distinct awaiting jobs with their file and hash: new ones, or the request's own failed ones, due and with their attempts kept. Every other row is untouched. A source that is neither handed off nor deferred has a job of the request that cannot be retried now, or no attempt left, or comes after a full batch |
| `RecompileScope.ScopeFails` | vector_lake/controlled_recompile.py:365-448 | exactly when a pass fails for its batch size or a rebound request; otherwise one of its sources has active work under another key, was not accepted, or is listed twice |
| `RecompileScope.SpentCounts` | vector_lake/controlled_recompile.py:440-444 | the attempts spent on a content are the retries of exactly the recompile jobs of that file and hash |
| `JobRetries.FailureWaits` | vector_lake/db_store.py:3857-3883 | a reported failure spends one attempt, ends every claim, and the job is dispatched again from 5 or 10 seconds on after the first or second attempt and never after the third |
| `JobRetries.DispatchFailureWaits` | vector_lake/db_store.py:3432-3440 | likewise for a failed dispatch |
| `JobRetries.ReleaseWaits` | vector_lake/db_store.py:3821-3855 | a release spends nothing, ends every claim, and the job is dispatched again exactly from the end of the delay on |
| `JobRetries.FinalizedIsOut` | vector_lake/db_store.py:3589-3617 | a finalized job keeps its payload and attempts, ends every claim and is never dispatched or leased again |
| `JobRetries.SweepFailsTheStale` | vector_lake/db_store.py:3619-3632 | exactly the jobs that have waited longer than the age, at least a second, fail and are due at once if an attempt is left |
| `JobRetries.DispatchHolds` | vector_lake/db_store.py:3370-3397 | a dispatched row is held under the claim handed out, and by no other, until the lease ends and not longer |
| `JobRetries.LeaseHolds` | vector_lake/db_store.py:3469-3516 | likewise for a subagent's lease |
| `JobRetries.OldestAreDispatched` | vector_lake/db_store.py:3375-3388 | a due job is left out only by a full batch of jobs that are no younger |
| `JobRetries.OldestAreLeased` | vector_lake/db_store.py:3480-3497 | likewise for subagents |
| `JobRetries.EnqueueFindsOrAdds` | vector_lake/db_store.py:3281-3368 | an enqueue returns the job that keeps the key, unchanged, or adds one that is due at once; the job that gives up its key is never dispatched again |
| `EdgePruner.DedupeAndPrune` | vector_lake/indexer.py:717-769 | the pruned list is the degree-capped greedy selection over the heaviest offer of every unordered pair |
| `EdgePruner.BestWeights` | vector_lake/indexer.py:743-751 | every usable unordered pair at its largest weight, a missing or zero weight counting as 1.0 |
| `EdgePruner.PruningIsCanonical` | vector_lake/indexer.py:743-769 | reordering, duplicating or flipping rows gives the same list |
| `EdgePruner.FlipOffersTheSame` | vector_lake/indexer.py:746-749 | the direction of a row does not matter |
| `EdgePruner.PruningIsNormalised` | vector_lake/indexer.py:717-769 | each pair once, smaller key first, at its largest weight, and no node above the cap |
| `EdgePruner.PruningIsMaximal` | vector_lake/indexer.py:758-768 | a rejected pair has an endpoint filled with kept edges at least as heavy |
| `EdgePruner.PruningIsHalfOptimal` | vector_lake/indexer.py:758-768 | for non-negative weights the kept weight is at least half of that of any other edge set under the same cap |
| `EdgePruner.PruningIsIdempotent` | vector_lake/indexer.py:717-769 | pruning the pruned edges changes nothing |
| `EdgePruner.PruningIffStable` | vector_lake/indexer.py:743-769 | the pruned list is the one stable selection: a list is it if and only if it holds, in rank order, exactly those pairs before which fewer than the cap of listed pairs rank at either end |
| `EdgePruner.KeptIffRoomAtBothEnds` | vector_lake/indexer.py:753-768 | a pair is kept, at its largest weight, if and only if at each end fewer than the cap of kept pairs are heavier, or equally heavy under a lexicographically smaller key |
| `EdgePruner.PruningIsOrdered` | vector_lake/indexer.py:753-768 | the list comes heaviest first, equal weights by key |
| `EdgePruner.OffersIff` | vector_lake/indexer.py:743-751 | what a row counts as: its two different named ends, smaller first, at its weight, no weight and zero counting as 1.0 |
| `EdgeBuilder.CalculateRelevance` | vector_lake/indexer.py:633-714 | the rounded score of the pair; for undamped pages that share n sources and nothing else, 4.0 n plus the affinity of the kinds, rounded |
| `EdgeBuilder.CalculateWeightedEdges` | vector_lake/indexer.py:793-993 | the inverted-index build returns exactly the edges, each once, with the weight of the pairwise scorer; what an edge is and weighs is `EdgeIff`, `ScoreIsTheSum` and `DampingMultiplies` |
| `EdgeBuilder.EdgeIff` | vector_lake/indexer.py:957-993 | an edge joins two pages, smaller key first, that link one to the other, share a source or link to the same page, at their rounded score, if that reaches 1.5 |
| `EdgeBuilder.ScoreIsTheSum` | vector_lake/indexer.py:645-698 | undamped, the score is the sum of the links in both directions, each at the weight of its last triple or of a mention, 4.0 for every shared source, the common neighbours, and the affinity of the smaller key's kind to the other's, 0.5 by default |
| `EdgeBuilder.OneSourceMore` | vector_lake/indexer.py:674-676 | one more shared source adds exactly 4.0 before damping |
| `EdgeBuilder.OneNeighborMore` | vector_lake/indexer.py:678-689 | one more common neighbour adds 1.5 times the inverse logarithm of its number of links, or nothing if it has fewer than two |
| `EdgeBuilder.SourcesAlone` | vector_lake/indexer.py:671-698 | pages that share n sources and nothing else score 4.0 n plus the affinity, and are related exactly if n is positive |
| `EdgeBuilder.SourcesAloneArePublished` | vector_lake/indexer.py:957-993 | and the build publishes such a pair at that weight, rounded, exactly if it reaches 1.5 |
| `EdgeBuilder.LinkWeighs` | vector_lake/indexer.py:836-846 | a link weighs as the relation of the last triple with its target, or as a mention without one |
| `EdgeBuilder.DampingMultiplies` | vector_lake/indexer.py:700-714 | damping multiplies the undamped score by the root of the decays and the root of the alignments, an alignment below ten counting as ten |
| `EdgeBuilder.Round3IsNearest` | vector_lake/indexer.py:714 | rounding gives the nearest thousandth, of two equally near ones the even one |
| `EdgeBuilder.CountShared` | vector_lake/indexer.py:885-944 | counting through source postings gives the size of the intersection for every later key |
| `EdgeBuilder.SumShared` | vector_lake/indexer.py:890-951 | summing through reverse links gives the common-neighbour evidence; postings skipped as zero lose only zero evidence |
| `EdgeBuilder.SkippedPairsLose` | vector_lake/indexer.py:772-790 | a pair without evidence that the skip drops would stay under the threshold after rounding |
| `EdgeBuilder.MultipliersAgree` | vector_lake/indexer.py:707-712 | one root per page, as the build multiplies, equals the scorer's roots of products |
| `EdgeBuilder.Round3IsMonotone` | vector_lake/indexer.py:772-790 | rounding to thousandths, ties to even, keeps order, which the skip relies on |
| `EdgeBuilder.NeighborSumSplits` | vector_lake/indexer.py:681-689 | the neighbour sum does not depend on set iteration order |
| `EdgeBuilder.TripleWeights` | vector_lake/indexer.py:833-848 | typed links override plain mentions, the last triple of a target wins |
| `EdgeUpdates.PageIndex.Rederive` | vector_lake/indexer.py:1344-1421 | after a one-page update the edges incident to the page are exactly those of a full build of the new page set, weights and orientation included, and every other row is kept |
| `EdgeUpdates.PageIndex.UpdateItem` | vector_lake/indexer.py:1344-1433 | the published set is then the pruning of those rows |
| `EdgeUpdates.IncidentEdges` | vector_lake/indexer.py:1366-1421 | scoring the touched page against every other page, smaller key first, finds each incident edge once |
| `EdgeUpdates.UntouchedEvidenceStaysIff` | vector_lake/indexer.py:1344-1421 | a pair away from the touched page keeps its evidence if and only if the page is not its common neighbour or keeps its degree weight |
| `EdgeUpdates.UpdateEqualsRebuildIff` | vector_lake/indexer.py:1344-1421 | before pruning, an up-to-date edge set becomes that of a full build of the new pages if and only if no untouched pair has the page as a common neighbour and changes its published score by the rewrite |
| `EdgeUpdates.PublishedListIsDetermined` | vector_lake/indexer.py:717-769 | two builds of the same pages publish the same list |
| `EdgeUpdates.Rebuild` | vector_lake/indexer.py:793-1001 | a full build publishes the pruning of exactly the edges of the pages |
| `EdgeUpdates.UpdateMeetsRebuildIff` | vector_lake/indexer.py:738-741 | an update, from any published list, publishes what a full build of the new pages would if and only if every row it publishes carries its current score and every current edge it had lost or holds at an old weight is crowded out, at one end, by published rows that rank before it |
| `EdgeUpdates.FreshUpdateMeetsRebuildIff` | vector_lake/indexer.py:738-741 | without outdated pairs, the update of a full build's list meets the next full build if and only if every edge pruned before is still crowded out afterwards |
| `EdgeUpdateFailures.PrunedPairsAreForgotten` | vector_lake/indexer.py:738-741 | so an update need not meet a rebuild: of a hub with one neighbour more than the cap some edge is pruned, and when the page of a published edge is deleted only a rebuild brings it back |
| `EdgeUpdateFailures.ForgetAPair` | vector_lake/indexer.py:1420-1436 | that run of the index, at the cap of fifteen, with the page of the heaviest edge deleted |
| `EdgeUpdateFailures.WeightsGoStale` | vector_lake/indexer.py:681-689 | nor need the weights meet: when the common neighbour of two pages is rewritten with another number of links, the update leaves their edge at the old weight |
| `EdgeUpdateFailures.KeepAStaleWeight` | vector_lake/indexer.py:1344-1436 | that run of the index |
| `ClientManager.GenerationsAreBounded` | vector_lake/embedding_scheduler.py:662-784 | at most two generations, at most one constructing or active; active means current epoch and not stopped; retired means borrowed; closing and failed mean not borrowed |
| `ClientManager.ClosedOnceAndUnborrowed` | vector_lake/embedding_scheduler.py:681-784 | a client is closed at most once, and from the start of the close nobody has it borrowed |
| `ClientManager.InvalidatedClientsAreNotHandedOut` | vector_lake/embedding_scheduler.py:695-760 | no client reserved before an invalidation is handed out after it, not even one still under construction |
| `ClientManager.HandedOutIsCurrent` | vector_lake/embedding_scheduler.py:715-765 | every client handed out belongs to the current epoch of a running manager and to the requested key |
| `ClientManager.ObligationsFindTheirGeneration` | vector_lake/embedding_scheduler.py:681-784 | whoever gives back, closes or removes a client finds its generation, in the right state |
| `ClientManager.ClientsLeaveOnlyWhenClosed` | vector_lake/embedding_scheduler.py:681-694 | a generation leaves the list only by a failed construction or a successful close |
| `ClientManager.ExhaustedRun` | vector_lake/embedding_scheduler.py:681-694 | two clients that failed to close use the manager up for good: no later step hands out a client |
| `ClientManager.StepKeeps` | vector_lake/embedding_scheduler.py:662-784 | every lock-protected section keeps the invariant |
| `ClientManager.Clients.Borrow` | vector_lake/embedding_scheduler.py:719-742 | one pass through the lock: shut down, out of budget, borrowed, to close, reserved or waiting, and the whole new state |
| `ClientManager.BorrowDecides` | vector_lake/embedding_scheduler.py:719-742 | in every reachable state: a client is shared exactly if one is active under the key; otherwise idle ones are closed first; otherwise a second one is reserved exactly if at most one is left, borrowed or not, and none is under construction |
| `ClientManager.BorrowLeaves` | vector_lake/embedding_scheduler.py:719-742 | what the pass leaves: one borrower more, or one reservation under the current epoch, and every other active client retired if borrowed and closing if idle |
| `ClientManager.InvalidationLeaves` | vector_lake/embedding_scheduler.py:695-713 | the epoch moves by one, a shutdown wins over a reopening, every active client gives way, and exactly the idle ones are closed |
| `ClientManager.BuiltIsLentIff` | vector_lake/embedding_scheduler.py:756-766 | a finished construction is lent out if and only if the manager runs, the epoch is still its own and time is left; otherwise it is due for closing |
| `ClientManager.LastBorrowerCloses` | vector_lake/embedding_scheduler.py:774-784 | giving a client back makes it due for closing exactly if it is retired and nobody else has it |
| `ClientManager.Clients.InvalidateAll` | vector_lake/embedding_scheduler.py:695-713 | the epoch moves, active generations retire, unborrowed ones are returned for closing |
| `ClientManager.Clients.RetireGenerations` | vector_lake/embedding_scheduler.py:704-710 | the retiring loop that both share |
| `ClientManager.Clients.Install` | vector_lake/embedding_scheduler.py:756-766 | a finished construction becomes active with one borrower, or closing when invalidated or late |
| `ClientManager.Clients.Release` | vector_lake/embedding_scheduler.py:774-784 | the last borrower of a retired generation must close it |
| `ClientManager.Clients.Remove` | vector_lake/embedding_scheduler.py:681-694 | a generation that was closed, or never constructed, leaves the list and every other one stays |
| `RateLimiter.EveryWindowWithinLimits` | vector_lake/embedding_scheduler.py:341-376 | over every run of durable reservations in which no sample is purged by a second one while a third still falls within sixty seconds of it, every 60-second window holds at most the effective requests and tokens |
| `RateLimiter.LimitsHoldIff` | vector_lake/embedding_scheduler.py:341-376 | sample times in commit order keep every choice of limits and request sizes within the limits if and only if they have no such early purge |
| `RateLimiter.EarlyPurgeOverflows` | vector_lake/embedding_scheduler.py:345-374 | for any early purge, requests and limits that overflow a window |
| `RateLimiter.ForwardClockPurgesNothingEarly` | vector_lake/embedding_scheduler.py:345-354 | samples that do not go back in commit order purge nothing early |
| `RateLimiter.GrantedIffWindowHasRoom` | vector_lake/embedding_scheduler.py:350-374 | with samples in commit order a request is granted if and only if it fits in the 60 seconds that end with it, counting everything ever granted |
| `RateLimiter.TableHoldsTheWindow` | vector_lake/embedding_scheduler.py:351-354 | without an early purge the table holds every grant of a window that a later sample falls in |
| `RateLimiter.TableIsTheWindow` | vector_lake/embedding_scheduler.py:351-354 | with samples in commit order purged rows are out of every window a later reservation can fall in |
| `RateLimiter.LateCommitBreaksTheWindow` | vector_lake/embedding_scheduler.py:345-350 | a transaction that waits a fifth of a second for the lock is enough: samples 20.0, 80.1, 79.9 in commit order overflow a window |
| `RateLimiter.WaitingExpiresARow` | vector_lake/embedding_scheduler.py:375-376 | every sleep outlasts the oldest row in the window |
| `RateLimiter.SleepEndsAfterOldest` | vector_lake/embedding_scheduler.py:371-396 | the sleep ends a twentieth of a second after the oldest row leaves the window and takes at least a hundredth |
| `RateLimiter.LaterCounts` | vector_lake/embedding_scheduler.py:346-354 | a purge keeps exactly the rows later than its cutoff, each as often as before |
| `RateLimiter.WindowCounts` | vector_lake/embedding_scheduler.py:341-376 | the window of the limits holds exactly the reservations after its start and at most sixty seconds later |
| `RateLimiter.Effective` | vector_lake/embedding_scheduler.py:67-73 | the whole part of the configured share of the limit, but at least one and never above the limit |
| `RateLimiter.MinuteRateLimiter.Reserve` | vector_lake/embedding_scheduler.py:320-396 | without a competitor the call ends after at most one pass per row: reserved, too large, or over the deadline, each exactly under its condition and with its exact effect on the table |
| `RateLimiter.MinuteRateLimiter.Attempt` | vector_lake/embedding_scheduler.py:350-376 | one durable transaction: purge, check, insert or report the delay |
| `RateLimiter.MinuteRateLimiter.constructor` | vector_lake/embedding_scheduler.py:320-340 | the limiter starts empty, at the effective limits |
| `Batching.BatchItems` | vector_lake/embedding_scheduler.py:293-311 | order and content are kept, the item cap is obeyed, the token cap is exceeded only by a single item, and no order-preserving split within the caps has fewer batches |
| `Batching.StaysAhead` | vector_lake/embedding_scheduler.py:293-311 | the greedy split stays ahead of every other legal split |
| `Batching.TakesFirstIff` | vector_lake/embedding_scheduler.py:300-303 | a started batch is closed exactly when the next item would make it illegal |
| `Communities.StabilizeCommunityIds` | scripts/community_clustering_daemon.py:137-200 | every community gets one id of its own, an old id exactly its winner (`LargestContenderClaims`, `SurvivesIff`), everyone else an id outside the old partition; change and joined nodes are reported per id (`RatioMeasuresChange`) |
| `Communities.LargestContenderClaims` | scripts/community_clustering_daemon.py:164-188 | the community that gets an old id shares with it at least as many nodes as any other community that prefers it, the smaller name winning a tie, and more with it than with any other old id, the larger id winning a tie |
| `Communities.SurvivesIff` | scripts/community_clustering_daemon.py:164-188 | an old id is given to some community if and only if some community prefers it |
| `Communities.RatioMeasuresChange` | scripts/community_clustering_daemon.py:190-197 | the reported ratio times the size of the old community is the number of nodes that joined or left it, zero exactly if nothing changed, and the nodes reported as added are those that joined |
| `Communities.RenamingKeepsGroups` | scripts/community_clustering_daemon.py:198-200 | the renamed partition groups nodes exactly as the new one |
| `Communities.SurvivorsAreDetermined` | scripts/community_clustering_daemon.py:174-188 | which old ids survive, and where, does not depend on the minted ids |
| `Communities.RerunChangesNothing` | scripts/community_clustering_daemon.py:137-200 | running again on the result, under any run-local naming, changes no id and reports ratio 0 |
| `Communities.ClaimsAreStable` | scripts/community_clustering_daemon.py:172-188 | claims made in rank order give every old id to its winner and to nobody else |
| `Communities.Choose` | scripts/community_clustering_daemon.py:159-171 | a community prefers the old id with the largest overlap, ties to the larger id, empty ids never |
| `Communities.CountOverlaps` | scripts/community_clustering_daemon.py:160-164 | overlaps count the nodes shared with each old community |
| `Communities.MintUnused` | scripts/community_clustering_daemon.py:183-185 | a minted id is neither claimed nor reserved, and the loop ends |
| `Communities.RatioIsSymmetricDifference` | scripts/community_clustering_daemon.py:190-197 | added plus removed is the size of the symmetric difference |
| `Chunks.SplitDocument` | vector_lake/chunk_index.py:42-86 | the chunks, or the first of the four errors that applies |
| `Chunks.ChunksAreTrue` | vector_lake/chunk_index.py:67-80 | every chunk is a non-blank stretch of the page and its line numbers are those of its first and last character |
| `Chunks.NothingIsLost` | vector_lake/chunk_index.py:63-83 | every non-blank character of the body lies in some chunk |
| `Frontmatter.BodyStartMeans` | vector_lake/chunk_index.py:47-53 | the body starts at the top unless the first line, byte order marks aside, is a fence of three dashes; then after the next fence; without one the frontmatter is unclosed |
| `Frontmatter.FrontmatterIsLeftOut` | vector_lake/chunk_index.py:47-53 | no chunk starts before the body: a closed frontmatter is in none |
| `Frontmatter.BodyIsChunked` | vector_lake/chunk_index.py:47-83 | and every character of the body that is not whitespace is in one |
| `Frontmatter.SplitRefusesIff` | vector_lake/chunk_index.py:42-86 | exactly when a page is refused for its sizes, its bytes or an unclosed frontmatter; otherwise only for more than 512 chunks |
| `Frontmatter.HeadingIff` | vector_lake/chunk_index.py:57-58 | a heading line is one to six hashes, whitespace, and at least one more character |
| `Frontmatter.HeadingEndsPath` | vector_lake/chunk_index.py:58-62 | a heading of level h ends a path of at most h headings whose others are the first ones of the path before it; other lines leave the path alone |
| `Chunks.SectionsAreTheBody` | vector_lake/chunk_index.py:56-68 | the sections concatenate to everything after the frontmatter |
| `Chunks.SectionsStartAtHeadings` | vector_lake/chunk_index.py:56-63 | a section starts at the first body line and at every heading, nowhere else |
| `Chunks.WindowsOverlapExactly` | vector_lake/chunk_index.py:70-83 | consecutive windows overlap by exactly `overlap`, all but the last are full, and together they span the section |
| `Chunks.ChunkIdsAreUnique` | vector_lake/chunk_index.py:74-76 | chunks come in page order and no two share section and position |
| `Chunks.BisectCountsNewlines` | vector_lake/chunk_index.py:69-79 | the bisection counts the line ends before a position |
| `Chunks.BisectRight` | vector_lake/chunk_index.py:77-78 | the number of entries up to a bound, by halving |
| `Chunks.FindBoundaries` | vector_lake/chunk_index.py:54-63 | section starts with their heading paths |
| `Chunks.LinesJoin` | vector_lake/chunk_index.py:47 | the lines put together again are the page |
| `Chunks.LinesBefore` | vector_lake/chunk_index.py:47 | the line index equals the number of line ends before the line |
| `MergeCandidates.FindMergeCandidates` | vector_lake/governance_metrics.py:180-317 | one candidate for every qualifying pair of valid entities and nothing else, in rank order, cut at the limit |
| `MergeCandidates.ThreePointsNeedASharedName` | vector_lake/governance_metrics.py:222-226 | a pair scores at least 3 if and only if it shares a non-empty name or a normalized name |
| `MergeCandidates.PointsAddUp` | vector_lake/governance_metrics.py:253-280 | three points for a shared name, three for a shared normalized name, one for two shared tokens, one for the same domain and cluster |
| `MergeCandidates.OfferedIff` | vector_lake/governance_metrics.py:253-300 | a pair is offered if and only if its entities differ, share a name or a normalized one, are both or neither source pages, and are not decided to be distinct |
| `MergeCandidates.HazardIff` | vector_lake/governance_metrics.py:133-151 | the hazards of a pair are exactly the shared names that entities of three different ids answer to |
| `MergeCandidates.ValidIff` | vector_lake/governance_metrics.py:193-210 | exactly merged entities, community pages and system rows are never paired |
| `MergeCandidates.PairsSharing` | vector_lake/governance_metrics.py:227-251 | the inverted index proposes exactly the pairs that share a key, each once as (earlier, later) |
| `MergeCandidates.ProposedPairs` | vector_lake/governance_metrics.py:227-251 | no pair scoring at least 3 is missed |
| `MergeCandidates.SurvivorDependsOnlyOnThePair` | vector_lake/governance_metrics.py:289-297 | survivor, score and hazards are the same whichever side the pair is met from |
| `MergeCandidates.UndatedNeverSurvivesDated` | vector_lake/governance_metrics.py:93-104 | the earlier date survives, an undated entity last |
| `MergeCandidates.SameDateSmallerIdSurvives` | vector_lake/governance_metrics.py:93-104 | between entities of one date the smaller id survives |
| `MergeCandidates.ListingOrderDoesNotMatter` | vector_lake/governance_metrics.py:180-317 | listing the entities in another order offers the same survivors, scores and hazards |
| `MergeCandidates.RankedIsTheBest` | vector_lake/governance_metrics.py:316-317 | more points come first, then the smaller pair key; nothing is lost but what the limit cuts off, and that comes no earlier than what is kept |
| `MergeCandidates.NameOwners` | vector_lake/governance_metrics.py:127-133 | ownership counts distinct entities per name |
| `MergeCandidates.Build` | vector_lake/governance_metrics.py:136-151 | hazards are the shared names that three or more entities claim |
| `Ordering.LexLeMeansPrefixOrBelow` | vector_lake/indexer.py:746-755 | strings, as the source compares them, are ordered by the first character in which they differ, a prefix before its extensions |

## Left out

- SQLite itself (locking, timeouts, savepoints, schema, migrations): transactions are atomic steps. Ledger entries without a recorded position, as old schemas left them, are not modelled.
- The native index is a map of documents with an incarnation number; its analyzers, segment files, process ownership and aliases field are not modelled. It can be lost or replaced at any step, which is why `ReadyMeansMirrored` asks for the recorded incarnation.
- FTS row numbers are the largest one plus one, so they may be reused, as in the store.
- Clocks: ISO strings and julian days are integers of one unit. Error texts, attempt histories and the mirror's `last_error` are dropped.
- Hashes and idempotency keys are injective values; lease tokens are counters.
- Unfenced administrative calls (`update_job_status` without a claim, `mark_job_awaiting_subagent` without a claim, `repair_idempotency_keys`), retention and the read-only listings are outside the job invariant. `reset_jobs.py` is one of the job steps.
- JobStore.JobStore.Admit: the checks of the source file, its ledger row and its marker are one Boolean answer per source, because they read files.
- JobStore.JobStore.DispatchRecompileScope: the deferred files and the write budget of a hand-off are inputs; registering deferrals is not a step.
- `requeue_legacy_ingest_jobs` (`vector_lake/tool_ingest.py:1443-1504`): a one-time migration that puts awaiting jobs of an old prompt contract back with `retries = 0`; it would reset the attempts that the job invariant counts.
- Controlled recompile: plan and approval files, snapshots, fingerprints and the write budget of a hand-off are one answer per source (`accepts`); the registration of deferrals is a set given to the dispatcher.
- Edges: link resolution, the predicate-weight table, the affinity table and the logarithm are parameters; non-finite floats cannot occur in reals, so only the sign tests of the zero-evidence guard remain. The native builder with the same interface is not modelled. An update is a batch of one page; a larger batch derives page after page and prunes once at its end, and a pair between two of its pages can be scored before the second one is read, which the last pass over that page repairs.
- EdgeBuilder.CalculateRelevance: the call with resolved triples, as its only caller makes it; the fallback that searches the raw triples is not modelled.
- EdgeUpdates.UntouchedEvidenceStaysIff: one link resolver serves before and after the update, where the source rebuilds its alias map from the new page set.
- EdgeUpdates.UpdateEqualsRebuildIff: likewise; `UpdateMeetsRebuildIff` mentions only the resolver of the new pages and assumes nothing about the old one.
- EdgeUpdates.FreshUpdateMeetsRebuildIff: likewise.
- EdgeBuilder.CalculateWeightedEdges: asks for non-negative decay, without which the source's square root raises.
- Client manager: process-id checks, deadlines as clock values (an expired deadline is a choice of the step) and the borrowed body itself. Waiting on the condition is a step that changes nothing but retirements.
- RateLimiter.MinuteRateLimiter.Reserve: states termination for a caller without competitors; with competitors a call may wait for ever, as in the source. The request deadline and the wall clock are one clock.
- Batching clips no text; token counts come with the items.
- OutboxStore.OutboxStore.FailMutationOutbox: the backoff base is a whole number of the clock's units, where the source takes a float.
- Communities: labels are their decimal strings; minted ids are an endless supply of different non-empty strings, where the source draws random ones.
- Chunks: '\n' is the only line terminator, whitespace is a parameter, and the chunk id's hash is the pair (section start, position).
- Merge candidates: reasons and display names are not built; ledger names come through a parameter; the reported domain follows the listing order, as in the source.
- Embedding transports, vector tables, tokenizers, templates, claim extraction, backups, the CLI, process supervision and installers.
