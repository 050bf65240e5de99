# Verification of the backend's stateful protocols

This Dafny project models the protocols at the centre of the Disciplr backend and proves what they keep
in every run. Each protocol is a state with atomic steps, one step for each synchronous stretch between
two awaits, or for each database transaction. Clock readings are inputs; handlers, RPC endpoints,
dispatches, crashes and database failures are oracles with arbitrary outcomes.

| part | files | what is proved |
|---|---|---|
| Job queue | `JobQueueSpec`, `JobQueueInvariants`, `JobQueueStructure`, `JobQueueProgress`, `JobQueueLateSettles`, `JobQueueEffects`, `JobQueue` | conservation of executions in every run, handlers that settle after their lease was swept included; exactly when such handlers leave each job in one place; attempt bounds; a bound on executions; an earliest-first, work-conserving drain in every run; sweeps that free exactly the stuck leases; no failed job before its backoff is over |
| Event ingestion | `EventStoreSpec`, `EventStoreProofs`, `EventStoreEffects`, `EventProcessor`, `OutboxRelaySpec`, `HorizonListenerSpec`, `HorizonListener` | each event takes effect once, in order of first commit, under every schedule of redeliveries, aborts and crashes; the outbox announces exactly the lifecycle events committed; restarts skip nothing; every outbox row closes |
| Audit log | `Json`, `AuditChainSpec`, `AuditLog` | the tail hash fixes the log; verification accepts exactly the linked chains; appended chains verify exactly when they grow |
| Security monitor | `SecurityMonitorSpec`, `SecurityMonitorMeaning`, `SecurityMonitorProofs`, `SecurityMonitor` | decisions and alerts equal a stateless computation over the whole history, so garbage collection is invisible |
| Abuse score | `AbuseScore` | the decaying score in closed form; exactly when dropping records is invisible to all actors |
| Export quota | `ExportQuotaSpec`, `ExportQuotaProofs`, `ExportQuota` | mutual exclusion, no lost waiter, termination, and exactly min(requests, limit) allowed in every interleaving |
| Idempotent responses | `IdempotencySpec`, `Idempotency` | one leader for each key, exactly who is told to lead, and what every other caller gets |
| RPC failover | `SorobanPoolSpec`, `SorobanPoolProofs`, `SorobanPool` | no switch after a send returned, whatever error follows; statuses tell the failures |
| Pages, reindexing, trends | `TransactionPages`, `EvidenceReindex`, `TrendBuckets` | pages show only what was asked for; exactly when they lose nothing; crashes that only delay; nothing counted twice |

`Sorting`, `Sums`, `Numbers` and `Wrappers` are shared helpers. Where the code changes fields in place the model is
a class whose methods are proved against the step functions of the specification module beside it; where
the code only computes, the model is functions. `dafny verify dfyconfig.toml` checks the whole project.

Where the code does not do what its documentation or its own comments suggest, the model follows the code:

- A handler error marked `nonRetryable` leads to a call of `recordFailedJob` (src/jobs/queue.ts:458), which
  is defined nowhere. The call throws, so the run is counted nowhere; `ExecutionsConserved` says that the
  law of the totals holds if and only if no run ended that way. The other call (src/jobs/queue.ts:437) can
  never be reached, because `enqueue` asks for a handler and handlers are never removed.
- docs/jobs.md says that a retry resets the attempts. For a job that is still pending the code does not.
- A handler that settles after its lease was swept releases whatever lease holds the job's id
  (`TwiceStartedReachable` and `LateSettleBreaksStructure` give a run from a new queue in which more leased
  handlers run than the concurrency allows). `LateSettleKeepsIff` and `StructuredIffHarmless` say exactly which
  late settles do no harm; conservation, the drain and the sweep are proved in every run.
- The comment at src/services/checkpointStore.ts:46 says that a checkpoint never moves backwards; the merge
  overwrites it. The restart result is proved in spite of that.
- The fallback for an unreadable checkpoint (src/services/horizonListener.ts:154-155) is called fail-safe. It
  is so if and only if the default ledger is no later than the ledger the checkpoints call for
  (`ReadErrorSkips`), and given read errors, at a restart with the checkpoints found, are harmless if and only
  if they do not move the start past that ledger (`ReadErrorSkipsIff`).
- A cursor of the transaction list holds whole milliseconds and ends the id at a bar. `AllSizesExactIff` says
  exactly when pages lose nothing by that. Rows as the backend stores them are of the good kind
  (`PagesAreExact`): the time is a JavaScript `Date` (src/types/transactions.ts, src/services/transactionETL.ts:271)
  and the id a UUID (db/migrations/20260226101842_create_transactions_table.cjs:8).
- The expiration scheduler stores responses under `slash_on_miss:` and the vault id, without scope or owner
  (src/services/expirationScheduler.ts:66). A caller without an owner and with the user id `slash_on_miss`
  shares that key (`SchedulerKeyIff`); `InternalKeyIdentifies` is about scoped keys.
- Cleaning up the abuse scores is meant to save memory only. It also frees slots of a map of limited size, so
  it is visible to other actors once the map fills up (`EveryDropVisible`, `SlotTaken`).
- Rows of a blank organization are hashed into the chain of rows without one, but no verification reads
  them (`CoveredIffNotBlank`).
- docs/idempotency.md promises a 403 for another principal's key. The code gives each principal keys of its
  own instead.
- The last trend bucket counts events after the end that it shows (`LastBucketCountsPastItsEnd`); the route
  avoids that by asking only for events of the range.

## Model

| member | source | states |
|---|---|---|
| JobQueue.InMemoryJobQueue.constructor | src/jobs/queue.ts:189-194 | a new queue is empty, stopped and without handlers; the concurrency is the option when it is positive, else the default |
| JobQueue.InMemoryJobQueue.RegisterHandler | src/jobs/queue.ts:196-198 | adds the handler and nothing else |
| JobQueue.InMemoryJobQueue.Enqueue | src/jobs/queue.ts:200-236 | throws without a handler and changes nothing; else appends a new job, counts it, re-sorts and drains; the receipt is the job |
| JobQueue.InMemoryJobQueue.Start | src/jobs/queue.ts:238-254 | starting a stopped queue drains it, starting a running one does nothing |
| JobQueue.InMemoryJobQueue.Stop | src/jobs/queue.ts:256-266 | stopping only clears the running flag; jobs stay where they are |
| JobQueue.InMemoryJobQueue.Drain | src/jobs/queue.ts:411-432 | the loop computes the recursive drain: the first due job is taken off and started, until stopped, full or nothing is due |
| JobQueue.InMemoryJobQueue.RunJob | src/jobs/queue.ts:434-445 | one start: attempt and lease are stamped on the shared job object, the active map is set under its id, the execution is counted |
| JobQueue.InMemoryJobQueue.RecordSettled | src/jobs/queue.ts:447-466 | what each outcome does: completed, counted nowhere (non-retryable), re-queued with the backoff, or dead-lettered; `JobQueueEffects.SettleEffect` says on the fields what that is |
| JobQueue.InMemoryJobQueue.SettleRun | src/jobs/queue.ts:447-473 | settling one handler run, late or not: outcome, release of whatever lease holds the id, drain |
| JobQueue.InMemoryJobQueue.MoveToDeadLetter | src/jobs/queue.ts:487-509 | counts a failure and puts the letter in front of the dead letters |
| JobQueue.InMemoryJobQueue.SweepEntry | src/jobs/queue.ts:367-394 | one turn of the sweep: a fresh lease is left alone, a stale one is dead-lettered or re-queued, with the record returned for it |
| JobQueue.InMemoryJobQueue.SweepSnapshot | src/jobs/queue.ts:367-394 | the loop over the snapshot: the records returned are those of exactly the reclaimable leases, and the letters those of exactly the exhausted ones, both in order |
| JobQueue.InMemoryJobQueue.SweepStaleLeases | src/jobs/queue.ts:362-409 | the whole sweep: re-sorts and drains exactly when something was reclaimed |
| JobQueue.InMemoryJobQueue.ReplayDeadLetter | src/jobs/queue.ts:519-527 | an unknown id changes nothing; else the letter is removed and enqueued anew under a new id |
| JobQueue.InMemoryJobQueue.RetryJob | src/jobs/queue.ts:529-585 | which calls throw, and with which error; a forced retry revives the dead letter under its id, a pending retried job is hurried up |
| JobQueue.InMemoryJobQueue.ReviveDeadLetter | src/jobs/queue.ts:532-550 | the dead letter at the index is replaced by a pending job with attempt 0 and the same id |
| JobQueue.InMemoryJobQueue.HurryUp | src/jobs/queue.ts:564-569 | the pending job is moved to now and the list re-sorted |
| JobQueue.InMemoryJobQueue.GetQueueDepthReport | src/jobs/queue.ts:326-360 | per type, the counts of queued, delayed, active, stuck and dead-lettered jobs; the total depth is pending plus active over all types |
| JobQueue.ReplayIsEnqueue | src/jobs/queue.ts:519-527 | a replay is the removal of the letter followed by an ordinary enqueue, with the maximum of attempts of the letter |
| JobQueueEffects.SettleEffect | src/jobs/queue.ts:447-509 | on the fields, for each outcome: a failed run with attempts left puts its job back one second later, doubling with each attempt up to a minute; one without becomes a dead letter in front; a success is counted; a non-retryable error is counted nowhere; in any case the lease under its id is released, and nothing else moves |
| JobQueueEffects.BackoffIsKept | src/jobs/queue.ts:457-473 | a failed run with attempts left is not started again before its backoff is over, neither by the drain of its own settle nor by a drain after it with an earlier clock reading |
| JobQueueEffects.NotBeforeItsTime | src/jobs/queue.ts:411-432 | a drain leaves a pending job whose run time has not come as it is |
| JobQueueEffects.EnqueueEffect | src/jobs/queue.ts:200-236 | an accepted job joins the pending list with no negative delay, three attempts unless told otherwise and one at least; all of its fields are given |
| JobQueueEffects.ReplayEffect | src/jobs/queue.ts:519-527 | which calls of a replay change nothing, and the fields of the new job otherwise |
| JobQueueEffects.RetryEffectOnFields | src/jobs/queue.ts:529-585 | what a retry does to letters and jobs, field by field, and exactly which retries change and start nothing |
| JobQueueEffects.SweepEffect | src/jobs/queue.ts:362-409 | what a sweep does to each active job: a lease within the limit stays, an older one becomes pending again, due now, with attempts left, and a dead letter without |
| JobQueueEffects.SweepDrainsIff | src/jobs/queue.ts:396-401 | a sweep tries to start jobs exactly when it put one back |
| JobQueueEffects.StepsFillTheSlots | src/jobs/queue.ts:200-473 | after an accepted enqueue, a settle or the start of a stopped queue a running queue is full or has nothing due |
| JobQueueSpec.RetryDelayDoublesToCap | src/jobs/queue.ts:593-595 | the backoff of the code doubles from one second on and is capped at a minute; that a failed run waits for it is `JobQueueEffects.BackoffIsKept` |
| JobQueueSpec.DeadLetterKeepsTheJob | src/jobs/queue.ts:498-550 | a dead letter keeps the job: a forced retry restores it with fresh attempts, a replay enqueues the same work under a new id |
| JobQueue.StuckByType | src/jobs/queue.ts:338-343 | splitting the stuck leases by job type loses none and counts none twice |
| JobQueue.DepthByType | src/jobs/queue.ts:349-352 | the depths of the types add up to the sizes of the pending list and the active map |
| JobQueue.ReportTells | src/jobs/queue.ts:326-347 | each number of the report is that of the entries that meet its condition, written on their fields: due, waiting, active, leased for longer than the limit, dead |
| JobQueueInvariants.NextWellFormed | src/jobs/queue.ts:200-585 | every step keeps the invariant; in it every queued job has a handler, so the branch without one (434-439) is never taken |
| JobQueueInvariants.RunsWellFormed | src/jobs/queue.ts:200-585 | the same over every run, handlers that settle after their lease was swept included: sorted pending list, unique ids and at most `concurrency` leases in the active map, totals in balance |
| JobQueueInvariants.SweptWellFormed | src/jobs/queue.ts:362-409 | a sweep keeps the invariant and treats each entry of its snapshot once, by the state before the sweep |
| JobQueueInvariants.RunDrops | src/jobs/queue.ts:453-458 | exactly the runs that end with a non-retryable error are counted nowhere |
| JobQueueInvariants.ExecutionsConserved | src/jobs/queue.ts:362-473 | conservation in every run: executions + swept leases = completed + failed + retried + unsettled runs + non-retryable ends; without the last term if and only if there was none |
| JobQueueStructure.StartIsLocal | src/jobs/queue.ts:434-445 | the object of a pending job is shared with nobody, so starting it changes no other job |
| JobQueueStructure.SettledStructured | src/jobs/queue.ts:447-473 | settling a run that still holds its lease keeps the structure |
| JobQueueStructure.SweptStructured | src/jobs/queue.ts:362-409 | a sweep keeps the structure |
| JobQueueStructure.NextStructured | src/jobs/queue.ts:200-585 | every step but a late settle keeps the structure |
| JobQueueStructure.RunsStructured | src/jobs/queue.ts:200-599 | in every run without late settles each id is in at most one of pending, active and dead letters; pending has attempt < maxAttempts, active 1 <= attempt <= maxAttempts, dead letters attempts = maxAttempts |
| JobQueueStructure.InitialStructured | src/jobs/queue.ts:189-194 | the queue as it is constructed has the structure, so these results hold of every run from a new queue |
| JobQueueProgress.DrainSpends | src/jobs/queue.ts:411-445 | a drain turns attempts left into executions, one for one |
| JobQueueProgress.SettledSpends | src/jobs/queue.ts:447-473 | a settle starts nothing and adds no attempts |
| JobQueueProgress.SweptSpends | src/jobs/queue.ts:362-394 | a sweep starts nothing and keeps the attempts left |
| JobQueueProgress.ExecutionsBounded | src/jobs/queue.ts:200-473 | without enqueues, replays and forced retries at most the sum of (maxAttempts - attempt) over pending and active jobs can still be started |
| JobQueueProgress.DrainIsEarliestFirst | src/jobs/queue.ts:411-445 | every drain of a well-formed queue, late settles before it included, starts a prefix of the sorted pending list in order, each start an attempt more on its job and an entry set under its id, changes nothing else, and stops exactly when the queue is stopped or full or nothing is due |
| JobQueueProgress.DrainFillsTheSlots | src/jobs/queue.ts:411-445 | with each job in one place the number of starts is the smaller of the due jobs and the free slots, the started jobs join the end of the active map and each spends one attempt |
| JobQueueProgress.DrainIsWorkConserving | src/jobs/queue.ts:411-432 | a drain of a running queue leaves a due job behind only when the active map is full, also after late settles |
| JobQueueProgress.SweepFreesTheStuck | src/jobs/queue.ts:326-409 | in every run a sweep removes exactly the leases the depth report counts as stuck at that instant, and the total depth falls by exactly the number dead-lettered |
| JobQueueLateSettles.LateSettleKeepsIff | src/jobs/queue.ts:434-473 | a handler that settles after its lease was swept keeps the structure, each job in one place and each lease with a running handler, if and only if no active entry has its id and, after a failure, no pending entry and no dead letter has it either |
| JobQueueLateSettles.LateSettleKeepsPlacesIff | src/jobs/queue.ts:447-473 | such a settle by itself leaves each id in one place if and only if a failing one finds neither a pending entry nor a dead letter of its id |
| JobQueueLateSettles.StructuredIffHarmless | src/jobs/queue.ts:200-585 | each job stays in one place and each lease with a running handler through a whole run if and only if every late settle in it is of the kind that keeps the structure |
| JobQueueLateSettles.LeasedRunsFit | src/jobs/queue.ts:411-473 | while the structure holds the running handlers whose lease was not swept are exactly as many as the active entries, so at most the concurrency |
| JobQueueLateSettles.TwiceStartedReachable | src/jobs/queue.ts:200-432 | a new queue gets in four steps to a job that runs twice, once under a swept lease |
| JobQueueLateSettles.LateSettleBreaksStructure | src/jobs/queue.ts:467-472 | from there the first handler, settling late, releases the lease of the second run, and the next drain starts another job beside it: two leased runs on a queue with one slot |
| Sorting.SortSorted | src/jobs/queue.ts:597-599 | the sort by a key puts the list in order |
| Sorting.SortStable | src/jobs/queue.ts:597-599 | and keeps elements with equal keys in their order |
| EventProcessor.EventProcessor.HandleVaultEvent | src/services/eventProcessor.ts:196-227 | creation inserts once and ignores a conflict; a closing event updates the status or reports the missing vault |
| EventStoreProofs.MilestoneEventEffect | src/services/eventProcessor.ts:229-252 | a milestone event fails exactly when its vault is missing; otherwise the milestone is there, a new one pending with amount 0 and the fields of the event, an existing one as it was, and nothing else is touched |
| EventProcessor.EventProcessor.HandleValidationEvent | src/services/eventProcessor.ts:254-288 | needs the milestone; records the validation once and completes or fails the milestone by the result |
| EventProcessor.EventProcessor.RouteEvent | src/services/eventProcessor.ts:177-194 | each event type goes to its handler; an unknown one is an error |
| EventProcessor.EventProcessor.ProcessEventWithTransaction | src/services/eventProcessor.ts:137-175 | one attempt, cut off before any statement or losing its acknowledgement: the tables are those of the commit or unchanged, and reflect each event once; a commit writes the processed row with transaction, index and ledger of the event and, for a lifecycle event alone, one outbox row with its id, type, data and the organization of its vault |
| EventProcessor.EventProcessor.ProcessEvent | src/services/eventProcessor.ts:64-135 | the retry loop adds the event at most once, success means processed, and exactly a retryable failure goes to the dead letters with the retry count |
| EventProcessor.EventProcessor.ReprocessFailedEvent | src/services/eventProcessor.ts:323-339 | a dead letter is reprocessed through the same path and removed exactly on success |
| EventProcessor.EventProcessor.RelayOutboxBatch | src/services/outboxRelay.ts:16-90 | the loop dispatches each claimed row once and writes its outcome; no other row and no other table changes |
| EventStoreEffects.CommitWrites | src/services/eventProcessor.ts:147-168 | the same of the transaction itself: one processed row, one undispatched outbox row exactly for a lifecycle event, every other row of both tables unchanged |
| EventStoreEffects.TablesTellTheLog | src/services/eventProcessor.ts:137-175 | in every state that the ingestion reaches row i of the outbox has id, type and data of the i-th lifecycle event committed, with the organization its vault had at the commit, and each committed event is recorded with its own transaction, index and ledger |
| EventStoreEffects.UninterruptedAttempt | src/services/eventProcessor.ts:137-288 | an attempt that nothing interrupts succeeds exactly for an event processed before or one whose dependency is there; any other leaves the tables unchanged with the error of its cause |
| EventStoreEffects.DeliveryOutlastsFaults | src/services/eventProcessor.ts:68-80 | with fewer passing faults than attempts a delivery whose dependency is there succeeds and its event is processed |
| EventStoreEffects.DeliveryFails | src/services/eventProcessor.ts:68-107 | without faults a delivery that cannot be applied fails with its cause and changes no table |
| EventStoreProofs.AttemptReflects | src/services/eventProcessor.ts:137-175 | every attempt, whatever interrupts it, keeps the tables equal to applying each committed event once |
| EventStoreProofs.AttemptsReflect | src/services/eventProcessor.ts:68-80 | a delivery with retries commits the event at most once, and reports success only for a processed event |
| EventStoreProofs.AppliedIgnoresDelivery | src/services/eventProcessor.ts:147-168 | nothing the transaction writes depends on how far the relay has come with earlier rows |
| EventStoreProofs.RouteKeepsReferences | src/services/eventProcessor.ts:196-288 | handlers keep every milestone pointing to a vault, every validation to a milestone, and completed milestones at their target amount |
| EventStoreProofs.VaultEventEffect | src/services/eventProcessor.ts:196-227 | a lifecycle event touches its vault and nothing else: created once as active, or set to the status the event is named after |
| EventStoreProofs.ValidationEventEffect | src/services/eventProcessor.ts:254-288 | a validation is recorded once and judges its milestone: approval completes it at its target, rejection fails it with its amount unchanged; nothing else is touched |
| EventStoreProofs.ReplayIntegrity | src/services/eventProcessor.ts:137-288 | applying events once each keeps those references and writes exactly one outbox row for each lifecycle event, in order |
| EventStoreProofs.ReflectionIntegrity | src/services/eventProcessor.ts:137-288 | so the same holds of every state that the ingestion can reach |
| EventStoreProofs.ScheduleReflects | src/services/idempotency.ts:202-227 | over every schedule of attempts the processed table holds exactly the ids of the first commits |
| EventStoreProofs.EffectivelyOnce | src/services/eventProcessor.ts:137-288 | for every schedule of redeliveries, aborted attempts, crashes and lost acknowledgements the tables equal applying each event id exactly once, in order of first commit, with their integrity |
| OutboxRelaySpec.ClaimIsMaximal | src/services/outboxRelay.ts:22-28 | a claim takes the first open rows and leaves an open row only when the batch is full |
| OutboxRelaySpec.BatchEffect | src/services/outboxRelay.ts:36-86 | what a batch does to each row, on its fields: nothing to an unclaimed one; a claimed one was open with fewer than five attempts, counts one more, and is processed after a success or with a note at the fifth failure |
| OutboxRelaySpec.StepAccounted | src/services/outboxRelay.ts:36-86 | a batch or an insert keeps every row accounted for by its dispatches |
| OutboxRelaySpec.RunAccounted | src/services/outboxRelay.ts:16-90 | over any run of committed batches, pauses and inserts a row is dispatched at most five times and never after a success, and open rows have fewer than five attempts |
| OutboxRelaySpec.BatchProgress | src/services/outboxRelay.ts:22-86 | an unpaused batch lowers the attempts left over open rows by at least the number it claimed, and claims something while any row is open |
| OutboxRelaySpec.ClaimFront | src/services/outboxRelay.ts:22-28 | the claim is oldest first: among the first n rows it claims as if there were no others |
| OutboxRelaySpec.EveryRowCloses | src/services/outboxRelay.ts:16-90 | in any run of batches, pauses and inserts the rows present at its start are closed once it holds as many unpaused batches as these rows have attempts left, whatever the dispatches do and whatever is inserted |
| HorizonListener.CheckpointStore.GetCheckpoint | src/services/checkpointStore.ts:27-33 | the stored row, nothing, or the failure of the database |
| HorizonListener.CheckpointStore.UpsertCheckpoint | src/services/checkpointStore.ts:54-77 | the row is overwritten, even by a lower ledger |
| HorizonListener.HorizonListener.LoadEffectiveStartLedger | src/services/horizonListener.ts:121-160 | the loop computes the minimum over the configured contracts, with the default for missing and unreadable checkpoints |
| HorizonListener.HorizonListener.PersistCheckpoint | src/services/horizonListener.ts:167-187 | a failed write is swallowed and changes nothing |
| HorizonListener.HorizonListener.HandleEvent | src/services/horizonListener.ts:236-295 | committed exactly when no shutdown is requested, the contract is configured, the event parses and processing succeeds; the checkpoint of its contract is then the ledger and token of the event, if the store works, and no other outcome changes any checkpoint |
| HorizonListenerSpec.EffectiveStartIsMinimum | src/services/horizonListener.ts:121-160 | the start ledger is at most every configured contract's ledger and is one of them |
| HorizonListenerSpec.StepReflects | src/services/horizonListener.ts:236-295 | every step of the listener, crashes in the middle included, keeps each event applied exactly once and unprocesses nothing |
| HorizonListenerSpec.StartNeverSkips | src/services/horizonListener.ts:121-160 | below the ledger a restart returns nothing at or above the ledger the first checkpoints call for was skipped, although checkpoints can move back; so too with failed reads as long as they move the start past neither that ledger nor every checkpoint written since |
| HorizonListenerSpec.RestartNeverSkips | src/services/horizonListener.ts:121-187 | after any starts, deliveries, crashes, failed checkpoint writes and harmless read errors every configured event from the first ledger up to the next start ledger was committed or reported failed, and the tables hold each committed event once |
| HorizonListenerSpec.CheckpointsFollowCommits | src/services/horizonListener.ts:236-295 | in any run whose checkpoint writes work each checkpoint ends at the ledger and token of the last committed event of its contract, and is as it was when none was committed |
| HorizonListenerSpec.ReadsHarmlessIff | src/services/horizonListener.ts:143-156 | for any checkpoints reached since: given read errors can make a start skip, in some state that the invariant of the listener allows with these checkpoints, if and only if they move the start past the first ledger and past every checkpoint written since |
| HorizonListenerSpec.ReadErrorSkipsIff | src/services/horizonListener.ts:143-156 | at a restart after a session that did nothing, so with the checkpoints found: given read errors can make it skip an event of some chain if and only if they move the start past the ledger that these checkpoints call for |
| HorizonListenerSpec.ReadErrorSkips | src/services/horizonListener.ts:143-156 | for every configuration and every checkpoints found: some chain, run and read errors make a restart skip if and only if the default ledger is later than the ledger these checkpoints call for |
| Json.NormalizeIffEquivalent | src/lib/audit-logs.ts:89-100 | normalized values are equal if and only if the values are equal up to the order of keys at any depth |
| Json.JsonUnique | src/lib/audit-logs.ts:102 | the JSON text of a value is a prefix code: it tells the value and where it ends |
| Json.StableStringifyIffEquivalent | src/lib/audit-logs.ts:89-102 | the stable text is the same for two values if and only if they are equal up to the order of keys |
| AuditChainSpec.CanonicalIffSameContent | src/lib/audit-logs.ts:104-114 | the canonical row changes with every field of the content and with nothing else |
| AuditChainSpec.LinkTextUnique | src/lib/audit-logs.ts:116-122 | the hashed text tells the previous hash and the canonical row apart |
| AuditChainSpec.HashFixesRow | src/lib/audit-logs.ts:116-122 | equal row hashes come from equal previous hashes and equal content |
| AuditChainSpec.TailFixesLog | src/lib/audit-logs.ts:104-122 | two linked logs with equal tail hashes have the same length and the same content row by row |
| AuditChainSpec.VerifiedIffLinked | src/lib/audit-logs.ts:254-308 | verification reports no failure exactly for rows that satisfy the chain definition from genesis |
| AuditChainSpec.FailuresTell | src/lib/audit-logs.ts:254-308 | a failure is reported if and only if its row lacks a hash, does not name the hash expected before it, or has a hash that is not that of its content, with the id and index of the row |
| AuditChainSpec.ExpectedIs | src/lib/audit-logs.ts:254-308 | the hash expected before a row is that of the last row before it that has one, and genesis if none has |
| AuditLog.AuditLogStore.CreateAuditLog | src/lib/audit-logs.ts:145-192 | exactly an entry without actor, action or target is an error and changes nothing; else exactly one row is appended, with the fields of the entry, linked to the last hashed row of its chain and hashed over its content |
| AuditLog.AuditLogStore.VerifyAuditLogChain | src/lib/audit-logs.ts:254-308 | the loop reports exactly the failures of the definition, the head and tail hashes and the count |
| AuditLog.GrowingLinks | src/lib/audit-logs.ts:127-192 | entries whose (created_at, id) grows within a chain build a linked chain, whatever other chains interleave |
| AuditLog.MetadataNamesTheAdmin | src/lib/audit-logs.ts:152-159 | the stored metadata is the sanitized one and names the acting admin unless the system acts or an admin is named |
| AuditLog.LinkedToIsOlder | src/lib/audit-logs.ts:127-192 | a row whose hash another row links to was created before it |
| AuditLog.LinkedGrows | src/lib/audit-logs.ts:127-192 | a linked chain was built by entries that grew |
| AuditLog.ReadBackKeepsFailures | src/lib/audit-logs.ts:254-298 | reading metadata back with its keys in another order at any depth changes no verdict |
| AuditLog.AppendsVerifyIffGrowing | src/lib/audit-logs.ts:127-308 | after any interleaving of appends a chain verifies without failures if and only if (created_at, id) grew within it |
| AuditLog.CoveredIffNotBlank | src/lib/audit-logs.ts:124-139 | a row is looked at by some verification if and only if its organization is missing or not blank |
| SecurityMonitor.SecurityMonitor.RateLimit | src/security/abuse-monitor.ts:104-134 | limited exactly when the requests of the IP's whole history inside the window, this one included, number more than allowed, and the counter of trips goes up exactly then |
| SecurityMonitor.SecurityMonitor.FinishResponse | src/security/abuse-monitor.ts:72-98 | the alerts raised are those the IP's whole history calls for; the count of failed logins goes up exactly for a 401 or 403 on a path that mentions /auth or /login; every 200th response drops the idle IPs |
| SecurityMonitor.SecurityMonitor.RecordResponse | src/security/abuse-monitor.ts:73-97 | lists, counters and alerts after one response |
| SecurityMonitor.SecurityMonitor.NoteResponse | src/security/abuse-monitor.ts:77-95 | the response is pushed after pruning; a failed login is pushed and counted |
| SecurityMonitor.SecurityMonitor.GetIpState | src/security/abuse-monitor.ts:225-240 | the stored state, or a new empty one that is stored |
| SecurityMonitor.SecurityMonitor.EmitSuspiciousAlert | src/security/abuse-monitor.ts:298-319 | an alert inside the cooldown is suppressed; else it is stamped, counted and returned |
| SecurityMonitor.SecurityMonitor.EvaluateSuspiciousPatterns | src/security/abuse-monitor.ts:252-296 | the four patterns in order, each on the same lists and its own last alert |
| SecurityMonitor.SecurityMonitor.MaybeCleanupIdleIpStates | src/security/abuse-monitor.ts:351-369 | only every 200th call cleans up |
| SecurityMonitor.SecurityMonitor.DropIdle | src/security/abuse-monitor.ts:357-368 | the loop deletes exactly the IPs not seen for longer than the longest window plus the cooldown |
| SecurityMonitor.SecurityMonitor.GetSecurityMetricsSnapshot | src/security/abuse-monitor.ts:136-158 | a snapshot lists an IP exactly when its whole history shows something inside the windows, with the counts of requests, responses and failed logins of that history |
| SecurityMonitor.SecurityMonitor.GetAbuseCategoryCounts | src/security/abuse-monitor.ts:190-197 | the counts per category are the alerts of the whole run |
| SecurityMonitorMeaning.FailedLoginIff | src/security/abuse-monitor.ts:385-392 | a response is a failed login if and only if its status is 401 or 403 and some stretch of its path spells /auth or /login in letters of any case |
| SecurityMonitorMeaning.PathIsBeforeQuery | src/security/abuse-monitor.ts:394-397 | the path is the longest start of the URL without a question mark, and the root if that is empty |
| SecurityMonitorMeaning.DecisionOnHistory | src/security/abuse-monitor.ts:104-134 | the decision by the number of steps of the history that are requests inside the window |
| SecurityMonitorMeaning.AlertsOnHistory | src/security/abuse-monitor.ts:252-349 | each of the four alerts is raised exactly when the steps of the history inside its window, counted by status, path and failed login, reach its thresholds and its own last alert is a cooldown ago; with which counts, and in which order |
| SecurityMonitorMeaning.LastAlertIs | src/security/abuse-monitor.ts:298-319 | the last alert of a pattern is the time of the last response that raised it, and 0 before the first |
| SecurityMonitorProofs.PrunedKnows | src/security/abuse-monitor.ts:242-250 | pruning forgets nothing that a later window can see |
| SecurityMonitorProofs.EmitsIffDue | src/security/abuse-monitor.ts:252-319 | the kept state emits a pattern exactly when the history says it is due |
| SecurityMonitorProofs.IdleKnowsNothing | src/security/abuse-monitor.ts:351-369 | everything an idle IP did is outside every later window and cooldown |
| SecurityMonitorProofs.AnswersAreStateless | src/security/abuse-monitor.ts:104-319 | in every run and under every cleanup schedule each decision and each alert equals the one computed from the IP's whole history |
| SecurityMonitorProofs.CleanupInvisible | src/security/abuse-monitor.ts:351-369 | leaving every cleanup and snapshot out of a run changes no answer to any request |
| SecurityMonitorProofs.AlertsAreSpaced | src/security/abuse-monitor.ts:305-310 | two alerts of one pattern and IP are at least one cooldown apart |
| SecurityMonitorProofs.AlertsShowTheirCause | src/security/abuse-monitor.ts:252-349 | every alert carries a count over its own window that reaches the threshold of its pattern |
| AbuseScore.AbuseMonitor.Record | src/services/abuse-monitor.ts:48-77 | an actor that finds the map full is neither flagged nor remembered; any other is flagged exactly when some window of its history carries the limit; scores and answer are those of the runs that drops are judged by |
| AbuseScore.AbuseMonitor.AddHit | src/services/abuse-monitor.ts:57-70 | the stored score decides as the closed form does |
| AbuseScore.BurstScore | src/services/abuse-monitor.ts:57-68 | n equal signals of one moment score n times the weight of one: its own weight if given, else ten for a failed authentication and one for anything else |
| AbuseScore.AbuseMonitor.EmitAbuseEvent | src/services/abuse-monitor.ts:95-99 | the count of the category of the signal goes up by one |
| AbuseScore.AbuseMonitor.Cleanup | src/services/abuse-monitor.ts:140-148 | the loop drops exactly the records not seen for longer than the time to live |
| AbuseScore.AbuseMonitor.Reset | src/services/abuse-monitor.ts:130-135 | forgets scores and counts |
| AbuseScore.ScoreIsBestWindow | src/services/abuse-monitor.ts:57-68 | the score is the maximum over i of the weights from signal i on less the decay since signal i |
| AbuseScore.FlaggedIffAbusive | src/services/abuse-monitor.ts:60-70 | flagged if and only if some stretch of the history that ends now weighs at least the limit plus the decay over its length |
| AbuseScore.DropInvisibleIff | src/services/abuse-monitor.ts:48-77 | dropping records is invisible to every later run of signals and cleanups with at most n untracked actors if and only if nothing is dropped, or the map has room for those n beside the dropped records and every dropped score has decayed to nothing |
| AbuseScore.CleanupInvisibleIff | src/services/abuse-monitor.ts:140-148 | the same for what a cleanup drops, which is exactly the stale records |
| AbuseScore.EveryDropVisible | src/services/abuse-monitor.ts:53-55 | without a bound on the untracked actors every drop shows in some later run, since a full map flags no new actor |
| AbuseScore.SlotTaken | src/services/abuse-monitor.ts:53-55 | with one slot, dropping a decayed record flags a newcomer that was turned away before, and a newcomer in the freed slot keeps the dropped actor itself from being flagged |
| AbuseScore.DefaultDropVisible | src/services/abuse-monitor.ts:35-41 | with the default settings, while the map has room for the newcomers, a cleanup can be visible exactly for the scores above 360.0001, which is what decays in the shortest time after which a record is dropped; without that room every drop is visible |
| ExportQuota.AsyncMutex.TryLock | src/services/exportQuota.ts:41-44 | one test of the acquiring loop: takes the free lock, or joins the end of the queue |
| ExportQuota.AsyncMutex.Unlock | src/services/exportQuota.ts:50-52 | frees the lock and wakes the head of the queue |
| ExportQuota.ExportQuotaService.Increment | src/services/exportQuota.ts:65-78 | one more, with the limit written along |
| ExportQuota.ExportQuotaService.Advance | src/services/exportQuota.ts:146-165 | one synchronous stretch of one request: read, refuse or try the mutex, try again when woken, release, decide |
| ExportQuotaProofs.NextKeepsMutex | src/services/exportQuota.ts:35-55 | every step keeps the mutex invariant |
| ExportQuotaProofs.RunsKeepMutex | src/services/exportQuota.ts:35-55 | in every interleaving at most one request is inside, the queue holds exactly the waiting ones, and none waits at a free lock without a woken one on the way |
| ExportQuotaProofs.NeverStuck | src/services/exportQuota.ts:39-55 | as long as a request is not done, some request can take a step |
| ExportQuotaProofs.RunsEnd | src/services/exportQuota.ts:39-55 | R requests take at most 5 R steps, however often a woken one finds the lock taken again |
| ExportQuotaProofs.QuotaIsExact | src/services/exportQuota.ts:146-165 | at no moment are more exports of a key allowed than its limit L, and once its R requests have finished exactly min(R, L) were |
| Idempotency.IdempotencyStore.GetIdempotentResponse | src/services/idempotency.ts:100-136 | told to lead if and only if the key is neither pending nor holds an unexpired response, and then pending with the hash and a new promise; else wait, replay or conflict, as the maps after pruning say |
| Idempotency.IdempotencyStore.SaveIdempotentResponse | src/services/idempotency.ts:138-161 | settles the pending promise of the key and stores the response, whoever saves |
| Idempotency.IdempotencyStore.FailPendingIdempotentResponse | src/services/idempotency.ts:163-177 | rejects and removes the pending request of this hash, and nothing else |
| Idempotency.IdempotencyStore.PruneExpiredEntries | src/services/idempotency.ts:88-94 | the loop drops exactly the entries whose expiry has come |
| IdempotencySpec.InternalKeyIdentifies | src/services/idempotency.ts:22-24 | a scoped key with the prefix of its owner tells user, client key and principal apart when no identifier holds a colon |
| IdempotencySpec.SchedulerKeyIff | src/services/expirationScheduler.ts:66-74 | the unscoped key of the expiration scheduler is spelled, among callers without colons in their identifiers, only by one without an owner whose user id is the prefix slash_on_miss |
| IdempotencySpec.ColonInIdentifierCollides | src/services/idempotency.ts:77-82 | every identifier with a colon in it shares keys with another principal, whatever its parts, and every principal with an anonymous caller whose user id spells its prefix |
| IdempotencySpec.NextKeepsInv | src/services/idempotency.ts:100-177 | every call keeps pending and stored keys apart and every pending promise unsettled and its own |
| IdempotencySpec.PendingAndStoredDisjoint | src/services/idempotency.ts:66-67 | so in every run no key is both pending and stored |
| IdempotencySpec.AnswerIff | src/services/idempotency.ts:100-136 | in every state that a run can reach, exactly when a call is told to lead, to wait and for which promise, gets which stored response, or a conflict |
| IdempotencySpec.GetLeaves | src/services/idempotency.ts:100-136 | what a call leaves: after a lead the key is pending with the hash and a new unsettled promise, any other answer leaves pending requests and promises alone, and of the store only expired entries go |
| IdempotencySpec.FirstCallerLeads | src/services/idempotency.ts:127-132 | the first call for any key is told to lead |
| IdempotencySpec.CallerAfterFailureLeads | src/services/idempotency.ts:163-177 | the failure of the leader rejects its promise, and the next call for the key leads |
| IdempotencySpec.CallerAfterResponse | src/services/idempotency.ts:138-161 | the response of the leader resolves its promise; until it expires its payload gets it and any other a conflict, and from then on a call leads |
| IdempotencySpec.OneLeader | src/services/idempotency.ts:100-136 | a second null return for a key comes only after the first leader failed or its stored entry expired; in between equal payloads wait for or get the response of the leader, others get a conflict |
| IdempotencySpec.WaitersGetTheLeadersOutcome | src/services/idempotency.ts:148-176 | the promise of a leader is settled with its own response or error, whatever later leaders of the same key do |
| IdempotencySpec.SettledForGood | src/services/idempotency.ts:148-176 | no call of any kind changes a settled promise |
| IdempotencySpec.ForeignSaveTakesOver | src/services/idempotency.ts:148-160 | for every key with a pending leader: a save with another hash settles the promise of the leader, and repeats of its payload conflict until the foreign entry expires and are told to lead from then on |
| SorobanPool.SorobanRpcPool.Create | src/services/soroban.ts:157-168 | no URL is an error; else all endpoints start healthy |
| SorobanPool.SorobanRpcPool.GetOrderedUrls | src/services/soroban.ts:172-177 | healthy first, degraded next, down last, each kind in the order of the pool |
| SorobanPool.SorobanRpcPool.RecordSuccess | src/services/soroban.ts:184-189 | the first endpoint with the URL becomes healthy without failures; an unknown URL changes nothing |
| SorobanPool.SorobanRpcPool.RecordFailure | src/services/soroban.ts:191-201 | one more failure, down from the threshold on and degraded below it |
| SorobanPool.SorobanRpcPool.StartProbes | src/services/soroban.ts:233-237 | exactly the endpoints that are down are stamped and probed |
| SorobanPool.SorobanRpcPool.FinishProbe | src/services/soroban.ts:238-243 | a healthy answer recovers the endpoint, any other changes nothing |
| SorobanPool.RetryWithBackoff | src/utils/retry.ts:88-121 | the loop tries again exactly after errors that call for it and returns or throws the first other answer, or the one of the last attempt |
| SorobanPool.SorobanRpcPool.TryEndpoint | src/services/soroban.ts:326-399 | the try block against any answer to any try of any call: it makes the calls in order, keeps the response hash from the moment a send returns, and records a rejected send and a success in the pool |
| SorobanPool.SorobanRpcPool.SubmitTransaction | src/services/soroban.ts:318-419 | the failover loop with its catch block does exactly the turns of the definition, against any endpoints and any interference in the pool, and returns or throws what they say |
| SorobanPoolProofs.StatusTellsFailures | src/services/soroban.ts:184-246 | after any records and probes an endpoint is healthy iff it has no failures, down iff they reached the threshold, degraded otherwise |
| SorobanPoolProofs.OrderedByHealth | src/services/soroban.ts:172-177 | the ordered pool is the healthy, then the degraded, then the down endpoints, each in pool order |
| SorobanPoolProofs.RetryStops | src/utils/retry.ts:88-121 | every try but the last threw an error that calls for another; an error that does is thrown only by the last attempt allowed |
| SorobanPoolProofs.TriedCalls | src/services/soroban.ts:326-399 | what the calls of a visit tell: the response hash is set exactly when a send returned, a failure is recorded exactly when that send was rejected, and a hash is returned exactly when the last call is a poll that found the transaction successful |
| SorobanPoolProofs.NeverSwitchesAfterSend | src/services/soroban.ts:318-419 | over all calls to all endpoints: after a send returned only its hash is polled, at its endpoint, and that turn is the last, whatever error comes up; nothing is polled before; success means exactly that the last call is a poll that found the transaction successful |
| SorobanPoolProofs.ErrorAloneWouldSwitch | src/services/soroban.ts:385-401 | every error can come up after a send returned, the network faults that by themselves would make the loop go on included, so the property rests on the guard on the response hash |
| SorobanPoolProofs.VisitsEachOnce | src/services/soroban.ts:319-324 | with distinct URLs each endpoint of the pool has at most one turn, and no other has one |
| SorobanPoolProofs.PassedOverIffDown | src/services/soroban.ts:323-324 | an endpoint is passed over if and only if it is down when its turn comes |
| SorobanPoolProofs.CooperativeVisitSucceeds | src/services/soroban.ts:326-399 | a visit returns the hash of the sent transaction when each call returns within its attempts, the send is not rejected, and a poll within the attempts and the deadline finds the transaction successful |
| SorobanPoolProofs.SuccessfulVisitEnds | src/services/soroban.ts:318-419 | a submission that makes such a visit ends there, with that hash |
| SorobanPoolProofs.GivesUpLast | src/services/soroban.ts:395-419 | the loop gives up exactly when every endpoint was down or failed with a network fault while no send had returned; the error is that of the last visit |
| SorobanPoolProofs.FailedVisitDemotes | src/services/soroban.ts:357-411 | a network fault before a send and a rejected send each count one failure more and leave the endpoint not healthy; success makes it healthy; any other end leaves the pool as the others made it |
| TransactionPages.SortedStrictly | src/repositories/transactionRepository.ts:50-51 | rows with distinct (timestamp, id) come out strictly newest first |
| TransactionPages.BeyondIsTheRest | src/repositories/transactionRepository.ts:73-82 | the query behind the cursor of a row finds exactly the rest of the list if and only if the next row is beyond that cursor |
| TransactionPages.PageAt | src/repositories/transactionRepository.ts:84-101 | where the cursor leads to the next row the page is the next stretch of the list; has_more and next_cursor say exactly whether and where it goes on |
| TransactionPages.PagesExactIff | src/repositories/transactionRepository.ts:42-102 | with any limit of at least one, following the cursors shows the filtered list once, newest first, if and only if at each end of a full page the cursor can be read and leads to the next row; the pages are then full but for the last, which alone says that there is no more |
| TransactionPages.AllSizesExactIff | src/repositories/transactionRepository.ts:42-102 | pages of every size are exact if and only if the cursor of each row but the last leads to the next row |
| TransactionPages.PagesAreExact | src/repositories/transactionRepository.ts:42-102 | so they are exact for matching rows with times of whole milliseconds and ids without a bar, whatever the other rows of the table are |
| TransactionPages.PageShowsOnlyAskedFor | src/repositories/transactionRepository.ts:42-102 | whatever the cursor, every row of a page is of the user and meets each given bound on vault, type, date and amount; a page has at most as many rows as its limit |
| TransactionPages.PagesShowOnlyAskedFor | src/repositories/transactionRepository.ts:42-102 | so has every page reached by following cursors |
| TransactionPages.PagesShowAllAskedFor | src/repositories/transactionRepository.ts:42-102 | when the rows asked for have exact cursors, the pages show a row of the table if and only if it is of the user and meets each given bound, in strictly descending order |
| TransactionPages.ExactCursor | src/utils/pagination.ts:34-48 | a cursor gives back timestamp and id when the time is whole milliseconds and the id has no bar |
| TransactionPages.SubMillisecondRowsAreSkipped | src/utils/pagination.ts:34-48 | two neighbours of the list inside one millisecond: pages of one row miss the second |
| TransactionPages.LimitZeroGoesNowhere | src/repositories/transactionRepository.ts:85-92 | with the limit 0 a page has no rows and no cursor and says exactly whether there are rows |
| Sorting.SortFiltered | src/repositories/transactionRepository.ts:48-82 | sorting what a filter keeps is filtering what was sorted |
| EvidenceReindex.EvidenceReindexer.ReindexEvidenceBatch | src/services/evidenceReindex.ts:62-116 | a batch, dying anywhere or not, keeps everything up to the cursor current and writes exactly the embeddings of its page, or of the part before its death; a finished one counts processed = reindexed + skipped, skipped being those that were current, and moves the cursor to the end of its page |
| EvidenceReindex.EvidenceReindexer.DoneMeansAllCurrent | src/services/evidenceReindex.ts:107-113 | a batch of size at least one that reports done leaves every milestone current |
| EvidenceReindex.EvidenceReindexer.RunReindexBatches | src/services/evidenceReindex.ts:139-166 | totals add up, and as many embeddings become current as are reported reindexed; done means every milestone is current; it is reached when there are more batches than milestones after the cursor, and a run that is not done has processed batches times size |
| EvidenceReindex.ReindexedAreNew | src/services/evidenceReindex.ts:81-105 | a finished batch over milestones with distinct ids makes exactly as many embeddings current as it reports reindexed |
| EvidenceReindex.RemainingElements | src/repositories/milestoneRepository.ts:123-135 | the listing holds exactly the ids after the cursor in ascending order |
| EvidenceReindex.CursorShrinks | src/repositories/milestoneRepository.ts:123-135 | moving the cursor to the end of a page leaves at least the page behind |
| EvidenceReindex.CrashesOnlyDelay | src/services/evidenceReindex.ts:62-166 | over any sequence of batches and runs, crashes anywhere in between: once more batches have finished than there were milestones after the cursor, one of them has reported done and every milestone is current |
| EvidenceReindex.BatchSizeZeroFindsNothing | src/services/evidenceReindex.ts:74-79 | a batch size of zero reports done and changes nothing, wherever the cursor is |
| TrendBuckets.BuildTrendBuckets | src/routes/analytics.ts:48-87 | the two loops build as many buckets as the range takes, each with its start, its cut-off end and the counts of its slot; all but the last are 86,400,000 or 604,800,000 milliseconds wide |
| TrendBuckets.BucketsPartitionRange | src/routes/analytics.ts:57-66 | the buckets are contiguous, disjoint and cover the range to the millisecond |
| TrendBuckets.ExactlyOneBucket | src/routes/analytics.ts:57-66 | every time of the range lies in exactly one bucket, no other time in any |
| TrendBuckets.IndexOfTime | src/routes/analytics.ts:69-71 | the rounded-down quotient names the bucket whose slot holds the time, also before the range |
| TrendBuckets.CountIs | src/routes/analytics.ts:68-84 | the counts of the buckets are numbers of events: those inside the times, of which only the successful, only the failed, or all |
| TrendBuckets.TotalsCountEvents | src/routes/analytics.ts:68-84 | each total is successes plus failures; the totals count the events up to the horizon of the last bucket, which are the events of the range if and only if none lies between its end and that horizon |
| TrendBuckets.EveryEventInItsBucket | src/routes/analytics.ts:68-86 | with all events in the range, as the route asks for them, each bucket counts exactly the events, the successful and the failed ones between the ends it shows, and the totals add up to all events |
| TrendBuckets.LastBucketCountsPastItsEnd | src/routes/analytics.ts:58-76 | for every range the last bucket counts, besides the events between its ends, every event from the end of the range up to the horizon, and such events lie in no bucket |

## Left out

- OutboxRelaySpec.EveryRowCloses: `ORDER BY created_at` is insertion order, so no two rows are created at one time and none is committed after a later one; one relay at a time, so the rows that `SKIP LOCKED` would pass over are not modelled.
- HorizonListenerSpec.ReadsHarmlessIff: the states that the invariant allows may include some that no run reaches; for the checkpoints found at the beginning `ReadErrorSkipsIff` gives the run.
- EvidenceReindex.EvidenceReindexer.ReindexEvidenceBatch: a death between the write of the cursor and the return has the effect of a finished batch and is not told apart from it.
- IdempotencySpec.InternalKeyIdentifies: covers the scoped keys of the two routes, not the unscoped key of the expiration scheduler.
- SecurityMonitorProofs.AnswersAreStateless: holds for a clock that does not go back; `Date.now` can, after a correction of the system time.
- JobQueueProgress.ExecutionsBounded: counts forced retries of dead letters as new work, because they reset the attempts.
- HorizonListenerSpec.RestartNeverSkips: delivery is one event at a time in ledger order, the configuration is fixed and no operator resets a checkpoint; the live stream itself is a placeholder in the code.
- TransactionPages.PagesExactIff: the table stands still while the pages are read; rows inserted meanwhile are not modelled.
- SorobanPoolProofs.NeverSwitchesAfterSend: speaks of sends that return; a send that took effect but whose answer was lost is outside what the loop can know.
- AbuseScore.ScoreIsBestWindow: scores are reals, so the rounding of floating-point numbers is not modelled.
- The job queue's histories of completed and failed jobs with their trimming, the messages and times in dead letters, `getMetrics`, and the wait for active jobs in `stop`.
- The `draining` flag and handlers that call back into the queue before their first await: a drain is one atomic step.
- Options that are not integers: they are rounded down before the model sees them.
- One clock reading stands for all readings of a synchronous stretch.
- The audit writes of the event processor, the backoff delays, and the message texts of errors.
- Isolation anomalies of the database, and a relay batch that is rolled back as a whole.
- A payload in the outbox that is not JSON, and failures of the ETL enqueue, which the relay swallows.
- `sanitizeMetadata` and `normalizeTimestamp`: appends take metadata that is already sanitized and times as ISO texts.
- JSON values `undefined`, lone surrogates, and the key `__proto__`; keys are compared by character code, not by UTF-16 unit.
- The SHA-256 of the audit chain is any function that never collides, never yields the genesis hash and never the empty text.
- The reading of the client's address from headers, the order and the cut to ten of the snapshot's sources, and all logging.
- The hashing of actor ids in the abuse score: actors are already tokens.
- The Postgres quota repository, `reset`, and a daily limit that changes during the day.
- `setIdempotencyTtlMs` and `resetIdempotencyStore`; the hash of a payload is taken as given; a leader that never settles leaves its key pending, as in the code.
- The database-backed `getStoredResponse` and `storeResponse`.
- The waiting between retries, the RPC timeout that turns a slow call into an error, and the steps of a submission before its loop (SDK, key pair, contract call).
- The texts of milestones and their embedding vectors; the order of ids in the database is that of character codes.
- Milestones added or removed during a reindex, and a change of the model version.
- The listing by pages with offset, which only computes one slice.
- The Soroban contract, whose source is not part of this model, and the scheduler's advisory locks.
