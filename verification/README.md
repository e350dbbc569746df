# Verification of the stateful cores of the defence tracker

This project models the parts of the tracker whose correctness depends on state,
interleavings, crashes or clocks, and proves what they keep. Code that updates
objects in place is modelled as classes and methods; each of those methods is
proved to be one step of a specification function, and the theorems about whole
runs are proved for those functions. Threads, processes and crashes are modelled
as a step relation: an action that is not possible leaves the state alone, so
*every* sequence of actions is an interleaving, and every theorem quantifies over
all of them. Each `BEGIN IMMEDIATE … COMMIT` is one atomic step on a map, and a
transaction that raises is the identity.

## What is modelled

* **Webhook admission** (`AdmissionSpec`, `AdmissionWindow`, `AdmissionReference`,
  `AdmissionMemory`, `AdmissionSkew`, `AdmissionLimits`, `AdmissionController`,
  `ActorIdentity`): the sliding-window limiter over sender, chat and global scopes with lazily pruned
  deques, a periodic sweep and a concurrency gate. The clock is read before the
  lock is taken, so calls carry readings that may be out of order; the window
  theorem has that skew as a parameter and is shown to be tight.
* **Event deduplication** (`DedupeSpec`, `DedupeCapacity`, `DedupeRuns`,
  `DedupeAnswers`, `DedupeStore`): leased claims with tokens, expiry, completed-row retention,
  capacity eviction and rollback, over any sequence of transactions.
* **A webhook request end to end** (`WebhookRequest`, `WebhookConservation`,
  `WebhookNoLoss`, `WebhookPaths`, `WebhookLeases`): both leases followed through view, queue, worker,
  acknowledgement and teardown, any number of requests interleaved, with store
  failures and process crashes.
* **Capture jobs** (`CaptureJobs`, `CaptureJobProofs`, `CaptureJobAnswers`,
  `CaptureJobStore`): the eight
  statuses, compare-and-set writes, idempotency keys, control requests, retry, and
  what every initialisation and every start of the process does to the table.
* **The cancellation barrier** (`CaptureBarrier`, `CaptureBarrierProofs`,
  `CapturePaths`): workers,
  submitters and control requests over the job table and an arbitrary striping of
  jobs onto locks.
* **Capture accounting** (`CaptureAccounting`): asset rows, one archiving round
  with one worker or a pool, exceptions included, the worker loop and its counters.
* **Device tokens** (`DeviceCache`): the shared verification cache, with the clock
  reading, lookup, database read, insert and clear as separate steps.
* **The daily edition** (`DailyPackage`, `DailyVerdict`, `DailyIngest`, `DailyStore`): building,
  staging, renaming and verifying the package of one edition under concurrent
  ingests and crashes.
* **The vault migration** (`VaultMigration`): concurrent runs step by step, the
  application writing and deleting, and one run by itself as a method.
* **Source lines and article merge** (`SourceLine`, `SourceGrammar`, `ArticleMerge`,
  with `Text`):
  printer and parser of the source line, and the in-place merge of articles with
  shared source lists.

`Wrappers` and `Text` hold what several modules share. The theorems about runs use
specification functions; `AdmissionLimits`, `DedupeAnswers`, `CaptureJobAnswers`,
`DailyVerdict`, `SourceGrammar`, `WebhookPaths` and `CapturePaths` say what those
functions amount to with every limit, status, code and constant written out.

## Where the code differs from the obvious statement

* The deltas recorded by a capture run do **not** always add up to the growth of
  the archived count; there are two ways to lose a row. With two or more targets
  the pool catches a fetch that fails after its document was stored: if that
  document sits under an address it redirected to, the failure row goes under the
  original one, the archived row stays, and the attempt counts no archived asset
  (`CaptureAccounting.StrayExample`). And a round that raises before its attempt is
  recorded, because the parser is unavailable, a single worker meets any exception,
  or the record itself fails, keeps whatever it archived
  (`CaptureAccounting.RaiseExample`). `CaptureAccounting.DeltasAddUpIff` says for every
  ending that the deltas add up exactly when no executed round does either, and
  `CaptureAccounting.HarmlessDeltasAddUp` gives a condition on the rounds alone.
* `target_reached` is reported exactly when the count has reached the target *and*
  the run had at least one query and one round (`CaptureAccounting.RunBalances`). The
  program falls back to the session's topic or a fixed query, so a run without any
  query is practically out of reach.
* Revocation does not always take effect at once: a verification that read the
  database before the revocation may store its yes after the cache was cleared
  (`DeviceCache.RevokedTokenIsAccepted` is such a run from the start of the program).
  After the clear, a verification that begins later can be answered yes exactly when
  such a yes is pending with a clock reading less than sixty seconds old
  (`DeviceCache.LaterYesAfterClearIff`), and all answers from then on are no exactly
  when none is pending at all (`DeviceCache.NewYesAfterClearIff`). `DeviceCache.LaterYesIff`
  and `DeviceCache.NewYesIff` are the same for any reachable state, and the sixty second
  bound holds always (`DeviceCache.StalenessIsBounded`).
* After the migration marker is published a deleted vault file can still come back
  through a run that had passed its marker check before
  (`VaultMigration.DeletedFileComesBack`), and only through one
  (`VaultMigration.DeletedStaysDeleted`). `VaultMigration.ComesBackIff` says exactly which
  such runs can do it, in any state.
* The source-line parser drops a space between a name and its month, the printer
  does not put it back: a name ending in a digit is parsed from such a line but
  swallows the month when printed (`SourceLine.DigitNameIsParsedButNotPrinted`).
  `SourceLine.LineRoundTripIff` and `SourceLine.NormalFormIff` give the exact conditions.
* The user's reason for a cancel or block does not survive every start of the
  process. Recovery writes its own text over the reason of a request that was still
  pending (`CaptureJobProofs.PendingReasonIsReplaced`), and the scrub that runs at each
  start redacts whatever looks like a credential in the reason of a job in any status
  (`CaptureJobProofs.AcknowledgedReasonIsRedacted`). `CaptureJobProofs.RestartReasonIff` is
  the exact condition for one start, `CaptureJobProofs.ReasonSurvivesIff` the one for a
  whole run, and between two starts no write the program issues touches the reason
  (`CaptureJobProofs.ReasonSurvivesWithoutRestart`).
* The takeover `UPDATE` of the deduplication store can never run
  (`DedupeCapacity.TakeoverUnreachable`).

## Model

| member | source | states |
|---|---|---|
| AdmissionLimits.EveryIntervalWithinLimits | feishu_webhook_security.py:303-356 | With readings out of order by at most `skew`, every half-open interval of `window_seconds` minus the skew or shorter holds at most `sender_events` grants and `sender_cost` cost of any one sender, `chat_events` and `chat_cost` of any one chat, and `global_events` and `global_cost` in all, counted off the granted calls |
| AdmissionLimits.VerdictIff | feishu_webhook_security.py:303-356 | The verdict of any call in any state: invalid actor, invalid cost, each of the six codes by name with the limit it stands for, capacity, or granted, each exactly when |
| AdmissionLimits.GrantedIff | feishu_webhook_security.py:329-356 | With readings that do not go back, a well-formed call is granted exactly when, counting every grant of the last `window_seconds`, one more event and its cost fit the sender, chat and global limits and fewer than `max_inflight` slots are taken |
| AdmissionLimits.GrantLeaves | feishu_webhook_security.py:330-356 | A granted call appends its own grant to each deque of its senders, its chat and the whole, takes one slot, and a sweep falls due again after the window, a minute at most |
| AdmissionLimits.LiveIsHistory | feishu_webhook_security.py:338-342 | The entries a limit is tested on are exactly the grants of the scope in the last `window_seconds`, by number and by cost |
| AdmissionLimits.WellFormedIff | feishu_webhook_security.py:273-284 | Accepted limits are all positive |
| AdmissionWindow.SkewedWindowBound | feishu_webhook_security.py:303-356 | For every run whose readings are out of order by at most `skew`, every scope and every half-open interval no longer than the window minus `skew`: at most the event limit of grants and at most the cost limit of cost |
| AdmissionWindow.BucketIsSuffix | feishu_webhook_security.py:330-342 | A stored deque is always a suffix of all grants of its scope; everything dropped is older than the highest reading minus the window |
| AdmissionWindow.PruneIsSuffix | feishu_webhook_security.py:332-341 | Popping drops a prefix of expired entries and stops at the first live one |
| AdmissionWindow.AcquireBucket | feishu_webhook_security.py:329-356 | What one call does to one deque: prune it or leave it, and append the grant exactly when the call is granted and charges the scope |
| AdmissionWindow.NothingBroken | feishu_webhook_security.py:344-349 | No broken limit found means every scope has room for one more event and for the cost |
| AdmissionWindow.GrantedWithinLimits | feishu_webhook_security.py:344-356 | A granted call fits both limits of every scope it charges |
| AdmissionWindow.GrantFits | feishu_webhook_security.py:308-356 | With late readings up to `skew`, the grants of a scope in an interval around a granted call still leave room for it |
| AdmissionSkew.BeyondTheSkewTheBoundFails | feishu_webhook_security.py:308-329 | The skew term is needed: for every non-negative skew and every positive length greater than the window minus the skew there is a run, out of order by at most the skew, whose grants in such an interval exceed both the event and the cost limit |
| AdmissionReference.LazyRefinesFullHistory | feishu_webhook_security.py:329-356 | With non-decreasing readings the next call gets the same verdict and the same rejection code from the lazy deques as from a limiter that keeps every grant and filters by time |
| AdmissionReference.ReferenceRemembersGrants | feishu_webhook_security.py:329-356 | The full-history limiter remembers exactly the grants the code gave and counts the same slots in flight |
| AdmissionReference.PrunedIsLive | feishu_webhook_security.py:338-342 | What pruning leaves is exactly what filtering all grants of the scope by timestamp leaves |
| AdmissionReference.FirstBrokenIsFirst | feishu_webhook_security.py:344-349 | A rejection names the first scope, in sender, chat, global order, that would break a limit; the event limit wins over the cost limit; no rejection means all fit |
| AdmissionReference.RejectionChargesNothing | feishu_webhook_security.py:344-356 | A call that was not granted can be erased from the run: every later call is answered as if it had never been made |
| AdmissionMemory.StoredScopesBounded | feishu_webhook_security.py:330-336 | With non-decreasing readings from zero the dictionary never holds more than 8 · global_events + 1 scopes |
| AdmissionMemory.StoredScopesAreRecent | feishu_webhook_security.py:330-336 | Between sweeps every stored scope but the global one was charged after the last sweep minus the window, and the next sweep is due after every reading so far |
| AdmissionMemory.SurvivorIsRecent | feishu_webhook_security.py:331-335 | A scope that survives a sweep has a grant inside the window |
| AdmissionController.WebhookAdmissionController.Acquire | feishu_webhook_security.py:303-356 | One call is one atomic step of the specification; a lease is created and a slot counted exactly on a grant |
| AdmissionController.WebhookAdmissionController.ReleaseSlot | feishu_webhook_security.py:297-301 | Raises exactly when nothing is in flight and then changes nothing |
| AdmissionController.WebhookAdmissionController.Cleanup | feishu_webhook_security.py:330-336 | The sweep leaves exactly the scopes with a live entry, each pruned |
| AdmissionController.WebhookAdmissionController.CollectBuckets | feishu_webhook_security.py:337-343 | Prunes the request's deques in place, even if the request is rejected later |
| AdmissionController.WebhookAdmissionController.FindBroken | feishu_webhook_security.py:344-349 | Finds the first broken limit in scope order |
| AdmissionController.WebhookAdmissionController.Charge | feishu_webhook_security.py:352-355 | Appends the grant to every scope of the call and to no other |
| AdmissionController.WebhookAdmissionController.PopExpired | feishu_webhook_security.py:332-333 | Pops expired entries from the front only |
| AdmissionController.WebhookAdmissionLease.Release | feishu_webhook_security.py:245-251 | The first release gives the slot back, later ones do nothing, and the underflow error cannot occur |
| ActorIdentity.ExtractEventActor | feishu_webhook_security.py:100-131 | Every extracted actor has one to three sender ids and a chat, its scopes are pairwise distinct, and admission never rejects its shape |
| ActorIdentity.ExtractedIff | feishu_webhook_security.py:100-131 | An actor is extracted exactly when the chat and every sender field that is there are valid and one is there; it has the stripped chat and the stripped ids behind their namespaces, in order |
| ActorIdentity.RejectedWith | feishu_webhook_security.py:100-131 | Which code a rejection carries, in the order of the tests |
| ActorIdentity.ValueIff | feishu_webhook_security.py:91-97 | A value is accepted exactly when, stripped, it has one to 256 characters of letters, digits, dot, underscore and hyphen; the stripped value is the result |
| ActorIdentity.NamespacesApart | feishu_webhook_security.py:119-128 | Namespace prefixes keep the sender ids of one actor distinct |
| ActorIdentity.CanonicalIds | feishu_webhook_security.py:119-128 | At most three canonical ids, all different |
| ActorIdentity.ValidatedActorValue | feishu_webhook_security.py:91-97 | An accepted value has one to 256 characters of the allowed alphabet |
| DedupeRuns.GrantsAreSeparated | feishu_webhook_security.py:722-850 | Between two grants of one event the first claim was released by its own token, or a clock moved past its lease, or it was completed by its own token and the completed row was later forgotten |
| DedupeRuns.FateOf | feishu_webhook_security.py:722-850 | What has become of a claim nobody re-granted: still held, finished by its token, or gone for one of those three reasons |
| DedupeRuns.UntouchedClaimLastsItsLease | feishu_webhook_security.py:735-768 | With clocks that do not go back, a claim nobody closed keeps the event for at least `lease_seconds` |
| DedupeRuns.StaleTokenIsInert | feishu_webhook_security.py:812-850 | After a re-grant, completing or releasing with the earlier token changes nothing, at any later time |
| DedupeRuns.TokensOnlyGrow | feishu_webhook_security.py:726-780 | Once re-granted, the row of an event never carries an older token again |
| DedupeRuns.UnfinishedEventComesBack | feishu_webhook_security.py:736-794 | An event whose holder did not complete it is never a duplicate once its lease has run out: it is granted, or the store is full of running leases |
| DedupeRuns.ReleasedEventComesBack | feishu_webhook_security.py:827-832 | An event released by its holder is not a duplicate for the next acquire, at once |
| DedupeRuns.RowStep | feishu_webhook_security.py:722-850 | The only ways the row of an event can change in a step that does not grant it |
| DedupeAnswers.AnswerIff | feishu_webhook_security.py:736-794 | An acquire is a duplicate exactly when the event has a lease with `expires > now` or a completion at or after `now - ttl_seconds`; else it is granted, unless running leases alone fill the store |
| DedupeAnswers.AcquireLeaves | feishu_webhook_security.py:736-780 | After an acquire that returns, no completed row is older than the time to live, no lease has run out, every row is one that was there, except the claim granted, which runs for `lease_seconds` |
| DedupeAnswers.AcquireDeletes | feishu_webhook_security.py:736-770 | What an acquire that returns deletes: exactly what has run out, and into a full store as many completed rows as leave one place, the oldest |
| DedupeAnswers.EvictionAnswer | feishu_webhook_security.py:763-770 | What the eviction statement may select, with any order among equal completion times |
| DedupeAnswers.FinishIff | feishu_webhook_security.py:812-850 | Completing and releasing act exactly when the row is a lease with this token, expired or not |
| DedupeCapacity.TakeoverUnreachable | feishu_webhook_security.py:741-794 | No row the acquire finds after its purge is an expired lease, so the takeover branch is dead |
| DedupeCapacity.AcquireOutcome | feishu_webhook_security.py:751-804 | Exactly when the answer is duplicate, granted or capacity error, in terms of the surviving rows |
| DedupeCapacity.GrantWithinCapacity | feishu_webhook_security.py:759-780 | A grant leaves at most `max_entries` rows and the new lease expires `lease_seconds` after the reading |
| DedupeCapacity.GrantKeepsLiveLeases | feishu_webhook_security.py:736-780 | A grant touches no running lease and invents no other row |
| DedupeCapacity.EvictedAreOldest | feishu_webhook_security.py:763-770 | A row evicted for capacity is completed and no newer than any completed row that stays |
| DedupeStore.PersistentEventDeduper.Acquire | feishu_webhook_security.py:722-810 | The call as one transaction: which error, which outcome, a lease exactly on a grant, and an unchanged table on every raise |
| DedupeStore.PersistentEventDeduper.Claim | feishu_webhook_security.py:735-795 | The statements of the transaction compute the specified table and outcome |
| DedupeStore.PersistentEventDeduper.PurgeExpired | feishu_webhook_security.py:736-745 | Exactly the surviving rows are left |
| DedupeStore.PersistentEventDeduper.MakeRoom | feishu_webhook_security.py:759-770 | Evicts the oldest completed rows, and only when the table is full |
| DedupeStore.PersistentEventDeduper.SelectOldest | feishu_webhook_security.py:764-769 | Selects as many completed rows as asked for or exist, none newer than one it leaves |
| DedupeStore.EventLease.Complete | feishu_webhook_security.py:608-616 | Completes at most once, by token and regardless of expiry; a failed store leaves the lease open |
| DedupeStore.EventLease.Release | feishu_webhook_security.py:618-624 | Releases at most once; a failed store leaves the lease open |
| DedupeStore.EventLease.Exit | feishu_webhook_security.py:629-637 | Leaving the block completes or releases unless the lease is closed or handed off |
| WebhookConservation.SlotsConserved | feishu_cloud.py:138-174 | At every moment the gate's counter equals the granted slots not yet returned, lies between 0 and `max_inflight`, and no pending return can underflow |
| WebhookConservation.QuietRequestsHoldNothing | feishu_cloud.py:138-174 | A request with nothing left to do has returned its slot on whichever path, and owns no row unless the store failed; when all are quiet the counter is zero |
| WebhookConservation.ActiveWorkersOwnBothLeases | feishu_cloud.py:138-153 | While a job is queued or running nobody else has closed its event lease or returned its slot, so at most `max_inflight` jobs are active |
| WebhookConservation.CompletionNeedsSuccess | feishu_webhook_security.py:915-939 | A row becomes completed only in a step of its own request, holding the row, after the view acknowledged or the worker function returned |
| WebhookConservation.InvAlways | feishu_cloud.py:2775-2983 | The conservation invariant holds in every reachable state, crashes included |
| WebhookConservation.StepKeepsInv | feishu_cloud.py:138-174 | Every step of view, worker, teardown hook or crash keeps it |
| WebhookConservation.ReturningKeeps | feishu_webhook_security.py:297-301 | Each of the four places that return a slot does so at most once and never meets an empty counter |
| WebhookConservation.ClosingKeeps | feishu_cloud.py:138-174 | Each of the five places that close the event lease keeps claims and counters consistent, whether or not the store fails |
| WebhookConservation.AdmitKeeps | feishu_cloud.py:2775-2983 | Admission pairs a claimed event with a counted slot or leaves it unpaired |
| WebhookLeases.AckWebhookEvent | feishu_cloud.py:156-162 | Completes the event by token and returns the slot exactly once, whatever the store does |
| WebhookLeases.QueueWebhookJob | feishu_cloud.py:138-153 | An accepted submission hands both leases over and touches nothing; a refused one returns the slot and releases the event |
| WebhookLeases.RunJob | feishu_webhook_security.py:915-939 | The slot goes back once when the function is over; only a function that returned completes the event, any other releases it |
| WebhookLeases.ReleaseUnhanded | feishu_cloud.py:165-174 | Nothing for a handed-off pair, otherwise the event is released if still open and the slot is back |
| WebhookConservation.QuiescentIff | feishu_cloud.py:138-174 | A request has nothing left to do exactly when neither its view nor its worker has a step to take |
| WebhookNoLoss.TableIsProtocolRun | feishu_webhook_security.py:722-850 | The delivery table of any run of the webhook, crashes included, is the table of a valid run of the claim protocol made of the transactions it committed |
| WebhookNoLoss.NoEventIsLost | feishu_webhook_security.py:915-939 | After any interleaving of requests, failing workers, failing stores and crashes, an event whose latest claim was not completed is claimed by the next delivery from `lease_seconds` after that claim on, unless the store is full of running leases; it is never a duplicate |
| WebhookNoLoss.FailedEventComesBackAtOnce | feishu_cloud.py:138-174 | From the step on that gives an event back, after a failed worker function, a refused submission, a refused request or teardown, with a working store and the row still carrying the token: any delivery at any time claims it again until somebody does, unless the store is full of running leases |
| WebhookNoLoss.ClaimLingers | feishu_webhook_security.py:722-850 | Until it is completed or given out again, the row of a claimed event is that claim or absent |
| WebhookNoLoss.CompletionMeansSuccess | feishu_webhook_security.py:924-931 | Only a request whose view acknowledged or whose worker function returned commits the completion of its claim |
| WebhookNoLoss.StoreStep | feishu_cloud.py:138-174 | One step of the webhook is at most one transaction of the claim protocol, and an admissible one |
| WebhookPaths.ArrivalBegins | feishu_cloud.py:2775-2790 | An arrival leaves no request exactly when its event is known or the store is full; otherwise a request begins that holds the event |
| WebhookPaths.AcknowledgedPath | feishu_cloud.py:156-174 | Acknowledged: the event is completed at that time, the slot is back, and teardown finds nothing to do |
| WebhookPaths.WorkerPath | feishu_cloud.py:138-153 | Queued: both leases pass to the worker, the slot returns first, and the event is completed or given back as the function ended |
| WebhookPaths.RefusedSubmissionPath | feishu_cloud.py:138-153 | A refused submission gives back event and slot in the view |
| WebhookPaths.RaisedPath | feishu_cloud.py:165-174 | When the view raises, the teardown hook gives back event and slot |
| WebhookPaths.RefusedPath | feishu_cloud.py:2790-2815 | A refused request gives its event back and holds no slot |
| WebhookPaths.Admission | feishu_cloud.py:2790-2815 | Admission pairs the request with a slot exactly when the gate grants |
| CaptureJobProofs.ControlIsIrrevocable | consulting_agent.py:1585-1609 | A job with a pending or acknowledged control request is in that status or its own terminal in every later state, across worker writes, opposite requests, retries and restarts |
| CaptureJobProofs.ReasonSurvivesIff | consulting_agent.py:1678-1690 | From the moment a job is under control its reason stays untouched exactly when every later operation is of the kind that keeps it: no restart that finds the request pending with another text, no start-up scrub that redacts part of it, no accepted update that sets another reason without a terminal status |
| CaptureJobProofs.RestartReasonIff | consulting_agent.py:170-191 | A restart leaves the reason of a controlled job as it was exactly when the request was acknowledged and the scrub does not change the reason, or it was pending and the reason is already the text recovery writes |
| CaptureJobProofs.ReasonStepIff | consulting_agent.py:1612-1706 | For one operation of any kind: exactly when it leaves the reason of a controlled job alone |
| CaptureJobProofs.ReasonSurvivesWithoutRestart | consulting_agent.py:1678-1690 | Between two starts, with updates of the kinds the program issues (a reason only with a terminal status), the reason survives every write, checkpoint, control request, retry and initialisation |
| CaptureJobProofs.PendingReasonIsReplaced | consulting_agent.py:365-374 | A concrete run: cancelled, then restarted before the worker saw it; the reason is the text of recovery |
| CaptureJobProofs.AcknowledgedReasonIsRedacted | consulting_agent.py:170-191 | A concrete run: cancelled with a reason that looks like a credential and acknowledged; after the next start the reason is redacted |
| CaptureJobProofs.UpdateTouchesReasonIff | consulting_agent.py:1612-1706 | Exactly when an accepted update changes the reason of a controlled job; a late terminal write never does and lands in the control terminal |
| CaptureJobProofs.JobStep | consulting_agent.py:1498-1862 | No operation deletes a job, moves it or changes its key, and every status change is one of the transition table |
| CaptureJobProofs.IndexesAlwaysHold | consulting_agent.py:1507-1555 | At most one active job a session and one job a key in every reachable table, so neither unique index can reject a write |
| CaptureJobProofs.NewlyActive | consulting_agent.py:1822-1858 | Only a create or a retry makes a job active, and only in a session without an active job |
| CaptureJobProofs.RecoveryEnablesTheIndex | consulting_agent.py:549-599 | The first initialisation leaves no active row in any table whatsoever, says what becomes of each row, and changes nothing but reason and payload of rows that were not active |
| CaptureJobProofs.CreateReplays | consulting_agent.py:1507-1555 | Repeating a create with the same key finds the first job at any later time and changes nothing |
| CaptureJobProofs.ClaimsBoundedByRetries | consulting_agent.py:1709-1732 | Successful claims of a job never exceed one plus its successful retries |
| CaptureJobAnswers.UpdateAcceptedIff | consulting_agent.py:1585-1609 | An update is accepted exactly without a status, with the status the job has, for queued to running or failed, running to completed or failed, and with a control request pending its own terminal or a worker terminal |
| CaptureJobAnswers.UpdateStores | consulting_agent.py:1646-1706 | What an accepted update stores: the status, every given field, every absent field as it was, and for a late worker terminal no error and the old reason |
| CaptureJobAnswers.UpdateRefused | consulting_agent.py:1646-1706 | A refused update names the transition, or the missing job, and changes nothing |
| CaptureJobAnswers.ReasonsKnown | consulting_agent.py:33-46 | The twelve reasons the program knows; any other becomes the fallback |
| CaptureJobAnswers.CreateAnswer | consulting_agent.py:1498-1555 | Exactly when a create is a replay, a conflict with the earliest job that is not over, or a new job |
| CaptureJobAnswers.NewJobFields | consulting_agent.py:1533-1552 | The fields of a new job, with the defaults and minimums |
| CaptureJobAnswers.ClaimIff | consulting_agent.py:1709-1732 | A claim succeeds exactly for a queued job and makes it running |
| CaptureJobAnswers.CheckpointAnswer | consulting_agent.py:1791-1819 | A checkpoint turns a pending request into its terminal and leaves any other status |
| CaptureJobAnswers.CancelAnswer | consulting_agent.py:1735-1780 | What a cancel answers and writes in each of the eight statuses |
| CaptureJobAnswers.BlockAnswer | consulting_agent.py:1735-1780 | What a block answers and writes in each of the eight statuses |
| CaptureJobAnswers.RetryIff | consulting_agent.py:1822-1858 | A retry succeeds exactly for a failed job marked retryable in a session without another job that is not over, and resets it |
| CaptureJobAnswers.RestartAnswer | consulting_agent.py:348-398 | What the first initialisation of a process makes of a row in each of the eight statuses |
| CaptureJobAnswers.InitializeAnswer | consulting_agent.py:549-563 | What every later initialisation makes of it |
| CaptureJobStore.JobStore.constructor | consulting_agent.py:549-599 | Starting on any table with distinct keys normalises, scrubs and recovers it, in this order, and then satisfies both indexes |
| CaptureJobStore.JobStore.NormalizeReasons | consulting_agent.py:549-563 | Unknown reasons are replaced, except for jobs under control |
| CaptureJobStore.JobStore.ScrubSensitiveValues | consulting_agent.py:170-191 | Reason and payload of every row are redacted, whatever its status |
| CaptureJobStore.JobStore.RecoverInterrupted | consulting_agent.py:348-398 | The loop recovers every interrupted row and no other |
| CaptureJobStore.JobStore.UpdateCaptureJob | consulting_agent.py:1612-1706 | Initialisation, then the compare-and-set update as specified, each field on its own, keeping both indexes |
| CaptureJobStore.JobStore.CreateJob | consulting_agent.py:1498-1555 | Initialisation and the create transaction, with its replay and conflict answers, keeping both indexes |
| CaptureJobStore.JobStore.ClaimCaptureJob | consulting_agent.py:1709-1732 | Claims a queued job and nothing else |
| CaptureJobStore.JobStore.RequestCaptureJobControl | consulting_agent.py:1735-1780 | Cancel or block as specified, keeping both indexes |
| CaptureJobStore.JobStore.CheckpointCaptureJob | consulting_agent.py:1791-1819 | Acknowledges a pending request and reports the status |
| CaptureJobStore.JobStore.RetryCaptureJob | consulting_agent.py:1822-1858 | Requeues a retryable failed job of a session without an active one |
| CaptureJobStore.JobStore.FirstOf | consulting_agent.py:1524-1532 | The conflict answer names the earliest active job |
| CaptureBarrierProofs.ResponseIsABarrier | app.py:7533-7555 | Once a cancel or block response is sent, in every later state of every interleaving no external phase of the job runs, the request stands and no query, evidence, asset or attempt row of it has been written since |
| CaptureBarrierProofs.OneLiveWorkerPerJob | app.py:7290-7439 | Never two unfinished workers for one job, across submissions, full queues, retries and restarts; none for a completed or failed job |
| CaptureBarrierProofs.FencedStep | app.py:130-138 | Once the control handler has been inside the stripe, no worker of the job is or becomes authorised, collisions between jobs included |
| CaptureBarrierProofs.LocksStep | app.py:130-138 | Every stripe is held by exactly the threads that are inside it |
| CaptureBarrierProofs.EffectStep | app.py:7318-7397 | Rows for a job are written only by a worker authorised for it |
| CaptureBarrierProofs.InvAlways | app.py:7290-7439 | The barrier invariant holds in every reachable state |
| CaptureBarrierProofs.TicketsAlwaysOk | app.py:7464-7481 | At most one request or worker may still act for a job, in every reachable state |
| CapturePaths.SubmissionPath | app.py:7464-7481 | A created job has a worker waiting, or with a full queue is failed |
| CapturePaths.RoundPath | app.py:7307-7403 | One undisturbed round searches and archives under the stripe, leaves a row of each, frees the stripe, and goes on or ends |
| CapturePaths.CompletionPath | app.py:7298-7412 | A worker claims a queued job, and one that leaves its loop completes it |
| CapturePaths.FaultPath | app.py:7415-7439 | A worker that meets an exception fails its job |
| CapturePaths.CancelPath | app.py:7533-7555 | A cancel of a running job is answered once the stripe is free; a worker that then takes the stripe acknowledges it and stops without writing |
| CapturePaths.RetryPath | app.py:7500-7530 | A retryable failed job of an idle session is queued and submitted again |
| CapturePaths.RestartPath | consulting_agent.py:573-599 | A restart drops every thread and lock and recovers the table, which is a state a process may start from |
| CaptureAccounting.DeltasAddUpIff | app.py:7305-7412 | Whatever the ending, the recorded deltas add up to the growth of the archived count exactly when no round that is run loses a row: none fetches a target that fails late and leaves its archived row, and none raises before its attempt is recorded after a fetch left an archived row |
| CaptureAccounting.HarmlessDeltasAddUp | app.py:7305-7412 | The deltas add up whenever every round either lets no exception out and records its attempt, or archives nothing, whatever is stored when it runs |
| CaptureAccounting.RunBalances | app.py:7305-7412 | For every ending, raising included: the archived count never falls; its growth is the sum of the recorded deltas plus the rows no attempt counted; at most `max_rounds` attempts; `target_reached` exactly when the count reached the target and there was a round to run |
| CaptureAccounting.RoundKeepsBalance | app.py:7305-7403 | One round, raising or not: the count does not fall, the balance is kept, and the loop goes on only below the target |
| CaptureAccounting.RoundLosesIff | app.py:7357-7391 | A round leaves an uncounted archived row exactly when a fetch it runs leaves one and the round raises before recording or the fetch failed late |
| CaptureAccounting.RoundGrowth | consulting_agent.py:1318-1384 | The archived count grows by exactly the reported archived assets plus the strays, wherever an exception stopped the round |
| CaptureAccounting.StoreOne | app.py:7035-7156 | One fetch of fetchable evidence adds an archived row exactly when it succeeds with enough words, or fails late without a failure row at the same address |
| CaptureAccounting.RunsAreTargets | app.py:7159-7211 | With one worker or a pool, the fetches that are run are targets of the round, each at most once |
| CaptureAccounting.StrayExample | app.py:7174-7211 | A concrete two-document round that ends normally with an archived row its attempt does not count |
| CaptureAccounting.RaiseExample | app.py:7185-7192 | A concrete two-document round that raises after archiving: the row stays and no attempt is recorded |
| CaptureAccounting.TargetIff | app.py:7349-7356 | Evidence found in a round is fetched exactly when none of its rows is archived and none needs the user |
| CaptureAccounting.SettledRowsStay | app.py:7349-7356 | A row that is archived or waits for the user is unchanged by every later round of a run |
| CaptureAccounting.DeltasCount | app.py:7369-7391 | Each delta of an attempt, by how its fetches went, with 120 words as the line between archived and partial |
| CaptureAccounting.FetchStores | app.py:7035-7156 | The rows each kind of fetch stores |
| CaptureAccounting.WorkersDecide | app.py:7159-7211 | One target or a batch of one stops at the first exception; otherwise every target is run and all exceptions are noted unless one is fatal or cannot be noted |
| CaptureAccounting.TargetsAreFetchable | app.py:7349-7356 | Exactly the evidence without an archived or needs-user asset is fetched, each once |
| CaptureAccounting.CaptureRun.Run | app.py:7305-7412 | The loop, with its early ends, leaves the rows, attempts and ending of the specified run |
| CaptureAccounting.CaptureRun.ArchiveMany | app.py:7159-7211 | With one worker the first exception ends it; a pool runs every target, notes what it collects and raises on a fatal one; each delta is the number of fetches that reported that status |
| CaptureAccounting.CaptureRun.OneRound | app.py:7305-7403 | One turn of the loop: checkpoints, target test, targets, archiving and the recorded attempt, in this order |
| CaptureAccounting.CaptureRun.ChooseTargets | app.py:7349-7356 | The loop collects the unsettled evidence in order |
| CaptureAccounting.CaptureRun.Counts | consulting_agent.py:1420-1441 | Each counter is the number of rows with that status |
| DeviceCache.StalenessIsBounded | auth_devices.py:92-118 | In every interleaving a verification whose clock reading is 60 seconds or more after the revocation committed answers no, even after a racing re-insert |
| DeviceCache.VerificationSteps | auth_devices.py:92-118 | The steps of a verification: a cache entry younger than 60 seconds answers, else the database; the result is stored, and a cache over 256 entries is emptied |
| DeviceCache.RevocationSteps | auth_devices.py:128-137 | The steps of a revocation: the rows of the device are marked, then the cache is emptied |
| DeviceCache.RevocationTakesEffectAtOnce | auth_devices.py:128-137 | After the clear, with no verification of the token between its database read and its insert, every later answer is no |
| DeviceCache.LaterYesIff | auth_devices.py:92-137 | In any reachable state with the token revoked: some continuation answers yes to a verification that begins later exactly when the cache holds a positive entry, or a verification is about to store a yes, whose clock reading is less than 60 seconds old |
| DeviceCache.LaterYesAfterClearIff | auth_devices.py:128-137 | Right after the clear: a verification that begins later can be answered yes exactly when a yes less than 60 seconds old is on its way to the cache |
| DeviceCache.NewYesIff | auth_devices.py:92-137 | In any reachable state with the token revoked: some yes not given yet, to a verification begun earlier or later, can still be given exactly when one is about to be stored, a verification about to look would find a positive entry, or one beginning now would |
| DeviceCache.NewYesAfterClearIff | auth_devices.py:128-137 | Right after the clear: every answer given from then on is no, whichever verification it is for, exactly when no yes is on its way to the cache |
| DeviceCache.OutdatedStep | auth_devices.py:92-118 | Once all positive results of a revoked token are 60 seconds old, no step makes one usable for a verification begun since |
| DeviceCache.InFlightVerificationDefeatsTheClear | auth_devices.py:92-118 | After a clear, with a pending yes less than 60 seconds old: storing it and beginning a new verification ends in a yes |
| DeviceCache.RevokedTokenIsAccepted | auth_devices.py:92-137 | A concrete run from the start of the program in which a verification that begins after the revocation cleared the cache is answered yes |
| DeviceCache.InvAlways | auth_devices.py:92-137 | A positive answer still around goes back to a reading no later than the revocation, in every reachable state |
| DeviceCache.DeviceTokens.VerifyDeviceToken | auth_devices.py:92-118 | The answer, the new cache and its size limit; never yes for a revoked token when nothing interleaves |
| DeviceCache.DeviceTokens.RevokeDevice | auth_devices.py:128-137 | Revokes exactly the rows of the device, empties the cache and reports whether anything changed |
| DailyIngest.EditionIsAbsentOrComplete | app.py:4885-5004 | After any interleaving of ingests, failures and crashes the edition directory is absent or a package the verifier accepts for the request that wrote it; at most one ingest answered "not idempotent" |
| DailyIngest.EditionNeverChanges | app.py:4959-4990 | Once committed, the package never changes again |
| DailyIngest.SuccessMeansOwnEdition | app.py:4674-4745 | Every ingest that answered success finds a package that verifies for its own request |
| DailyIngest.RepeatAnswers | app.py:4901-4910 | With a package there, an ingest answers by content and mode alone: idempotent for the same, conflict for other content, refused for the other mode, package untouched |
| DailyIngest.ExecKeepsInv | app.py:4958-4990 | A staging directory holds exactly what has been written so far, and the target is absent or the one complete package |
| DailyIngest.StagedNamesAreNew | app.py:4647-4652 | The exclusive create in the staging directory never meets an existing name |
| DailyVerdict.AcceptedIff | app.py:4674-4745 | For any directory: accepted exactly when the manifest has this content, schema, edition, count and mode, lists exactly the six names, each once, the documents there are exactly those, and each has the bytes listed for its name |
| DailyVerdict.ConflictIff | app.py:4690-4691 | A conflict exactly when the manifest can be read and has another content |
| DailyVerdict.NamesWrittenOut | app.py:4863-4887 | The six document names, in order, as format strings of the titles and the edition |
| DailyVerdict.DocxIff | app.py:4721-4724 | The extension test, in either case of each letter |
| DailyVerdict.UnsafeIsDropped | app.py:4458-4462 | Each of the twelve characters is dropped wherever it stands in a title |
| DailyVerdict.SafeTitleIsCut | app.py:4458-4462 | What is left is stripped, replaced by the stock word if empty, and cut to forty characters |
| DailyIngest.AloneCommits | app.py:4901-5004 | With no package there, an undisturbed ingest commits its own complete package and answers as the first |
| DailyIngest.FailureAnswers | app.py:4912-4990 | What each failure answers, and that none touches the edition or another ingest |
| DailyPackage.CompleteVerifiesIff | app.py:4674-4745 | A package built for one request is accepted for another of the edition exactly when content and mode agree; otherwise it is the stated error |
| DailyPackage.NamesAreGood | app.py:4863-4887 | The six document names are distinct safe basenames ending in .docx and none is the manifest, whatever the titles |
| DailyPackage.ByNameOfEntries | app.py:4699-4719 | The digest table read back from the manifest has exactly the document names, each with its document's digest |
| DailyPackage.DocsHold | app.py:4962-4966 | The staged directory has exactly the names written so far, each with its own content |
| DailyPackage.SafeFilename | app.py:4458-4462 | At most forty characters and none that a path cannot hold |
| DailyStore.EditionShelf.Ingest | app.py:4901-5004 | One ingest: with a package there the verifier decides and nothing changes; otherwise each failure has its error and leaves nothing, and success commits the complete package at once |
| DailyStore.EditionShelf.Stage | app.py:4958-4967 | Writing file by file gives exactly the complete package, or nothing when a write fails |
| DailyStore.VerifyExisting | app.py:4674-4745 | The loops of the verifier compute the specified verdict |
| DailyStore.ReadEntries | app.py:4703-4717 | The manifest loop gives the digest table, or rejects on the first repeated or unsafe name |
| DailyStore.NoTableAfter | app.py:4703-4717 | One bad entry spoils the whole manifest |
| VaultMigration.OtherSteps | state.py:232-286 | What the application, a crash, a failing call and changes of the legacy directory do to the state |
| VaultMigration.ExistingEntrySurvives | state.py:232-286 | Over any runs, crashes and failures an existing vault entry changes only through the application |
| VaultMigration.FinishedLeavesNoGap | state.py:342-387 | Once a run has finished or the marker exists, a legacy file missing from the vault is one the application deleted |
| VaultMigration.DeletedStaysDeleted | state.py:361-369 | With the marker published and no run past its check for a file, that file never comes back without the application |
| VaultMigration.ComesBackIff | state.py:361-387 | In any state with the marker published and the file missing: it can come back without the application touching it exactly when a run has read it and is about to link it, or it is still in the legacy directory and some run is past its marker check, has not left it behind and is not stuck at opening the other file, which is gone |
| VaultMigration.HelpedRunResurrects | state.py:375-384 | Such a run does bring the file back, with others clearing the other file out of its way or restoring a source it has looked at |
| VaultMigration.PassedRunResurrects | state.py:375-384 | With no irregular entry and every looked-at source in place, a run past its marker check that has not left a legacy file behind brings it back by its own calls alone |
| VaultMigration.DeletedFileComesBack | state.py:361-387 | A concrete run from an empty vault: two overlapping runs, a published marker, a deletion, and the file is back without the application writing it |
| VaultMigration.LateRunOnlyCounts | state.py:361-369 | A run that checks after publication changes no entry and reports how many of the two files it sees |
| VaultMigration.StepKeepsInv | state.py:232-387 | Every file-system call keeps: what a run has passed is settled, and a marker means all is settled |
| VaultMigration.Vault.Migrate | state.py:342-387 | One run by itself: raises exactly on an unsafe entry it looks at, otherwise fills exactly the gaps with the legacy bytes, counts each file once and leaves the marker exactly when there was a legacy file |
| VaultMigration.Vault.CopyFile | state.py:232-286 | Copies exactly when the destination is absent and the source regular |
| VaultMigration.Vault.CountExisting | state.py:361-369 | With a marker: the number of files present, or the unsafe-entry error |
| VaultMigration.AloneIsCorrect | state.py:342-387 | The step machine run alone ends with an outcome and a vault meeting the same specification as the method |
| SourceGrammar.EntryIff | app.py:3839-3878 | A part is parsed exactly when it spells name, month, month sign, day, marker and title as the grammar says, and then as that entry |
| SourceGrammar.ValidDateIff | app.py:3867-3872 | The accepted dates are those of a leap year |
| SourceGrammar.SplitsAtEither | app.py:3837 | Either semicolon ends a part |
| SourceGrammar.PartsAppend | app.py:3837 | Blank pieces are skipped, the others stripped and kept in order |
| SourceGrammar.EitherWrapper | app.py:3826-3836 | The wrapper comes off with either kind of bracket and colon |
| SourceGrammar.NoWrapper | app.py:3826-3836 | Text without label and closing bracket is taken as it is |
| SourceLine.LineRoundTripIff | app.py:3824-3879 | Printing any list of entries and parsing the line gives the list back with nothing invalid exactly when every entry is well formed |
| SourceLine.NormalFormIff | app.py:3824-3879 | Parsing any text, printing and parsing again is stable exactly when no parsed entry has an empty title or a name ending in a digit |
| SourceLine.EntryRoundTrip | app.py:3839-3878 | For an entry of the shape the parser returns, the printed form parses to it when it is well formed and is invalid otherwise |
| SourceLine.ParsedIsSound | app.py:3839-3878 | Every parsed entry has a trimmed non-empty name without separators and a clean trimmed title |
| SourceLine.UnwrapPrinted | app.py:3826-3836 | The wrapper comes off the printed line whatever the first name starts with |
| SourceLine.PartsOfJoin | app.py:3837 | Splitting a printed line gives exactly the printed entries |
| SourceLine.HeadReadsBack | app.py:3848-3866 | Name and date before the marker read back exactly when the name does not end in a digit |
| SourceLine.LastMark | app.py:3840 | The last marker of a printed entry is the printer's own |
| SourceLine.TwoDigitsReadBack | app.py:102-103 | A two-digit month or day reads back as the number printed |
| SourceLine.DigitNameIsParsedButNotPrinted | app.py:3854-3858 | A concrete part whose entry does not survive printing |
| SourceLine.ParseSourceEntries | app.py:3824-3879 | The loop returns the unwrapped text, the parsed entries and the invalid parts of the specification, in order |
| SourceLine.ParseNameAndDate | app.py:3848-3873 | The inner loop over the month's digits computes the specified name and date |
| ArticleMerge.Dedup | app.py:2188-2212 | Output size plus duplicates equals the articles with a title to compare; each output is its group's survivor with its group's sources, in order; untitled articles are untouched and no two outputs share a list |
| ArticleMerge.KeyedCounts | app.py:2192-2195 | The articles counted are those whose title is not empty after normalisation |
| ArticleMerge.SurvivorIsEarliestBest | app.py:2207-2211 | The survivor of a group is the earliest article with the most stars |
| ArticleMerge.SourcesAreFirstSeen | app.py:2196-2206 | The merged sources are the group's distinct non-empty sources in first-seen order; an empty one only from the first article |
| ArticleMerge.OrderIsFirstOccurrence | app.py:2190-2197 | Each non-empty title once, in the order titles first appear |
| ArticleMerge.Join | app.py:2199-2211 | A later article adds its source to the shared list and takes over group and list only with more stars |
| ArticleMerge.MergeOne | app.py:2192-2211 | One turn of the loop keeps one list object per group and changes no other group's list |
| ArticleMerge.Collect | app.py:2188-2212 | The whole loop, with aliasing of list objects |

## Left out

- Signature checking, AES decryption, HMAC and hashing: an event, device token or document stands for its digest, so digests are injective in the model, and the 64-character check on stored digests is not modelled.
- HTTP, DNS, TLS, search, AI and Feishu calls: an external phase is a start and an end, its results are parameters.
- DOCX and PDF building, the window shell and process management: document bytes are parameters.
- The budget wrappers around AI and search, and the draft-job worker, which repeats the capture barrier.
- Regex scoring tables, prompts and the text rules of briefs; the checks of an ingest's input and its seven-day recovery window: an ingest starts from validated input.
- DailyPackage.CompleteVerifiesIff: titles are taken to be a function of the canonical content. The titles are read from the text as delivered and the canonical content has its line ends normalised, so this holds for text whose line ends are already plain newlines; a lone carriage return could give two titles for one content.
- Environment parsing of limits and retention settings: they are parameters, with the positivity the source enforces.
- The compatibility import of the old seen-events table, and databases from before capture jobs had a status.
- What the start-up scrub considers a credential: its effect on a reason or payload is an arbitrary function, and rows of other tables are not modelled.
- WebhookConservation.ActiveWorkersOwnBothLeases: a submission that raises is taken never to run; a pool that queued the job before it failed to start a thread could still run it.
- WebhookLeases.QueueWebhookJob: the same assumption about a refused submission.
- Wall-clock readings are integers or reals without wrap-around; claim tokens and job ids come from a fresh counter instead of random text.
- SQLite's order among rows with equal completion times: any choice is covered by the theorems, and the class picks one.
- AdmissionMemory.StoredScopesBounded: needs non-negative readings, because the first sweep is due at 0.0; a monotonic clock gives that.
- CaptureBarrierProofs.ResponseIsABarrier: one process, as the stripes are in-memory locks; a second process on the same database is not covered.
- CaptureBarrierProofs.OneLiveWorkerPerJob: the bounded submission guard appears only as a submission that may be refused.
- CaptureAccounting.RunBalances: only archived rows are balanced; failed and partial rows are replaced by later fetches, and a fetch without a usable address reports no asset. A process that dies inside a round is not an ending of the run.
- DailyIngest.RepeatAnswers: the edition directory is not edited by anybody else; tampering is covered only by what the verifier function checks.
- DailyVerdict.AcceptedIff: a manifest is one that could be read and names its mode; one from before modes existed counts as daily, which is not modelled.
- DailyPackage.SafeFilename: case folding of the extension is ASCII, and names are compared case-sensitively.
- VaultMigration.FinishedLeavesNoGap: legacy files may be removed or replaced during a run, but none is added by anybody.
- VaultMigration.Vault.Migrate: directory creation, permissions and temporary files are left out; they have no effect on the entries compared.
- SourceLine.ParseSourceEntries: text is a sequence of characters; the second parser in feishu_cloud.py has another grammar and is not claimed to agree.
- ArticleMerge.Dedup: title normalisation is an arbitrary function of the title.
