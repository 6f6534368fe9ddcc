# A verified model of the messaging product's long-running protocols

The product sends broadcasts, walks contacts through sequences, applies billing events, meters
active contacts, delivers webhooks and counts what became of every message. All of that runs on
database rows and a queue that may run an action again, give it up, or already hold it when somebody
changes their mind. These Dafny files model that logic and prove what it keeps.

Each component comes in layers. A specification file describes one step as a function from one
database state to the next, and a run as a list of steps with every interleaving allowed; theorems
speak about whole runs. A laws file (`BroadcastLaws`, `SequenceLaws`, `BillingLaws`) says what each
step leaves in every column, row and queue row, without the functions that compute it. A store file (`BroadcastStore`, `SequenceStore`, `BillingStore`,
`MeteringStore`, `WebhookStore`, and the classes in `SequenceSteps`, `Cooldown` and `FlowStats`)
holds classes whose methods assign fields and loop over rows as the program does, each proved to
take exactly the specification's step.

| files | component |
|---|---|
| `Queue` | the five row states, keyed insert-if-absent |
| `Broadcast*` | one broadcast: fanout chunks, sends, retries, cancel, settle, sweep, erasure, counters, pacing |
| `Sequences`, `Sequence*` | enrollments, step rows, sweep paging, editing of rungs |
| `Cooldown` | the rule cooldown against its pruning job |
| `Billing*` | webhook events, their log and the customer row |
| `Metering`, `MeteringStore` | the active-contact set, its gate and its mark |
| `Webhook*` | delivery attempts, the failure streak and the automatic disable |
| `StatusCounters`, `FlowStats`, `MessageTotals` | status transitions, the daily counter table and its readings |
| `Pagination` | the cursor and the page walk |
| `Audience*`, `BroadcastAudience` | candidates chunk by chunk, the composer's count, binding of pending addresses, preview against record |

`dafny verify dfyconfig.toml` checks everything.

## Assumptions

- One handler run, one `settle` and one `cancel` of a broadcast are atomic. A claim and the run it
  leads to are separate steps, a run whose work was committed may run again, and an action may fail
  for good at any time. A send retry's work and its `done` commit together.
- In the sequence model `unsubscribe` is four steps (plain read, blocking write, cancel, commit);
  step handlers and the sweep hold the row lock from their read to their commit. A worker keeps the
  row it claimed whatever becomes of it meanwhile, so recovery can hand one row to two workers, and
  marking a row done or failed is a blind write.
- A webhook delivery's outcome is read and written under the endpoint's row lock, as one step.
- Billing deliveries for one row are serial: an update is a plain read and a save of the whole row
  (`apps/billing/events.py:254-270`), so two that overlapped could lose one of them.
- In the cooldown model a claim is an update, then an insert that may conflict; the pruner is a
  select, then a conditional delete. The clock never goes back.
- `into_window` only moves a time forward. Compliance is a verdict per identity.
- Contact and row ids are never reused.

## Findings

Where the code differs from its own text, or from what that text is for, the model follows the code.

- `apps/analytics/counters.py:129-131` says a message can be written off only once. `_next_status`
  lets a `sent` receipt replace `failed`, so a second failure is counted again
  (`StatusCounters.FailedOnceIff`, `StatusCounters.FailedCanCountTwice`).
- `apps/analytics/counters.py:113-122` says a receipt after a failure implies an earlier send. A
  message written off straight from the queue whose open pixel is then fetched
  (`apps/analytics/views_public.py:168-191`) counts one delivery and no send
  (`StatusCounters.DeliveredExceedsSentIff`, `StatusCounters.DeliveredCanExceedSent`).
- `apps/campaigns/housekeeping.py:70-117` reads its next cursor from the last row of a batch; when
  that row has just been retired its time is empty and the next query refuses the cursor
  (`SequenceSweep.SweepEnrollments`, `raised`; `SequenceWitnesses.CursorCanBeLost`).
- `apps/campaigns/services.py:405-429` cancels the step rows that are pending at the time. One that
  is running, in a worker's hands or failed can come back to the queue afterwards; it then runs for
  nothing (`SequenceTheorems.PendingRowReturnsIffClaimed`, `SequenceWitnesses.ClaimedAtTheCancel`).
- `apps/queueing/admin.py:66-98` makes a pending row due at once, so "retry now" on a sequence step
  undercuts the delay it is waiting for (`SequenceTheorems.RetryNowUndercutsIff`,
  `SequenceWitnesses.RetryNowUndercutsTheDelay`).
- `apps/api/services.py:301-318` clears the streak only if the copy it was handed was disabled. A copy
  read just before the automatic disable leaves an enabled endpoint at its limit
  (`WebhookTheorems.BelowLimitKeptIff`, `WebhookTheorems.StaleEditBreaksTheLimit`).
- `apps/billing/events.py:254-270` ignores an event for a customer that is not bound yet, and the log
  keeps it ignored for good (`BillingEvents.EarlyEventIsLost`); two events with one timestamp are
  applied in arrival order (`BillingEvents.TieConvergesIff`).
- `apps/broadcasts/handlers.py:196-234` counts a chunk's offset from rows that are not skipped, so a
  contact skipped at send time pulls every later chunk one place earlier
  (`BroadcastLateSkips.LateSkipsPullTheNextChunk`, `BroadcastLateSkips.OneOptOutPullsTheNextChunk`).

## Model

| member | source | states |
|---|---|---|
| `BroadcastTheorems.NoTruncation` | apps/broadcasts/handlers.py:129-162 | In every state any interleaving of claims, chunk runs, re-runs, failures, sends, cancels and sweeps can reach, a broadcast that is sent has no pending row and exactly one row for every contact that stayed in the audience throughout |
| `BroadcastTheorems.FinishedIsAbsorbing` | apps/broadcasts/services.py:924-960 | Sent and cancelled are never left again, and what was announced and frozen stays |
| `BroadcastTheorems.FinishedOnce` | apps/broadcasts/services.py:924-960 | Along every run `broadcast.finished` goes out once for a broadcast that is sent, never for any other, and never again afterwards |
| `BroadcastTheorems.QuietSweepFinishesIff` | apps/broadcasts/housekeeping.py:42-94 | After any run that leaves no chunk and no send to run, one sweep finishes a sending broadcast exactly when no chunk has failed; then everybody is reached once and it is announced once, otherwise it waits unannounced |
| `BroadcastTheorems.NeverStuck` | apps/broadcasts/housekeeping.py:42-94 | With nothing left to run and no failed chunk, one sweep takes a sending broadcast to sent, whatever sends were abandoned |
| `BroadcastTheorems.FailedChunkBlocksTheSweep` | apps/broadcasts/services.py:884-921 | A failed chunk keeps the sweep from calling the broadcast sent |
| `BroadcastTheorems.CancellationIsFinal` | apps/broadcasts/services.py:638-684 | After a cancel nothing is pending, no row is ever added, no row becomes sent whatever was already claimed, and no row recorded as cancelled has a retry that can still run |
| `BroadcastTheorems.CancelWithdrawsOnlyWaitingRetries` | apps/broadcasts/services.py:687-749 | A sent row is withdrawn exactly when its message is still queued and its retry unclaimed; any other row that was not pending is untouched |
| `BroadcastTheorems.RunningRetryStands` | apps/broadcasts/services.py:687-749 | A recipient whose retry a worker already holds stays sent, and so does its queue row |
| `BroadcastTheorems.ErasedCountersReconcile` | apps/broadcasts/erasure.py:52-88 | Once sent, erasing anybody any number of times leaves the recount of queued, sent, failed, skipped and cancelled where it was |
| `BroadcastTheorems.FrozenStatsReconcile` | apps/broadcasts/services.py:864-876 | The figures frozen at settling go on agreeing with a live recount after any erasures |
| `BroadcastSafety.StepKeeps` | apps/broadcasts/handlers.py:104-162 | Every step keeps the invariant: each owed contact has a row or an owed chunk before it, one row per contact, one live retry per message |
| `BroadcastSafety.RunKeeps` | apps/broadcasts/handlers.py:15-18 | The invariant holds along every run |
| `BroadcastFacts.InsertMissingFacts` | apps/broadcasts/handlers.py:176-194 | The conflict-ignoring insert keeps every old row, covers the chunk and never repeats a contact, so a forced re-run adds nothing |
| `BroadcastFacts.ArmFacts` | apps/broadcasts/handlers.py:215-234 | Arming keeps every existing queue row and adds only pending sends aimed at the right recipient |
| `BroadcastFacts.ChunkCovers` | apps/broadcasts/audience.py:242-270 | A contact past the cursor is in the next chunk, or that chunk is full and stops before it |
| `BroadcastLaws.ChunkLaw` | apps/broadcasts/audience.py:242-270 | A chunk is the next contacts of the audience past the cursor, in order, as many as asked for or as there are |
| `BroadcastLaws.WriteLaw` | apps/broadcasts/handlers.py:165-234 | A chunk's candidates without a row get one, waiting or skipped with the code that denies them; exactly the eligible still waiting get a send, numbered on from the rows not skipped less those about to be armed, from the start and at the rate |
| `BroadcastLaws.FanoutLaw` | apps/broadcasts/handlers.py:104-162 | A run of a live broadcast makes it sending, dates its start once, writes the next chunk, recounts, and arms the successor now after a full chunk or else finishes it if nothing else is owed; otherwise it does nothing |
| `BroadcastLaws.SendLaw` | apps/broadcasts/handlers.py:242-326 | A settled row is left alone, a cancelled broadcast's recorded so; else the first of deleted contact, disabled connection, missing identity, denial and suppression skips the row with its code and no message; else no message fails it, a failed message fails it with its error, any other sends it with its id, a queued one with one retry; then the broadcast finishes if it can |
| `BroadcastLaws.OnlyTheAllowedAreMessaged` | apps/broadcasts/handlers.py:271-317 | A message is added only for a waiting recipient whom none of the five checks refuses |
| `BroadcastLaws.RetryLaw` | apps/messaging/handlers.py:187-240 | A retry's own row is done; a message still queued gets its outcome or exactly one more retry; nothing else moves |
| `BroadcastLaws.ScheduleLaw` | apps/broadcasts/services.py:507-525 | Scheduling makes the first chunk wait in the queue for the moment asked for and touches nothing else |
| `BroadcastLaws.SettleLaw` | apps/broadcasts/services.py:884-960 | A sending broadcast with nobody waiting and no other chunk waiting, running or failed is sent, announced and frozen; any other stays as it was |
| `BroadcastLaws.CancelLaw` | apps/broadcasts/services.py:638-749 | A cancel cancels every waiting chunk and send, every waiting retry of a copy that can be withdrawn, and the rows that wait or can be withdrawn; every other row and queue row stays as it was |
| `BroadcastLaws.ReconcileLaw` | apps/broadcasts/housekeeping.py:63-94 | Exactly the waiting rows that name a contact with no pending or running send are failed with `retries_exhausted` |
| `BroadcastLaws.SweepSparesLiveSends` | apps/broadcasts/housekeeping.py:42-94 | A sweep changes no row whose send can still run, and does not finish a broadcast while such a row waits |
| `BroadcastLaws.EraseLaw` | apps/broadcasts/erasure.py:52-124 | An erased contact's rows lose name and message and keep the verdict, a waiting copy skipped and a failed message's error kept; their messages and queue rows go, but for those running; nobody else's are touched |
| `BroadcastLaws.StandDownLaw` | apps/contacts/activity.py:443-468 | Standing down cancels exactly the waiting actions that would send to the contact |
| `BroadcastLaws.FiguresLaw` | apps/broadcasts/services.py:803-861 | Each figure is the number of rows it counts: sent rows by what their message reports, the others by their status |
| `BroadcastLaws.QueueLaw` | apps/queueing/worker.py:181-200 | Claimed rows run, rows put back wait for their new time, rows given up have failed, and nothing else moves |
| `BroadcastPacing.PacingIsIndependentOfChunking` | apps/broadcasts/handlers.py:196-234 | With one audience and no send-time skip or erasure, every send is armed at start plus its rank among the eligible over the rate, wherever chunks fall, whatever has been sent and whichever chunks run again |
| `BroadcastWindow.WindowHoldsAtMost` | apps/broadcasts/handlers.py:196-234 | Along every run with one audience and no send-time skip or erasure, each send row of the queue stands at its own time or where the queue has put it back, and any window of length w holds at most floor(w * rate) + 1 of them and one more for each row put back into it |
| `BroadcastLateSkips.LateSkipsPullTheNextChunk` | apps/broadcasts/handlers.py:207-219 | After any run with one audience and no erasure, every send is armed early by one place for each eligible contact skipped at send time by then, so on its own time exactly when there is none |
| `BroadcastLateSkips.OneOptOutPullsTheNextChunk` | apps/broadcasts/handlers.py:207-219 | For chunks of any size and any rate, a run on which one opt-out arms the next chunk's first send for the moment of the last send before it |
| `BroadcastCounters.Conservation` | apps/broadcasts/services.py:757-861 | Queued is pending, sent, failed, skipped and cancelled together; read within delivered within sent |
| `BroadcastCounters.NonePendingIffZero` | apps/broadcasts/services.py:757-800 | The counters say finished exactly when no row is pending |
| `BroadcastCounters.PercentIsFullWhenNothingPends` | apps/broadcasts/services.py:757-800 | Progress stays in 0..100 and is 100 exactly when a nonempty broadcast has nothing pending |
| `BroadcastCounters.TallyIsReclassified` | apps/broadcasts/services.py:803-861 | Two group-bys with failed messages moved from sent to failed give the same figures as judging each row by its message |
| `BroadcastCounters.GroupByStatus` | apps/broadcasts/services.py:803-861 | The loop counts each status, and has no group for a status nobody holds |
| `BroadcastCounters.GroupByMessage` | apps/broadcasts/services.py:803-861 | The loop counts the sent rows of each message status |
| `BroadcastCounters.LiveCounters` | apps/broadcasts/services.py:803-861 | The reclassifying loop, over the groups in any order, arrives at the row-by-row tally |
| `BroadcastCounters.ErasureKeepsCounters` | apps/broadcasts/erasure.py:52-124 | Erasing a contact keeps queued, sent, failed and cancelled, moves only that contact's pending copies to skipped, and leaves no row naming them |
| `BroadcastStore.Store.ScheduleBroadcast` | apps/broadcasts/services.py:450-527 | A draft becomes scheduled with its first chunk keyed; anything else is refused unchanged |
| `BroadcastStore.Store.HandleBroadcastFanout` | apps/broadcasts/handlers.py:104-162 | The handler takes exactly the fanout step: rows, sends, successor chunk or settle |
| `BroadcastStore.Store.WriteCandidates` | apps/broadcasts/handlers.py:165-234 | Bulk insert, re-read, offset and keyed sends together make one chunk's step |
| `BroadcastStore.Store.ArmSends` | apps/broadcasts/handlers.py:215-234 | The enumerating loop arms exactly the eligible contacts still pending, numbering all eligible ones |
| `BroadcastStore.Store.PendingRows` | apps/broadcasts/handlers.py:196-206 | The re-read maps exactly the eligible contacts whose row is pending to that row |
| `BroadcastStore.Store.HandleBroadcastSend` | apps/broadcasts/handlers.py:242-326 | The handler takes exactly the send step and obeys its law; it adds a message only if the contact exists, the connection is on, there is an identity, compliance allows it and the address is not suppressed |
| `BroadcastStore.Store.RecordSend` | apps/broadcasts/handlers.py:444-459 | No message is a failure; otherwise the message's own status decides, and a deferred one is retried |
| `BroadcastStore.Store.SettleRecipient` | apps/broadcasts/handlers.py:462-475 | Only that row changes; the reason is cut to 200 characters and an old message kept |
| `BroadcastStore.Store.SettleBroadcast` | apps/broadcasts/services.py:924-960 | Sent, announced and frozen only from sending, with nothing pending and no chunk owed |
| `BroadcastStore.Store.MaybeSettle` | apps/broadcasts/handlers.py:478-490 | The cheap test before settling changes no outcome |
| `BroadcastStore.Store.CancelBroadcast` | apps/broadcasts/services.py:638-684 | Accepted only while scheduled or sending; then rows, queue and retries all stop in one step |
| `BroadcastStore.Store.CancelDeferredSends` | apps/broadcasts/services.py:687-749 | Three set queries withdraw exactly the messages that can still be stopped |
| `BroadcastStore.Store.ReconcileRecipients` | apps/broadcasts/housekeeping.py:63-94 | A row changes exactly when it waits, names a contact and no send of that contact is pending or running; it is then failed with `retries_exhausted`, and counted |
| `BroadcastStore.Store.EraseContact` | apps/broadcasts/erasure.py:52-88 | Freezing, skipping and forgetting a contact make one erasure step |
| `BroadcastStore.Store.FreezeFailedSends` | apps/broadcasts/erasure.py:91-104 | A sent row whose message failed is recorded as failed before the message goes |
| `BroadcastStore.Store.SkipPending` | apps/broadcasts/erasure.py:107-124 | The contact's pending rows become skipped, and are counted |
| `BroadcastStore.SettleBroadcasts` | apps/broadcasts/housekeeping.py:42-60 | The sweep reconciles and settles every broadcast it is given |
| `SequenceTheorems.RungsInOrder` | apps/campaigns/handlers.py:83-155 | Over every run, with rows run twice by recovery, stale rows, failures, sweeps, operators' retries and live edits, an enrollment joins and then advances through 1, 2, 3, … once each, at most one enrollment of a contact is active, and no advance is earlier than the one before, or the joining, plus the delay found then unless "retry now" was pressed on a rung still waiting |
| `SequenceTheorems.FirstRungWaits` | apps/campaigns/services.py:374-384 | Over every such run the first advance is no earlier than the joining plus the delay of the first step found then |
| `SequenceTheorems.RetryNowUndercutsIff` | apps/queueing/admin.py:66-98 | "Retry now" breaks the delay guarantee exactly on the row of a rung whose delay is not over yet |
| `SequenceWitnesses.StaleRowRuns` | apps/campaigns/handlers.py:87-100 | A run on which recovery gives a row to a second worker, and the first then handles a rung its enrollment has passed; the position guard makes that do nothing |
| `SequenceWitnesses.RetryNowUndercutsTheDelay` | apps/queueing/admin.py:66-98 | A run on which a retried rung does run before its time |
| `SequenceTheorems.CompletesAfterEveryRung` | apps/campaigns/handlers.py:136-155 | With n fixed rungs an enrollment is completed exactly after its n-th advance, unless it was retired |
| `SequenceTheorems.UnsubscribeWins` | apps/campaigns/services.py:405-474 | However stale its read, once an unsubscribe has cancelled and committed the enrollment is never active again and advances no further, and no step row of it is alive but those that were running, held or failed at the cancel |
| `SequenceTheorems.PendingRowReturnsIffClaimed` | apps/campaigns/scheduling.py:82-105 | A pending step row can reappear afterwards exactly when one was running, held or failed at the cancel |
| `SequenceWitnesses.ClaimedAtTheCancel` | apps/campaigns/scheduling.py:82-105 | A run that reaches such a cancel, and on from it a row pending again |
| `SequenceTheorems.EndedRun` | apps/campaigns/services.py:432-474 | An enrollment that is over stays over |
| `SequenceTheorems.StepKeeps` | apps/campaigns/handlers.py:158-190 | Every step of every actor keeps one active enrollment per contact, rungs in order and the writers' locks, and keeps the delays exactly unless it is a "retry now" on a rung still waiting |
| `SequenceLaws.HandleLaw` | apps/campaigns/handlers.py:52-155 | A step row of a gone contact stops the enrollment; a stale one, or one of an ended enrollment, does nothing; any other starts the step found at its position and moves the enrollment one on, sent now and due after the next delay with its row queued, or completed |
| `SequenceLaws.SubscribeLaw` | apps/campaigns/services.py:351-402 | The contact's active enrollment is stopped, and a new one added at step 1, its first row queued and its joining recorded |
| `SequenceLaws.RetireLaw` | apps/campaigns/services.py:470-474 | Retiring leaves nothing due, cancels every waiting row of the enrollment at any position, and touches no other |
| `SequenceLaws.SweepOneLaw` | apps/campaigns/housekeeping.py:70-117 | The sweep stops an enrollment whose contact is gone and queues the row of any other with something due |
| `SequenceLaws.QueueLaw` | apps/queueing/worker.py:181-200 | What a claim, recovery, exhaustion, "retry now", a failed run and a deleted contact do to the rows |
| `SequenceStore.Store.HandleSequenceStep` | apps/campaigns/handlers.py:52-107 | The handler takes exactly the step: retire a gone contact, ignore a stale row, else advance |
| `SequenceStore.Store.Advance` | apps/campaigns/handlers.py:136-155 | The field-by-field advance is the specification's, completion included |
| `SequenceStore.Store.SubscribeContact` | apps/campaigns/services.py:351-402 | Refused with nothing changed in another workspace, for a sequence that is not active or when a concurrent subscribe has won; else the old active enrollment is retired and the new one stands at step 1, due after its delay with its row waiting, or completed with nothing due when there is no first step |
| `SequenceStore.Store.UnsubscribeContact` | apps/campaigns/services.py:405-429 | Retires the active enrollment and cancels its pending rows, or says there was none |
| `SequenceStore.Store.RetireIfContactGone` | apps/campaigns/services.py:449-467 | Retires exactly when the contact is gone |
| `SequenceStore.SplitLeaveIsRetire` | apps/campaigns/services.py:405-474 | The four split steps of an unsubscribe, left alone, come to one retirement |
| `SequenceSweep.SweepEnrollments` | apps/campaigns/housekeeping.py:55-67 | Handles the due enrollments once each, in order, until none is left or 40 batches of 50 are done; fails exactly when a full batch that is not the last ends with an enrollment it retired |
| `SequenceWitnesses.CursorCanBeLost` | apps/campaigns/housekeeping.py:70-117 | A run after which the sweep fails: fifty are due and the last one's contact is gone |
| `SequenceSweep.SweepRows` | apps/campaigns/housekeeping.py:70-117 | One batch retires or re-enqueues its rows and touches no other |
| `SequenceSweep.NextPage` | apps/campaigns/housekeeping.py:70-117 | With a usable cursor the keyset query's page is exactly the rest of the index, whatever the batches before did |
| `SequenceSweep.StoppingEarlyCoversAll` | apps/campaigns/housekeeping.py:55-67 | If it stops before the ceiling, every due enrollment of a live contact has a queue row under its key |
| `SequenceSteps.ParkingNeverCollides` | apps/campaigns/services.py:269-293 | No moment of the first renumbering update, in any row order, holds two equal positions |
| `SequenceSteps.LoweringNeverCollides` | apps/campaigns/services.py:269-293 | Nor does any moment of the second |
| `SequenceSteps.OneStatementCollides` | apps/campaigns/services.py:78-85 | The single statement they replace can collide |
| `SequenceSteps.ClosingKeepsOrder` | apps/campaigns/services.py:269-293 | What is left is exactly 1..n-1 in the same relative order |
| `SequenceSteps.SwapNeverCollides` | apps/campaigns/services.py:296-329 | Moving a step through position 0 keeps the index at every update and is exactly a swap |
| `SequenceSteps.Steps.AddStep` | apps/campaigns/services.py:177-208 | A new step takes the next position, contiguity kept; refused at 50 |
| `SequenceSteps.Steps.DeleteStep` | apps/campaigns/services.py:269-293 | Both updates, each walking the rows in any order, close the gap |
| `SequenceSteps.Steps.MoveStep` | apps/campaigns/services.py:296-329 | Swaps with the neighbour if there is one, else changes nothing |
| `Cooldown.CooldownSurvivesPruningIffPatient` | apps/campaigns/housekeeping.py:120-154 | Any two successful claims are at least 60 s apart on every interleaving exactly when a claim takes at most the five-minute margin from reading the clock to inserting |
| `Cooldown.SlowClaimBreaksTheCooldown` | apps/campaigns/housekeeping.py:49-52 | One second past the margin, a run with two claims too close together |
| `Cooldown.Guard.ClaimRuleFire` | apps/campaigns/rules.py:355-386 | Granted exactly when the pair has not fired for a minute, and recorded then |
| `Cooldown.Guard.MatchAndFire` | apps/campaigns/rules.py:238-259 | The first matching rule owns the event: it fires if its claim is granted, and while it is cooling nothing fires |
| `Cooldown.Guard.PruneFires` | apps/campaigns/housekeeping.py:120-154 | Removes exactly the rows older than the cooldown and its margin |
| `BillingEvents.OutOfOrderConvergence` | apps/billing/events.py:66-107 | For a bound customer and events with one timestamp each, any order, repeats and cut-short or failed deliveries end, once every event is settled, with the columns of the newest event and its time: canceled and empty for a deletion, else the subscription's status, id, flag, first named price and period end; or the start's if that was newer than them all |
| `BillingEvents.BindingNeverMoves` | apps/billing/events.py:194-230 | No deliveries ever move a customer to another organization or bind one twice |
| `BillingEvents.SettledForGood` | apps/billing/events.py:127-151 | A processed or ignored event stays so, and redelivering it changes nothing |
| `BillingEvents.EarlyEventIsLost` | apps/billing/events.py:254-262 | An event delivered before its customer is bound changes no row, then or after any later deliveries |
| `BillingEvents.TieConvergesIff` | apps/billing/events.py:264-270 | Two events with one timestamp end the same in both orders exactly when they say the same |
| `BillingEvents.LateEventUndoesSnapshotIff` | apps/billing/events.py:295-316 | A later event overwrites a direct read exactly when it is not older than the last event applied and says something else |
| `BillingEvents.OwnDelivery` | apps/billing/events.py:66-107 | A delivery of a bound customer's event either applies it or changes nothing, settles only by applying, and does nothing once settled |
| `BillingEvents.WrittenShows` | apps/billing/events.py:273-292 | A deletion leaves canceled, no subscription, flag or period end, and the old price; a set leaves the subscription's status (none when empty), id, flag, first named price and first period end |
| `BillingLaws.BindLaw` | apps/billing/events.py:194-230 | Nobody is bound without a customer and an organization of ours; a customer or an organization bound otherwise is a conflict; else exactly that organization is bound, its checkout over and its other columns and all other rows as they were |
| `BillingLaws.AppliedLaw` | apps/billing/events.py:254-270 | An event older than the last one applied changes nothing; any other leaves its columns and its date |
| `BillingLaws.SnapshotLaw` | apps/billing/events.py:295-316 | A direct read leaves the subscription's columns, or none, and keeps the last event's date |
| `BillingLaws.DeliveryLaw` | apps/billing/events.py:66-151 | What a delivery records the event as, and which rows it writes, wherever it is cut short; an event recorded for good, or claimed within five minutes, is not run again |
| `BillingLaws.EventsFollowTheCheckout` | apps/billing/events.py:194-270 | Once a checkout has been processed, any event of its customer delivered for the first time after any further deliveries is processed and applied to that organization's row |
| `BillingStore.Billing.HandleEvent` | apps/billing/events.py:66-107 | Claim, retry test, dispatch and finish are exactly one delivery's step, wherever it is cut short |
| `BillingStore.Billing.BindCustomer` | apps/billing/events.py:194-230 | Says exactly when it binds, finds nobody or refuses a conflict; bound means that organization holds the customer id, its checkout is over and nothing else changed |
| `BillingStore.Billing.ForgetCustomer` | apps/billing/events.py:233-251 | Clears the standing of the row bound to the customer and no other, or finds nobody |
| `BillingStore.Billing.ApplySubscription` | apps/billing/events.py:254-292 | Finds nobody exactly when nobody is bound; else writes the event's columns to that row alone unless the event is older than the last one applied |
| `BillingStore.Billing.ApplySnapshot` | apps/billing/events.py:295-316 | Writes a direct read's columns with no ordering guard, leaving the last event's time |
| `BillingStore.Billing.CustomerFor` | apps/billing/events.py:319-329 | Finds the organization bound to a customer id exactly when there is one |
| `BillingStore.FirstPrice` | apps/billing/events.py:337-342 | The first price any item names; empty exactly when none does |
| `BillingStore.FirstPeriodEnd` | apps/billing/events.py:345-359 | The first item's period end, the subscription's own when no item has one |
| `Metering.OverAdmissionIsBounded` | apps/billing/metering.py:206-238 | With at most k sends between gate and mark, the people active in a month never exceed limit - 1 + k plus those inbound put there first plus those let through unread |
| `Metering.BoundIsMet` | apps/billing/metering.py:113-129 | For every limit and every k some run reaches that bound |
| `Metering.CountsPeople` | apps/billing/metering.py:95-105 | The count of rows is the number of distinct people: nobody is counted twice |
| `Metering.CountedContactPasses` | apps/billing/metering.py:113-129 | Within the month and short of erasure a counted contact stays counted and always passes |
| `Metering.UnlimitedIsNotMetered` | apps/billing/metering.py:147-194 | An unlimited plan never writes a row |
| `MeteringStore.Meter.ActiveContactCount` | apps/billing/metering.py:95-105 | The loop counts the month's distinct people |
| `MeteringStore.Meter.MarkReached` | apps/billing/metering.py:147-194 | Inserts, finds it there, is not metered, or fails and leaves the table alone |
| `MeteringStore.Meter.Reach` | apps/billing/metering.py:206-238 | Refuses only a new contact at the limit that could be read |
| `MeteringStore.Meter.MeterInbound` | apps/billing/metering.py:197-203 | Inbound is marked with no gate |
| `WebhookTheorems.NoLostUpdates` | apps/api/delivery.py:246-322 | However runs, edits and crashes interleave, the stored streak is the deliveries given up since the last success or the last edit that cleared it |
| `WebhookTheorems.NotifiedOncePerSpan` | apps/api/delivery.py:290-322 | Between two automatic disables, and their notifications, somebody switched the endpoint on |
| `WebhookTheorems.EnabledMeansBelowLimit` | apps/api/delivery.py:290-322 | An enabled endpoint is below the limit at every moment of a run exactly when the run has no stale edit |
| `WebhookTheorems.BelowLimitKeptIff` | apps/api/services.py:300-318 | One step breaks that exactly when it is an edit enabling the endpoint at its limit from a copy that was enabled |
| `WebhookTheorems.StaleEditBreaksTheLimit` | apps/api/services.py:300-318 | For every limit, a run that leaves the endpoint on and at its limit |
| `WebhookTheorems.EachDeliveryEndsOnce` | apps/api/delivery.py:337-392 | Attempts are numbered 1, 2, 3, … up to at most six; a delivery with a live row has not ended, one without has ended once, in success, recorded failure, drop, or the loss of its row |
| `WebhookStore.Desk.RecordSuccess` | apps/api/delivery.py:246-262 | Clears the streak and leaves the switch alone |
| `WebhookStore.Desk.RecordFailure` | apps/api/delivery.py:265-322 | Extends the stored streak by one and disables exactly on reaching the limit while on |
| `WebhookStore.Desk.StartRun` | apps/api/delivery.py:337-366 | A missing or disabled endpoint drops the delivery |
| `WebhookStore.Desk.FinishRun` | apps/api/delivery.py:368-392 | Success, next attempt, or a recorded failure, against the endpoint as it then is |
| `WebhookStore.Desk.UpdateWebhook` | apps/api/services.py:300-318 | Clears the streak exactly when the copy handed in was off and the edit turns it on |
| `StatusCounters.CountersTelescope` | apps/analytics/counters.py:102-152 | Over any receipts in any order a message counts once as sent if it left the queue for the ladder, once as delivered if it ever arrived, and as failed each time it was written off |
| `StatusCounters.ReceiptTable` | apps/messaging/ingest.py:898-939 | The eleven moves a receipt can make, and what each counts; a redaction moves to deleted and counts nothing |
| `StatusCounters.DeliveredMeansArrived` | apps/analytics/counters.py:102-137 | Sent and delivered never exceed one, and a message not redacted has its delivery counted exactly when it stands at delivered or read |
| `StatusCounters.DeliveredExceedsSentIff` | apps/analytics/counters.py:140-152 | Delivered outgrows sent exactly when the message was written off straight from the queue and a delivered or read receipt came for it |
| `StatusCounters.DeliveredCanExceedSent` | apps/analytics/views_public.py:168-191 | The shortest such run: written off, then its open pixel fetched |
| `StatusCounters.FailedOnceIff` | apps/messaging/ingest.py:898-939 | At most one failure is counted exactly when no sent receipt was accepted over a failure and followed by another failure |
| `StatusCounters.FailedCanCountTwice` | apps/messaging/ingest.py:898-939 | The shortest run with two |
| `FlowStats.ThreeReadingsAgree` | apps/analytics/selectors.py:114-177 | Over any window a flow's totals are the sum of its nodes and the sum of its days |
| `FlowStats.UpsertLaw` | apps/analytics/counters.py:76-99 | An increment goes counter by counter to its cell's row, or makes that row; no other row moves |
| `FlowStats.TotalsAreTheCells` | apps/analytics/selectors.py:114-140 | A flow's total is the sum of its rows from the first day to the last, both included |
| `FlowStats.SeriesByDay` | apps/analytics/selectors.py:158-177 | Between two bounds there is one entry per day, oldest first, holding that day's rows or zero |
| `FlowStats.OpenSeriesAscends` | apps/analytics/selectors.py:158-177 | With an open end the days come in strict order, each with its rows |
| `FlowStats.GroupHoldsItsRows` | apps/analytics/selectors.py:137-140 | Each group of a grouped query holds the sum of the rows under its key |
| `FlowStats.UpsertAdds` | apps/analytics/counters.py:76-99 | An upsert adds its delta to every reading that keeps its cell and to no other |
| `FlowStats.AnyInterleavingCountsTheSame` | apps/analytics/counters.py:76-99 | The same increments in any order give the same reading of every flow over every window |
| `FlowStats.Table.Add` | apps/analytics/counters.py:76-99 | The statement is the upsert; no reading loses a count |
| `FlowStats.DailySeries` | apps/analytics/selectors.py:158-177 | The zero-filling loop is the series and sums to the totals |
| `MessageTotals.TotalsCountMessages` | apps/analytics/counters.py:155-180 | After any interleaving of receipts for many messages, a flow's all-time sent and delivered are the numbers of its messages that left the queue for the ladder and that ever arrived, and over any window the totals, the nodes and the days agree on both |
| `Pagination.Base64RoundTrip` | apps/api/pagination.py:51-82 | Encoding, stripping the padding, restoring it and decoding gives every byte string back (section 5 of RFC 4648) |
| `Pagination.AlphabetIs` | apps/api/pagination.py:51-53 | The characters are those of the URL-safe alphabet, in its order (table 2 of RFC 4648) |
| `Pagination.EncodesBits` | apps/api/pagination.py:51-53 | Four characters hold the bits of three bytes, in order |
| `Pagination.DocumentReads` | apps/api/pagination.py:51-53 | A cursor carries the text `{"o":N}` with N in decimal |
| `Pagination.CursorRoundTripIff` | apps/api/pagination.py:51-82 | The cursor of any offset up to the bound decodes to it, and any other is refused |
| `Pagination.PageIsTheNextStretch` | apps/api/pagination.py:91-107 | A page is the next stretch of the list, says there is more exactly when there is, and its cursor names the next offset unless that is past the bound |
| `Pagination.PagesConcatenate` | apps/api/pagination.py:91-107 | Following `next_cursor` with any limits ends, and the pages together are the list |
| `Pagination.EveryWalkCompletesIff` | apps/api/pagination.py:37-48 | Every walk completes exactly over the lists no longer than one past `MAX_OFFSET` |
| `Pagination.ClampLimit` | apps/api/pagination.py:85-88 | Always 1..200: the limit asked for when it is in that range, 50 when none or zero is asked for, else the nearer end |
| `Audience.ChunksConcatenate` | apps/broadcasts/audience.py:242-291 | Chunks of any sizes linked by their cursors, put together, are the one-shot iteration |
| `Audience.BestInChunk` | apps/broadcasts/audience.py:268-276 | A chunk's narrower query picks the same identity for a contact as the whole audience's |
| `Audience.BestIsPreferred` | apps/broadcasts/audience.py:268-280 | The identity picked is eligible if any is, bound if any such is, and the first by id of those |
| `Audience.CandidateIsJudged` | apps/broadcasts/audience.py:278-291 | A contact without identity is denied for that; an eligible one on the suppression list has opted out; any other has its preferred identity's verdict |
| `AudiencePreview.PreviewCountsTheSend` | apps/broadcasts/audience.py:321-357 | As many candidates as `total`; eligible candidates and the suppressed ones together are `eligible`, so exactly as many when no address is suppressed |
| `AudiencePreview.SkipsCoverTheRest` | apps/broadcasts/audience.py:336-352 | The skip counts sum to at least total minus eligible, and to exactly that unless further denials outnumber the contacts with no identity |
| `AudiencePreview.ReasonsExactIff` | apps/broadcasts/audience.py:336-352 | The counts equal the send's per-reason histogram exactly when nobody refused holds two different denials |
| `BroadcastAudience.RecipientsMatchThePreview` | apps/broadcasts/audience.py:34-47 | Over fixed data with no suppressed address, no send-time skip and no erasure, a broadcast that finishes, by whatever run, has as many recipients as the preview's total and as many skipped ones as it said would not be reached |
| `AudienceStore.PickBest` | apps/broadcasts/audience.py:278-280 | Keeping the first row of each contact in the ordered query keeps the preferred one |
| `AudienceStore.YieldCandidates` | apps/broadcasts/audience.py:278-291 | The generator yields one candidate per contact in order, with its verdict |
| `AudienceStore.Count` | apps/broadcasts/audience.py:321-357 | The aggregates and the subtraction are the preview |
| `AudienceStore.BindPending` | apps/broadcasts/audience.py:165-217 | The one statement binds exactly the audience's pending rows whose address the connection does not know |
| `AudienceStore.BindIsSafe` | apps/broadcasts/audience.py:198-217 | Binding keeps both unique constraints, leaves pending only known addresses, and done again changes nothing |

## Left out

- HTTP views, forms, templates, translations, permissions and API-key handling: input and output.
- Provider adapters, the payment SDK, signatures and guarded requests: their answers are nondeterministic outcomes of a step.
- Validation of step delays, windows and names, sequence status changes, and which rule matches which event.
- The flow engine: a started flow is an entry in the log of a rung.
- Statement-level interleavings of broadcast handlers, `settle` and `cancel`: `settle` reads its counters before its outstanding test, and the fanout's write of sending is unconditional.
- "Retry now" on a broadcast's or a webhook's queue row: modelled for sequence steps only.
- Rates and times are exact reals, and percent is an exact quotient; floating-point rounding is not modelled.
- Queue claim batching, back-off delays and worker heartbeats: any due row may be claimed by any worker at any time.
- Malformed webhook payloads, which the handler drops before reading the endpoint, and the settings page's test delivery, which is outside the accounting.
- A webhook run that outlives its zombie deadline while a second worker runs the same row.
- The 24-hour send windows and time zones behind `into_window` and `current_period`: a forward-only shift and a month number.
- Plan changes inside a metered month: the limit is fixed along a run.
- Cursors whose JSON is not the written `{"o":N}` shape: decoding such a document is answered `OtherDocument`, as the general JSON grammar is not part of this model.
- Broadcast click counts, connection deliverability and the workspace overview: single sums over the same table.
- The message pipeline's own uncompared status write at the end of a send (`apps/messaging/services.py:990-1010`): statuses move through the receipt table only.
- Retention jobs, token prefixes, digests and the palette script: single-branch or numeric code.
- `BroadcastPacing.PacingIsIndependentOfChunking`: assumes no send-time skip and no erasure, because either one changes what the offset is counted from; `BroadcastLateSkips` says by how much.
- `BroadcastWindow.WindowHoldsAtMost`: under the same assumptions, because a send-time skip lets two sends share a place.
- `BroadcastStore.Store.ScheduleBroadcast`: taken past the gates (content, filter, connection, audience and plan checks), the binding of pending identities, which is `AudienceStore.BindPending`, and the pinning of the content's version.
- `BroadcastStore.Store.EraseContact`: settling the touched broadcasts is a step of its own, as the program defers it to the commit.
- `BroadcastCounters.LiveCounters`: the per-reason `skips` map and the `skipped_window` figure are not modelled.
- `BillingEvents.OutOfOrderConvergence`: assumes serial deliveries, and leaves `price_id` out, because a deletion keeps whatever price the row had, and the deletion of the customer itself, which has no ordering guard.
- `WebhookTheorems.EachDeliveryEndsOnce`: a fourth ending, the loss of the queue row after repeated crashes, is possible in the code and kept in the model.
- `SequenceSweep.SweepEnrollments`: no row is locked elsewhere, so `SKIP LOCKED` skips nothing.
- `Metering.OverAdmissionIsBounded`: the origin of a row is bookkeeping of the model, not a column.
