# Delivery and coordination protocols of the Cowchat broker

Cowchat is a chat broker for agents. Its value lies in protocols that several
tasks run side by side: a reconnect that must lose no event and repeat none, a
durable wake bridge, a webhook queue, votes kept in two copies, rooms whose
destruction must be final. This project models those protocols in Dafny 4.11 and
proves what they keep. `dafny verify dfyconfig.toml` checks all of it.

## How the model is built

Every protocol is a state and a set of steps. A block under one lock, or one SQL
transaction, is one step; anything two tasks may interleave is two, save where the
last section says otherwise. `Next` is total (a step that does not apply changes
nothing), `Run` folds it over any sequence of steps, and the main results speak
about every run. Histories in a
state (what was ever delivered, appended, returned, broadcast) exist so that the
results can be stated; no step looks at them.

Beside the results about runs, each protocol has a section read from the other side:
for each part of the state, exactly which steps change it, in which circumstances and
to what. Those statements are written in terms of the fields, not of the step
functions.

Code that changes tables and maps in place is modelled by classes whose methods
are proved against the step functions, so that what is proved about runs is about
those methods too.

| file | models |
|---|---|
| `Reconnect.dfy`, `HandOver.dfy` | stashes, reclaim leases, and the reconnect hand-over of one identity with any number of events in flight |
| `WakeStore.dfy`, `WakeBridge.dfy`, `WakeReads.dfy`, `WakeClaims.dfy` | the Codex bridge: tables, delivery with crashes, read and acknowledge cursors, wake claims |
| `Webhooks.dfy`, `WebhookStore.dfy` | one subscription: live enqueueing, worker, retries, backfills; and the tables of all of them |
| `Votes.dfy`, `Tallies.dfy`, `VoteStore.dfy` | one vote from its creation to broadcast, destruction and restart; how ballots are counted; and the tables and map of all votes |
| `Broker.dfy`, `Destruction.dfy`, `Tombstones.dfy` | membership, turn token, destruction against everything that could bring a room back |
| `Sessions.dfy`, `SessionCounts.dfy` | registration, takeover and clean-up under the lifecycle guard; session counts per key |
| `RateLimits.dfy`, `Access.dfy` | windows, access rules and the grants cache |
| `Sequences.dfy`, `Paging.dfy` | the sequence allocator, and the loops that page through a room while it changes |
| `Transport.dfy` | newline and WebSocket framing of the Python client |
| `Options.dfy` | shared vocabulary |

## Where the code does less than it seems to promise

Each of these has a lemma that reaches the bad state, and one that says when the
guarantee does hold, as an exact condition wherever one step decides it.

- A `buffer_message` that passed its check before a room was recorded as destroyed
  still pushes its frame afterwards (`Destruction.LatePushReachesStash`).
- Registering with `reconnect=false` beside an old stash leaves the stash taking the
  events meant for the live session, whose clean-up then overwrites them
  (`HandOver.StaleStashLosesEvent`). An event whose first pass comes before a
  disconnecting session's stash and whose second comes after it left the registry is
  lost even with reconnecting registrations (`HandOver.DisconnectLosesEvent`); of the
  events no stash took, only those are (`HandOver.LostExactly`).
- Overlapping wake calls for one event can both send
  (`WakeBridge.OverlappingCallsSendTwice`); a remote wake that outlasts its lease
  and fails releases the claim of the next one (`WakeClaims.SlowWakeIsOvertaken`,
  and exactly when in `WakeClaims.FailedWakeReleasesExactly`).
- Reading from beyond the read cursor can let an event be acknowledged that no read
  ever returned (`WakeReads.ReadPastTheEndLosesEvent`).
- A subscribe call fills in the backlog row by row while the worker may already
  deliver: a live message delivered before the backlog is in sends both out of order
  and the live one twice (`Webhooks.DeliveryDuringSubscribeRepeats`); that is so
  exactly when the backfill still owed a row up to the delivered one
  (`Webhooks.DeliveryDuringFillExactly`, `Webhooks.DeliveryBeforePageExactly`).
- Enabling a subscription uses the cursor and status it read at the start: during a
  delivery it repeats a message, between the worker's look and its deletion it loses
  one (`Webhooks.EnableDuringDeliveryRepeats`, `Webhooks.EnableBeforeDropLosesMessage`),
  and a backlog beyond one page of 1000 is not recovered unless it is queued already
  (`Webhooks.EnableRecoversExactly`). The comment on the enable handler promises the
  events that piled up without that limit; the model follows the code.
- A ballot cast after a vote's tables are written and before it is inserted in memory
  is stored and never counted, and its elector keeps the vote from closing by ballots
  (`Votes.EarlyBallotIsNeverRecorded`). While a room is destroyed, a deadline can
  broadcast a result whose ballots are already deleted (`Votes.DestroyedVoteIsBroadcast`).
- A ballot cast after a deadline took the vote is stored without a check of its
  option, and a crash at that moment brings it into the result
  (`Votes.LateBallotIsNotTallied`). A restart also adds the creator to the electorate
  of every open vote, not only of legacy ones (`Votes.RestartKeepsElectorateExactly`),
  and closes a full vote without broadcasting it (`Votes.CrashOfFullVoteIsSilent`).
- `advance_turn_from` works without the lifecycle lock and can leave the token with
  someone who has just left (`Broker.LateAdvanceCanHandTokenToStranger`, exactly when in
  `Broker.LateAdvanceExactly`).
- A frame handled after its session was taken over can leave a member that is not
  registered (`Sessions.LateJoinLeavesGhostMember`, exactly when in
  `Sessions.LateJoinExactly`); creating a usage entry in two steps can lose a session
  count (`SessionCounts.DelayedInsertLosesSession`).
- A key equal to the reserved legacy marker is listed rooms it may not use
  (`Access.ReservedKeyIsListedButDenied`).

## Model

| member | source | states |
|---|---|---|
| `Reconnect.DestroyedRoomCache.PruneAt` | crates/cowchat-server/src/reconnect.rs:28-42 | afterwards exactly the fresh entries are left if they fit, else the newest 4096 of them |
| `Reconnect.DestroyedRoomCache.Insert` | crates/cowchat-server/src/reconnect.rs:44-49 | pruned, recorded and pruned again: the room is there with the given time whenever it is strictly the newest or the fresh entries fit, nothing else is new, and the result is the pruned description of the cache with it |
| `Reconnect.DestroyedRoomCache.Contains` | crates/cowchat-server/src/reconnect.rs:51-54 | answers for the cache as pruned at this moment |
| `Reconnect.ReconnectManager.Stash` | crates/cowchat-server/src/reconnect.rs:154-189 | the agent is stashed with an empty buffer, no lease, and only rooms not recorded as destroyed; every other stash is untouched |
| `Reconnect.ReconnectManager.BeginReclaim` | crates/cowchat-server/src/reconnect.rs:197-228 | each answer, and what stays stashed, from the fields alone: none without a stash younger than 120 seconds, which then goes; a mismatch with another key, where keys are asked for; a refusal when claimed; otherwise a claim that keeps everything buffered |
| `Reconnect.ReconnectManager.BufferMessage` | crates/cowchat-server/src/reconnect.rs:252-265 | appends to the one stash unless full, or the frame names a destroyed room |
| `Reconnect.ReconnectManager.BufferVisibleRoomEvent` | crates/cowchat-server/src/reconnect.rs:267-287 | appends to, and returns, exactly the stashes that may see the room and have space |
| `Reconnect.ReceivesExactly` | crates/cowchat-server/src/reconnect.rs:267-287 | who receives: a stash with fewer than 200 frames whose key may discover the room, case by case |
| `Reconnect.NamesDestroyedExactly` | crates/cowchat-server/src/reconnect.rs:324-336 | a frame is kept out exactly when the room it names, in its payload or else in its message, is recorded |
| `Reconnect.ReconnectManager.ForgetRoom` | crates/cowchat-server/src/reconnect.rs:306-314 | no stash keeps the room or a frame of it, nothing else is lost, and the id is recorded under the same condition |
| `Reconnect.ForgottenKeepsOthers` | crates/cowchat-server/src/reconnect.rs:306-314 | forgetting leaves the other rooms, and the other frames in the order they had |
| `Reconnect.ReconnectManager.DiscardExpired` | crates/cowchat-server/src/reconnect.rs:137-148 | the periodic clean-up keeps exactly the stashes younger than 120 seconds, unchanged, and prunes the cache |
| `Reconnect.ReclaimLease.Snapshot` | crates/cowchat-server/src/reconnect.rs:93-99 | the stash if this lease still holds it, changing nothing |
| `Reconnect.ReclaimLease.Commit` | crates/cowchat-server/src/reconnect.rs:101-114 | takes the stash out exactly when this lease holds it, and ends the lease |
| `Reconnect.ReclaimLease.Release` | crates/cowchat-server/src/reconnect.rs:117-128 | an uncommitted lease gives the claim back with everything buffered meanwhile; otherwise nothing happens |
| `Tombstones.Prune` | crates/cowchat-server/src/broker.rs:36-50 | the loop leaves the fresh entries, or the newest of them up to the bound |
| `Tombstones.PruneIdempotent` | crates/cowchat-server/src/broker.rs:52-57 | pruning twice at one instant is pruning once |
| `Tombstones.Record` | crates/cowchat-server/src/broker.rs:52-57 | prune, insert, prune: the bound holds, the room is recorded when it is strictly the newest entry or the fresh ones fit, and without entries from the future the result is one pruning of the map with it |
| `HandOver.AtMostOnce` | crates/cowchat-server/src/server.rs:1144-1234 | in every interleaving of publish passes, registrations, replays, commits, failures and disconnects no session is handed an event twice |
| `HandOver.NothingHiddenIsHanded` | crates/cowchat-server/src/handler.rs:56-62 | over every run, whatever becomes inaccessible and when: every frame a session was handed, live, replayed or late, was of a room accessible at the step that handed it over |
| `HandOver.SnapshotReplaysAccessible` | crates/cowchat-server/src/server.rs:1148-1157 | what is replayed first is exactly the accessible part of the stash, in its order |
| `HandOver.TailExactly` | crates/cowchat-server/src/server.rs:1214-1232 | a late frame is sent unless replayed already or of an inaccessible room; a writer that is gone ends them |
| `HandOver.RegistersExactly` | crates/cowchat-server/src/server.rs:889-993 | when a registration is admitted, with which lease and which frames, and what becomes of an old stash |
| `HandOver.SecondPassChanges` | crates/cowchat-server/src/handler.rs:56-62 | the second pass sends to the session registered then, of an accessible room and not taken by a stash, and to no other |
| `HandOver.CommitExactly` | crates/cowchat-server/src/reconnect.rs:101-114 | a commit takes the whole stash exactly when the lease still holds it |
| `HandOver.LiveChanges` | crates/cowchat-server/src/server.rs:1090-1098 | the registry entry changes by an installation, a failed write of its session and the end of its clean-up, and by nothing else |
| `HandOver.ExactlyOnce` | crates/cowchat-server/src/server.rs:1176-1234 | an event whose stash a session committed has been handed to it exactly once when its tail is through, if it was never denied the room |
| `HandOver.BufferedThenDeliveredOnce` | crates/cowchat-server/src/reconnect.rs:85-128 | the whole rule: an event that meets a stash with space is still waiting once, or left it at some step of the run because the stash had expired, its room was destroyed, or the lease holder committed, and then that session was handed it exactly once |
| `HandOver.StashTakesEvent` | crates/cowchat-server/src/reconnect.rs:267-287 | a first pass over an accessible stash with space puts the event at the end of its buffer |
| `HandOver.FateChange` | crates/cowchat-server/src/reconnect.rs:101-151 | the only four ways an event leaves a stash: commit by the lease holder, expiry, room destruction, replacement of the stash |
| `HandOver.FateHasCause` | crates/cowchat-server/src/reconnect.rs:101-151 | over every run: whatever an event's fate says, one of the steps was that cause, in a state where it was waiting |
| `HandOver.WaitingKeepsOrder` | crates/cowchat-server/src/reconnect.rs:252-287 | over every run the first events of a stash stay its first events in the same order while none of them leaves |
| `HandOver.FailedHandshakeKeepsBuffered` | crates/cowchat-server/src/server.rs:1192-1212 | after a failed initial write, with anything in between: the failed session never takes an event, and the next attempt that meets the stash unclaimed is given all events buffered at the failure, first and in order, if none has left |
| `HandOver.DroppedLeaseUnclaims` | crates/cowchat-server/src/reconnect.rs:117-128 | dropping the lease frees the stash and changes nothing else |
| `HandOver.BufferedEventsAreKept` | crates/cowchat-server/src/reconnect.rs:81-128 | with reconnecting registrations a buffered event is never lost by replacing its stash |
| `HandOver.CleanupFindsNoStash` | crates/cowchat-server/src/server.rs:1387-1398 | with reconnecting registrations a disconnect never finds an older stash to overwrite |
| `HandOver.RunKeepsExclusive` | crates/cowchat-server/src/server.rs:949-1142 | a stash beside a registered session is always the one that session is claiming or has just made |
| `HandOver.HeardExactlyWhenNotBuffered` | crates/cowchat-server/src/handler.rs:37-63 | whatever happens between the two passes, the second sends an accessible event to the session registered then exactly when no stash took it in the first |
| `HandOver.LiveSessionHearsEvent` | crates/cowchat-server/src/handler.rs:56-62 | with reconnecting registrations a session settled at the first pass and registered at the second, whose queue accepts the frame, hears the event, whatever happens between |
| `HandOver.LostExactly` | crates/cowchat-server/src/handler.rs:37-63 | an event accessible at its second pass is neither kept nor heard exactly when its first pass found no stash to take it and its second no session |
| `HandOver.RunKeepsLost` | crates/cowchat-server/src/handler.rs:37-63 | what is lost stays lost over every run |
| `HandOver.DisconnectLosesEvent` | crates/cowchat-server/src/server.rs:1387-1435 | it happens with reconnecting registrations: the passes fall on either side of a disconnect |
| `HandOver.StaleStashLosesEvent` | crates/cowchat-server/src/server.rs:949-993 | registering without `reconnect` beside an old stash: the stash takes an event from the live session, the session's own clean-up overwrites it, and nobody was handed it |
| `HandOver.RunKeepsInv` | crates/cowchat-server/src/server.rs:1037-1234 | what is kept over every run: buffers, replays, tails and queues stay disjoint, and each event has one owner |
| `WakeStore.WakeStore.ReserveEvent` | crates/cowchat-codex/src/store.rs:87-143 | a new event is reserved, an identical one returns the recorded sequence number, a different one under the same key is refused; other targets untouched |
| `WakeStore.WakeStore.MarkDelivered` | crates/cowchat-codex/src/store.rs:145-164 | records the sequence number unless another one is recorded |
| `WakeStore.WakeStore.ClaimWake` | crates/cowchat-codex/src/store.rs:166-187 | succeeds exactly when something above the acknowledged cursor was observed and no claim is younger than the lease |
| `WakeStore.WakeStore.ReleaseWake` | crates/cowchat-codex/src/store.rs:189-196 | clears the claim and nothing else |
| `WakeStore.WakeStore.RecordReadSeq` | crates/cowchat-codex/src/store.rs:210-220 | raises the read cursor, creating the target when absent |
| `WakeStore.WakeStore.AcknowledgeSeq` | crates/cowchat-codex/src/store.rs:222-241 | refuses cursors beyond what was read, never moves back, clears the claim |
| `WakeStore.WakeStore.MaxPendingEligibleSeq` | crates/cowchat-codex/src/store.rs:254-267 | the greatest delivered, unacknowledged sequence number that meets the hint, None exactly when there is none |
| `WakeStore.MaxPendingUnique` | crates/cowchat-codex/src/store.rs:254-267 | that description determines the answer |
| `WakeStore.AcknowledgeIsMonotone` | crates/cowchat-codex/src/store.rs:222-241 | an acknowledgement succeeds exactly up to the read cursor and keeps acknowledged <= read |
| `WakeStore.AcknowledgeSettles` | crates/cowchat-codex/src/store.rs:222-241 | an accepted acknowledgement reaches the greater of the old cursor and its own, and settles exactly the pending events up to its own |
| `WakeStore.ReserveExactly` | crates/cowchat-codex/src/store.rs:87-143 | another body, room or hint under a known key conflicts; the same is a duplicate with the recorded number; only a new key is recorded |
| `WakeStore.ClaimsAreLeased` | crates/cowchat-codex/src/store.rs:166-187 | a held claim is taken over only a whole lease later |
| `WakeBridge.EventIsInRoomOnce` | crates/cowchat-codex/src/service.rs:333-380 | over every run with crashes, lost replies and purges, calls for one key not overlapping: the room never holds two messages of an event, and a recorded number is that message's |
| `WakeBridge.RetryFindsLostMessage` | crates/cowchat-codex/src/service.rs:354-380 | after a send that was stored but reported as failed, a retry finds the message and cannot conclude that it is missing |
| `WakeBridge.OverlappingCallsSendTwice` | crates/cowchat-codex/src/service.rs:354-380 | overlapping calls for one event can both send |
| `WakeBridge.SendKeepsOnceExactly` | crates/cowchat-codex/src/service.rs:368-380 | in any state a send keeps the event's message unique exactly when the room holds none at that moment |
| `WakeBridge.RunKeepsDelivery` | crates/cowchat-codex/src/store.rs:87-164 | what is kept over every serial run, for all events and all calls in progress at once |
| `WakeBridge.EventIsFixed` | crates/cowchat-codex/src/store.rs:99-137 | over every run a reserved event keeps its body, room and hint, and its number once recorded |
| `WakeBridge.NumberChanges` | crates/cowchat-codex/src/store.rs:145-164 | a number is recorded by the call that found or sent the event, and never replaced |
| `WakeBridge.ClaimChanges` | crates/cowchat-codex/src/store.rs:166-196 | the claim is taken by an attempt that finds none younger than a lease, ended by a failed wake and by an acknowledgement, and by nothing else |
| `WakeReads.AcknowledgedWasReturned` | crates/cowchat-codex/src/service.rs:415-490 | if every read starts at or below what was read before, every retained wake event up to the acknowledged cursor was returned by some read |
| `WakeReads.DefaultCursorIsHonest` | crates/cowchat-codex/src/service.rs:420-422 | acknowledged <= read over every run, so the default cursor is always such a start |
| `WakeReads.AcknowledgedIsGreatest` | crates/cowchat-codex/src/store.rs:222-241 | over every run the acknowledged cursor is the greatest ever accepted |
| `WakeBridge.MaxReadChanges` | crates/cowchat-codex/src/store.rs:210-220 | the read cursor rises exactly to the highest number of a finished read, and by nothing else |
| `WakeBridge.AcknowledgedChanges` | crates/cowchat-codex/src/store.rs:222-241 | the acknowledged cursor rises exactly to an accepted cursor, and by nothing else |
| `WakeReads.ReadIsSafeExactly` | crates/cowchat-codex/src/service.rs:447-450 | a read, others in progress or not, keeps that guarantee exactly when its start skips no message that was never returned |
| `WakeReads.ReadPastTheEndLosesEvent` | crates/cowchat-codex/src/service.rs:447-450 | a run from the start: a read above the tip, then its acknowledgement, and the next event counts as acknowledged though never returned |
| `WakeClaims.NoLostWakeup` | crates/cowchat-codex/src/service.rs:386-399 | with no call in progress, a delivered unacknowledged event that meets the hint is claimed for, unless since the last claim or acknowledgement an attempt failed or a call died before its attempt |
| `WakeClaims.UnclaimedMeansLastFailed` | crates/cowchat-codex/src/service.rs:492-525 | if no attempt takes the claim, or dies untried, while another's remote wake runs, an unclaimed pending event means that the attempt that ended last failed or crashed |
| `WakeClaims.FailedWakeReleasesExactly` | crates/cowchat-codex/src/service.rs:516-524 | over every run: a failing wake clears another attempt's claim exactly when an attempt has claimed since and was not released or acknowledged, which takes a whole lease within one epoch |
| `WakeClaims.SlowWakeIsOvertaken` | crates/cowchat-codex/src/service.rs:492-525 | a run from the start: a remote wake outlasts its lease, a second one takes the claim, the first fails and the second succeeds, and the event is left pending and unclaimed |
| `WakeClaims.HeldClaimsAreALeaseApart` | crates/cowchat-codex/src/store.rs:166-187 | over every run, claims with no release or acknowledgement between them are at least a lease apart |
| `WakeClaims.ClaimKeepsCovered` | crates/cowchat-codex/src/service.rs:492-512 | an attempt that finds the claim taken, or its events acknowledged, leaves nothing uncovered |
| `Webhooks.DeliversEverythingInOrder` | crates/cowchat-server/src/webhooks.rs:328-457 | over every orderly run from subscribe on, deliveries during backfills included: deliveries strictly increase, none repeats or fails the filter, every retained matching message up to the cursor was delivered, and an active subscription at rest has every later one queued |
| `Webhooks.RunKeepsQueueInv` | crates/cowchat-server/src/webhooks.rs:227-457 | the same as an invariant over every such run, in all stages of the worker and the backfill |
| `Webhooks.RunKeepsKnown` | crates/cowchat-server/src/store.rs:1482-1509 | over every run whatsoever: queued rows are messages of the room that pass the filter, posted as often as attempted |
| `Webhooks.DeliversOnlyWanted` | crates/cowchat-server/src/webhooks.rs:50-79 | over every run: a delivered message is by the author asked for and not by the one excluded, of a kind asked for, no system message, and no thinking where excluded |
| `Webhooks.WantedIsDelivered` | crates/cowchat-server/src/webhooks.rs:50-79 | over every orderly run: a retained message that meets those criteria was delivered up to the cursor, and is queued beyond it |
| `Webhooks.QueueChanges` | crates/cowchat-server/src/webhooks.rs:227-262 | a row is queued by an insert above the cursor of an active subscription or as the next of a backfill; it goes with a success, the sixth failure or a drop |
| `Webhooks.WorkChanges` | crates/cowchat-server/src/webhooks.rs:328-457 | the worker takes up a due head, and posts it only if it still saw the subscription active and the message retained |
| `Webhooks.SixthFailureGivesUp` | crates/cowchat-server/src/webhooks.rs:423-456 | over every run: a row is posted at most six times; it goes, and the subscription is about to fail, exactly on the sixth failure; until then each failure waits four times as long as the one before |
| `Webhooks.PageIsEverything` | crates/cowchat-server/src/handler.rs:2470-2472 | a page of 1000 is the whole backlog when the backlog has at most 1000 messages |
| `Webhooks.EnableRecoversExactly` | crates/cowchat-server/src/handler.rs:2438-2486 | an enable run to its end, rows still queued or not, recovers the backlog exactly when the page was not full or every matching message beyond it is queued already |
| `Webhooks.SmallBacklogSuffices` | crates/cowchat-server/src/handler.rs:2470-2472 | which holds for a backlog of at most 1000 messages |
| `Webhooks.DeliveryDuringFillExactly` | crates/cowchat-server/src/handler.rs:2329-2361 | a row delivered while the last page is filled in: afterwards nothing at or below the cursor is queued, to go out late or again, exactly when the backfill owed nothing up to that row |
| `Webhooks.DeliveryBeforePageExactly` | crates/cowchat-server/src/handler.rs:2329-2361 | the same for a delivery before the page is fetched, as right after subscribing |
| `Webhooks.DeliveryDuringSubscribeRepeats` | crates/cowchat-server/src/handler.rs:2329-2361 | a run from subscribe, with no enabling: messages 2, 1 and 2 again are delivered |
| `Webhooks.LateDropExactly` | crates/cowchat-server/src/webhooks.rs:343-346 | dropping a row of a subscription seen as failed loses nothing exactly when it is still failed, the message is gone, or a backfill has yet to come to it |
| `Webhooks.EnableDuringDeliveryRepeats` | crates/cowchat-server/src/handler.rs:2438-2486 | enabling an active subscription during a delivery sends the message twice |
| `Webhooks.EnableBeforeDropLosesMessage` | crates/cowchat-server/src/handler.rs:2438-2486 | enabling between the worker's look and its deletion leaves a matching message unqueued |
| `Webhooks.WorkerKeepsNoGap` | crates/cowchat-server/src/store.rs:1466-1478 | moving the cursor passes over no matching message that was not delivered |
| `Webhooks.FetchKeepsComplete` | crates/cowchat-server/src/handler.rs:2329-2361 | fetching a page leaves every matching message queued, in the page, or to be fetched |
| `WebhookStore.DeliveryTables.EnqueueForMessage` | crates/cowchat-server/src/webhooks.rs:227-262 | every subscription takes exactly the insert step of the protocol |
| `WebhookStore.DeliveryTables.EnqueueDelivery` | crates/cowchat-server/src/store.rs:1482-1509 | inserts a row unless the subscription already has one for the message |
| `WebhookStore.DeliveryTables.LoadDue` | crates/cowchat-server/src/store.rs:1511-1544 | a batch of due heads, one of each subscription, ordered by due time and number; one left out comes after all of a full batch |
| `WebhookStore.DeliveryTables.FinishPost` | crates/cowchat-server/src/webhooks.rs:410-457 | success deletes the row; failure reschedules by 1, 4, 16, 64, 256 seconds or gives up |
| `WebhookStore.DeliveryTables.AdvanceSubscriptionCursor` | crates/cowchat-server/src/store.rs:1466-1478 | the cursor only moves forward, and moving it clears the failure count |
| `WebhookStore.DeliveryTables.SetSubscriptionStatus` | crates/cowchat-server/src/store.rs:1442-1464 | changes the status of one subscription, and its failure count when one is given |
| `WebhookStore.DeliveryTables.DeleteDelivery` | crates/cowchat-server/src/store.rs:1569-1576 | removes the one row |
| `WebhookStore.DeliveryTables.Backfill` | crates/cowchat-server/src/handler.rs:2340-2352 | queues exactly the matching messages of the page, leaving rows already there as they were |
| `Votes.CopiesAgreeExactly` | crates/cowchat-server/src/handler.rs:1383-1425 | over every run, creation and destruction interleaved with casts: one result at most per server life; memory holds only stored ballots exactly while the row exists or memory is empty, and all of them, with no cast in flight, exactly when it has refused none |
| `Votes.RecordRefusesExactly` | crates/cowchat-server/src/voting.rs:144-182 | memory refuses a stored ballot exactly when the vote is not in memory or has no such option |
| `Votes.ActiveChanges` | crates/cowchat-server/src/voting.rs:47-84 | the vote is in memory from its creation or from a restart that finds it open; it gains a ballot exactly when a stored one is recorded in range by an elector without one |
| `Votes.StoredChanges` | crates/cowchat-server/src/store.rs:883-919 | a ballot is stored exactly when a checked cast meets an open vote without a ballot of its agent |
| `Votes.CheckedChanges` | crates/cowchat-server/src/handler.rs:1466-1520 | a cast is checked against the electorate and options in memory or, without the vote there, against the stored electorate alone |
| `Votes.ClosingChanges` | crates/cowchat-server/src/voting.rs:343-387 | a result is closed in the tables before it is broadcast, and broadcast once |
| `Votes.PromptCopiesAgree` | crates/cowchat-server/src/handler.rs:1522-1543 | if casts are checked and recorded while the vote is in memory, the two copies agree whenever no cast is in flight |
| `Votes.RefusedVoteNeedsDeadline` | crates/cowchat-server/src/handler.rs:1522-1543 | once memory has refused a stored ballot, a result of this server life can only come from a deadline |
| `Votes.EarlyBallotIsNeverRecorded` | crates/cowchat-server/src/handler.rs:1383-1411 | a ballot cast between the table write and the insertion in memory is stored, never in memory, and the vote never closes by ballots |
| `Votes.DestroyedVoteIsBroadcast` | crates/cowchat-server/src/handler.rs:802-844 | a deadline between the deletion of the rows and the forgetting broadcasts a result of which nothing is stored |
| `Votes.ClosesWhenEveryoneVoted` | crates/cowchat-server/src/voting.rs:166-190 | a result not due to a deadline holds a ballot of every elector, and a vote left in memory at rest misses one |
| `Votes.BroadcastTallyIsStored` | crates/cowchat-server/src/voting.rs:343-387 | while the row exists a broadcast tally never exceeds the stored one for any option; it sums to its ballots exactly when all options exist |
| `Votes.CarefulTallySums` | crates/cowchat-server/src/handler.rs:1512-1520 | if late casts name existing options every broadcast tally sums to its ballot count |
| `Votes.LateBallotIsNotTallied` | crates/cowchat-server/src/handler.rs:1466-1531 | a cast checked after a deadline took the vote is not validated; a restart before the close brings it back and it is broadcast untallied |
| `Tallies.TallySumsExactly` | crates/cowchat-server/src/handler.rs:1568-1585 | the tally sums to the ballot count exactly when every ballot is in range |
| `Tallies.TallyIsMonotone` | crates/cowchat-server/src/voting.rs:345-357 | fewer ballots of distinct agents count less for every option |
| `Tallies.BuildVoteTally` | crates/cowchat-server/src/handler.rs:1568-1585 | the counting loop gives each option the number of ballots for it and ignores ballots out of range |
| `Votes.RestartKeepsElectorateExactly` | crates/cowchat-server/src/store.rs:341-356 | a restart leaves the electorate alone exactly when the creator was in it |
| `Votes.CrashOfFullVoteIsSilent` | crates/cowchat-server/src/store.rs:341-356 | a full vote caught by a crash is closed by the restart and its result is never broadcast |
| `VoteStore.VoteManager.WriteVote` | crates/cowchat-server/src/store.rs:845-881 | the table half of a creation: the row is open, with the members of the moment as electorate |
| `VoteStore.VoteManager.InsertActive` | crates/cowchat-server/src/voting.rs:103-140 | the memory half: an entry with its room and no ballots |
| `VoteStore.VoteManager.PersistBallot` | crates/cowchat-server/src/store.rs:883-919 | unknown, closed and repeated ballots are told apart, each exactly; otherwise it is the persist step |
| `VoteStore.VoteManager.RecordBallot` | crates/cowchat-server/src/voting.rs:144-182 | the record step, telling the caller whether the vote is now full |
| `VoteStore.VoteManager.TakeVote` | crates/cowchat-server/src/voting.rs:187-191 | only one taker gets the vote |
| `VoteStore.VoteManager.CloseVote` | crates/cowchat-server/src/store.rs:1003-1010 | closes one vote in the tables |
| `VoteStore.VoteManager.DeleteVotesOf` | crates/cowchat-server/src/store.rs:543-593 | a destroyed room's vote rows go, and no others |
| `VoteStore.VoteManager.ForgetRoom` | crates/cowchat-server/src/voting.rs:334-339 | forgets exactly the active votes of the room, their rows deleted or not |
| `VoteStore.VoteManager.Reload` | crates/cowchat-server/src/voting.rs:47-84 | a new server takes the restart step for every vote, whatever memory held |
| `Broker.TurnIsAlwaysSound` | crates/cowchat-server/src/broker.rs:187-285 | after any run members are distinct and a holder exists exactly when there are members, and is one |
| `Broker.TokenVisitsEveryoneOnce` | crates/cowchat-server/src/broker.rs:317-332 | n sends by the holders give every member the token exactly once and return to the start |
| `Broker.HolderAfter` | crates/cowchat-server/src/broker.rs:317-332 | the holder after k such sends is the member k places further |
| `Broker.JoinThenLeave` | crates/cowchat-server/src/broker.rs:187-264 | leaving undoes a join that added the agent |
| `Broker.JoinExactly` | crates/cowchat-server/src/broker.rs:187-219 | a newcomer comes last and has the token only of a room without a holder |
| `Broker.LeaveExactly` | crates/cowchat-server/src/broker.rs:223-264 | the others keep their order; the token moves only if the leaver held it, to the one who came before all the rest |
| `Broker.OutcomeExactly` | crates/cowchat-server/src/broker.rs:258-264 | what a leave reports: nobody left, and a new holder exactly when the leaver held the token and somebody is left |
| `Broker.AdvanceExactly` | crates/cowchat-server/src/broker.rs:317-332 | a message passes the token to the member after its sender, whoever held it |
| `Broker.MembershipFollows` | crates/cowchat-server/src/broker.rs:187-264 | who is a member after a run follows from the joins, leaves and destructions alone |
| `Broker.LateAdvanceExactly` | crates/cowchat-server/src/broker.rs:317-332 | with any operations between its read and its write, the token is sound exactly when the member it had in mind stayed or came back, or, for an empty room, nobody came to stay |
| `Broker.LateAdvanceCanHandTokenToStranger` | crates/cowchat-server/src/broker.rs:317-332 | a concurrent leave can leave the token with a non-member |
| `Broker.Broker.JoinRoom` | crates/cowchat-server/src/broker.rs:187-219 | refused exactly when the room is tombstoned or unknown; otherwise the room changes as specified and no other does |
| `Broker.Broker.LeaveRoom` | crates/cowchat-server/src/broker.rs:223-264 | the room changes as specified and the outcome reports it |
| `Broker.Broker.LeaveAllRooms` | crates/cowchat-server/src/broker.rs:270-285 | the agent leaves every room it is in, others untouched, and each left room's outcome is reported |
| `Broker.Broker.AdvanceTurnFrom` | crates/cowchat-server/src/broker.rs:317-332 | passes the token to the member after the sender, in that room only |
| `Broker.Broker.DestroyRoomWith` | crates/cowchat-server/src/broker.rs:338-358 | a successful deletion empties the room and tombstones it with this instant whenever it is strictly the newest entry or the fresh ones fit; a failed one only prunes |
| `Broker.Broker.Tombstone` | crates/cowchat-server/src/broker.rs:52-57 | records the room under the same condition, adding no other and keeping the bound |
| `Destruction.DestroyedRoomStaysEmpty` | crates/cowchat-server/src/broker.rs:187-219 | in every interleaving a destroyed room never again has a member, even after its tombstone is evicted |
| `Destruction.MembersExactly` | crates/cowchat-server/src/broker.rs:187-264 | over every run an agent is a member exactly when some step admitted it (lock free, room there, no tombstone) and no later one took it out |
| `Destruction.StashRoomChanges` | crates/cowchat-server/src/reconnect.rs:154-189 | rooms come into a stash only with its insertion, filtered, and go with the second filter, the room's forgetting or the stash |
| `Destruction.StashFrameChanges` | crates/cowchat-server/src/reconnect.rs:252-314 | frames come into a stash only by an event or push checked against the recorded rooms, with space, and go with their room's forgetting or the stash |
| `Destruction.ForgottenRoomLeavesStashes` | crates/cowchat-server/src/reconnect.rs:154-189 | once forgetting is over and the id still recorded, no finished stash holds the room, and frames of it only from a late push |
| `Destruction.PushAfterCheck` | crates/cowchat-server/src/reconnect.rs:252-265 | a push after the check leaves such a frame exactly when the room was recorded in between and there is space |
| `Destruction.LatePushReachesStash` | crates/cowchat-server/src/reconnect.rs:252-265 | such a push does happen |
| `Destruction.RunKeepsForgotten` | crates/cowchat-server/src/reconnect.rs:306-314 | what is kept over every run about recorded rooms and frames |
| `Sequences.SequencesNeverRepeat` | crates/cowchat-server/src/store.rs:613-696 | over every run of inserts, older-binary inserts, purges and restarts, numbers strictly increase in commit order and the tip is the greatest ever assigned |
| `Sequences.RetainedExactly` | crates/cowchat-server/src/store.rs:613-684 | over every run a message is in the room exactly when it was there at first or committed by a step, and every later purge was to keep it |
| `Sequences.InsertedIsReturned` | crates/cowchat-server/src/store.rs:655-744 | a message just inserted is returned by a query from any earlier cursor, after what that returned before |
| `Sequences.SinceIsExact` | crates/cowchat-server/src/store.rs:733-744 | a query returns exactly the retained messages after the cursor, in order, up to the limit |
| `Sequences.RoomsEvolve` | crates/cowchat-server/src/store.rs:319-338 | to a reader coming back, messages may be gone and new ones lie above the earlier mark |
| `Sequences.MessageStore.InsertMessage` | crates/cowchat-server/src/store.rs:634-684 | the next number above the mark, in that room only |
| `Sequences.MessageStore.InsertRow` | crates/cowchat-server/src/store.rs:319-338 | an older binary's insert is refused exactly at or below the mark, and otherwise raises it |
| `Sequences.MessageStore.PurgeRoom` | crates/cowchat-server/src/store.rs:613-630 | removes messages and leaves the mark |
| `Sequences.MessageStore.Reopen` | crates/cowchat-server/src/store.rs:306-317 | every mark is raised to the retained messages |
| `Sequences.MessageStore.RoomTip` | crates/cowchat-server/src/store.rs:688-696 | the mark, zero for an unknown room |
| `Sequences.MessageStore.GetHistorySince` | crates/cowchat-server/src/store.rs:733-744 | the scan returns the specified page |
| `Paging.FindEvent` | crates/cowchat-codex/src/service.rs:210-238 | on a room that changes between pages, returns the first matching message of the room as last seen, None exactly when it holds none; it ends as soon as a page is not full or holds a match |
| `Paging.ReadEvents` | crates/cowchat-codex/src/service.rs:240-272 | the first `limit` wake events above the cursor, in order; what is left out lies beyond a full result; it ends as soon as a page is not full or enough was collected |
| `Paging.BoundedRoomsEnd` | crates/cowchat-codex/src/service.rs:210-272 | which happens in every room whose numbers stay below some bound, known or not |
| `Paging.StableRoomReadsFirsts` | crates/cowchat-codex/src/service.rs:240-272 | in a room nobody changes meanwhile that is exactly the filtered log |
| `Paging.FirstsUnique` | crates/cowchat-codex/src/service.rs:240-272 | that description determines the answer |
| `Paging.ScanBacklog` | crates/cowchat-client/src/connection.rs:1167-1206 | ends for arbitrary answers; from an honest server it returns the first news up to the tip and moves on exactly when there is none |
| `Paging.PageRulesOut` | crates/cowchat-client/src/connection.rs:1174-1205 | a page without a match rules out everything up to its end, and everything when it is not full |
| `Transport.TcpTransport.RecvLine` | examples/python/cowchat.py:126-133 | a line is the stream up to the next newline; a timeout or the end of the stream loses nothing |
| `Transport.SessionReturnsLines` | examples/python/cowchat.py:126-133 | over any session, chunks and timeouts as they come, the lines returned are the first lines of the stream and the rest is still to come |
| `Transport.FinishedSessionReturnsAll` | examples/python/cowchat.py:126-133 | a session that runs to the end returns exactly the lines of the stream |
| `Transport.ClientFrameRoundTrip` | examples/python/cowchat.py:217-231 | decoding a sent frame by section 5.2 of RFC 6455, unmasking bit by bit and insisting on the shortest length form, gives back opcode and payload for every mask |
| `Transport.MaskedBits` | examples/python/cowchat.py:229-230 | bit k of masked byte i is set exactly when bit k of the payload's byte and of byte i mod 4 of the mask differ (section 5.3 of RFC 6455) |
| `Transport.MaskedTwice` | examples/python/cowchat.py:229-230 | masking is its own inverse (section 5.3 of RFC 6455) |
| `Transport.ServerFrameRoundTrip` | examples/python/cowchat.py:204-215 | reading a server frame gives it back and consumes no more |
| `Transport.BigEndianRoundTrip` | examples/python/cowchat.py:220-227 | the extended length comes back |
| `Transport.FragmentsReadBack` | examples/python/cowchat.py:236-249 | for every fragmentation with pings and pongs between (section 5.4 of RFC 6455) the message comes back whole, every ping reported once and in order |
| `Transport.WsTransport.RecvExact` | examples/python/cowchat.py:195-202 | exactly n bytes however the stream is cut up |
| `Transport.WsTransport.RecvFrame` | examples/python/cowchat.py:204-215 | the next frame of the stream |
| `Transport.WsTransport.SendFrame` | examples/python/cowchat.py:217-231 | writes the bytes of that frame and nothing else |
| `Transport.WsTransport.RecvLine` | examples/python/cowchat.py:236-249 | the next message whole, with one pong per ping, in order and with the ping's payload |
| `RateLimits.WindowBound` | crates/cowchat-server/src/rate_limit.rs:97-139 | over every request trace on a monotone clock an interval of one window admits at most twice the cap |
| `RateLimits.WindowAdmitsAtMostCap` | crates/cowchat-server/src/rate_limit.rs:97-114 | one window never admits more than its cap |
| `RateLimits.RefusedOnlyWhenFull` | crates/cowchat-server/src/rate_limit.rs:97-114 | over every trace a request is refused only at a moment whose window has admitted its whole cap |
| `RateLimits.AdmissionsAreOrdered` | crates/cowchat-server/src/rate_limit.rs:105-108 | admissions lie in their windows and windows follow one another |
| `RateLimits.RateLimiter.TryRegisterSignup` | crates/cowchat-server/src/rate_limit.rs:97-114 | admits exactly as the window allows and counts exactly the admitted |
| `RateLimits.RateLimiter.AdmitMessage` | crates/cowchat-server/src/rate_limit.rs:128-149 | check and increment together are one request of a minute's window; other keys untouched |
| `RateLimits.RateLimiter.CheckMessageRate` | crates/cowchat-server/src/rate_limit.rs:128-139 | restarts a stale window and compares, counting nothing |
| `RateLimits.RateLimiter.IncrementMessage` | crates/cowchat-server/src/rate_limit.rs:146-149 | counts one message |
| `RateLimits.RateLimiter.AddAgent` | crates/cowchat-server/src/rate_limit.rs:151-154 | one more session of the key |
| `RateLimits.RateLimiter.RemoveAgent` | crates/cowchat-server/src/rate_limit.rs:156-163 | one less, never below zero |
| `Sessions.RunKeepsTakeover` | crates/cowchat-server/src/server.rs:889-1142 | over every run under the guard: one holder, the registry holds each agent's newest session until it ends, and only that one restores or leaves rooms |
| `Sessions.AgentKeepsItsPlace` | crates/cowchat-server/src/server.rs:1371-1435 | however often an agent is taken over and however late older clean-ups run, step by step, it stays registered and in its rooms until its newest session leaves |
| `Sessions.NewerSessionSurvives` | crates/cowchat-server/src/server.rs:885-889 | an installed session keeps its entry and its rooms over every run until it leaves or is taken over itself |
| `Sessions.RegistrationRestores` | crates/cowchat-server/src/server.rs:1099-1142 | a session that goes live is in every room of its reclaimed stash, or of the agent it took over, that did not refuse it |
| `Sessions.MemberChanges` | crates/cowchat-server/src/server.rs:1371-1435 | members come by restored rooms and joins of live sessions; they go by a clean-up, room by room, and by a leave of the owner |
| `Sessions.GuardChanges` | crates/cowchat-server/src/server.rs:885-1142 | who takes the guard and when it is freed |
| `Sessions.UnguardedCleanupRemovesNewerSession` | crates/cowchat-server/src/server.rs:885-889 | without the guard a run ends with the older clean-up having removed the live newer session from its room |
| `Sessions.MembersAreRegistered` | crates/cowchat-server/src/server.rs:1192-1212 | over every run with frames atomic, every member is a registered agent whenever the guard is free |
| `Sessions.LateJoinExactly` | crates/cowchat-server/src/server.rs:1371-1402 | at any later moment with the guard free and no further takeover, a join handled late has left an unregistered member exactly when it came after the newer session had ended or had begun to leave without that room |
| `Sessions.LateJoinLeavesGhostMember` | crates/cowchat-server/src/server.rs:1371-1385 | a run from the start does leave one |
| `SessionCounts.CountsAreConserved` | crates/cowchat-server/src/rate_limit.rs:151-163 | a key's count is the number of its sessions registered and not yet given back |
| `SessionCounts.ZeroGuardNeverFires` | crates/cowchat-server/src/rate_limit.rs:156-163 | whenever a session is given back the count is positive |
| `SessionCounts.CountChanges` | crates/cowchat-server/src/rate_limit.rs:151-163 | a count rises with a registration, falls with a session given back, and is zeroed by a delayed insertion; by nothing else |
| `SessionCounts.DelayedInsertExactly` | crates/cowchat-server/src/rate_limit.rs:116-121 | a delayed insertion of a fresh entry keeps the count exactly when no session of the key is counted |
| `SessionCounts.DelayedInsertLosesSession` | crates/cowchat-server/src/rate_limit.rs:116-121 | it can lose a session |
| `Access.ListingMatchesAccess` | crates/cowchat-server/src/store.rs:1183-1237 | after every run from tables with an agreeing cache, rooms without an owner included, the SQL listing and the access rule agree on a room exactly when the credential is not one of two reserved ones |
| `Access.OrdinaryKeyListing` | crates/cowchat-server/src/connection.rs:17-62 | every ordinary key is listed exactly the rooms it may use |
| `Access.RunKeepsAgreement` | crates/cowchat-server/src/store.rs:1131-1169 | over every run of create, grant, destroy, side-state deletion and reopen the cache equals the grants table |
| `Access.UnownedRoomNeedsGrant` | crates/cowchat-server/src/store.rs:1763-1769 | a private room without an owner is never destroyed, and over every run a key may use it exactly while a grant names that key |
| `Access.RunKeepsNamesUnique` | crates/cowchat-server/src/store.rs:419-433 | no two rooms ever have one name |
| `Access.ReservedKeyIsListedButDenied` | crates/cowchat-server/src/store.rs:1763-1769 | the reserved marker used as a key is listed a room it may not use |
| `Access.DestroyRemovesGrants` | crates/cowchat-server/src/store.rs:543-593 | an authorised destruction leaves no grant of the room anywhere |
| `Access.DestroyExactly` | crates/cowchat-server/src/store.rs:543-578 | a room is destroyed exactly by its creator with the owner's key where keys are asked for; the lobby and rooms without an owner never are |
| `Access.OnlyCreatorDestroys` | crates/cowchat-server/src/store.rs:543-593 | over every run a room that is gone was destroyed at some step by its creator |
| `Access.ReopenAgrees` | crates/cowchat-server/src/store.rs:358-371 | opening the database makes cache and table agree whatever the cache held |
| `Access.GrantStore.CreateRoom` | crates/cowchat-server/src/store.rs:408-438 | a taken name or id is refused and changes nothing; otherwise a keyless creator is recorded as the empty owner |
| `Access.GrantStore.AddRoomGrant` | crates/cowchat-server/src/store.rs:1131-1143 | the grant is recorded in the table and in the cache |
| `Access.GrantStore.PurgeRoomGrantsFromCache` | crates/cowchat-server/src/store.rs:1164-1169 | the room leaves every entry and empty entries leave the cache |
| `Access.GrantStore.DestroyRoomAuthorized` | crates/cowchat-server/src/store.rs:543-593 | unknown, protected and foreign rooms are told apart; otherwise room and grants go together |
| `Access.GrantStore.GrantedKeysForRoom` | crates/cowchat-server/src/store.rs:1156-1162 | exactly the keys whose cached grants name the room |

## Left out

- Sockets, TLS, the HTTP and WebSocket server plumbing, DNS checks, the instance lock and file permissions: operating-system behaviour.
- JSON, encryption, key derivation, request signing and UUIDs: ids are values that never repeat, event bodies are opaque strings, line contents are bytes before decoding.
- SQLite itself: a transaction is one durable step, and tables other than those named above are not part of this model.
- Clocks: the current time is an argument of the step or method that reads it; one instant serves a whole pruning.
- Queue capacity: whether a live session's outbound queue accepts a frame is an argument of the step; its disconnection when it does not is not modelled.
- `AgentLeft` and other frames that are sent live and buffered at once, and direct messages: they are outside the exactly-once rule, which is proved for room metadata events; order across tail and live queue is not claimed.
- HandOver.AtMostOnce: speaks of one identity at a time, since identities share no stash and no registry entry; the choice of who sees a room is one set of hidden rooms that may change at any step.
- HandOver.LiveSessionHearsEvent: for a session whose queue accepts the frame, and runs in which every registration up to the first pass reconnects; without the latter `HandOver.HeardExactlyWhenNotBuffered` gives the exact condition.
- WakeBridge.EventIsInRoomOnce: calls for one event do not overlap; each paging search is one step, which `Paging.FindEvent` justifies for a room that changes meanwhile.
- WakeClaims.NoLostWakeup: a call that dies after taking the claim leaves the claim set until its lease ends; that the claimed wake then reaches anybody is not claimed.
- Paging.FindEvent, Paging.ReadEvents: speak of loops that end, that is, of rooms in which some page is not full or holds what is wanted; a room that fills every page faster than it is read keeps the loop going for ever.
- Paging.ScanBacklog: only the backlog part; the live part of waiting for a message compares no sequence number, and decryption is left out.
- Webhooks.DeliversEverythingInOrder: for orderly runs, in which the worker takes up no row at or beyond one that a backfill still owes, a subscription is enabled while the worker is idle for it, and an enable's page suffices; what happens otherwise is stated by the lemmas named above. No crash between steps, one backfill of a subscription at a time, and enqueueing is one step with the insert although the code spawns it.
- Deleting a subscription, and the ids of delivery rows.
- Votes.ClosesWhenEveryoneVoted: an empty electorate (the creator left between the check and the count) never closes by ballots, hence the condition; agent names in ballots are left out.
- RateLimits.WindowBound: check and increment of a message are one request; done separately the bound depends on how many callers stand between the two. Room counts and the three limits' constants per tier are left out.
- Access.RunKeepsAgreement: each operation is one step; the table and the cache are changed one after the other in the code.
- Sessions.MembersAreRegistered: frames handled under the session's ownership; the late one is `Sessions.LateJoinExactly`. What a clean-up stashes and broadcasts is in `HandOver.dfy`.
- WakeClaims.UnclaimedMeansLastFailed: not for runs in which an attempt claims, or a call dies with its attempt still to come, while another remote wake runs; `WakeClaims.FailedWakeReleasesExactly` says what such an attempt suffers.
- Votes.PromptCopiesAgree: for casts checked and recorded while the vote is in memory; without that `Votes.CopiesAgreeExactly` gives the exact condition. An undone creation deletes the artifacts of its own vote only, and the same request forgets them.
- Access.GrantStore.CreateRoom: the name as normalised; an invalid name, renaming and changes of visibility are left out.
- Transport.WsTransport.RecvLine: a timeout in the middle of a frame, which the client does not expect, is not modelled; neither is the opening handshake. Payloads are below 2^64 bytes, where the length field ends.
- Transport.TcpTransport.RecvLine: a timeout is also the answer when nothing more has arrived.
- Leader elections, tasks, presence, typing, invites, room-name checks, reconstruction and calibration, the command line, the wake call into the Codex app server (it succeeds or fails), shell and export: short, or user interface, or a remote protocol.
