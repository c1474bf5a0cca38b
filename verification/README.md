# Collaborative boards: a verified model

A Dafny model of the server's stateful core and proofs about it: the WebSocket rooms and the hub that
owns them, the update log behind each document, the ordering of cards, the rate limiter, and the
ownership and token rules. `dafny verify dfyconfig.toml` checks everything.

## What is modelled

**Documents and rooms.** `DocumentLog` holds the `documents` row and its `document_updates` rows with
the two transactions on them; `DocumentReplay` says what they mean to a client, for any way of loading
a snapshot and applying an update. `RoomMachine` is the event loop of a document room as a step
function over registrations, departures, taken messages (with a persist that works or fails),
shutdown, the turns of the read and write pumps, compactions and deletion of the document.
`RoomSafety` proves what every run of it keeps. `DocumentRoom.Room` is the room as an object, with
`Run`'s loop and the fan-out that deletes from the set it walks, and every method is proved to make
exactly the machine's step. Board rooms have the same pair, `BoardMachine` and `BoardRooms`.
`HubMachine` interleaves lock sections of the hub, exits of rooms and watchers; `DocumentHub` is the
object. `RoomEffects` and `BoardEffects` say in plain terms what each event does to everyone in a room,
and when a member leaves. `Collaboration` puts hub, all rooms and all documents into one machine, in which the rooms of a
document share its rows: that two of them never write at the same time is proved there, not assumed.

**Cards.** `Cards` has the requests on the `cards` table over real positions, `CardServices` the same
as a service changing its table step by step, `CardOrder` the spacing results and `CardMoves` the
order results and the runs, `CardGaps` moves into one gap up to the rebalance, and `CardEffects` what each
request leaves in the rows.

**Rate limiter.** `RateLimit` has one call, one cleanup and runs of both; `RateSafety` and
`RateExact` compare the pruning limiter with one that never prunes; `RateLimiters` is the limiter
with its bucket objects.

**Ownership and tokens.** `Workspaces` interleaves requests at single database statements, with roles
that may be stale by the time they are used. `Boards` and `RefreshTokens` run requests one at a time;
`BoardPhases` and `TokenPhases` interleave their steps and say exactly when the single owner, the single
unrevoked token and the single redemption survive that. `WorkspaceAccess`, `BoardAccess` and
`TokenEffects` say who may do what, and what it writes. `BoardDetail` is the grouping loop of a board load.

**Conventions.** A history that the program does not store (everything ever queued to a client,
everything ever persisted, where a client joined) is a field of the machine's state and a ghost field
of the object. A database failure, the outcome of an access check, an identifier or token made
outside, the order in which a query returns ties, and the time are parameters. A step that is not
possible in a state leaves it unchanged, so the statements over runs range over every sequence.

## Where the code is not what its comments say

- `internal/services/documents.go:105` and `internal/repositories/documents.go:151` promise that the
  clock returned with a snapshot tells which updates are still needed. The same column is advanced by
  every persisted update, so updates since that clock leave out all the retained rows:
  `BootstrapCompleteIff` says exactly when nothing is missed, `BootstrapMissesFirstUpdate` is the
  smallest miss. What does hold, the snapshot with all retained rows, is `ReplayOverRuns`.
- `internal/services/documents.go:166` calls compaction safe beside live edits. A compaction below
  the latest clock sets the clock back, and every later persist then collides with a retained row and
  rolls back: `BlockedUntilLatestCompaction`. Nothing is lost: `ReplayOverRuns`, `CompactionLosesNothingIff`.
- `internal/ws/hub.go:89` guards against removing a newer replacement; the guard never fails: `WatcherFindsOwnRoom`.
- The comment in `internal/utils/fractional.go` expects about thirty halvings before a rebalance; it
  is exactly twenty: `RebalanceDueAfterTwenty` and, for move requests, `RebalanceAtTwentyFirstMove`.
- `internal/services/cards.go:193-194` calls the midpoint safe. A card exactly at the requested
  position is invisible to both neighbour queries (`MoveOntoTakenPosition`), and the position is
  reused after a rebalance has moved the cards away from it (`RankLostBetweenTwo`). The exact
  conditions are `MoveCardKeepsSpacingIff` and `MoveLandsAtRankIff`.
- `internal/services/auth.go:80` promises a single active session per login: two refreshes of one token
  that overlap both succeed (`InterleavedRefreshesBreakIt`); `BothFinishIff` says exactly when two may.
- `internal/repositories/refresh_tokens.go:72-74` says a used token can never be used again: the same two
  refreshes use it twice; `BothRedeemIff` says exactly when two requests do.
- `internal/repositories/boards.go:470` says the row locks prevent races; the transaction never looks
  at the roles it locked: `TransferKeepsOneOwnerIff`, `InterleavedTransfersBreakIt`. Nor does a removal
  or role change look again (`StaleWriteLeavesNone`); `BothWriteIff` says exactly which two may overlap.

## Model

| member | source | states |
|---|---|---|
| DocumentLog.DocumentRepository.IncrementClock | internal/repositories/documents.go:77-120 | One transaction: on success the row, its clock and the returned clock agree; on a failure, a missing document, a clock past 32 bits or a taken clock nothing changes; other documents are untouched |
| DocumentLog.DocumentRepository.UpdateSnapshot | internal/repositories/documents.go:175-201 | Snapshot and clock are set, the rows up to the clock and only those are gone; other documents are untouched |
| DocumentLog.IncrementCommitsIff | internal/repositories/documents.go:77-120 | An increment commits if and only if the database works, the clock still fits and the document's clock is the latest one; it then hands out latest + 1 |
| DocumentLog.AppendKeepsConsistent | internal/repositories/documents.go:77-120 | After an increment, committed or rolled back, the rows are still exactly the updates since the last compaction, each under its place in the history |
| DocumentLog.CompactKeepsConsistent | internal/repositories/documents.go:175-201 | So it is after a compaction anywhere between the last one and the latest clock |
| DocumentLog.RowsBetweenMeaning | internal/repositories/documents.go:125-147 | The query returns exactly the rows in the clock range, each once, in strictly ascending order |
| DocumentLog.UpdatesSinceIsTail | internal/repositories/documents.go:122-147 | For any clock from the last compaction on, the updates since it are exactly the later ones up to the latest, in order, without a gap; past the latest there are none, and below the compaction exactly the retained ones |
| DocumentLog.IncrementEffect | internal/repositories/documents.go:77-120 | With which error an increment ends and exactly when; otherwise clock and row are added and snapshot and rows stay |
| DocumentLog.CompactEffect | internal/repositories/documents.go:175-201 | A compaction keeps exactly the rows after its clock, with what they hold |
| DocumentLog.CompactFails | internal/repositories/documents.go:175-201 | A failing compaction, or one of a missing document, changes nothing |
| DocumentReplay.Yjs.ReplayOverRuns | internal/repositories/documents.go:77-201 | Over every run of persists and correct compactions, failing ones included, snapshot and retained rows replay to what every update ever persisted replays to |
| DocumentReplay.Yjs.ContentIsHistory | internal/repositories/documents.go:122-201 | From any consistent document with a faithful snapshot, loading it gives the replay of the whole history |
| DocumentReplay.Yjs.LegalStepKeeps | internal/repositories/documents.go:77-201 | One persist or one correct compaction keeps rows and snapshot faithful to the history |
| DocumentReplay.Yjs.ReplayConcat | internal/repositories/documents.go:149-201 | Replaying two pieces one after the other is replaying the whole |
| DocumentReplay.ClocksNeverReused | migrations/000003_documents.up.sql:23-24 | The clocks handed out over a run are consecutive, starting right after the history's end, so none is used twice, whatever in-range compactions write |
| DocumentReplay.BlockedUntilLatestCompaction | internal/repositories/documents.go:96-112 | After a compaction below the latest clock no persist commits, whatever else is compacted, until a compaction reaches the latest |
| DocumentReplay.PersistAfterCompactionIff | internal/repositories/documents.go:175-201 | Right after an in-range compaction, whatever came before, a persist commits if and only if the compaction was at the latest clock |
| DocumentReplay.RetainedRows | internal/repositories/documents.go:125-147 | All retained rows, in clock order, are the history after the last compaction |
| DocumentReplay.BootstrapCompleteIff | internal/services/documents.go:103-161 | Snapshot plus updates since the clock returned with it is complete if and only if no retained row carries that clock |
| DocumentReplay.BootstrapMissesFirstUpdate | internal/repositories/documents.go:96-104 | After one persist on a new document that bootstrap returns nothing at all |
| DocumentReplay.CompactionLosesNothingIff | internal/repositories/documents.go:170-201 | A compaction with the correct merge up to a clock loses nothing if and only if the clock does not go back behind the last compaction |
| Channels.OfferKeepsSound | internal/ws/room.go:192-208 | A non-blocking send to an open channel never panics, keeps what is queued the end of what was queued, and closes the channel exactly when it was full and the client is to be dropped |
| Channels.DeliverEffect | internal/ws/room.go:192-208 | Seen from each client: it gets the message, is skipped, or is dropped, and nothing else about it changes |
| Channels.DeliverKeepsCrowd | internal/ws/room.go:192-208 | A fan-out keeps every channel open exactly while its client is in the set |
| Channels.StaysIff | internal/ws/room.go:197-206 | A recipient of an update or event stays in the set if and only if fewer than 256 messages were unread |
| Channels.DeliverMeaning | internal/ws/room.go:192-208 | A delivery queues the message for every recipient with fewer than 256 unread messages, closes or skips the others, and leaves everyone else alone |
| Channels.CloseKeepsCrowd | internal/ws/room.go:131-132 | So does closing members' channels |
| Channels.JoinKeepsCrowd | internal/ws/room.go:97-98 | So does a client's first registration |
| Channels.GreetEffect | internal/ws/room.go:102-110 | The first message to a newcomer always fits: the branch that drops it is never taken, and the others keep what they had |
| Channels.PartingEffect | internal/ws/room.go:131-132 | Leaving closes one channel and touches no other |
| Clients.Fanout | internal/ws/room.go:192-208 | The loop that deletes while it iterates delivers to everyone but the sender, dropping exactly the full clients |
| Clients.Part | internal/ws/room.go:131-132 | Takes one client out and closes its channel |
| Clients.CloseEvery | internal/ws/room.go:173-178 | The shutdown loop closes each member's channel, once |
| RoomSafety.QueuedUpdatesAreForeignRows | internal/ws/room.go:90-208 | Over every run, the updates queued to a connected client are exactly the rows others persisted since it joined, in clock order with no gap; for a client that left, exactly those up to the row before which it left |
| RoomSafety.RowKeepsServed | internal/ws/room.go:148-160 | One persisted row, fanned out with drops: who stays has it unless it is the sender, who misses it has left right before it |
| RoomSafety.RegisterKeeps | internal/ws/room.go:97-123 | A registration with its greeting and the awareness query keeps channels and queued updates right |
| RoomSafety.UnregisterKeeps | internal/ws/room.go:126-145 | So does a departure, and the loop ends only with nobody left |
| RoomSafety.StepKeepsMembers | internal/ws/room.go:90-182 | Every event keeps channels and queued updates right, and an ended loop has an empty set |
| RoomSafety.StepKeepsLog | internal/ws/room.go:148-160 | Every event keeps the room's rows the last ones of the document's history, with gapless clocks, compactions included |
| RoomSafety.StepKeepsStreams | internal/ws/client.go:93-129 | Every event keeps the log an order-preserving part of what the pumps forwarded |
| RoomSafety.RunKeepsRoom | internal/ws/room.go:90-182 | All three hold after every run of a room started on any consistent document |
| RoomSafety.ChannelsOverRuns | internal/ws/room.go:90-208 | Over every run a channel is open exactly while its client is in the set, no send or close ever panics, and all are closed when the loop has returned |
| RoomSafety.RegisterAgainPanicsIff | internal/ws/room.go:97-110 | Registering a client a second time makes the loop panic if and only if it had left before |
| RoomSafety.LogMergesStreams | internal/ws/client.go:93-129 | Over every run each sender's rows are a subsequence of the sync messages its ReadPump read, a prefix if no persist failed; rows, failures and buffered messages add up to what was forwarded |
| RoomEffects.LeavesIff | internal/ws/room.go:90-208 | In every run a member leaves at an event if and only if its ReadPump ended, the room was shut down, or an update of someone else was persisted while 256 messages waited for it |
| RoomEffects.EndsIff | internal/ws/room.go:142-179 | In every run the loop ends at an event if and only if that is a shutdown or the departure of the only member |
| RoomEffects.EndIsFinal | internal/ws/room.go:90-91 | Once ended it stays so, with nobody in the set and nothing more persisted |
| RoomEffects.RegisterEffect | internal/ws/room.go:97-123 | The newcomer is in with the first sync message waiting; each other member with room is asked for its awareness; nothing else changes |
| RoomEffects.UnregisterEffect | internal/ws/room.go:126-145 | The member is out and its channel closed with what is unread; each other member with room is told to remove the cursor; an unknown client changes nothing |
| RoomEffects.BroadcastEffect | internal/ws/room.go:148-160 | The oldest message is taken; persisted if nothing fails and the clock is the latest, it becomes the next row and goes to everyone but its sender; otherwise nobody gets it |
| RoomEffects.AwarenessEffect | internal/ws/room.go:163-164 | The oldest awareness message goes to everyone but its sender with room; nobody leaves, nothing is persisted |
| RoomEffects.ShutdownEffect | internal/ws/room.go:167-179 | The loop has ended, the set is empty and every channel closed with what is unread |
| RoomEffects.DrainEffect | internal/ws/client.go:146-160 | A drain takes exactly the oldest message |
| RoomEffects.ReceiveEffect | internal/ws/client.go:93-129 | A first byte 0 goes to the broadcast channel, 1 to the awareness channel, each unless it holds 256; anything else is discarded |
| RoomEffects.InboxesOverRuns | internal/ws/room.go:65-77 | Over every run neither inbox holds more than 256 messages or one of the other kind |
| RoomEffects.OnlySyncIsPersisted | internal/ws/room.go:41-43 | Over every run only messages with first byte 0 are persisted, awareness never |
| RoomEffects.CompactionEffect | internal/repositories/documents.go:175-201 | A compaction beside the room leaves the snapshot and exactly the later rows, and the room as it was |
| RoomEffects.NewRoomIsEmpty | internal/ws/room.go:65-77 | A new room has nobody in it and nothing waiting |
| RoomLog.UpdatesMeaning | internal/ws/room.go:192-208 | The updates of a queue are exactly its updates, in order |
| RoomLog.ForeignMeaning | internal/ws/room.go:192-208 | What a client must receive are exactly the rows of others, each as its update, in log order |
| RoomLog.SubsequenceMeaning | internal/ws/client.go:116-123 | A subsequence sits in the whole at increasing places |
| RoomLog.SubsequencePerSender | internal/ws/client.go:116-123 | Leaving messages out of a merge leaves out some of each sender's and reorders none |
| DocumentRoom.Room.constructor | internal/ws/room.go:65-77 | A new room is the machine's initial state on the document's current log |
| DocumentRoom.Room.OnRegister | internal/ws/room.go:97-123 | Does the machine's registration |
| DocumentRoom.Room.OnUnregister | internal/ws/room.go:126-145 | Does the machine's departure: unknown clients are ignored, the last one ends the loop |
| DocumentRoom.Room.OnBroadcast | internal/ws/room.go:148-160 | Does the machine's broadcast: persisted first, sent only if that worked |
| DocumentRoom.Room.OnAwareness | internal/ws/room.go:163-164 | Does the machine's awareness step: nothing persisted, nobody dropped |
| DocumentRoom.Room.OnShutdown | internal/ws/room.go:167-179 | Does the machine's shutdown |
| DocumentRoom.Room.OnReceive | internal/ws/client.go:93-129 | One turn of a ReadPump is the machine's dispatch on the first byte |
| DocumentRoom.Room.OnDrain | internal/ws/client.go:146-160 | One turn of a WritePump takes the oldest message |
| DocumentRoom.Room.Run | internal/ws/room.go:90-182 | The whole loop, over any possible sequence of choices and pump turns, ends in the machine's state for that run |
| HubMachine.StepKeepsHub | internal/ws/hub.go:50-94 | Every lock section, room exit and watcher keeps: a room awaits its watcher exactly while the table has it under its id, and a running room always does |
| HubMachine.RunKeepsHub | internal/ws/hub.go:50-94 | So it is under every interleaving |
| HubMachine.AtMostOneRunning | internal/ws/hub.go:50-94 | Every running room is in the table under its document; two running rooms of one document are the same room |
| HubMachine.WatcherFindsOwnRoom | internal/ws/hub.go:83-94 | When a watcher's section runs the entry is its own stopped room; it removes that and no other |
| HubMachine.CreatedOnlyWhenNoneLeft | internal/ws/hub.go:59-78 | A room is created only if no room of its id is running or awaits its watcher |
| HubMachine.AnswerHasStoppedIff | internal/ws/hub.go:50-79 | The fast path answers exactly when the table has a room of the id, the slow path always, both with a room of the id; under either lock it has already stopped if and only if a room of that id has returned and its watcher has not yet run |
| HubMachine.RoomIsReplaced | internal/ws/hub.go:50-94 | In every run, once a room has returned and its watcher has run, the next call misses and its slow path makes a new running room under the id |
| HubMachine.ExitEffect | internal/ws/room.go:90-91 | The exit of a room stops that room and nothing else |
| DocumentHub.Hub.ReadSection | internal/ws/hub.go:51-57 | Does the machine's fast path |
| DocumentHub.Hub.CreateSection | internal/ws/hub.go:59-79 | Does the machine's double check; the room is new exactly when the table had none |
| DocumentHub.Hub.WatchSection | internal/ws/hub.go:83-94 | Does the machine's removal |
| Collaboration.EveryUpdateHasOneRoom | internal/ws/hub.go:50-94 | However lock sections, room loops, pumps, watchers, compactions and deletions interleave over all documents, every update of a document was persisted by exactly one of its rooms, under the clock after its place in the history |
| Collaboration.ConnectedClientsMissNothing | internal/ws/room.go:90-208 | In every such run a client connected to any room has been queued exactly what others persisted to the document since it joined, up to the document's latest clock, whatever rooms there were before |
| Collaboration.WriteKeeps | internal/ws/room.go:148-160 | A room's persist finds the document's rows where the room left them, and stays clear of what every other room of the document wrote |
| Collaboration.CreationKeeps | internal/ws/hub.go:63-79 | A room is created where the history ends, after every older room of the document has ended |
| Collaboration.HubStepKeeps | internal/ws/hub.go:50-94 | Every lock section, room exit and watcher keeps the system's invariant |
| Collaboration.RoomStepKeeps | internal/ws/room.go:90-182 | So does every event of a room's loop and pumps |
| Collaboration.StepKeeps | internal/ws/hub.go:50-94 | So does every event of the system, documents created, compacted and deleted included |
| Collaboration.RunKeepsSystem | internal/ws/hub.go:50-94 | So it holds after every run |
| Collaboration.RoomsActAlone | internal/ws/room.go:90-182 | A room's event is its own step on the document's shared rows and touches no other room, document or the hub |
| Collaboration.HubActsAlone | internal/ws/hub.go:50-94 | A hub event creates a room if and only if it is a slow path that finds none, and touches no document |
| Collaboration.CompactionActs | internal/repositories/documents.go:175-201 | A compaction leaves the snapshot and exactly the later rows of its document |
| Collaboration.CreationActs | migrations/000003_documents.up.sql:2-10 | A new document is empty, and no room or other document changes |
| Collaboration.DeletedStaysDeleted | migrations/000003_documents.up.sql:4-14 | From its deletion on a document is gone for good and nothing more is persisted to it |
| RoomSafety.MemberIsServed | internal/ws/room.go:90-208 | While a client is in the set the loop has not ended and the client's queued updates are the foreign rows since it joined |
| BoardMachine.EventsReachEveryone | internal/ws/hub.go:361-405 | Over every run a connected board client has been queued every event taken since it joined, in order; one that left, every event up to the first it missed |
| BoardMachine.EventKeepsServed | internal/ws/hub.go:396-405 | One event offered to all: who misses it leaves right before it |
| BoardMachine.NoticeKeepsServed | internal/ws/hub.go:366-380 | A join notice, delivered or not, changes nobody's events |
| BoardMachine.StepKeepsBoard | internal/ws/hub.go:361-423 | Every event keeps channels and queued events right, and an ended loop has an empty set |
| BoardMachine.RunKeepsBoard | internal/ws/hub.go:361-423 | So it is over every run |
| BoardMachine.BoardChannelsOverRuns | internal/ws/hub.go:361-423 | Open exactly while in the set, never a panic, all closed when the loop has returned |
| BoardEffects.TakenInOrder | internal/ws/hub.go:153-169 | Over every run the events taken are the published ones in the order they were published, none lost or doubled, and at most 256 are waiting |
| BoardEffects.LeavesIff | internal/ws/hub.go:361-423 | In every run a member leaves at an event if and only if its ReadPump ended, the room was shut down, or an event was taken while 256 messages waited for it |
| BoardEffects.EndsIff | internal/ws/hub.go:391-420 | In every run the loop ends at an event if and only if that is a shutdown or the departure of the only member |
| BoardEffects.RegisterEffect | internal/ws/hub.go:366-380 | The newcomer is in with nothing waiting, and each other member with room is told who joined |
| BoardEffects.UnregisterEffect | internal/ws/hub.go:382-394 | The member is out and its channel closed; nobody else is told; an unknown client changes nothing |
| BoardEffects.BroadcastEffect | internal/ws/hub.go:396-405 | The oldest event is taken and goes to every member with fewer than 256 unread messages; the others leave |
| BoardEffects.ShutdownEffect | internal/ws/hub.go:407-420 | The loop has ended, the set is empty and every channel closed with what is unread |
| BoardEffects.DrainEffect | internal/ws/hub.go:312-328 | A drain takes exactly the oldest message |
| BoardRooms.BoardRoom.OnRegister | internal/ws/hub.go:366-380 | Does the machine's registration with its join notice |
| BoardRooms.BoardRoom.OnUnregister | internal/ws/hub.go:382-394 | Does the machine's departure |
| BoardRooms.BoardRoom.OnBroadcast | internal/ws/hub.go:396-405 | Does the machine's broadcast, dropping full clients in the loop |
| BoardRooms.BoardRoom.OnShutdown | internal/ws/hub.go:407-420 | Does the machine's shutdown |
| BoardRooms.BoardRoom.Publish | internal/ws/hub.go:151-169 | Puts the event last into the room's channel |
| Fractional.NestedGap | internal/utils/fractional.go:12-16 | Nested inserts halve the gap each time, whichever side they go to |
| Fractional.RebalanceDueAfterTwenty | internal/utils/fractional.go:3-16 | A gap of 1000 is due for a rebalance if and only if twenty or more nested inserts were made |
| CardGaps.RebalanceAtTwentyFirstMove | internal/services/cards.go:175-199 | Move requests of cards from elsewhere, each into the part of a gap of 1000 that the last one left on either side: the first twenty find room, the twenty-first rebalances the column |
| CardGaps.GapAfterMoves | internal/services/cards.go:175-199 | After up to twenty such moves the neighbours anywhere in the remaining part are the ends of the nested gap |
| CardGaps.GapSplits | internal/repositories/cards.go:263-282 | A card that comes into a gap becomes the neighbour on either side of it |
| Cards.MaxPosition | internal/repositories/cards.go:245-254 | The greatest position of the given cards, attained by one of them, or the default if there are none |
| Cards.MinPosition | internal/repositories/cards.go:263-282 | The least one likewise |
| Cards.RebalancedMeaning | internal/repositories/cards.go:288-332 | After the updates so far the listed cards are each at their own multiple of 1000 and no other card has changed |
| CardOrder.NeighborsEnclose | internal/repositories/cards.go:263-282 | The neighbours strictly enclose the requested position with no other live card in between, except at it |
| CardOrder.RebalancedColumn | internal/repositories/cards.go:288-332 | A rebalance puts exactly the live cards of the column into slots, in listing order, and changes positions only |
| CardOrder.RebalanceSuffices | internal/services/cards.go:182-191 | After one rebalance the gap around any requested position is at least 1000 |
| CardOrder.RebalanceSpaces | internal/repositories/cards.go:288-332 | A rebalance keeps every two live cards of every column apart |
| CardOrder.MoveKeepsSpacingIff | internal/services/cards.go:195-199 | With room at the requested position, writing the midpoint keeps the spacing if and only if the card is archived or no other live card at the requested position is within reach of the midpoint |
| CardOrder.MoveCardKeepsSpacingIff | internal/services/cards.go:149-210 | For the whole request, whatever fails: the spacing stays if and only if the request does not reach its update, the card is archived, or: with a rebalance, no slot but the card's own is the requested position; without one, no other live card at it is within reach of the neighbours' midpoint |
| CardOrder.SlotsAvoidIff | internal/services/cards.go:182-195 | In a rebalanced column the midpoint is free if and only if no slot but the card's own is the requested position |
| CardOrder.LeavesRoomIff | internal/services/cards.go:175-195 | The condition, read off before the call from the neighbours and the listing, is that the midpoint is free after any rebalance |
| CardOrder.MoveKeepsSpacing | internal/services/cards.go:149-210 | So it does whenever no other live card sits at the requested position when the neighbours are last read |
| CardOrder.MoveOntoTakenPosition | internal/services/cards.go:175-204 | Moving the last of three cards onto the second leaves both at 2000, also when the request then fails on its response and returns an error |
| CardOrder.CreateKeepsSpacing | internal/services/cards.go:52-87 | A new card at the maximum plus 1000 keeps the spacing |
| CardOrder.UnarchiveKeepsSpacingIff | internal/services/cards.go:288-333 | Unarchiving keeps the spacing if and only if the restored position is at least 0.0005 and no other live card is within reach of it, whether or not the request fails on its response |
| CardMoves.MoveKeepsOthersInOrder | internal/services/cards.go:149-210 | On every table, ties included, a move request, successful or not, with or without a rebalance, keeps the column of every other live card and the order of any two whose positions differ |
| CardMoves.MoveLandsAtRankIff | internal/services/cards.go:175-199 | A move that reaches its update lands after exactly the cards that were below the requested position if and only if: without a rebalance, nobody else is at it or the midpoint is below it; with one, every other card's slot is on the side of it where the card was |
| CardMoves.RankKeptIff | internal/services/cards.go:182-197 | The rebalanced half of that |
| CardMoves.MidpointRankIff | internal/services/cards.go:177-197 | The half without a rebalance |
| CardMoves.RankKeptFromElsewhereIff | internal/services/cards.go:182-197 | For a card that comes from another column the condition on the slots is two comparisons with the number of cards below |
| CardMoves.RankLostBetweenTwo | internal/services/cards.go:182-197 | The request of a card to go between two cards 0.0005 apart succeeds and leaves it before both |
| CardMoves.SpacedOverRuns | internal/services/cards.go:52-303 | Over every run of create, move, archive and delete without a card at the requested position at the last query, live cards of a column stay 0.0005 apart and every live position is at least 0.0005 |
| CardMoves.UnarchiveRestoresTakenPosition | internal/services/cards.go:257-334 | Create, archive, create, unarchive leaves two cards at 1000 |
| CardEffects.MoveEffect | internal/services/cards.go:149-210 | A move that reaches its update changes the card's column and position alone, to halfway between its neighbours when last read, and all other rows are those of the rebalance, if any; it returns an error if and only if a later read failed |
| CardEffects.FailedMoveEffect | internal/services/cards.go:149-199 | A move that does not reach it leaves all rows, or those of the rebalance before a failing update; and with which error it ends |
| CardEffects.ReachesIff | internal/services/cards.go:150-199 | When a move reaches its update |
| CardEffects.MoveStaysOnBoard | internal/services/cards.go:162-173 | After a move the card is on the board of its column, and can be moved to a column if and only if that is of the same board |
| CardEffects.NeighborsAre | internal/repositories/cards.go:256-282 | The neighbours are the nearest live positions, or 0 below and 1000 more than requested above |
| CardEffects.GapAndMidpoint | internal/utils/fractional.go:3-16 | The rebalance is due below a gap of 0.001; the midpoint is halfway |
| CardEffects.RebalanceEffect | internal/repositories/cards.go:284-332 | The i-th listed card goes to 1000 times its place, and nothing else changes |
| CardEffects.CreateEffect | internal/services/cards.go:52-78 | When a card is created, on which board, and 1000 past the last live card or at 1000; and with which error it fails |
| CardEffects.ArchiveEffect | internal/services/cards.go:257-324 | Archiving and unarchiving set the mark and nothing else; and with which error they fail |
| CardEffects.DeleteEffect | internal/services/cards.go:226-247 | Deleting removes that row alone; and with which error it fails |
| CardEffects.ServeEffect | internal/services/cards.go:226-334 | In a run, deleting removes that card alone, archiving and unarchiving change its mark alone |
| CardEffects.LiveCardsStayApart | internal/services/cards.go:52-303 | The spacing over every careful run, in numbers: 0.0005 apart and at 0.0005 or above |
| CardServices.CardService.RebalanceColumn | internal/repositories/cards.go:288-332 | The update loop does the rebalance, or nothing if the transaction fails |
| CardServices.CardService.MoveCard | internal/services/cards.go:149-210 | The request's branches, rows and errors, with the neighbours read again after a rebalance and the card staying moved when a read after the update fails |
| CardServices.CardService.CreateCard | internal/services/cards.go:52-78 | The request's branches, rows and errors |
| CardServices.CardService.SetArchived | internal/services/cards.go:259-324 | Likewise for archive and unarchive, whose reads after the update may fail |
| CardServices.CardService.DeleteCard | internal/services/cards.go:226-247 | Likewise for delete |
| RateLimit.TakeStaysInRange | internal/middleware/ratelimit.go:92-104 | Tokens stay between zero and the maximum |
| RateLimit.RefillsCompose | internal/middleware/ratelimit.go:92-99 | A refill split in two, capped twice, is the refill in one |
| RateLimit.TakeEffect | internal/middleware/ratelimit.go:89-108 | A call refills by elapsed time, requests and window, capped at the requests, and is allowed, taking one token, if and only if that makes a whole one |
| RateLimit.CallEffect | internal/middleware/ratelimit.go:69-109 | A call touches the bucket of its IP alone, a new one being full |
| RateLimit.CleanupEffect | internal/middleware/ratelimit.go:52-65 | A tick removes exactly the buckets of whatever IP idle for more than 600 seconds |
| RateSafety.PruningIsInvisible | internal/middleware/ratelimit.go:52-109 | With a window of at most ten minutes the limiter answers every sequence of calls and ticks as one that never prunes |
| RateSafety.TickAgrees | internal/middleware/ratelimit.go:52-65 | Every bucket a cleanup removes would have been full |
| RateSafety.HealthyRun | internal/middleware/ratelimit.go:52-109 | Over every run, pruned or not and for any window, every bucket holds between zero and the maximum and was refilled no later than now |
| RateSafety.WindowBudget | internal/middleware/ratelimit.go:92-104 | Over every run, calls allowed since a moment and tokens left are together at most a full bucket and the refill since |
| RateSafety.TakeWithinBudget | internal/middleware/ratelimit.go:92-108 | One call keeps to that budget, from an old bucket or a new one |
| RateSafety.WindowBound | internal/middleware/ratelimit.go:52-109 | For every IP, every run and every interval, the calls allowed are at most the maximum plus the interval's refill |
| RateSafety.IdealWindowBound | internal/middleware/ratelimit.go:69-109 | So it is for any window if nothing is pruned |
| RateSafety.DeniedCallsAreFree | internal/middleware/ratelimit.go:92-108 | Removing a denied call from a run changes no other answer |
| RateSafety.IdealDeniedCallsAreFree | internal/middleware/ratelimit.go:92-108 | So it is for any window if nothing is pruned |
| RateSafety.RetryAfterIsTight | internal/middleware/ratelimit.go:101-108 | A denied bucket allows a call again from exactly (1 - tokens) / rate seconds on; the returned seconds exceed that by at most one |
| RateSafety.DeniedCallerMayReturn | internal/middleware/ratelimit.go:52-109 | In any run and for any window, pruned or not, a denied caller that waits the returned seconds with no other traffic on its IP is allowed, even if its bucket was removed meanwhile |
| RateExact.PruningIsInvisibleIff | internal/middleware/ratelimit.go:39-109 | No run reveals the pruning if and only if the window is at most ten minutes, and no run on the five-minute ticker's schedule does if and only if it is |
| RateExact.WindowBoundIff | internal/middleware/ratelimit.go:39-109 | The bound on every interval holds of every run if and only if the window is at most ten minutes, and likewise of every run on the schedule |
| RateExact.DeniedCallsAreFreeIff | internal/middleware/ratelimit.go:39-109 | Removing a denied call changes no other answer of any run if and only if the window is at most ten minutes, and likewise of any run on the schedule |
| RateExact.KnockTellsThemApart | internal/middleware/ratelimit.go:52-108 | With a longer window, a denied call early enough keeps a bucket from being pruned, and a later burst is answered differently without it |
| RateExact.BurstNeedsTokens | internal/middleware/ratelimit.go:92-108 | A burst at one moment is allowed throughout if and only if the bucket holds that many tokens |
| RateExact.ProbeTellsThemApart | internal/middleware/ratelimit.go:52-87 | With a longer window, emptying a bucket, idling past the prune and emptying it again is answered differently |
| RateLimiters.Bucket.Take | internal/middleware/ratelimit.go:89-108 | Refill, cap and take in place are the bucket step, with its answer |
| RateLimiters.RateLimiter.Allow | internal/middleware/ratelimit.go:69-109 | One call is the limiter's step on the whole table; no two IPs come to share a bucket |
| RateLimiters.RateLimiter.Cleanup | internal/middleware/ratelimit.go:52-65 | The deleting loop removes exactly the buckets idle for more than ten minutes |
| Workspaces.ExactlyOneOwner | internal/services/workspaces.go:109-193 | Under every interleaving a user has the owner row of a live workspace if and only if it is its `owner_id`, which is still its creator |
| Workspaces.NextKeepsOneOwner | internal/services/workspaces.go:109-193 | One database step of any request, however stale what it read, keeps the one owner row |
| Workspaces.StepKeepsSound | internal/services/invitations.go:227-281 | So does every event, and what requests in flight remember stays good enough |
| Workspaces.RunKeepsSound | internal/services/workspaces.go:84-193 | So it is over every run |
| WorkspaceAccess.InviteIff | internal/services/workspaces.go:109-134 | Who invites whom, exactly, with the row written and the errors |
| WorkspaceAccess.RemoveIff | internal/services/workspaces.go:141-166 | Who removes whom, exactly, with the rows left and the errors |
| WorkspaceAccess.ChangeRoleIff | internal/services/workspaces.go:173-193 | Who changes whose role, exactly, with the role written and the errors |
| WorkspaceAccess.DestroyIff | internal/services/workspaces.go:84-97 | The owner alone deletes the workspace, with exactly its member rows |
| WorkspaceAccess.AcceptEffect | internal/services/invitations.go:227-281 | A member stays as it is; a newcomer gets the invitation's role if the workspace is still there |
| WorkspaceAccess.CreateEffect | internal/repositories/workspaces.go:24-60 | A new workspace adds its owner's row and changes no other |
| WorkspaceAccess.AdvanceEffect | internal/services/workspaces.go:109-193 | A failed statement writes nothing and ends its request; a step touches no other request |
| WorkspaceAccess.Uninterrupted | internal/services/workspaces.go:84-193 | A request with nothing in between its statements is served as above |
| WorkspaceAccess.UninterruptedAccept | internal/services/invitations.go:227-281 | So is the acceptance of an invitation |
| Workspaces.WorkspaceService.Advance | internal/services/workspaces.go:109-193 | Each step of a request is made of the repository's calls and the guards in front of them |
| Workspaces.WorkspaceRepository.Create | internal/repositories/workspaces.go:24-60 | Both rows of a new workspace, in one step |
| Workspaces.WorkspaceRepository.Add | internal/repositories/workspaces.go:187-194 | Adds the row, or fails on an existing row or a missing workspace and changes nothing |
| Workspaces.WorkspaceRepository.Update | internal/repositories/workspaces.go:197-212 | Sets the role, or fails on a missing row and changes nothing |
| Workspaces.WorkspaceRepository.Remove | internal/repositories/workspaces.go:216-230 | Removes the row, or fails on a missing row |
| Workspaces.WorkspaceRepository.Drop | internal/repositories/workspaces.go:147-158 | Removes the workspace with its member rows, or fails |
| Boards.OneOwnerOverRuns | internal/services/boards.go:186-327 | Over every serial run of create, add, remove, change role, transfer and delete, every board has exactly one owner row |
| Boards.ServeKeepsOwners | internal/services/boards.go:186-327 | One request of anybody, run alone, keeps it on every board |
| Boards.UpdateKeepsOneOwnerIff | internal/repositories/boards.go:434-448 | The role update keeps the single owner if and only if it does not hit the owner's row |
| Boards.RemoveKeepsOneOwnerIff | internal/repositories/boards.go:452-465 | So does the removal |
| Boards.TransferKeepsOneOwnerIff | internal/repositories/boards.go:467-521 | The transfer keeps the single owner if and only if one of its two rows is the owner's; the target ends as owner either way |
| Boards.WriteKeepsOwnersIff | internal/repositories/boards.go:422-521 | The write of any request keeps every board with exactly one owner if and only if it is no removal or role change of the owner's row and no transfer between two rows of others |
| Boards.GuardsProtect | internal/services/boards.go:186-327 | The guards of a request run alone let no other write through |
| BoardAccess.AddIff | internal/services/boards.go:186-232 | Who adds whom to a board with which role, exactly, and the row written |
| BoardAccess.RemoveIff | internal/services/boards.go:238-267 | Who removes whom, exactly, and the row removed |
| BoardAccess.ChangeRoleIff | internal/services/boards.go:272-297 | Who changes whose role, exactly, and the role written |
| BoardAccess.TransferIff | internal/services/boards.go:303-327 | Who hands a board to whom, exactly, and the two roles written |
| BoardAccess.DeleteIff | internal/services/boards.go:147-165 | The board's owner and the workspace's alone delete a board, with exactly its member rows |
| BoardAccess.CreateEffect | internal/repositories/boards.go:26-68 | The new board and its owner's row are added, nothing else |
| BoardAccess.HiddenIff | internal/services/boards.go:394-429 | A missing board is not found; access is denied if and only if it is private and the caller neither manages the workspace nor has a row |
| BoardAccess.RefusalIff | internal/services/boards.go:186-327 | With which error a request on a visible board is refused, exactly |
| BoardPhases.RunKeepsOwnersIff | internal/services/boards.go:186-327 | Over every interleaving of reads, checks and writes, failures included, every board has exactly one owner throughout if and only if no write is such a one when it runs |
| BoardPhases.StepKeepsOwnersIff | internal/services/boards.go:186-327 | One step of any request keeps it if and only if it is no such write |
| BoardPhases.OwnersWithoutClash | internal/services/boards.go:186-327 | Over every interleaving in which no transfer is about to run while another request relies on the owner it replaces, every board keeps exactly one owner |
| BoardPhases.StepKeepsOk | internal/middleware/board.go:65-92 | One step from such a state keeps the rows and what requests in flight have read |
| BoardPhases.BothWriteIff | internal/services/boards.go:238-327 | Two requests past their checks can both write with every board keeping one owner if and only if the first is not a transfer that succeeds while the second removes or changes its target or transfers to another member |
| BoardPhases.StaleWriteLeavesNone | internal/services/boards.go:238-297 | A removal or role change that read its target before a transfer to it leaves the board with no owner at all |
| BoardPhases.Uninterrupted | internal/services/boards.go:186-327 | A request with nothing in between its steps does what the one-step request does |
| BoardPhases.AdvanceEffect | internal/services/boards.go:186-327 | A failed step writes nothing and ends its request; a step touches no other request |
| BoardPhases.CreateActs | internal/repositories/boards.go:26-68 | A new board adds its owner's row and leaves all requests where they are |
| Boards.InterleavedTransfersBreakIt | internal/services/boards.go:303-327 | Two transfers, each accepted on its own from the same rows, leave two owners when both transactions run |
| Boards.BoardRepository.Insert | internal/repositories/boards.go:26-68 | The board and its creator's owner row, in one step |
| Boards.BoardRepository.AddBoardMember | internal/repositories/boards.go:422-430 | Adds the row; an existing one is kept as it is; a missing board is an error |
| Boards.BoardRepository.UpdateBoardMemberRole | internal/repositories/boards.go:434-448 | Sets the role, or fails on a missing row |
| Boards.BoardRepository.RemoveBoardMember | internal/repositories/boards.go:452-465 | Removes the row, or fails on a missing row |
| Boards.BoardRepository.TransferOwnership | internal/repositories/boards.go:471-521 | Both role updates or, if either row is missing, none |
| Boards.BoardRepository.Drop | internal/repositories/boards.go:185-196 | Removes the board with its member rows, or fails |
| Boards.BoardService.AddMember | internal/services/boards.go:186-232 | The guards in order, with their errors, and the row they let through |
| Boards.BoardService.RemoveMember | internal/services/boards.go:238-267 | Likewise; the owner cannot be removed, an admin only by the owner |
| Boards.BoardService.ChangeRole | internal/services/boards.go:272-297 | Likewise; only by the owner, never the owner's own row |
| Boards.BoardService.TransferOwnership | internal/services/boards.go:303-327 | Likewise; only by the owner, never to oneself |
| Boards.BoardService.DeleteBoard | internal/services/boards.go:147-165 | Likewise; by the board's owner or the workspace's |
| Boards.BoardService.CreateBoard | internal/services/boards.go:88-97 | The creator owns the new board |
| RefreshTokens.RotationOverRuns | internal/services/auth.go:84-163 | Over every serial run, whatever fails on the way, a user has at most one unrevoked token, and every token is redeemed at most once and is revoked afterwards |
| RefreshTokens.ServeKeepsSound | internal/services/auth.go:45-163 | One request keeps it |
| RefreshTokens.RunKeepsSound | internal/services/auth.go:45-163 | So it is over every run |
| RefreshTokens.TheftLeavesNoneIff | internal/services/auth.go:123-127 | Presenting a stored revoked token is refused, and leaves its user without any if and only if the revocation works or there was none; its error is ignored |
| TokenEffects.LoginIff | internal/services/auth.go:84-101 | A login succeeds if and only if the user is registered, the password right and nothing fails; then its token, with its expiry, is the user's one unrevoked token and other users' rows stay; a wrong password changes nothing |
| TokenEffects.RegisterIff | internal/services/auth.go:45-74 | A registration succeeds if and only if the user is new and nothing fails, and adds exactly the user and the token |
| TokenEffects.RefreshIff | internal/services/auth.go:112-143 | A refresh succeeds if and only if the token is stored, unrevoked and not past its expiry and nothing fails; which rows each outcome leaves, with which error |
| TokenEffects.LogoutEffect | internal/services/auth.go:149-163 | A logout revokes the presented token and changes no other row; it fails only with that revocation |
| TokenEffects.IssuedTokenWorksOnce | internal/services/auth.go:84-143 | After any run, the token of a login is good for one refresh until it expires; a second one is a theft that leaves its user without any |
| TokenEffects.RegisteredUserIsSignedIn | internal/services/auth.go:45-74 | After any run, a new user who registers has the token issued then and no other |
| TokenEffects.LoggedOutTokenIsDead | internal/services/auth.go:123-163 | After any run, a refresh with a token that was logged out is refused as a theft |
| RefreshTokens.InsertKeepsOneActiveIff | internal/services/auth.go:197-218 | Issuing a token keeps every user at one unrevoked token if and only if its user has none just then |
| TokenPhases.RunKeepsOneActiveIff | internal/services/auth.go:45-163 | Over every interleaving of requests at single statements, failures included, users stay at one unrevoked token throughout if and only if no insert finds an unrevoked token of its user |
| TokenPhases.StepKeepsOneActiveIff | internal/services/auth.go:45-163 | One step of any request keeps it if and only if it is not such an insert |
| TokenPhases.RotationWithoutOverlap | internal/services/auth.go:45-163 | Over every interleaving in which no two requests of one user are past their checks together, a user has at most one unrevoked token, and tokens are redeemed at most once, for which `RedeemedOnceOverRuns` shows less to be enough |
| TokenPhases.StepKeepsOk | internal/services/auth.go:45-163 | One step from such a state keeps the rows and what the requests in flight remember |
| TokenPhases.BothFinishIff | internal/services/auth.go:84-142 | Two requests past their checks can both finish with one unrevoked token a user if and only if they are of different users |
| TokenPhases.RedeemedOnceOverRuns | internal/repositories/refresh_tokens.go:72-86 | Over every interleaving in which no two requests are past their checks of one token together, every token is redeemed at most once and is stored and revoked from then on |
| TokenPhases.StepKeepsRedeem | internal/services/auth.go:45-163 | One step from such a state keeps the redeemed tokens distinct and revoked and the held ones not redeemed yet |
| TokenPhases.BothRedeemIff | internal/services/auth.go:112-142 | Two requests past their checks can both finish with every token redeemed at most once if and only if they hold no common token |
| TokenPhases.InterleavedRefreshesBreakIt | internal/services/auth.go:112-142 | From any sound state, one unrevoked token presented twice and read twice before either writes: each refresh would be accepted alone, both succeed, the token is redeemed twice and its user has two unrevoked tokens |
| TokenPhases.UninterruptedRefresh | internal/services/auth.go:112-143 | A refresh with nothing in between its statements does what the one-step refresh does, whichever statement fails |
| TokenPhases.UninterruptedLogin | internal/services/auth.go:84-101 | So does a login |
| TokenPhases.UninterruptedRegister | internal/services/auth.go:45-74 | So does a registration |
| TokenPhases.UninterruptedLogout | internal/services/auth.go:149-163 | So does a logout |
| TokenPhases.AdvanceEffect | internal/services/auth.go:45-163 | A failed step writes nothing and ends its request; a step touches no other request |
| RefreshTokens.AuthService.Register | internal/services/auth.go:45-74 | The request's branches, rows and errors |
| RefreshTokens.AuthService.Login | internal/services/auth.go:84-101 | Likewise; all earlier tokens are revoked before one is issued |
| RefreshTokens.AuthService.Refresh | internal/services/auth.go:112-143 | Likewise; the presented token is revoked even if issuing the next one fails |
| RefreshTokens.AuthService.Logout | internal/services/auth.go:149-163 | Likewise; an unknown token is no error |
| RefreshTokens.AuthService.IssueTokenPair | internal/services/auth.go:197-218 | Stores one unrevoked row for a token not issued before, or fails |
| BoardDetail.Group | internal/repositories/boards.go:242-326 | Columns in first-seen order, each with title and position of one and the same row, the first of its identifier, and exactly its cards in row order, none for a column without |
| BoardDetail.FirstSeenMeaning | internal/repositories/boards.go:242-326 | The columns listed are exactly those with a row, each once |
| BoardDetail.FirstSeenOrder | internal/repositories/boards.go:242-326 | Before any row of a column there is a row of every column listed earlier |
| BoardDetail.HeadOfMeaning | internal/repositories/boards.go:272-282 | The head of a column is a row of its identifier which none comes before |
| BoardDetail.CardsOfMeaning | internal/repositories/boards.go:284-326 | A column's cards are those of exactly its card rows, in row order |
| BoardDetail.EveryCardOnce | internal/repositories/boards.go:242-326 | All columns together hold exactly the card rows of the join, each once |

## Left out

- Liveness: registering with or leaving a room whose loop has returned blocks, and a call may be handed such a room (`AnswerHasStoppedIff` says when). A drop can also empty a room without ending it, so no claim is made that an empty room exits, nor that every received message is persisted.
- Connection handling: `NewClient` and `NewBoardClient` beyond their empty channel, WebSocket frames, pings and deadlines, the board client's pumps, the wait in `Hub.Shutdown`, and the unlocked `Room.Size`.
- Bytes of an update on a client's channel do not contain its clock; the model's message carries it as history.
- RoomSafety.QueuedUpdatesAreForeignRows: is about one room, the only writer of its document while it runs; `ConnectedClientsMissNothing` and `EveryUpdateHasOneRoom` lift it to any number of rooms. `DocumentHub` and `DocumentRoom` as objects are proved against their own machines, not against `Collaboration`.
- The Yjs merge is any function of states and updates, and a compaction brings the correct merge of a prefix. Compactions at a clock outside the range from the last compaction to the latest clock appear only in `CompactionLosesNothingIff`.
- Rounding: positions, tokens and seconds are reals.
- Overlapping requests on cards; card requests include the database failures between their statements and after the last write.
- `Allow` is one step, although the code releases the table's lock before it takes the bucket's.
- RateLimit.TakeStaysInRange: needs a time that does not go back; the code reads a monotonic clock. A configuration with no requests or no positive window is excluded.
- Boards.ServeKeepsOwners: needs requests one at a time; `RunKeepsOwnersIff` and `BothWriteIff` are the exact conditions when they overlap. The service's access check, two reads, is one step there.
- RefreshTokens.RotationOverRuns: needs requests one at a time and new tokens whose hashes were never stored; when requests overlap, `RunKeepsOneActiveIff` and `BothFinishIff` are the exact conditions for the single unrevoked token, and `BothRedeemIff`, with `RedeemedOnceOverRuns` over runs, for the single redemption. Deleting expired rows is left out.
- CardMoves.SpacedOverRuns: excludes unarchiving and requested positions that are taken; `UnarchiveKeepsSpacingIff` and `MoveCardKeepsSpacingIff` are the exact conditions.
- RateSafety.DeniedCallsAreFree: needs a window of at most ten minutes, as do `WindowBound` and `PruningIsInvisible`; `DeniedCallsAreFreeIff`, `WindowBoundIff` and `PruningIsInvisibleIff` show that this is exact.
- RoomSafety.ChannelsOverRuns: a client registers once; `RegisterAgainPanicsIff` is what happens otherwise.
- Roles in requests are those the request binding lets through (`internal/models/workspace.go:34-36`, `internal/models/board.go:30-43`), and the requested position is positive (`internal/models/card.go:32-35`).
- E-mail lookup of an invited user, the status row and expiry of an invitation, password rules, JWTs and hashing; a request that fails there writes none of the modelled rows.
- Colours, assignees, document identifiers and creation times in a board load.
- Changing a board's title, visibility or share link, a card's title, colour or assignee, and broadcasting board events from requests.
- HTTP handlers, configuration, CORS, list endpoints, cursor colours, e-mail.
