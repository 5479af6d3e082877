# Verification of the sync protocols

A Dafny model of how this repository keeps devices, rooms and chats in step, and proofs of what its
comments promise. `dafny verify dfyconfig.toml` checks all of it.

The workspace registry comes first. It is a table of rows merged per field by the newest clock,
with tombstones and revival. A client shows its unacked writes over the server's rows, pushes them
at least once, retires them on ack, and meanwhile rewrites the queue. The room applies batches
atomically, numbers them, answers cursors with deltas and purges old tombstones.

| files | what they hold |
|---|---|
| `Hlc`, `RegistryCore`, `OpRewriting`, `OneOp`, `MergeLaws`, `Reseed` | clocks, the merge, folding two ops into one and when one op can stand for two, replaying, re-seeding among live and deleted versions |
| `Queue`, `TailRewrite`, `FoldRules`, `PendingQueue`, `RowTable` | a queue as one row sees it, the rewriting pass, which folds it may and must make, ids and in-flight marks, row tables and seeds |
| `RegistryDoc`, `OverlayScan`, `Writers` | the client's replica, method by method, its one-pass read, and what its clock makes of a device's writes |
| `RegistryRoom`, `RowGrowth`, `PushNotify`, `QueueNotes`, `RoomNotes` | the room, what it broadcasts, which notifications a change calls for, and that rewriting changes none |
| `CursorSync`, `AckOverlay`, `WriteReplay`, `ExactlyOnce` | whole runs: cursors over lossy channels, acks without flicker, at-least-once pushing with an exactly-once effect |
| `ChatLog`, `ChatRoom`, `ChatFrames` | the chat log with checkpoints, backfill against live relay, paging, frames |
| `DeviceNudges`, `TokenRefresh`, `SessionReplay` | fenced wake-ups, single-flight token refresh, the crash-counted replay |
| `Parts`, `PartStory`, `UpdateLog`, `Fragments`, `ByteSeq` | streamed message parts, what they tell of a run, and their splitting; chunked and fragmented updates, bytes and UTF-8 |
| `Seqs`, `Wrappers` | cutting and joining sequences, options |

Objects the source updates in place are classes, with ghost history where a promise is about the
past; protocols are state machines whose steps are tied to those classes' contracts
(`RegistryDoc.Queued`, `RegistryRoom.RoomMerged`, `CursorSync.Receive`). A clock string is
modelled by its position in lexicographic order, which `Hlc.PositionOrder` justifies.

Where the code and its comments differ, the model follows the code:

- `edge/src/registry-room.ts:299-304` says a replayed batch applies no op. With one other op taken in
  between that holds exactly under `MergeLaws.ReplaySafe` (`ReplayNoOpIff`), whichever of the two is
  newer; with any number of them, if each is (`WriteReplay.ReplayBehind`). It fails where an upsert
  brings a row to life without a field the older op wrote, or with an older one, and where an older
  delete removes a row that an upsert with only older writes created. A client
  that writes whole rows makes no such pair (`WriteReplay.WholeRowsDisciplined`).
- `crates/doc/src/registry.rs:301-304` says folding is refused only when no single op can express
  the pair. `OneOp.ExpressibleIff` is the exact condition for one op to do, and
  `OneOp.RefusalForcedIff` says which refusals are not forced: pairs with a delete of which only one
  has any say, and an upsert that writes every field of the earlier op, some of them no newer but at
  the same clock and value. `RefusedNeedlessly` shows one of each.
- The announcement of a lost sign-in is meant to go out once between platform updates. A second one
  can follow without an update between exactly if the `expired` flag is down when the first goes
  out (`TokenRefresh.AnnouncedAgainIff`), which takes an update between the flag swap and the
  announcement (`ExpiredOncePerClear`); `AnnouncedTwice` is such a run.
- `edge/src/registry-room.ts:478-483` rules out a flicker between rows and ack. A batch of two writes
  to one row can show one exactly if the first is not replay-safe behind the second
  (`AckOverlay.FlickerIff`). The replica never makes such a batch: single writes, cascades of
  deletes and seeds are safe as they are queued and stay so when the queue is rewritten
  (`EditByWrite`, `EditByDeletes`, `SeedsAreSafe`, `EnqueuedIsEdit`).

Re-seeding a wiped row that some replicas hold deleted can depend on who seeds first. `Reseed` has the
exact conditions: the row ends deleted in every order, or live in every order, or it is up to the order
(`StaysDeletedIff`, `StaysLiveIff`).

## Model

| member | source | states |
|---|---|---|
| `Hlc.EncodeOrder` | crates/doc/src/registry.rs:54-60 | For milliseconds below ten trillion and counters below a million, the string order of two encoded clocks is the order of (ms, counter, device) |
| `Hlc.EncodeInjective` | crates/doc/src/registry.rs:54-60 | Two different clocks never encode to the same string, at any size and on any devices |
| `Hlc.EncodeShape` | crates/doc/src/registry.rs:54-60 | An encoded clock is thirteen decimal digits of milliseconds, six of the counter and the device, parted by dashes |
| `Hlc.PositionOrder` | crates/doc/src/registry.rs:62-70 | Mapping clock strings to positions keeps lexicographic order, so comparing positions is comparing clocks |
| `Hlc.HlcClock.Next` | crates/doc/src/registry.rs:69-91 | The exact next pair for any wall-clock reading, strictly newer than the one before, the counter within six digits |
| `RegistryCore.FindMaxClock` | crates/doc/src/registry.rs:129-146 | The loop over field clocks returns a clock of the row that no other clock of the row exceeds |
| `RegistryCore.RunApplyOp` | crates/doc/src/registry.rs:181-265 | The in-place field loop and its early exits compute the merge function, row and changed flag both |
| `RegistryCore.WriteFieldsAt` | crates/doc/src/registry.rs:233-264 | Per field: a write lands only over a strictly older clock, a null write removes the field but keeps its clock, everything else stays |
| `MergeLaws.ApplyTold` | crates/doc/src/registry.rs:181-265 | The merge of an op into a row, missing, live or dead, clause by clause: when a delete lands and what it leaves, when an upsert or update enters, which field writes land and what each field and clock is afterwards, and exactly when it reports a change |
| `MergeLaws.ApplyTwice` | crates/doc/src/registry.rs:181-265 | Re-applying an op at once changes nothing on any row and reports no change |
| `MergeLaws.SettledSurvives` | crates/doc/src/registry.rs:181-265 | Once a row holds all an op could do, another op, older or newer, leaves it so if it is replay-safe after it: it neither brings a row to life without that op’s fields, or with older ones, nor deletes a row the op would bring back |
| `MergeLaws.ReplayNoOpIff` | edge/src/registry-room.ts:297-304 | Re-pushing an op behind another on its row changes no row exactly when the other is replay-safe after it, in both clock orders and for all kinds; the unconditional claim in the comment is false otherwise |
| `WriteReplay.ReplayBehind` | edge/src/registry-room.ts:297-304 | The same behind any number of ops by any writers, if each is replay-safe after it |
| `MergeLaws.ApplyKeepsWellFormed` | crates/doc/src/registry.rs:181-265 | Every merge leaves a row well formed: tombstones carry a clock and nothing else, live fields carry clocks and are never null |
| `OpRewriting.CoalesceExact` | crates/doc/src/registry.rs:301-362 | Whenever two ops fold into one, the one op gives every row, missing, live or dead, the same result and the same changed verdict as the two in order |
| `FoldRules.CoalesceIff` | crates/doc/src/registry.rs:301-362 | Two ops fold exactly if they are of one row, neither deletes, one op can stand for them by the three cases of the source, and the room would not find it too large; the fold is the one op with every write of both, the newer where both write, each under its own clock |
| `OneOp.ExpressibleIff` | crates/doc/src/registry.rs:301-335 | For any two ops on one row: one op can act like the pair on every row exactly under a condition on kinds, clocks and written fields; where it cannot, every op goes wrong on some row a room could hold |
| `OneOp.RefusalForcedIff` | crates/doc/src/registry.rs:301-335 | The pairs that are refused although one op would do are exactly those where a delete leaves one of the two no say, and upserts that write every field of the earlier op, some no newer but at the same clock and value; whatever is not refused can be expressed |
| `OneOp.RefusedNeedlessly` | crates/doc/src/registry.rs:301-335 | Two deletes of one row, and a write repeated under its old clock by a later op, are refused though one op would do |
| `MergeLaws.SeedIsNoOpAtHome` | crates/doc/src/registry.rs:267-299 | A row’s own seed changes nothing where it came from |
| `MergeLaws.SeedRestores` | crates/doc/src/registry.rs:267-299 | On a room without the row, its seed restores fields, the clock of each present field, and a tombstone’s clock |
| `MergeLaws.ReseedConverges` | crates/doc/src/registry.rs:659-677 | Several replicas seeding one wiped row, in any order and any number of times, leave its per-field newest value |
| `Reseed.SeedOverTombstone` | crates/doc/src/registry.rs:267-299 | A live row’s seed brings it back over a tombstone exactly if the row has a clock past the tombstone’s, cleared fields and old deletions included; then with its fields and their clocks as they were |
| `Reseed.StaysDeletedIff` | crates/doc/src/registry.rs:659-677 | Replicas that hold a wiped row live and deleted leave it deleted, in whatever order and however often they seed, exactly if no live one has a field written since the newest deletion nor any clock past it; then as that deletion |
| `Reseed.StaysLiveIff` | crates/doc/src/registry.rs:659-677 | They leave it live in every order exactly if one live replica has both such a field and such a clock; then with each field of every such replica, or a newer write of it |
| `Reseed.NothingInvented` | crates/doc/src/registry.rs:659-677 | Whatever the order, a live outcome has only fields some live replica held, at that replica’s clock |
| `RowTable.CollectSeeds` | crates/doc/src/registry.rs:660-667 | The seeds are exactly one per held row, each that row’s own, of which `SeedRestores`, `SeedOverTombstone` and `SeedIsNoOpAtHome` say what it does |
| `RowTable.DrainedSeedsRestore` | crates/doc/src/registry.rs:659-677 | Draining a replica’s seeds into a wiped room restores every row it held and no other |
| `RowTable.SeedsAtHome` | crates/doc/src/registry.rs:553-560 | Re-seeding on leaving local-only mode changes none of the replica’s own rows |
| `Queue.StepKeepsFold` | crates/doc/src/registry.rs:884-920 | Folding one queued op into a later one is invisible to every row over every starting state |
| `Queue.RewritingKeepsFold` | crates/doc/src/registry.rs:860-952 | Any number of such folds is |
| `FoldRules.PermittedIff` | crates/doc/src/registry.rs:829-920 | The steps a rewriting is made of, read off positions and fields: both writes alone in their batches, nothing on their row between, a session write only within a run of like status that an earlier write heads and not past a relabelling of its chat, a relabelling not past its session |
| `TailRewrite.AllowedIsStep` | crates/doc/src/registry.rs:893-912 | The loop’s bookkeeping (latest op per row, run heads, latest gating chat op) permits a fold only where nothing on that row lies between and no notification label is passed |
| `TailRewrite.StepIsAllowed` | crates/doc/src/registry.rs:893-912 | And the other way: every fold the rules permit passes the loop’s bookkeeping |
| `TailRewrite.Visit` | crates/doc/src/registry.rs:883-922 | One turn of the loop folds exactly when a permitted fold into the op exists, and then makes one |
| `TailRewrite.RefusedStays` | crates/doc/src/registry.rs:898-906 | A fold refused once stays refused through all later folds, other than of chat label writes, whose session op may move on |
| `TailRewrite.RewriteTail` | crates/doc/src/registry.rs:870-925 | The nested loop over the tail is a chain of permitted folds, each into a batch it marks as having gained content; every row replays as before; and what is left holds no pair a permitted step could still fold, save into a batch that already took one or from a write of a chat’s label |
| `FoldRules.NothingLeft` | crates/doc/src/registry.rs:870-925 | After the pass no such step is left, save into a batch that already took one or of a relabelling |
| `PendingQueue.RequeuedFold` | crates/doc/src/registry.rs:829-952 | Whatever was rewritten, every row replays as if the new batches had simply been queued |
| `PendingQueue.ChunksFold` | crates/doc/src/registry.rs:800-825 | Cutting a write into batches of at most 400 ops replays as the write itself |
| `PendingQueue.ChunksWhole` | crates/doc/src/registry.rs:800-825 | The batches a write is cut into are its ops in order, every batch full but the last |
| `PendingQueue.WithoutValid` | crates/doc/src/registry.rs:740-749 | Retiring any batch keeps ids distinct, in-flight batches in front, sizes within 400 and every id naming only what was pushed under it |
| `PendingQueue.WithoutOne` | crates/doc/src/registry.rs:740-749 | Retiring by id takes one batch out of its place, or none |
| `PendingQueue.MarkAll` | crates/doc/src/registry.rs:752-761 | The loop hands out exactly the batches past the last in-flight one, in order, and marks everything |
| `PendingQueue.Pushed` | crates/doc/src/registry.rs:752-761 | Handing batches out records each one’s content under its id and changes no earlier record |
| `RegistryDoc.WireIdInjective` | crates/doc/src/registry.rs:812-815 | Batch ids minted from different ticks are different strings |
| `RegistryDoc.RegistryDoc.FreshId` | crates/doc/src/registry.rs:812-815 | A minted batch id was never issued before |
| `RegistryDoc.RegistryDoc.CoalesceUnsent` | crates/doc/src/registry.rs:860-952 | In-flight batches stay untouched, the tail is a rewriting of itself with nothing left to fold but what a later fold only then made possible, exactly the batches that took a fold get ids never issued, the others keep id and content |
| `RegistryDoc.RegistryDoc.EnqueueOps` | crates/doc/src/registry.rs:788-827 | Queueing and local-only folding show the same rows: every displayed row takes the ops in order, whatever coalescing did. Connected, the server rows stay and the queue moves by fresh batches and one exhaustive rewriting; local-only, the rows take the ops and nothing is queued |
| `RegistryDoc.RegistryDoc.Write` | crates/doc/src/registry.rs:954-964 | One local write is queued as one op, and nothing else changes; the display takes it, under a clock newer than every earlier one of this device |
| `Writers.LaterIsNewer` | crates/doc/src/registry.rs:54-91 | Later readings of one device’s clock are newer clocks as the merge compares them, for thirteen-digit milliseconds |
| `Writers.WriteAll` | crates/doc/src/registry.rs:954-964 | Whatever the wall clock does, the display takes a device’s writes to a row in order; and while milliseconds have thirteen digits, whole-row upserts make them a sequence that exactly-once delivery covers |
| `RegistryDoc.RegistryDoc.DeleteRows` | crates/doc/src/registry.rs:966-982 | A cascade delete is queued as one delete per row under one shared new clock, and nothing else changes; the display takes them in order |
| `RegistryDoc.RegistryDoc.SetLocalOnly` | crates/doc/src/registry.rs:523-560 | Entering local-only mode folds the queue into the rows and empties it; leaving it after local writes queues one seed per held row, and otherwise only leaves the mode; no displayed row changes |
| `RegistryDoc.RegistryDoc.FoldOp` | crates/doc/src/registry.rs:562-569 | Folding an op in is the step the overlay replays, made permanent |
| `RegistryDoc.RegistryDoc.ApplyState` | crates/doc/src/registry.rs:643-704 | Delta, replacement and server-behind recovery: which rows the replica ends with, that exactly the rows only it holds are queued again as seeds, and that a delta leaves the queue and its ids alone |
| `RegistryDoc.RegistryDoc.ApplyRows` | crates/doc/src/registry.rs:714-727 | Rows always apply; the cursor moves exactly to the next position and stays otherwise, past a gap too, which is reported; the queue is left alone |
| `RegistryDoc.RegistryDoc.AckBatch` | crates/doc/src/registry.rs:740-749 | An ack takes the batch of that id out of its place, if there is one, and changes nothing else, never the cursor; what it retires is what was pushed under the id |
| `RegistryDoc.RegistryDoc.TakePushable` | crates/doc/src/registry.rs:752-761 | What is handed out is everything past the last in-flight batch, in order, recorded under its ids for good, and every batch is then in flight |
| `RegistryDoc.RegistryDoc.MarkDisconnected` | crates/doc/src/registry.rs:764-768 | Every batch is pushable again, contents and ids unchanged |
| `RegistryDoc.RegistryDoc.OverlayRow` | crates/doc/src/registry.rs:989-995 | The row shown is the server’s with the queue replayed, whole, and none exactly if that is missing or a tombstone |
| `OverlayScan.OverlayRows` | crates/doc/src/registry.rs:1000-1021 | The one-pass read of a kind returns, for each id, exactly what reading its row on its own returns: the replayed row, whole, if there is one and it is live |
| `RegistryRoom.RegistryRoom.ApplyPushBatch` | edge/src/registry-room.ts:425-491 | A batch is taken whole or not at all; exactly the rows some op changed get one new position, hold the merge of the batch and are broadcast, and the ops that changed theirs are counted; and per chat, which category the change of its session row raises, and under what title, as `NotifySessions` states |
| `RegistryRoom.MergeBatch` | edge/src/registry-room.ts:452-470 | The touched-row loop merges every row op by op and remembers session rows as they were before the batch |
| `RegistryRoom.MergedValid` | edge/src/registry-room.ts:452-473 | Taking a batch leaves the room valid: rows keyed, well formed, numbered no further than the head |
| `RowGrowth.TouchedDiffers` | edge/src/registry-room.ts:452-470 | A batch touches a row exactly if it leaves another one: rows only move forward, so no later op of the batch undoes what one changed |
| `RowGrowth.BroadcastIsDifference` | edge/src/registry-room.ts:474-490 | What a push broadcasts is what differs: a row goes out exactly if, its position aside, it is not what it was |
| `RegistryRoom.RegistryRoom.NotifySessions` | edge/src/registry-room.ts:507-520 | A chat is notified as failed, input or done exactly if its session row was there, was touched and changed as that category says (status, 45-second freshness, completed turn, neither side deleted) and the chat is not deleted, archived or beside another; the title is the chat’s, stripped, or the default |
| `PushNotify.CategoryIff` | edge/src/push-notify.ts:22-56 | For each category, exactly which change from one row to another raises it: becoming errored, becoming a fresh question, or a new completed turn while fresh and neither of those |
| `PushNotify.TitleIff` | edge/src/push-notify.ts:62-69 | No title exactly for a deleted, archived or side chat; otherwise its title without the blanks around it, or the default if that is nothing |
| `RegistryRoom.RegistryRoom.HandleHello` | edge/src/registry-room.ts:383-406 | A row is in the answer exactly when the room holds it and it was written past the cursor, or the answer is a full one, and it is the row the room holds; the answer is full exactly for no cursor, one below the purge floor or one ahead of the room |
| `RegistryRoom.AnswerCatchesUp` | edge/src/registry-room.ts:383-406 | A replica that held every row up to the cursor it sent holds, with the answer, every row up to the position the answer names; a full answer is the room’s table |
| `RegistryRoom.RegistryRoom.CollectTombstones` | edge/src/registry-room.ts:607-622 | The purge takes exactly the tombstones older than the horizon and raises the floor to the newest of them |
| `RegistryRoom.BareFold` | edge/src/registry-core.ts:114-166 | Merging never looks at a row’s position |
| `QueueNotes.RewritingKeepsNotes` | crates/doc/src/registry.rs:829-857 | Under the session writers’ discipline a rewritten queue raises the same notifications per chat, in the same order |
| `RoomNotes.RoomRaises` | edge/src/registry-room.ts:452-519 | A room taking batches in turn raises exactly the notifications of the queue replayed over its rows |
| `RoomNotes.CoalescingKeepsNotifications` | crates/doc/src/registry.rs:829-952 | Pushing the rewritten queue to the room notifies about every chat as pushing the queue as written would: same categories, titles and order |
| `CursorSync.CursorSound` | edge/src/registry-room.ts:383-406 | In any run with lost frames, reconnects, other writers and purges, every server row at or below the cursor is held exactly, and no answer sends the replica into server-lost recovery |
| `CursorSync.CaughtUp` | crates/doc/src/registry.rs:643-735 | A replica at the room’s position holds every row of the room as the room does, and whatever else it holds is a tombstone |
| `CursorSync.LosslessCatchesUp` | crates/doc/src/registry.rs:706-727 | A replica that lost no frame of its connection, had its hello answered and took all that was sent stands at the room’s position, and so holds the room’s rows |
| `CursorSync.ReconnectCatchesUp` | edge/src/registry-room.ts:383-406 | From any state of any run, reconnecting, having the hello answered and taking the answer brings a replica to the room’s position |
| `CursorSync.CaughtUpReplicasAgree` | crates/doc/src/registry.rs:643-735 | Any two replicas of one room that stand at its position with drained queues show every row of the room as the room holds it, and nothing else live |
| `CursorSync.DeltaAgrees` | edge/src/registry-room.ts:607-622 | After a hello’s answer the replica agrees on every row not written since, and whatever was purged up to there is not live |
| `CursorSync.StepKeeps` | edge/src/registry-room.ts:454-473 | Each protocol step keeps the invariant tying cursor, replica rows, frames in flight and purged keys |
| `CursorSync.Receive` | crates/doc/src/registry.rs:643-735 | The replica’s own methods move its rows and cursor as the protocol’s delivery step says, written out: a broadcast adds its rows and moves the cursor by its own position only, an answer sets both |
| `AckOverlay.RetiringIsInvisible` | edge/src/registry-room.ts:474-490 | On a lossless socket, while every queued batch is safe against itself, an ack always meets its batch at the head of the queue and retiring it changes no row’s overlay |
| `AckOverlay.MergedAbsorbs` | edge/src/registry-room.ts:478-485 | A replica that agrees with the room absorbs, row by row, any safe batch the room just merged |
| `AckOverlay.EnqueuedIsEdit` | crates/doc/src/registry.rs:788-827 | Queueing ops as the replica does, rewriting included, leaves the in-flight batches alone and a safe queue safe if the ops are safe as a batch |
| `AckOverlay.EditByWrite` | crates/doc/src/registry.rs:954-964 | A local write of a connected replica is such an edit, and keeps its queue safe |
| `AckOverlay.EditByDeletes` | crates/doc/src/registry.rs:966-982 | So is a cascade of deletes, repeated rows and all |
| `AckOverlay.SeedsAreSafe` | crates/doc/src/registry.rs:660-667 | So are the seeds of a table: no two are of one row |
| `WriteReplay.SafeTwice` | edge/src/registry-room.ts:478-485 | Seeing a safe batch again changes no row |
| `AckOverlay.FlickerIff` | edge/src/registry-room.ts:478-483 | For a batch of two writes to one row there is a run, from push to ack, whose retirement changes what is shown exactly when the first write is not replay-safe behind the second |
| `AckOverlay.TwiceTouchedFlickers` | edge/src/registry-room.ts:478-483 | Such a batch with clocks of real strings: an update of one field, then an upsert that creates the row without it |
| `ExactlyOnce.ExactlyOnce` | crates/doc/src/registry.rs:740-952 | Through disconnects, lost or late acks, repeated deliveries and coalescing, the room’s row is always a prefix of the client’s writes applied once each, and the queue replayed over it is all of them |
| `ExactlyOnce.Drained` | crates/doc/src/registry.rs:740-768 | Once the queue is empty the room’s row is every write applied exactly once, over any starting row |
| `ExactlyOnce.EnqueueIsTwoSteps` | crates/doc/src/registry.rs:788-827 | The replica’s enqueue contract is a local write followed by one coalescing of that protocol |
| `WriteReplay.Replay` | crates/doc/src/registry.rs:181-265 | Replaying writes a row already took, in any covered order, only extends the prefix it holds |
| `WriteReplay.PrefixSettles` | crates/doc/src/registry.rs:181-265 | A row that took the first writes holds each of them for good |
| `WriteReplay.WholeRowsDisciplined` | crates/doc/src/registry.rs:954-964 | Writes under rising clocks whose upserts carry every field of the row are replay-safe one after another |
| `ChatLog.ChatLog.AppendRow` | edge/src/chat-log.ts:61-89 | An accepted update extends the history by one contiguous position; a batch id still retained appends nothing and answers with its first position; empty and oversized ones change nothing |
| `ChatLog.ChatLog.RowsAfter` | edge/src/chat-log.ts:91-113 | From the floor on, the rows past a cursor are the history from there, in order, without the named device’s own |
| `ChatLog.ChatLog.CommitCheckpoint` | edge/src/chat-log.ts:119-149 | The floor only moves forward and never past the head; exactly the covered rows go, and their number is reported |
| `ChatLog.ChatLog.Stats` | edge/src/chat-log.ts:164-180 | The counters are the number of rows of the history past the floor and the length of their payloads end to end |
| `ChatLog.ResumeFromLast` | edge/src/chat-room.ts:204-223 | Asking again from the last row received asks for exactly the rest |
| `ChatRoom.ChatRoom.HandleHello` | edge/src/chat-room.ts:385-410 | A hello makes the socket ready and answers with the log’s head, floor, counters and frontier; no other socket changes |
| `ChatRoom.ChatRoom.HandleRowsReq` | edge/src/chat-room.ts:412-424 | A ready socket is sent exactly the retained rows past its cursor, own ones left out if asked, and the end mark; without that exclusion it misses no row past its cursor that the log holds, now or later |
| `ChatRoom.ChatRoom.AppendAndRelay` | edge/src/chat-room.ts:446-475 | A new row goes to every ready socket but its sender in exactly one frame, and to no other; a duplicate, empty or oversized one changes nothing anywhere |
| `ChatRoom.ChatRoom.HandlePush` | edge/src/chat-room.ts:426-477 | The sender gets exactly one reply: an ack exactly when ready, named, admitted and sized, naming a row the log holds, and else the error of the first condition that fails; a fresh row extends the log and goes to every other ready socket in one frame, anything else leaves log and sockets as they were; no socket’s completeness is lost |
| `ChatRoom.ChatRoom.PostRows` | edge/src/chat-room.ts:241-280 | The HTTP push sends a fresh row in one frame to every ready socket, whether it asked or not, and otherwise changes nothing; completeness is kept |
| `ChatRoom.ChatRoom.PostCheckpoint` | edge/src/chat-room.ts:118-138 | A checkpoint that covers rows must name its state; which of the refusals it meets, and that the floor moves exactly to what a committed one covers |
| `ChatRoom.ChatRoom.GetRows` | edge/src/chat-room.ts:176-239 | A page is a prefix of the rows asked for, the whole of them exactly when it says it is done, within the body cap, and ends before the end only where the next row would pass it |
| `ChatRoom.Page` | edge/src/chat-room.ts:208-223 | The page loop stays within the body cap and stops only at a row that does not fit |
| `ChatRoom.CountedIsSent` | edge/src/chat-room.ts:208-235 | The bytes the page loop counts are the bytes of the body that is sent |
| `ChatRoom.PagesDeliver` | edge/src/chat-room.ts:204-226 | Pages pulled one after another over a growing log deliver each row past the cursor once, in order, until the last |
| `DeviceNudges.DeviceRoom.EnqueueNudge` | edge/src/device-nudges.ts:16-28 | An accepted wake is queued under a fresh token; a full queue refuses and leaves a reconcile receipt |
| `DeviceNudges.DeviceRoom.AcknowledgeNudge` | edge/src/device-nudges.ts:36-39 | Only a receipt acknowledged or delivered is retired, and only the one of that very token, so no wake is lost to a stale ack |
| `DeviceNudges.DeviceRoom.ReplayNudges` | edge/src/device-room.ts:227-244 | A host that acknowledges is sent exactly the front of the listing it does not hold yet, each receipt once, until the listing ends or a page is in flight, and nothing leaves the queue; an older one takes exactly the oldest page, no row left being older than one handed over, for good |
| `DeviceNudges.DeviceRoom.ReceiveAck` | edge/src/device-room.ts:276-287 | An ack retires its own receipt only and frees its slot; then comes exactly such a replay |
| `DeviceNudges.DeviceRoom.Alarm` | edge/src/device-room.ts:246-253 | With no live host the timer changes nothing; with one it is a replay with nothing counted as in flight |
| `DeviceNudges.DeviceRoom.PostNudge` | edge/src/device-room.ts:212-222 | The wake is queued under its token or refused with a reconcile receipt, exactly as the queue has room, and then comes a replay to the live host, or nothing; every accepted wake is queued until its receipt, or a newer one of the chat, is acknowledged or delivered |
| `DeviceNudges.DeviceRoom.JoinHost` | edge/src/device-room.ts:163-179 | A joining host with nothing in flight gets a replay, and no other host changes |
| `DeviceNudges.Oldest` | edge/src/device-nudges.ts:30-34 | The listed rows are distinct, in order of age and then chat id, as many as the limit allows, and no row left out is older than a listed one |
| `DeviceNudges.PickLiveHost` | edge/src/device-room.ts:342-353 | The pick is the freshest candidate other than the excluded one, the first of equals, and there is none exactly when all are out of the window |
| `TokenRefresh.SingleFlight` | crates/client/src/auth.rs:405-443 | In any interleaving at most one exchange is in flight |
| `TokenRefresh.NeverPresentedAgain` | crates/client/src/auth.rs:407-443 | A refresh token whose exchange succeeded is never presented again, while the platform installs no spent one |
| `TokenRefresh.ExpiredOncePerClear` | crates/client/src/auth.rs:354-443 | Two sign-out announcements are separated by a platform update if the flag was up at the first one, and otherwise the update fell between that one’s flag swap and itself |
| `TokenRefresh.AnnouncedAgainIff` | crates/client/src/auth.rs:354-443 | In any run at a task about to announce, a second announcement can follow with no update between exactly if the flag is down |
| `TokenRefresh.AnnouncedTwice` | crates/client/src/auth.rs:430-435 | That happens: a run with two announcements and no update between them |
| `TokenRefresh.TaskKeeps` | crates/client/src/auth.rs:364-443 | Every step of a task keeps gate, spent-token and announcement invariants |
| `SessionReplay.SessionRoom.Begin` | edge/src/session-room.ts:902-938 | The log is dropped exactly when three or more attempts died between the two syncs since the last completed replay, and then the last three deaths are exhibited |
| `SessionReplay.SessionRoom.Kill` | edge/src/session-room.ts:929-970 | A kill rolls back to the last sync, and the durable counter still counts exactly the deaths between the two syncs |
| `SessionReplay.SessionRoom.SyncReset` | edge/src/session-room.ts:959-970 | After the second sync no later kill brings the count back |
| `SessionReplay.RecoversWithinThree` | edge/src/session-room.ts:902-970 | A room whose replays died only with something to replay never has four deaths without a completed replay between |
| `Parts.FoldConserves` | crates/doc/src/parts.rs:274-336 | Folding an event keeps the text and the reasoning streamed since the last reset, whole and in order, and never leaves two runs adjacent |
| `Parts.Accumulator.Fold` | crates/doc/src/parts.rs:287-504 | Per event kind, which parts it touches and what each becomes, field by field, every other part and the order staying; text and reasoning as conserved; and the parts are the story of every event so far |
| `PartStory.ToolTold` | crates/doc/src/parts.rs:337-398 | Over any run, a tool’s chip came with a call when none stood and has stood since; it shows the last call since, is resolved exactly if a result came since, and carries the last result’s error flag and stats |
| `PartStory.QuestionTold` | crates/doc/src/parts.rs:399-424 | A question came with its request under an id no part had, has stood since, and is marked resolved exactly if it was answered since |
| `PartStory.ReopenedByAssignment` | crates/doc/src/parts.rs:451-494 | While its chip stands, a subagent that has ended is shown running again only after a new assignment |
| `PartStory.StoryOnce` | crates/doc/src/parts.rs:337-412 | After any run at most one tool chip and at most one question stand under each id |
| `Parts.SplitParts` | crates/doc/src/parts.rs:629-694 | Order and bodies survive splitting; only oversized bodies are cut, between characters, into numbered pieces within the cap, each but the last as long as it can be; every entry fits if each other part does; no entry could have taken the part the next starts with; and a message within the cap stays one entry |
| `Parts.PieceEnd` | crates/doc/src/parts.rs:662-670 | A cut falls on the last character boundary within the cap and makes progress |
| `Parts.PushSplit` | crates/doc/src/parts.rs:638-646 | A part joins the last entry if it fits there and starts a new one only if not; entries within the cap stay so |
| `Parts.JoinReadsBack` | crates/doc/src/parts.rs:696-699 | Joined continuations read exactly as the unsplit message |
| `UpdateLog.ReadsBack` | edge/src/update-log.ts:44-66 | Reading chunked rows yields every update whole, in order |
| `UpdateLog.UpdateLog.AppendUpdateRow` | edge/src/update-log.ts:31-42 | An update is stored end to end over rows that are full but for the last, the first alone not marked as continuing; an empty one stores nothing |
| `UpdateLog.UpdateLog.ReadUpdateRows` | edge/src/update-log.ts:44-66 | The reader’s grouping loop returns exactly the non-empty updates appended |
| `Fragments.SendUpdates` | edge/src/session-room.ts:1325-1382 | Each update is sent exactly once, small ones batched in order under consecutive ids with no two neighbouring batches that one could hold, large ones as header and fragments in order, no frame above the cap |
| `Fragments.SmallOrLarge` | edge/src/session-room.ts:1329-1352 | Every update travels one way or the other by its size, as often as it was given |
| `Fragments.AllPiecesJoin` | edge/src/session-room.ts:1353-1379 | An update’s fragments, joined in order, are the update, and all but the last are full |
| `Fragments.FragmentedTold` | edge/src/session-room.ts:1353-1379 | An oversized update goes out as a header that tells how many fragments follow and their size together, and the fragments under its id, numbered from zero, which joined are the update |
| `Fragments.AnnouncedInOrder` | edge/src/session-room.ts:1353-1379 | The oversized updates are announced once each, in order, under consecutive ids |
| `Fragments.Reassembly.Receive` | edge/src/session-room.ts:856-885 | Fragments arriving once each in any order complete to the sender’s update with the last one and not before |
| `Fragments.SizeDecides` | edge/src/session-room.ts:816-829 | For batches this sender cuts, the fragment-count limit never bites before the size limit |
| `ChatFrames.EncodeFrame` | edge/src/chat-frames.ts:65-78 | Filling the buffer in place yields type, the header’s length in four bytes, lowest first, header and payload |
| `ChatFrames.FrameRoundTrip` | edge/src/chat-frames.ts:65-101 | A frame reads back as itself exactly when its type is known and its header is an object within 4096 bytes, and not at all otherwise |
| `ChatFrames.DecodedIsEncoded` | edge/src/chat-frames.ts:83-101 | Whatever decodes is its own encoding |
| `ChatFrames.BodyRoundTrip` | edge/src/chat-room.ts:227-235 | A length-prefixed body cuts back into the frames it was made of |
| `ChatFrames.CutIsWhole` | crates/sync/src/chat_client.rs:1537-1551 | The frames cut from any body, with their lengths, are that body up to a rest too short for a length or announcing more than it has |
| `ChatFrames.WriteBody` | edge/src/chat-room.ts:227-235 | The buffer loop writes that body |
| `ChatFrames.ReadBody` | crates/sync/src/chat_client.rs:1537-1551 | The client’s loop reads the decodable frames and stops at a length the body cannot hold |
| `ChatFrames.DecodableEach` | crates/sync/src/chat_client.rs:1537-1551 | What is read of a body is each cut frame that decodes, whatever comes before or after it |
| `ChatFrames.SentFramesArrive` | edge/src/chat-room.ts:227-235 | Frames within the limits, written into a body and read out of it, arrive as they were |
| `ByteSeq.BoundaryNear` | crates/doc/src/parts.rs:663-666 | In UTF-8 text a character boundary lies at most three bytes before any position |

## Left out

- CoalesceUnsent: what is left to fold into a batch that already took a fold, or from a write of a chat's title, archived flag or parent. A refused fold of that kind may become possible later, when the batch has grown or the session op between has moved on, and the single pass does not come back to it.
- ExactlyOnce.ExactlyOnce: one writer per row, each write replay-safe after the ones before it, at any clocks; other writers to the row are outside it, because the merge does not commute with them.
- CoalescingKeepsNotifications: one fixed time for both pushes, and sessions written as full single-clock upserts whose `updatedAt` does not go back; the room's own clock advancing between batches is outside it.
- RetiringIsInvisible: the room accepts every batch; a rejected one is never acked and stays queued. Batches have to be safe against themselves, which the replica's are.
- CursorSound: one server lifetime; after a wipe the replica's recovery is stated by `ApplyState` and `DrainedSeedsRestore`, for an empty queue.
- NeverPresentedAgain: the server hands out refresh tokens it never handed out before, and an exchange whose answer is lost counts as failed.
- PagesDeliver: no checkpoint between the pages; one that passes the cursor makes the client load it first.
- Reassembly.Receive: a fragment delivered twice is counted twice by the source, so only once-each delivery is promised.
- Fold: a generated image's id is not one the fold mints, as the harness's ids never are.
- DeviceRoom: client frames, host frames and the close notices are routing only.
- ApplyState: the order in which a replacement's rows arrive; rows of one table have distinct keys.
- Field-level validation of ops, the 16 KiB size check and the serialized size of parts are arbitrary predicates and functions here.
- JSON, SQL, storage of blobs, base64, HTTP status codes, authentication and ownership of rooms.
- The replica's persistence (`to_bytes`, `from_bytes`), its typed getters and setters and the sidebar preferences: encodings and accessors around the operations here.
- APNs delivery, push targets and their preferences, the push log.
- Presence, quotas, room backups and the monotonic guard of the nightly copy.
- The CRDT library behind chat and session documents: its updates are opaque bytes.
- Session-room import penalties, trimming, frontier checkpoints and the wasm poison counter.
- Reading a JWT's expiry: whether a token counts as expired is a parameter of each step.
- The wall clock and how long tombstones are retained: the time of a push and the purge's horizon are parameters.
