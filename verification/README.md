# agent-grid: a verified model of the daemon's stateful cores

agent-grid runs coding agents in frames, frames in sessions, and serves them to
clients through one daemon. This project models the parts of it where state,
concurrency or text is hardest to get right, and proves what they promise.
`dafny verify dfyconfig.toml` checks everything.

**Frame messaging** (FrameMessaging, MessagingRecovery, JournalFile,
MessagingLedger, MessagingRuns, FrameMessagingStore, MessageBroker). Agents send,
read and answer messages. Each operation is journalled, committed in memory and
then snapshotted; saves may fail, and appends may fail, be cut short, or write a
line too long to be read back. A boot replays the whole journal over whatever
snapshot is on disk, or keeps the snapshot when the journal cannot be read. The
main result is crash recovery over every run, with the exact condition under which
the live messages come back unchanged.

**Surface output** (SurfaceProtocol, SurfaceInvariant, SurfaceLoopSteps,
SurfaceDelivery, SurfaceOrder, SurfaceStall, SurfacePath). Terminal output goes through a
relay buffer, a shared lane and a connection's outbox, all bounded. A full queue
severs the subscription. A run is any interleaving of the relay's goroutines, the
event loop and the writers.

**Frame spawns and shared backends** (SpawnLifecycle, SpawnAccounts, SpawnInvariant,
SpawnProperties, SpawnLoop).
Spawns run off the loop and race with kills; the loop registers or discards each
completion and removes a backend when its last frame goes.

**File relay** (FileRelay, FileSweeper). A notifier and a sweeper share a dirty flag
and an offset per file, and a refused broadcast is retried.

**Repository preparation** (PreparationCapacity, PreparationController). Admission
of clones under global, per-repository, per-intent and byte limits.

**Drivers** (DriverGuards, ClaudeDriver, CodexDriver, StatusEvidence). In-flight
guards of the Claude and Codex reducers over every event sequence, and the resolver
that folds four sources of status evidence into one.

**Client configuration** (ClientConfig, ServerTable). Admission of servers.json:
entry-local rules, symmetric collisions, one default.

**Text** (CommandLexer, LexerPasses, FlagRewrite, CommandText, EnvMerge, Framing). The
shell-style lexer with its inverse, flag rewriting on command lines, the environment
merge, and Content-Length framing as in the header part of the Base Protocol of the
Language Server Protocol 3.17.

Where the source works in place, a class or an array method is proved equal to a
function or to a step of the protocol, and the theorems are about those. Ids are
fresh where the source draws them at random. Times are whole seconds, 0 being the
zero time. A bounded channel is a sequence with a capacity parameter, so results
hold for every capacity.

Where the code and its comments part, the model follows the code:

- The lane that severing protects can stop the loop itself: a sever issued on the
  loop waits for room on the lane that only the loop drains (SurfaceStall).
- The journal's loader gives up on the first line it cannot read, and nothing keeps a
  message from filling one: a body of 1 MiB makes the whole journal unreadable for
  good (MessagingRuns).
- The failure of a spawn is posted without waiting and dropped when the event
  channel is full, so a caller can be left without an outcome (SpawnProperties).
- Cold start registers a frame in one of the two tables the last-frame test relies
  on (SpawnProperties).
- A released admission is looked up again before it is released; were its record gone
  the zero record would be released in its place. Nothing here removes a record, so
  the branch is dead; what it would do is proved all the same (PreparationCapacity).
- Codex's turn-completed case replaces the effects collected before it (CodexDriver).

## Model

| member | source | states |
|---|---|---|
| `FrameMessaging.SanitizeOnceIsEnough` | services/host/runtime/frame_messaging_store.go:187-203 | filtering the snapshot to live frames, replaying the journal and filtering again gives the same ordered messages as replaying the unfiltered snapshot and filtering once |
| `FrameMessaging.SanitizeReplay` | services/host/runtime/frame_messaging_store.go:205-237 | filtering commutes with replaying a whole journal when the dropped records are filtered out of it too, although dropped messages are re-appended in between |
| `FrameMessaging.ReplayConcat` | services/host/runtime/frame_messaging_store.go:205-237 | replaying a journal in two parts is replaying it whole |
| `MessagingRecovery.ReachedApply` | services/host/runtime/frame_messaging_store.go:239-314 | applying the next journal record to the messages of a journal gives the messages of the longer journal, for sent, reply and read records and for those with no effect |
| `MessagingRecovery.Absorb` | services/host/runtime/frame_messaging_store.go:250-314 | replaying any earlier part of the journal over messages that already hold it changes nothing but the status each answered message is stamped with again |
| `MessagingRecovery.ReplayFrom` | services/host/runtime/frame_messaging_store.go:205-237 | the whole journal replayed over the messages of any earlier point of it ends at the messages of the whole journal, with read marks from either |
| `JournalFile.AppendedLoads` | services/host/runtime/frame_messaging_store.go:152-166 | a journal loads after an append iff it loaded before and the append wrote nothing, a line within the scanner's limit behind a line break, or such a line short of its break; then it holds exactly one more record |
| `MessagingLedger.TakenKeeps` | services/host/runtime/frame_messaging_runtime.go:156-411 | taking in a sent, reply or read record keeps memory at the whole journal and the snapshot at an earlier point of it |
| `MessagingLedger.ReplayIsDurable` | services/host/runtime/frame_messaging_store.go:205-314 | replaying the records memory has taken in over any earlier snapshot gives the live messages between restored frames, in order, each with exactly what of it is on disk |
| `MessagingLedger.ReplayExactIff` | services/host/runtime/frame_messaging_store.go:205-314 | that replay gives the live messages themselves iff each read mark is in the journal or the snapshot and each status is the one replay stamps |
| `MessagingRuns.NextKeeps` | services/host/runtime/frame_messaging_runtime.go:156-411 | every send, read, reply, web read, save and restart, with any save failing and any append failing, cut short or too long to read back, keeps ids distinct and, while the journal can be read, memory, file and snapshot in agreement |
| `MessagingRuns.RunKeeps` | services/host/runtime/frame_messaging_runtime.go:156-411 | they agree so after every run |
| `MessagingRuns.RecoveryIsDurable` | services/host/runtime/frame_messaging_store.go:187-314 | from any state a run can leave whose journal can be read, a boot gets back the live messages between restored frames, in order, each with exactly what of it is on disk; a refused line that lacks only its break counts as taken in |
| `MessagingRuns.CrashRecovery` | services/host/runtime/frame_messaging_store.go:187-314 | for every run and everything left on disk, a boot restores the live messages up to what of their read marks and statuses is on disk, or the filtered snapshot alone when the journal cannot be read |
| `MessagingRuns.RecoveryExactIff` | services/host/runtime/frame_messaging_store.go:187-237 | a boot restores the live messages exactly iff, with a journal it can read, each read mark and status is on disk and no refused line changes a kept message, and, with one it cannot, the snapshot already holds them |
| `MessagingRuns.StatusesAgree` | services/host/runtime/frame_messaging_runtime.go:390-393 | the live path and replay stamp the same status iff the resolution is empty or not blank |
| `MessagingRuns.CrashRecoveryExact` | services/host/runtime/frame_messaging_store.go:205-314 | in every run whose appends write nothing or a whole line within the limit (web reads: a line), and whose resolutions are empty or not blank, with any saves failing, a boot restores the live messages exactly |
| `MessagingRuns.SnapshotSuffices` | services/host/runtime/frame_messaging_store.go:187-203 | a snapshot taken after the last change is enough, whether or not the journal can be read, once the statuses agree and no refused line is left |
| `MessagingRuns.UnreadableForGood` | services/host/runtime/frame_messaging_store.go:223-234 | a journal that cannot be read never can again, and every later boot has the snapshot alone |
| `MessagingRuns.OversizedBodyLost` | services/host/runtime/frame_messaging_store.go:223-234 | every accepted message with a body of 1 MiB or more whose save fails is lost at the next boot |
| `MessagingRuns.CutLineLosesAll` | services/host/runtime/frame_messaging_store.go:159-165 | one append cut short loses an earlier message that is in the journal but not in the snapshot |
| `MessagingRuns.RefusedSendReturns` | services/host/runtime/frame_messaging_store.go:223-234 | a send refused because only its line break was not written is there after a boot |
| `MessagingRuns.UnopenedJournal` | services/host/runtime/frame_messaging_store.go:210-216 | a boot that cannot open its journal goes without a message that a boot that can restores |
| `MessagingRuns.LostReadMark` | services/host/state/reduce_messages.go:32-66 | a read from the web surface whose journal append and saves fail is lost at the next boot, though it was accepted |
| `MessagingRuns.BlankResolution` | services/host/runtime/frame_messaging_store.go:285-289 | a reply with a blank, non-empty resolution comes back from a boot with another status |
| `FrameMessagingStore.SummaryMeaning` | services/host/runtime/frame_messaging_store.go:393-418 | the summary counts are the numbers of unread and of unanswered messages |
| `FrameMessagingStore.SummaryShowsLatest` | services/host/runtime/frame_messaging_store.go:393-418 | the previews and the status shown are those of the last message that has one |
| `FrameMessagingStore.SummaryAfterRead` | services/host/state/reduce_messages.go:32-66 | marking messages read changes the unread count of the summary and nothing else |
| `FrameMessagingStore.ComputeSummary` | services/host/runtime/frame_messaging_store.go:393-418 | the loop computes the summary specified above |
| `FrameMessagingStore.SessionFrameMessaging.ApplySent` | services/host/runtime/frame_messaging_store.go:250-273 | a sent record appends an unknown message and otherwise refreshes the known one, keeping its read mark and reply, in place |
| `FrameMessagingStore.SessionFrameMessaging.ApplyReply` | services/host/runtime/frame_messaging_store.go:275-293 | a reply record answers the first message with its id, in place, and an unknown id changes nothing |
| `FrameMessagingStore.SessionFrameMessaging.ApplyRead` | services/host/runtime/frame_messaging_store.go:295-314 | a read record marks exactly the messages it names, in place |
| `FrameMessagingStore.SessionFrameMessaging.LoadFromJournal` | services/host/runtime/frame_messaging_store.go:205-237 | succeeds iff every line can be read, and then has applied every record in order and refreshed the summary |
| `FrameMessagingStore.SessionFrameMessaging.Sanitise` | services/host/runtime/frame_messaging_store.go:81-107 | exactly the messages between live frames stay, in order, and the summary follows them |
| `FrameMessagingStore.RestoreSession` | services/host/runtime/frame_messaging_store.go:187-203 | the boot path of one session: the filtered snapshot, replaced by the filtered replay iff the journal can be opened and every line of it read, with the summary of the result |
| `MessageBroker.Broker.Send` | services/host/runtime/frame_messaging_runtime.go:260-334 | accepted iff both ends are agent frames of the session, the body is not blank, the target is another frame and the journal takes the line; each refusal means what it says; one send step of a run, whatever came of the append, else nothing changes |
| `MessageBroker.Broker.CheckSend` | services/host/runtime/frame_messaging_runtime.go:261-305 | lets a send through iff it may be accepted, and otherwise names the refusal that holds |
| `MessageBroker.Broker.ReadInbox` | services/host/runtime/frame_messaging_runtime.go:187-258 | returns the visible inbox with nothing unread left in it; one read step of a run when something was unread, else nothing changes |
| `MessageBroker.Broker.CheckRead` | services/host/runtime/frame_messaging_runtime.go:188-198 | lets a read through iff it may be accepted, and otherwise names the refusal that holds |
| `MessageBroker.Broker.ReplyTo` | services/host/runtime/frame_messaging_runtime.go:336-413 | accepted only for an open message addressed to the caller and a line written; one reply step of a run, whatever came of the append, else nothing changes |
| `MessageBroker.Broker.CheckReply` | services/host/runtime/frame_messaging_runtime.go:415-429 | a reply is let through iff its message is open, addressed to the caller, and the reply has content |
| `MessageBroker.Broker.ReadThroughId` | services/host/state/reduce_messages.go:32-66 | reading through an id marks every message up to it, publishes before it journals, and is one such step of a run |
| `MessageBroker.Broker.Restart` | services/host/runtime/bootstrap.go:32-134 | a restart of the daemon restores what a boot from that disk restores, with its summary, whether or not the journal can be opened; with a journal opened, or unreadable anyway, it is the restart step of a run |
| `SurfaceInvariant.SubscribeKeeps` | services/host/runtime/terminal_relay.go:137-181 | a new subscription gets an identity no queued or written chunk carries |
| `SurfaceInvariant.FanOutKeeps` | services/host/runtime/terminal_relay.go:399-455 | a chunk the relay buffer cannot take ends its subscription instead of leaving a hole |
| `SurfaceInvariant.ForwardSendKeeps` | services/host/runtime/terminal_relay.go:369-392 | a chunk the shared lane cannot take ends its subscription instead of leaving a hole |
| `SurfaceLoopSteps.DispatchKeeps` | services/host/runtime/internal_dispatch.go:188-200 | the loop puts a current subscription's next chunk on the outbox, drops chunks of ended ones, and severs when the outbox is full |
| `SurfaceLoopSteps.WriterKeeps` | services/host/runtime/ipc.go:260-285 | the writer takes frames in order and stops at a finished connection |
| `SurfaceDelivery.NextKeeps` | services/host/runtime/internal_dispatch.go:239-270 | every atomic step of relay, loop and writer keeps each subscription's chunks consecutive |
| `SurfaceDelivery.RunKeeps` | services/host/runtime/terminal_relay.go:137-455 | that invariant holds in every reachable state |
| `SurfaceDelivery.SeverNotDrop` | services/host/runtime/ipc.go:260-327 | for every interleaving and all capacities, the sequence numbers written for one subscription are 0, 1, 2, ... without a hole, repeat or swap |
| `SurfaceDelivery.NothingLost` | services/host/runtime/proto_bridge_surface.go:49-64 | while a subscription stands and its connection is open, every chunk numbered so far is written or queued, in order, exactly once |
| `SurfaceDelivery.OnlyOwnChunks` | services/host/runtime/proto_bridge_surface.go:157-163 | a connection gets only chunks of its own subscriptions, each under the identity it was numbered with |
| `SurfaceOrder.NextOrdered` | services/host/runtime/internal_dispatch.go:188-200 | every step keeps the chunks of one key's successive subscriptions from mixing on a connection |
| `SurfaceOrder.KeyGetsGaplessRuns` | services/host/runtime/proto_bridge_surface.go:157-163 | for every interleaving and all capacities, what is written for one key is 0, 1, 2, ... of one subscription, then 0, 1, 2, ... of the next, and never again a chunk of an earlier one |
| `SurfaceStall.LoopParksIff` | services/host/runtime/ipc.go:312-327 | in every reachable state a step parks the loop in a sever iff it sends a prompt, or the head output of its own subscription, to a subscription that stands on a registered, unfinished connection whose outbox is full |
| `SurfaceStall.LoopStuckForever` | services/host/runtime/terminal_relay.go:319-340 | once the loop waits in a sever for room on the full lane that only it drains, it waits in every continuation and the lane never moves again |
| `SurfaceStall.ResumesIff` | services/host/runtime/terminal_relay.go:319-340 | a parked loop goes on in some continuation iff the lane has room |
| `SurfaceStall.LoopStuckReached` | services/host/runtime/ipc.go:312-327 | such a state is reachable for every relay buffer and lane that hold at least one event and every outbox |
| `SurfacePath.Surfaces.SeverOwned` | services/host/runtime/terminal_relay.go:319-340 | removes exactly the named subscription and leaves its close notice to send; unknown keys change nothing |
| `SurfacePath.Surfaces.SubscribeOwned` | services/host/runtime/terminal_relay.go:137-181 | one subscribe step of the protocol |
| `SurfacePath.Surfaces.FanOutChunk` | services/host/runtime/terminal_relay.go:399-455 | one output event is one fan-out step of the protocol |
| `SurfacePath.Surfaces.FanOutClosed` | services/host/runtime/terminal_relay.go:404-420 | a closed source ends its own subscription only, and leaves a close notice |
| `SurfacePath.Surfaces.EnqueueInternal` | services/host/runtime/internal_dispatch.go:239-270 | accepted iff the lane has room; refused, it severs the event's subscription |
| `SurfacePath.Surfaces.RelaySend` | services/host/runtime/terminal_relay.go:369-392 | one forward step of the protocol |
| `SurfacePath.Surfaces.QueueWireLane` | services/host/runtime/ipc.go:312-327 | pushes, drops for a finished connection, or severs, as the protocol has it |
| `SurfacePath.Surfaces.DispatchInternal` | services/host/runtime/internal_dispatch.go:188-200 | one dispatch step of the protocol, for output and for close notices |
| `SurfacePath.Surfaces.UnsubscribeOwned` | services/host/runtime/terminal_relay.go:242-256 | removes exactly the named subscription; idempotent |
| `SurfacePath.Surfaces.WriterStep` | services/host/runtime/ipc.go:260-285 | each turn of the writer is one enabled writer step of the protocol |
| `SpawnInvariant.CompletionKeeps` | services/host/runtime/interpret_spawn.go:156-252 | a completion is registered iff its frame still lives and otherwise discarded, and bindings stay accounted for either way |
| `SpawnInvariant.EvictKeeps` | services/host/state/reduce_frame_evict.go:40-118 | evicting a root with its siblings or a child alone releases exactly what leaves, so no table names a dead frame |
| `SpawnInvariant.AbnormalExitKeeps` | services/host/state/reduce_tick.go:107-133 | an abnormal exit releases the binding but keeps the frame |
| `SpawnInvariant.GoroutineKeeps` | services/host/runtime/interpret_spawn.go:54-121 | every step of a spawn goroutine, on success and on each error path, keeps bindings and outcomes accounted for |
| `SpawnInvariant.BootKeeps` | services/host/runtime/bootstrap_coldstart.go:72-133 | so does cold start, on success and on its error paths |
| `SpawnInvariant.NextKeeps` | services/host/runtime/interpret.go:226-272 | every step of loop and goroutines keeps the invariant |
| `SpawnInvariant.RunKeeps` | services/host/runtime/interpret_spawn.go:54-252 | the invariant holds in every reachable state |
| `SpawnProperties.BindingsBalance` | services/host/runtime/interpret_spawn.go:54-121 | on every run, successful binds minus releases equal the bindings in flight, registered, and awaiting a discard's release |
| `SpawnProperties.OnlyLiveFramesRegistered` | services/host/runtime/interpret_spawn.go:145-197 | no loop table ever holds a frame the reducer has dropped, and a frame lives in one session at most |
| `SpawnProperties.OneOutcome` | services/host/runtime/runtime.go:664-670 | a spawn yields at most one outcome; exactly one unless it is still under way or its failure was dropped; it is pending until then |
| `SpawnProperties.DroppedStaysPending` | services/host/runtime/runtime.go:425-431 | a failure dropped on a full event channel leaves its frame pending in every continuation |
| `SpawnProperties.DroppedIff` | services/host/runtime/runtime.go:425-431 | in every reachable state a step loses a failure iff it posts one to a full event channel, whatever events fill it |
| `SpawnProperties.FailureLost` | services/host/runtime/runtime.go:425-431 | a run, for any size of the channel, in which a failure is lost while no other failure is queued |
| `SpawnProperties.RemoveExactIff` | services/host/runtime/interpret_spawn.go:273-299 | releasing a frame calls Remove exactly when it was the last registered on its backend, iff a warm frame is not left with only cold-started company and a cold-started one is not the last |
| `SpawnProperties.SharedBackendSafe` | services/host/runtime/interpret_spawn.go:156-299 | in every run without cold start, Remove is called exactly when the last registered frame goes and never while another is registered |
| `SpawnProperties.RemoveCalledIff` | services/host/runtime/interpret_spawn.go:273-299 | every step calls Remove for a backend at most once, and does iff the backend reaps and the frames it gives up hold all the frames in the reaping table on it |
| `SpawnProperties.RemovesInFlightIff` | services/host/runtime/interpret_spawn.go:273-299 | a step removes a backend that a spawn in flight is bound to iff it gives up the last such frames while a bound goroutine or a queued completion is on it |
| `SpawnProperties.ColdStartReapsInUse` | services/host/runtime/bootstrap_coldstart.go:99-103 | a run in which a frame restored by cold start keeps using a backend that Remove is called for |
| `SpawnProperties.InFlightSiblingReaped` | services/host/runtime/interpret_spawn.go:279-298 | a run in which Remove is called for a backend a live spawn in flight is already bound to |
| `SpawnLoop.Loop.SpawnTargetAlive` | services/host/runtime/interpret_spawn.go:186-197 | finds the frame iff its session still has it |
| `SpawnLoop.Loop.HasOther` | services/host/runtime/interpret_spawn.go:279-289 | finds another user of the backend iff there is one, in whatever order the map is walked |
| `SpawnLoop.Loop.ReleaseFrameSubsystem` | services/host/runtime/interpret.go:266-272 | the release step of the protocol on the loop's tables; a second release changes nothing |
| `SpawnLoop.Loop.ReleaseFrames` | services/host/state/reduce_frame_evict.go:67-90 | the release effects of a root eviction, one after the other |
| `SpawnLoop.Loop.SpawnFrame` | services/host/runtime/interpret.go:228-230 | a frame is pending from the moment its spawn starts |
| `SpawnLoop.Loop.HandleSpawnComplete` | services/host/runtime/interpret_spawn.go:156-252 | registers in both tables iff the target is alive, else discards; settles the spawn either way |
| `SpawnLoop.Loop.EvictFrame` | services/host/state/reduce_frame_evict.go:40-118 | the eviction step of the protocol |
| `SpawnLoop.Loop.Enqueue` | services/host/runtime/runtime.go:425-431 | appends the event, or drops it iff the channel is full |
| `SpawnLoop.Loop.PostSpawnFailed` | services/host/runtime/interpret_spawn.go:54-121 | the end of a failed spawn is the failure step of the protocol |
| `SpawnLoop.Loop.NextEvent` | services/host/state/reduce_frame_evict.go:40-118 | takes one event off the channel; a spawn failure settles its frame and evicts it if it still lives |
| `FileRelay.ReadFrom` | services/host/runtime/filerelay.go:228-253 | reads from the offset to the end; nothing exactly when there is nothing new |
| `FileRelay.AppendKeeps` | services/host/runtime/filerelay.go:145-171 | a file that grows keeps what was read and sent of it, and is noticed if watched |
| `FileRelay.ReadKeeps` | services/host/runtime/filerelay.go:202-212 | a sweep's read takes the record from where it was sent to |
| `FileRelay.CommitKeeps` | services/host/runtime/filerelay.go:218-225 | an accepted broadcast advances the offset by exactly what was sent; a refused one re-arms the record |
| `FileRelay.NextKeeps` | services/host/runtime/filerelay.go:109-226 | every step of notifier, sweeper and callers keeps delivery and wake-up in order |
| `FileRelay.RunKeeps` | services/host/runtime/filerelay.go:109-226 | they hold in every reachable state |
| `FileRelay.DeliveredExactly` | services/host/runtime/filerelay.go:188-226 | for append-only files and any refusals, the accepted broadcasts are the file's bytes from the initial offset to the current one, nothing lost, repeated or reordered |
| `FileRelay.NoLostWakeUp` | services/host/runtime/filerelay.go:145-226 | unread bytes of a watched file mean it is dirty, has a notification pending or is held by the sweep, unless its last read failed or it grew unwatched |
| `FileRelay.AsleepUnreadIff` | services/host/runtime/filerelay.go:188-226 | a record nothing will look at again has unread bytes exactly when its last read failed or it grew unwatched since its last read |
| `FileRelay.AppendedBeforeWatch` | services/host/runtime/filerelay.go:120-142 | bytes appended between the Stat and the watch are not noticed |
| `FileRelay.FailedReadForgets` | services/host/runtime/filerelay.go:193-212 | a read that fails after the flag was cleared is not retried |
| `FileSweeper.Relay.Add` | services/host/runtime/filerelay.go:109-143 | a new path gets its own record at the size seen, which is the add step of the protocol; a known or empty path changes nothing |
| `FileSweeper.Relay.Unwatch` | services/host/runtime/filerelay.go:93-100 | the unwatch step of the protocol |
| `FileSweeper.Relay.MarkDirty` | services/host/runtime/filerelay.go:159-163 | one notification is the notified step of the protocol |
| `FileSweeper.Relay.Collect` | services/host/runtime/filerelay.go:188-200 | taking the dirty records and clearing their flags, in whatever order the map is walked, is the collect step of the protocol, each record once |
| `FileSweeper.Relay.ReadNext` | services/host/runtime/filerelay.go:208-212 | reading the next taken file is the read step of the protocol, whatever the file has grown to |
| `FileSweeper.Relay.Settle` | services/host/runtime/filerelay.go:218-225 | advancing or re-arming a record is the commit step of the protocol |
| `FileSweeper.Relay.Deliver` | services/host/runtime/filerelay.go:202-225 | one file's turn is a read step, then a broadcast and a commit step iff there was something to send; it advances iff accepted, re-arms iff refused |
| `FileSweeper.Relay.Sweep` | services/host/runtime/filerelay.go:188-226 | a whole sweep is a run of protocol steps in which every dirty watched file gets one turn: sent from its offset, accepted ones end read and clean, refused ones as they were, others untouched |
| `FileSweeper.StepsRun` | services/host/runtime/filerelay.go:188-226 | steps taken from where a run of the relay stands extend that run, so the relay's guarantees hold of them |
| `PreparationCapacity.ReleaseKeeps` | services/host/runtime/repository_preparation.go:201-211 | a release that names the admitted preparation never meets EndActive's clamps and keeps the counters exact |
| `PreparationCapacity.NextKeeps` | services/host/runtime/repository_preparation_worker.go:85-136 | every admission, start, release, charge and uncharge keeps the counters exact |
| `PreparationCapacity.RunKeeps` | services/host/runtime/repository_preparation_worker.go:85-323 | they are exact in every reachable state |
| `PreparationCapacity.NothingLeaked` | services/host/state/repository.go:148-155 | while preparations are only ever put, as here, the release of a zero preparation is never possible and nothing leaks |
| `PreparationCapacity.CapacityInvariant` | services/host/runtime/repository_preparation.go:175-211 | in every run in which preparations stay on record: active equals outstanding admissions and the sum over repositories, at most 4, at most 2 per repository, one per intent |
| `PreparationCapacity.CapacityWithLeaks` | services/host/runtime/repository_effects.go:58-70 | were preparations to vanish, the global count would stay exact and the rest be off by exactly what was released wrongly |
| `PreparationCapacity.AdmittedIff` | services/host/runtime/repository_preparation.go:175-192 | in such a run a clone is admitted iff its intent holds none, fewer than 4 are outstanding, fewer than 2 on its repository, and the charged bytes are within 20 GiB |
| `PreparationCapacity.ReleaseRightIff` | services/host/runtime/repository_preparation_worker.go:219-223 | a release puts the counters right iff it is given the repository and intent that were admitted |
| `PreparationCapacity.LeakReached` | services/host/runtime/repository_effects.go:58-67 | a preparation that vanished between its admission and its start would leak its admission |
| `PreparationCapacity.LeakedIntentBusyForever` | services/host/runtime/repository_effects.go:64-67 | an intent so released is refused as busy in every continuation |
| `PreparationCapacity.LeakedRepositoryClosedForever` | services/host/runtime/repository_effects.go:64-67 | two such releases on one repository close it in every continuation |
| `PreparationCapacity.QueueOnlyGrows` | services/host/runtime/repository_preparation_worker.go:94-98 | the queue count is the number of refusals ever queued, never shrinks, and at 32 a full server fails requests instead |
| `PreparationCapacity.BytesExact` | services/host/runtime/repository_preparation_worker.go:110-136 | the bytes charged are the sum of the sizes recorded, the clamp to zero never acts, and releasing twice is releasing once |
| `PreparationController.Capacity.AdmitClone` | services/host/runtime/repository_preparation.go:175-192 | answers from the counters alone, without changing them |
| `PreparationController.Capacity.BeginActive` | services/host/runtime/repository_preparation.go:194-199 | the counters after an admission |
| `PreparationController.Capacity.EndActive` | services/host/runtime/repository_preparation.go:201-211 | the counters after a release, clamps included |
| `PreparationController.Capacity.RemoveNeverAvailable` | services/host/runtime/repository_preparation.go:229-237 | the bytes after a release, clamp included |
| `PreparationController.Controller.TryAdmit` | services/host/runtime/repository_preparation_worker.go:85-106 | admits iff AdmitClone says so, queues a refusal iff the server is full with room in the queue |
| `PreparationController.Controller.StartCloneAdmitted` | services/host/runtime/repository_preparation_worker.go:225-244 | an admission starts its one worker, entered under its preparation |
| `PreparationController.Controller.FinishWorker` | services/host/runtime/repository_preparation_worker.go:316-323 | releases the worker's own admission, and its table entry only if it is still its own |
| `PreparationController.Controller.AccountClonePath` | services/host/runtime/repository_preparation_worker.go:110-122 | a charge replaces the one before it for the same preparation |
| `PreparationController.Controller.ReleaseNeverAvailableAccount` | services/host/runtime/repository_preparation_worker.go:126-136 | uncharges a recorded preparation once |
| `PreparationController.Controller.SweepNeverAvailableOrphansN` | services/host/runtime/repository_preparation_worker.go:180-217 | cleans the first so many stopped, aged-out records in store order and uncharges exactly those |
| `PreparationController.OrphansToCleanBounded` | services/host/runtime/repository_preparation_worker.go:180-217 | only orphans are cleaned, never more than the bound, and all of them when the bound is not reached |
| `DriverGuards.OutstandingIsFlag` | services/host/driver/common_state.go:99-147 | for any sequence of guarded steps, jobs started less results received is 0 or 1 and is the flag |
| `DriverGuards.NoResultNoJob` | services/host/driver/summary_job.go:9-37 | while no result comes back, no other job of the kind starts |
| `ClaudeDriver.StepGuarded` | services/host/driver/claude_event.go:109-319 | every event of a Claude frame starts a job exactly when its flag goes up, and changes the watched file exactly with its watch effect |
| `ClaudeDriver.InFlightGuards` | services/host/driver/claude_tick.go:25-88 | for every event sequence on a Claude frame, jobs started less results received is the transcript, branch or summary flag |
| `ClaudeDriver.OneJobOutstanding` | services/host/driver/claude_event.go:133-319 | after any run, an accepted hook, transcript change, warm start or tick that calls for a summary, parse or branch job leaves exactly one job of that kind started and unanswered |
| `ClaudeDriver.LostResultBlocks` | services/host/runtime/worker/pool.go:63-84 | a job whose result never comes blocks its kind on a Claude frame for good |
| `CodexDriver.StepGuarded` | services/host/driver/codex_event.go:34-165 | every event of a Codex frame starts a job exactly when its flag goes up; all but turn-completed keep the watch in step |
| `CodexDriver.WorkUnderWay` | services/host/driver/codex_event.go:63-79 | after any root subsystem event a known transcript is marked watched and being parsed, and the jobs its kind calls for are under way |
| `CodexDriver.WatchKeptIff` | services/host/driver/codex_event.go:114-122 | the watched file changes with its watch effect iff the event is not a root turn-completed one with a transcript not yet watched |
| `CodexDriver.TurnCompletedLosesWatch` | services/host/driver/codex_event.go:114-122 | a turn-completed event that first names the transcript marks it watched and emits no watch |
| `CodexDriver.LostWatchStaysLost` | services/host/driver/codex_event.go:418-424 | a watch so lost is not asked for again by any later events on the same transcript |
| `CodexDriver.InFlightGuards` | services/host/driver/codex_event.go:313-351 | for every event sequence on a Codex frame, jobs started less results received is the transcript, branch or summary flag |
| `CodexDriver.LostResultBlocks` | services/host/runtime/worker/pool.go:63-84 | a job whose result never comes blocks its kind on a Codex frame for good |
| `StatusEvidence.StatusCalledFor` | services/host/driver/status_evidence.go:34-90 | after any observations with times, the status is that of a stopped process, else pending for a pending hook or terminal, else that of the latest observation by time and priority |
| `StatusEvidence.Confluence` | services/host/driver/status_evidence.go:34-90 | interleavings that keep each source's order end in the same status |
| `StatusEvidence.ConfluenceAsRecorded` | services/host/driver/status_evidence.go:34-37 | with or without times, interleavings that record each source's observations alike end in the same status |
| `StatusEvidence.LastPerSourceDecidesIff` | services/host/driver/status_evidence.go:57-90 | histories with the same last observation per source agree iff, when nothing else was observed, they agree on whether the process was ever stopped |
| `StatusEvidence.StoppedAbsorbs` | services/host/driver/status_evidence.go:57-62 | once the process is stopped, no hook, terminal or progress evidence changes the status or its time |
| `StatusEvidence.BetterIsBest` | services/host/driver/status_evidence.go:71-89 | the scan keeps an observation no other beats in time, then priority |
| `StatusEvidence.ChangedAtIs` | services/host/driver/status_evidence.go:109-117 | after any observations with times, the time of the last change is that of the observation that decided when the status last changed, or the initial one |
| `StatusEvidence.ChangedAtDiffers` | services/host/driver/status_evidence.go:109-117 | the time of the last change does depend on the interleaving |
| `StatusEvidence.UntimedDiffers` | services/host/runtime/convert.go:25-32 | an untimed hook observation makes the status depend on the interleaving |
| `StatusEvidence.CommonState.ResolveStatus` | services/host/driver/status_evidence.go:57-90 | the loop resolves as specified, in place |
| `StatusEvidence.CommonState.ObserveStatus` | services/host/driver/status_evidence.go:34-55 | records the observation under its source and resolves |
| `ClientConfig.AdmissionOutcome` | clients/goclient/clientconfig/config.go:251-304 | for every document, usable servers have distinct ids and trimmed names, exactly one usable server is the default if any is usable, no entry is dropped, renamed or re-pointed, and a usable one meets the contract on its own under its canonical URL |
| `ClientConfig.LocallyInvalidDoesNotInterfere` | clients/goclient/clientconfig/config.go:247-260 | deleting an entry invalid on its own leaves every other entry's violation, admission and default flag as they were |
| `ClientConfig.MarkedDistinct` | clients/goclient/clientconfig/config.go:402-422 | after marking, no two still-valid entries share the key |
| `ClientConfig.DefaultOutcome` | clients/goclient/clientconfig/config.go:427-455 | if any entry is usable, exactly one usable entry is the default |
| `ClientConfig.DefaultIsMarkerOrFirst` | clients/goclient/clientconfig/config.go:427-455 | the default is the one marker that stands, or else the first usable entry |
| `ClientConfig.MarkWithout` | clients/goclient/clientconfig/config.go:402-422 | collision marking does not see entries that were already invalid |
| `ServerTable.GroupByKey` | clients/goclient/clientconfig/config.go:402-413 | groups exactly the still-valid entries by key, in order |
| `ServerTable.MarkCollisionsIn` | clients/goclient/clientconfig/config.go:402-422 | in place and in any order of the groups, an entry is marked iff another still-valid entry shares its key |
| `ServerTable.MarkDefaultIn` | clients/goclient/clientconfig/config.go:427-455 | in place: rival markers all fall, and with none left the first usable entry is the default |
| `ServerTable.Admit` | clients/goclient/clientconfig/config.go:251-260 | the phases in order give the admission specified above |
| `CommandLexer.SplitJoin` | services/platform/agentlaunch/joinargs.go:9-42 | every list of arguments, joined and split, comes back, whatever is in them |
| `CommandLexer.QuoteIsWhole` | services/platform/agentlaunch/joinargs.go:20-28 | a quoted argument reads as one token with that argument's value |
| `CommandLexer.OtherSpellings` | services/platform/agentlaunch/splitargs.go:67-111 | backslashes, and double quotes around them, spell any argument |
| `CommandLexer.QuotedSeparator` | services/platform/agentlaunch/splitargs.go:58-94 | a separator ends a token only outside quotes |
| `CommandLexer.RawsReadBack` | services/platform/agentlaunch/splitargs.go:35-44 | the kept texts of a command's tokens, joined, read as the same tokens byte for byte |
| `CommandLexer.LexYieldsWhole` | services/platform/agentlaunch/splitargs.go:131-204 | every token's kept text reads, alone, as that token |
| `LexerPasses.LexCookedArgs` | services/platform/agentlaunch/splitargs.go:50-127 | the first pass yields the arguments or the lexing error |
| `LexerPasses.LexRawSpans` | services/platform/agentlaunch/splitargs.go:131-204 | the second pass pairs each span with its own argument |
| `LexerPasses.LexBothPasses` | services/platform/agentlaunch/splitargs.go:38-44 | the two passes agree on every command |
| `FlagRewrite.RewriteAround` | services/host/driver/worktree.go:91-116 | replacing keeps everything ahead of the first occurrence, puts flag and value in its place, and keeps what is behind it but for later occurrences |
| `FlagRewrite.StripRewrite` | services/host/driver/worktree.go:72-152 | stripping after replacing leaves what stripping the original leaves |
| `FlagRewrite.OneOccurrence` | services/host/driver/worktree.go:91-116 | after replacing, the flag and value put in are the only occurrence |
| `FlagRewrite.RewriteIdempotent` | services/host/driver/worktree.go:91-116 | replacing twice is replacing once |
| `FlagRewrite.OthersKeptIff` | services/host/driver/worktree.go:107-109 | all other tokens are kept in order iff the value does not begin with a dash, or is itself spelled like the flag and takes up no kept token behind it |
| `FlagRewrite.ParseStrips` | services/host/driver/worktree.go:15-48 | parsing leaves what stripping leaves and reports a request iff a flag occurs |
| `FlagRewrite.ParseRewrite` | services/host/driver/worktree.go:15-48 | parsing reads back the value that replacing put in |
| `CommandText.ReplaceReadsBackIff` | services/host/driver/worktree.go:117-118 | the rewritten text reads as the rewritten tokens iff the last token of the command kept behind the first occurrence does not end in a space |
| `CommandText.TrimmedEscape` | services/host/driver/worktree.go:117-118 | a command that ends in a later flag behind an escaped space does not read back: trimming leaves a bare backslash |
| `CommandText.ReplaceFlag` | services/host/driver/worktree.go:72-118 | on text: one occurrence, the first spelling with the value; other tokens in order; idempotent; strip and parse after it as on the original |
| `CommandText.ReplaceOnEmpty` | services/host/driver/worktree.go:58-63 | an empty command gets no flag |
| `CommandText.ReplaceLoop` | services/host/driver/worktree.go:91-116 | the loop writes the text of the rewritten tokens |
| `CommandText.StripLoop` | services/host/driver/worktree.go:133-150 | the loop writes the texts of the tokens that belong to no flag |
| `CommandText.ReplaceFlagValueOn` | services/host/driver/worktree.go:72-118 | the whole operation, error paths included |
| `CommandText.StripFlagValuesOn` | services/host/driver/worktree.go:120-152 | the whole operation, error paths included |
| `EnvMerge.MergeRefinesLookup` | services/host/runtime/pty_backend.go:371-420 | each key at most once; looking it up gives the override, else the first base value; malformed entries and first appearances of base keys keep their places among each other, and the added keys follow |
| `EnvMerge.SortedUnique` | services/host/runtime/pty_backend.go:381-384 | the order of the added keys is the same whatever order the map is walked in |
| `EnvMerge.AllResolveIff` | services/host/runtime/pty_backend.go:416-418 | every key of the merged environment resolves to its override or first base value iff no override key has an equals sign in it |
| `EnvMerge.MergeEnv` | services/host/runtime/pty_backend.go:385-420 | no overrides return the base as it is; otherwise the merge specified above, with the added keys sorted |
| `Framing.FrameReadBack` | services/cmd/bridge/agent_frames_mcp.go:119-147 | a written frame reads back as its body, and exactly its bytes are consumed, for bodies of any bytes |
| `Framing.FramesReadBack` | services/cmd/bridge/agent_frames_mcp.go:96-111 | any list of written frames reads back as the same bodies in order, and then ends cleanly |
| `Framing.TornFrame` | services/cmd/bridge/agent_frames_mcp.go:119-133 | a frame cut short anywhere yields no body; the end is unexpected iff its body had begun |
| `Framing.TornStream` | services/cmd/bridge/agent_frames_mcp.go:96-111 | a stream cut anywhere yields the bodies of exactly the whole frames before the cut, and ends unexpectedly iff it is cut inside a body |
| `Framing.AtoiPrint` | services/cmd/bridge/agent_frames_mcp.go:170-173 | the printed length parses as the length |
| `Framing.HeaderNamed` | services/cmd/bridge/agent_frames_mcp.go:163-175 | a length header is taken whatever the case of its name |
| `Framing.OtherHeaderSkipped` | services/cmd/bridge/agent_frames_mcp.go:163-169 | other headers are passed over |
| `Framing.NoLengthNoFrame` | services/cmd/bridge/agent_frames_mcp.go:156-162 | an empty line before any length is refused |
| `Framing.Stream.ReadContentLength` | services/cmd/bridge/agent_frames_mcp.go:149-176 | the header loop yields the last length given or the header's error, and stops after the empty line |
| `Framing.Stream.Read` | services/cmd/bridge/agent_frames_mcp.go:119-133 | reads one frame's body from the stream, or fails as specified |
| `Framing.Stream.Write` | services/cmd/bridge/agent_frames_mcp.go:135-147 | appends exactly one frame |

## Left out

- JSON, TOML, URL parsing, hashing, git, PTYs, sockets, fsnotify and HTTP: library code and plumbing; their results are parameters or success/failure choices.
- The reducer apart from frame eviction, spawn outcomes and message reads; the React, WinUI and CLI front ends; views, tags, prompts and log formatting.
- Frame messaging: audit records, sub-second times, the difference between a missing and an empty message list, frames that come back after a restart left them out, a daemon without a data directory, which journals nothing, and how a run goes on after a boot that could not open a journal it could have read.
- MessageBroker.Broker.CheckSend: the search for the target among all sessions is a parameter that says whether it was found elsewhere.
- Surface output: prompt events carry no sequence numbers and the reducer's own surface broadcasts (sequence 0) are not part of the guarantee; the bulk lane and its drops.
- SurfaceDelivery.NextKeeps: the relay's early exits for subscriptions that have ended only save work, so a step may run where the code would already have returned.
- Spawns: goroutine panics, daemon shutdown, sandbox tokens, worktrees, and the `subsystems` map, which nothing is ever deleted from.
- SpawnProperties.SharedBackendSafe: speaks of registered frames, as the code does; SpawnProperties.RemovesInFlightIff says when a spawn in flight is on a removed backend, and SpawnProperties.InFlightSiblingReaped that it happens.
- File relay: truncation, encoding failures (counted as delivered), and overflow of the kernel's notification queue.
- Repository preparation: the clone itself, publishing, quarantine and startup reconciliation; a controller without an event callback, which admits and never starts.
- Drivers: Gemini, shell, generic and other drivers, which repeat the same guards; tool logs, subagent counts, titles, models and effort; the window-title decoding that feeds terminal observations.
- DriverGuards.TickPlain: CommonState is changed through a pointer in the source; here, as in the reducers that own it, it is passed and returned as a value.
- Client configuration: that different URLs have different ids is the hash's business; violation texts.
- CommandText.ReplaceFlag: for a command that cannot be lexed the source appends flag and value unquoted; that text is modelled, but nothing is claimed of how it reads.
- CommandLexer.LexYieldsWhole: characters stand for bytes; splitting inside a multi-byte character is not modelled.
- Framing.Stream.Read: allocates the declared length before it reads; a length too large to allocate, which stops the process, is not modelled.
- Framing: only the ASCII letters of the header name are folded, which is all there are in it.
- Integers are unbounded except where the source's range matters (Content-Length).
