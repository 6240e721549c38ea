# Mobicore bridge client: verified model

A game server core talks to a bridge server over one TCP connection. The client is single-threaded
and asynchronous: it frames packets, exchanges keys and switches to encrypted frames in mid-stream,
reconnects by itself, bounds its queues, and saves certain packets while disconnected to replay them
later. What arrives drives presence lists, the descriptors of mobile characters, and a queue of
whispers. This project models that client and the state around it in Dafny and proves what holds
over all of its runs.

Imperative code is modelled by classes and loops. Each class method is proved equal, on all fields,
to a function on the value of its state (`Abs()`); the theorems are about those functions and about
runs, that is, arbitrary sequences of events. Calls into libraries (sockets, timers, DNS, AES, HMAC,
X25519, the database) appear as events or as parameters of those functions, and time is an argument.

| files | subject |
|---|---|
| `Session`, `SessionProofs`, `NetworkClient` | the connection and session machine: states, timers, posted tasks, write queue, read chains |
| `Bridge`, `BridgeProofs`, `BridgeTheorems`, `MobiClient` | the host on top: saving and replay, key exchange, sync packet; all-runs theorems |
| `Effects`, `StrandedProofs`, `Recovery` | when a queued frame can be stranded, writes overlap or a session go deaf, and what can always still happen |
| `Connections` | one table of what every event does to the connection |
| `Saving` | what becomes of a saved packet, and what the ordinary calls on the host do |
| `Ordered` | the same client with the ready queue of its one thread |
| `Server`, `GameServer` | bridge client and messenger together |
| `Frames`, `FrameReader` | plain and sealed frames, the reader on bytes, in-place encryption |
| `Utf8` | the UTF-8 validator against RFC 3629 |
| `Hkdf` | the HKDF fallback against RFC 5869, and the AES key |
| `Presence`, `PresenceHistory`, `Messenger` | presence sets, friend relation and pushed notifications |
| `Containers`, `MobiChars`, `CharManager` | the pointer index beside its owners; ownership of mobile descriptors |
| `Messages`, `MessageQueue` | whispers waiting for the bridge's answer |
| `Compaction` | the in-place compaction of both clean-ups |
| `JsonPath` | the dotted-path set and get scripts |

`dafny verify dfyconfig.toml` checks the whole project.

## Where code and description disagree

The model follows the code. The differences, each with the lemma that shows it where there is one:

- The connect-timeout handler reports an error exactly when its error code is zero, so a timeout that
  expired just before the connection opened ends the new session (`Recovery.StaleTimeoutDropsSession`).
- `Disconnect(false)` does not prevent reconnecting: the next `DoWork` tick starts the reconnect timer
  (`BridgeTheorems.NeverStuck`, whose second part has no exception for it). Likewise "do not try to
  connect again", where no IPv4 endpoint is found, is undone by the connect timer, which is still running
  (`Recovery.NoIPv4IsRetried`).
- An unknown header ends the read chain while the session stays connected, and the session never reads
  again (`Recovery.ReadChainGoesOnIff`, `Recovery.LostChainStaysLost`).
- Each posted write starts its own `async_write`, without waiting for the one before: two packets sent
  in a row are enough (`StrandedProofs.WritesMayOverlap`; exactly when, `StrandedProofs.OneWriteIff`).
- The timers start the next connection attempt while the last is still under way (`Recovery.RedialDoesNotWait`).
- The HKDF fallback leaves the previous block out of the HMAC message and so differs from RFC 5869,
  section 2.3, for more than 32 bytes (`Hkdf.ExpandIsRfcIffOneBlock`). The derived key has 32.
- Between `Login` and `LoadList` friends are shown the old status (`Presence.LoginIsNotTold`; for instance `Presence.StaleWhileLoading`).
- `update-json.py` collects the fields in a dict, so a repeated field keeps its first position
  and a later field may be applied before an earlier one (`JsonPath.CollectingCanReorder`; exactly when it
  matters, `JsonPath.CollectingChangesNothingIff`).

## Model

| member | source | states |
|---|---|---|
| `BridgeTheorems.NeverStuck` | Source/Raw/raw_client.cpp:102-264 | in every order of timer, resolve, connect, abort and disconnect events, CONNECTING implies a reconnect or connect timer that will still fire, and a DoWork tick never ends DISCONNECTED |
| `Recovery.CanAlwaysReconnect` | Source/Raw/raw_client.cpp:102-237 | after any run whatsoever, at most six timer and network events (no call of Connect by the application) lead back to a session |
| `Connections.RunFollowsTable` | Source/Raw/raw_client.cpp:102-264 | in every run, what every event does to connection state, both timers, attempts, session number and calls of OnDisconnect is one table; the handlers, which hand errors on to each other and to Disconnect, follow it |
| `Connections.FailedAttemptIsRetried` | Source/Raw/raw_client.cpp:177-209 | a failed resolve or connect is given up at once: both timers are cancelled, OnDisconnect is called and the reconnect wait begins |
| `Connections.SessionBegins` | Source/Raw/raw_session.cpp:13-35 | a connect that opens begins a session with an empty queue, no encryption and, where PostTask has room, one read chain of its own |
| `Recovery.StaleTimeoutDropsSession` | Source/Raw/raw_client.cpp:154-169 | a run in which a timeout that had expired just before the connection opened ends the new session |
| `BridgeTheorems.SessionsAreIsolated` | Source/Raw/raw_session.cpp:37-85 | outside a session the write queue is empty, encryption is off and no crypto object exists, so every session starts in the plain handshake; queue and task bounds hold |
| `BridgeTheorems.SessionEndsIff` | Source/Raw/Network/error_handler.cpp:38-73 | in every run, exactly which events end a session: a call of Disconnect, a failed reconnect wait, a completed connect timeout, a late attempt that fails or opens once more, a read or write that fails with a closing error; no packet, handler failure, malformed frame or send ever does |
| `BridgeTheorems.WritesAreConserved` | Source/Raw/raw_client.cpp:292-310 | all frames ever accepted are, in order, those issued to the socket, dropped as oldest or discarded with their session, followed by the queue; a drop happens only at the queue bound |
| `BridgeTheorems.PlainThenEncrypted` | IMPL/mt/source/server/game.src/mobigame/mobi/packet_handlers.cpp:95-108 | encryption begins right behind a frame sent in the clear; in that session every earlier frame is plain and every later one is encrypted exactly if its sender asked for it |
| `BridgeTheorems.OneReadChainPerSession` | Source/Raw/raw_session.cpp:234-274 | every session has at most one read chain, posted or in flight, through success, handler failure and recoverable errors |
| `StrandedProofs.SecondChainIff` | Source/Raw/raw_session.cpp:13-35 | a session begins with a second read chain alive exactly if a chain of an ended session still is and PostTask has room, or if there were several |
| `Ordered.ReadChainsInOrder` | Source/Raw/raw_client.cpp:228-237 | with the ready queue of the one thread, in every run and for any number of sessions: at any time at most one read chain more than sessions have begun while another attempt was under way; more sharply, no more than the sessions of the latest row, all of which but its last began so |
| `Ordered.NoChainOutlivesSettled` | Source/Raw/raw_client.cpp:228-237 | a session that began with no other attempt under way has no read chain left, posted or in flight, when the next session begins; nor has any session before it |
| `Ordered.NoStrandedPacketInOrder` | Source/Raw/raw_client.h:94-106 | and so, unless 99999 sessions in a row begin while another attempt is under way, a non-empty write queue always has a posted or in-flight write while connected, although PostTask drops tasks at its cap |
| `Ordered.OverlappingAttemptsShareReads` | Source/Raw/raw_client.cpp:129-227 | further chains do exist: where attempts pile up, a read task outlives its session into the next even in queue order |
| `Ordered.LoopRunsAreRuns` | Source/Raw/raw_client.cpp:228-237 | the runs with a ready queue are among the runs all other theorems are about |
| `Recovery.RedialDoesNotWait` | Source/Raw/raw_client.cpp:102-169 | connect timeout and reconnect timer start the next attempt while the last is still under way |
| `Recovery.NoIPv4IsRetried` | Source/Raw/raw_client.cpp:187-192 | a host without an IPv4 endpoint is resolved again after the two timers |
| `Effects.StepEffect` | Source/Raw/raw_session.cpp:87-274 | no step but a completed connect begins a session or opens a connection, only posted tasks write, and without a connection nothing is posted and reads only end |
| `Recovery.ReadChainGoesOnIff` | Source/Raw/raw_session.cpp:234-274 | a chain survives a failed read or a malformed frame exactly when the error is recoverable, the connection is up and PostTask has room; an unknown header always ends it |
| `Recovery.HandledChainGoesOnIff` | Source/Raw/raw_data.cpp:125-147 | exactly when the chain goes on behind a handled packet |
| `Saving.PacketKeepsReading` | Source/Raw/raw_data.cpp:125-147 | and so, behind every packet that is handled, successfully or not, the chain goes on exactly if the handler has left PostTask room |
| `Connections.PostedReadStarts` | Source/Raw/raw_session.cpp:87-112 | a posted read becomes a read in flight while connected, and otherwise its chain ends |
| `Recovery.LostChainStaysLost` | Source/Raw/raw_session.cpp:24-32 | a session that has lost its read chain never reads again in any continuation, however long it stays connected |
| `StrandedProofs.NoStrandedPacket` | Source/Raw/raw_client.h:94-106 | whatever the order of events: in a run never crowded with read tasks, a connected client with a non-empty queue has a posted or in-flight write |
| `StrandedProofs.CrowdedTakesSessions` | Source/Raw/raw_client.h:94-106 | being crowded takes as many sessions as the task cap |
| `StrandedProofs.NoStrandedPacketBelowCap` | Source/Raw/raw_session.cpp:186-274 | whatever the order of events: in every run of fewer than 100000 sessions no queued frame is ever stranded |
| `StrandedProofs.SendStrandsIff` | Source/Raw/raw_client.cpp:292-310 | Send strands its own frame exactly when it runs while crowded and nothing is being written |
| `StrandedProofs.WriteDoneStrandsIff` | Source/Raw/raw_session.cpp:209-226 | a completed write strands the rest of the queue exactly if it was the only write, the session goes on, and reads alone take up the task cap |
| `StrandedProofs.OnlyWritesStrand` | Source/Raw/raw_session.cpp:229-274 | no other client event ever strands a frame, whatever the tasks |
| `StrandedProofs.SecondWriteIff` | Source/Raw/raw_session.cpp:186-227 | running a task starts a second async_write exactly if it is a write, the queue is not empty and one is in flight |
| `StrandedProofs.OneWriteIff` | Source/Raw/raw_session.cpp:186-227 | in a run at most one async_write is ever in flight exactly if no such task runs in it |
| `Recovery.CanAlwaysDrain` | Source/Raw/raw_session.cpp:186-227 | while connected (fewer sessions than the cap) posted tasks and write completions alone can write out the whole queue, in order and unaltered |
| `Connections.PostedWriteStarts` | Source/Raw/raw_session.cpp:186-207 | a posted write hands exactly the first frame of the queue to the socket |
| `Connections.SendRefuses` | Source/Raw/raw_client.cpp:266-290 | exactly which packets Send refuses with which code; it then changes nothing |
| `BridgeTheorems.EachPacketAcceptedAtMostOnce` | IMPL/mt/source/server/game.src/mobigame/unprocessed/unprocessed.cpp:36-75 | in every run no SendPacket call has its packet accepted twice, directly or by any replay; the store stays within its bound and its live entries are unsent sync packets |
| `BridgeTheorems.BacklogIsDelivered` | IMPL/mt/source/server/game.src/mobigame/client/client_base.cpp:39-46 | everything a run has saved and not sent is accepted at the next successful key exchange |
| `Saving.RefusedPacketIsKept` | IMPL/mt/source/server/game.src/mobigame/unprocessed/unprocessed.cpp:49-75 | over all runs: a sync packet that SendPacket refuses for want of a connection stays saved, unchanged, until it has been sent, or a clean-up has found it too old, or 30000 others have been saved behind it |
| `Saving.RefusedPacketIsDelivered` | IMPL/mt/source/server/game.src/mobigame/mobi/base.cpp:64-86 | and so it is accepted at the next successful key exchange, or before |
| `Saving.SavingKeepsTheOthers` | IMPL/mt/source/server/game.src/mobigame/unprocessed/unprocessed.cpp:49-61 | saving a packet keeps all saved before it, in order; at the bound exactly the oldest makes room |
| `Saving.CleanupRemoves` | IMPL/mt/source/server/game.src/mobigame/unprocessed/unprocessed.cpp:63-75 | a due clean-up removes exactly the used and the expired packets, one that is not due nothing |
| `Saving.ExchangeCleansUp` | IMPL/mt/source/server/game.src/mobigame/unprocessed/unprocessed.cpp:36-47 | the clean-up follows the replay: behind a successful key exchange, where it is due, nothing used or expired is left |
| `BridgeTheorems.ReplayKeepsOrder` | IMPL/mt/source/server/game.src/mobigame/unprocessed/unprocessed.cpp:36-47 | a replay pass hands over exactly the unused packets whose encryption works, each once, in saving order, behind all frames accepted before |
| `BridgeTheorems.KeyExchangeSendsBacklog` | IMPL/mt/source/server/game.src/mobigame/mobi/packet_handlers.cpp:95-108 | a key exchange publishes the key in the clear, then the backlog in order, encrypted as each packet asks, then the settings refresh, and nothing else |
| `Saving.FailedExchange` | IMPL/mt/source/server/game.src/mobigame/mobi/packet_handlers.cpp:58-109 | a key exchange that fails, or comes again in an encrypted session, replays nothing and leaves encryption as it is; its key has gone out if there was one to send |
| `Saving.HandledAnswersAreSent` | IMPL/mt/source/server/game.src/mobigame/mobi/packet_handlers.cpp:48-56 | what a handler answers a packet with goes out in order, in the clear or encrypted as asked |
| `BridgeTheorems.SyncedAtMostOnce` | IMPL/mt/source/server/game.src/mobigame/mobi/sync.cpp:26-59 | the cache is believed ready only while connected, with at most one successful sync per such period and at most three counted failures |
| `Saving.SyncIsSentIff` | IMPL/mt/source/server/game.src/mobigame/mobi/sync.cpp:26-59 | exactly when a call sends the sync packet: cache ready, not sent in this period, authority core, fewer than three failures, and Send accepts it; failures are counted and the third gives up |
| `Saving.CacheStatusSets` | IMPL/mt/source/server/game.src/mobigame/mobi/base.cpp:88-95 | a handled cache packet sets the flag; a new ready period starts unsynced and its end allows the next sync |
| `Saving.LossResets` | IMPL/mt/source/server/game.src/mobigame/client/client_base.cpp:23-29 | whenever the connection is lost the cache is no longer ready and the next sync may go |
| `BridgeProofs.RunKeeps` | Source/Raw/raw_client.cpp:102-311 | the invariant of client and host together holds after every sequence of events |
| `BridgeProofs.StepAdvances` | Source/Raw/raw_client.cpp:240-264 | no step leaves CONNECTED without a call of OnDisconnect, and sessions are only added |
| `SessionProofs.PostTaskKeeps` | Source/Raw/raw_client.h:94-106 | posting keeps the session invariant, at the cap too; a read may be posted when its chain has no other link |
| `SessionProofs.DisconnectKeeps` | Source/Raw/raw_client.cpp:240-264 | Disconnect establishes isolation and a timer, discards the queue on the record, and leaves posted tasks and reads alone |
| `SessionProofs.SessionStartKeeps` | Source/Raw/raw_session.cpp:13-35 | a session starts in the handshake phase with one read chain of its own |
| `SessionProofs.SessionWriteKeeps` | Source/Raw/raw_session.cpp:186-227 | taking the first frame for async_write keeps conservation and order |
| `SessionProofs.WriteDoneKeeps` | Source/Raw/raw_session.cpp:207-227 | completion of a write, good or bad, keeps the session invariant |
| `SessionProofs.RunTaskKeeps` | Source/Raw/raw_client.h:101-105 | running the first posted task keeps the session invariant; a read chain moves from its task to its read |
| `SessionProofs.HandleActivityErrorKeeps` | Source/Raw/raw_session.cpp:234-274 | recoverable and closing errors of a read or write keep the session invariant |
| `SessionProofs.ReadEndsKeep` | Source/Raw/raw_session.cpp:87-176 | a read that fails, is malformed or has an unknown header keeps the session invariant |
| `SessionProofs.ReadHandledKeeps` | Source/Raw/raw_data.cpp:125-147 | the end of packet_handle re-posts the one chain it took |
| `SessionProofs.SendKeeps` | Source/Raw/raw_client.cpp:266-311 | Send keeps the session invariant on every path: empty, not connected, encryption failure, full queue, success |
| `SessionProofs.EnableKeeps` | Source/Raw/raw_session.cpp:276-308 | switching encryption on right behind an accepted plain frame keeps the session invariant |
| `SessionProofs.ReconnectFiredKeeps` | Source/Raw/raw_client.cpp:116-126 | the reconnect timer's handler keeps the session invariant in every state |
| `SessionProofs.TimeoutFiredKeeps` | Source/Raw/raw_client.cpp:156-169 | the connect timer's handler, stale or not, keeps the session invariant |
| `SessionProofs.ResolvedKeeps` | Source/Raw/raw_client.cpp:176-192 | every outcome of the resolver keeps the session invariant |
| `SessionProofs.ConnectDoneKeeps` | Source/Raw/raw_client.cpp:204-223 | every outcome of async_connect, late ones included, keeps the session invariant |
| `NetworkClient.NetworkClientImpl.constructor` | Source/Raw/raw_client.cpp:12-26 | a new client is in the initial state of the session machine |
| `NetworkClient.NetworkClientImpl.PostTask` | Source/Raw/raw_client.h:94-106 | changes the task queue as the machine's PostTask: at the cap nothing is posted |
| `NetworkClient.NetworkClientImpl.ClearTimers` | Source/Raw/raw_client.cpp:96-100 | cancels pending waits and leaves expired ones |
| `NetworkClient.NetworkClientImpl.StartReconnectTimer` | Source/Raw/raw_client.cpp:102-127 | acts only when DISCONNECTED |
| `NetworkClient.NetworkClientImpl.Connect` | Source/Raw/raw_client.cpp:129-227 | refines Connect of the machine, whose runs the theorems above are about |
| `NetworkClient.NetworkClientImpl.Disconnect` | Source/Raw/raw_client.cpp:240-264 | refines Disconnect of the machine in all its fields |
| `NetworkClient.NetworkClientImpl.Send` | Source/Raw/raw_client.cpp:266-311 | state, result code and what is left in the caller's buffer are those of the machine's Send |
| `NetworkClient.NetworkClientImpl.TickEnd` | Source/Raw/raw_client.cpp:234-237 | ends outside DISCONNECTED |
| `NetworkClient.NetworkClientImpl.ReconnectFired` | Source/Raw/raw_client.cpp:116-126 | refines the handler of the reconnect timer |
| `NetworkClient.NetworkClientImpl.TimeoutFired` | Source/Raw/raw_client.cpp:156-169 | refines the handler of the connect timer |
| `NetworkClient.NetworkClientImpl.Resolved` | Source/Raw/raw_client.cpp:176-192 | refines the resolve handler |
| `NetworkClient.NetworkClientImpl.ConnectDone` | Source/Raw/raw_client.cpp:204-223 | refines the connect handler |
| `NetworkClient.NetworkClientImpl.SessionStart` | Source/Raw/raw_session.cpp:13-35 | refines session_start; succeeds exactly when no session was active |
| `NetworkClient.NetworkClientImpl.SessionStop` | Source/Raw/raw_session.cpp:37-85 | refines session_stop |
| `NetworkClient.NetworkClientImpl.SessionWrite` | Source/Raw/raw_session.cpp:186-227 | refines session_write: exactly the first frame leaves the queue |
| `NetworkClient.NetworkClientImpl.WriteDone` | Source/Raw/raw_session.cpp:209-226 | refines the completion handler of async_write |
| `NetworkClient.NetworkClientImpl.SessionHandleError` | Source/Raw/raw_session.cpp:229-232 | disconnects exactly on closing errors |
| `NetworkClient.NetworkClientImpl.SessionHandleActivityError` | Source/Raw/raw_session.cpp:234-274 | refines session_handle_error with an activity: continue, then decide about closing |
| `NetworkClient.NetworkClientImpl.ReadFailed` | Source/Raw/raw_session.cpp:96-106 | refines the error paths of a read, header or body |
| `NetworkClient.NetworkClientImpl.ReadMalformed` | Source/Raw/raw_session.cpp:135-168 | refines the paths of an impossible size and of a failed decryption |
| `NetworkClient.NetworkClientImpl.ReadUnknown` | Source/Raw/raw_data.cpp:43-69 | an unknown header ends the chain and changes nothing else |
| `NetworkClient.NetworkClientImpl.ReadHandled` | Source/Raw/raw_data.cpp:125-147 | refines the end of packet_handle |
| `NetworkClient.NetworkClientImpl.SessionEnableEncryption` | Source/Raw/raw_session.cpp:276-308 | refines session_enable_encryption; says whether OnEnabledEnc follows |
| `MobiClient.MobiClientImpl.SendPacket` | IMPL/mt/source/server/game.src/mobigame/mobi/base.cpp:64-86 | refines SendPacket on client and store: only NOT_CONNECTED saves |
| `MobiClient.MobiClientImpl.SetBridgeCacheStatus` | IMPL/mt/source/server/game.src/mobigame/mobi/base.cpp:88-95 | refines the cache flag and the sync flag it resets |
| `MobiClient.MobiClientImpl.SendSync` | IMPL/mt/source/server/game.src/mobigame/mobi/sync.cpp:26-59 | refines SendSync with its static failure counter |
| `MobiClient.MobiClientImpl.HandleKeyExchange` | IMPL/mt/source/server/game.src/mobigame/mobi/packet_handlers.cpp:58-109 | publishes the key first, switches encryption on, then replays and refreshes; every failure stops in its place |
| `MobiClient.MobiClientImpl.UnprocessedAdd` | IMPL/mt/source/server/game.src/mobigame/unprocessed/unprocessed.cpp:49-61 | keeps sync packets only, the newest of at most 30000 |
| `MobiClient.MobiClientImpl.UnprocessedProcess` | IMPL/mt/source/server/game.src/mobigame/unprocessed/unprocessed.cpp:36-47 | the in-place loop is the replay pass of ReplayKeepsOrder followed by the throttled clean-up |
| `MobiClient.MobiClientImpl.ProcessOne` | IMPL/mt/source/server/game.src/mobigame/unprocessed/unprocessed.cpp:38-45 | one turn: Send moves the container's bytes out, and the container is marked used, exactly on success |
| `MobiClient.MobiClientImpl.UnprocessedCleanupExpired` | IMPL/mt/source/server/game.src/mobigame/unprocessed/unprocessed.cpp:63-75 | refines the throttled clean-up of the store |
| `Compaction.RemoveIf` | IMPL/mt/source/server/game.src/mobigame/unprocessed/unprocessed.cpp:70-73 | moving survivors down in place and cutting off the tail equals filtering, order kept |
| `Compaction.KeptPositions` | IMPL/mt/source/server/game.src/mobigame/unprocessed/message_queue.cpp:68-72 | what the compaction keeps was there before, in the same order and not earlier |
| `BridgeProofs.UnexpiredMembers` | IMPL/mt/source/server/game.src/mobigame/unprocessed/unprocessed.cpp:70-73 | what the clean-up keeps is exactly what is neither used nor older than the timeout |
| `MobiClient.MobiClientImpl.OnDisconnect` | IMPL/mt/source/server/game.src/mobigame/client/client_base.cpp:23-29 | a lost connection marks the bridge's cache as not ready |
| `MobiClient.MobiClientImpl.PacketRead` | Source/Raw/raw_data.cpp:125-147 | a read packet is handled only while connected and continues its own chain |
| `MobiClient.MobiClientImpl.Dispatch` | Source/Raw/raw_client.cpp:228-233 | every event acts on the object as the step function the run theorems quantify over |
| `MobiClient.MobiClientImpl.DoWork` | Source/Raw/raw_client.cpp:228-237 | a tick runs the ready handlers in order and ends outside DISCONNECTED |
| `Server.MobileOnlyWhileConnected` | IMPL/mt/source/server/game.src/mobigame/client/client_base.cpp:23-29 | over all runs of bridge client and messenger together, accounts are counted as mobile only while the bridge is connected |
| `Server.NobodyShownMobileWithoutBridge` | IMPL/mt/source/server/game.src/messenger_manager.cpp:19-37 | while the bridge is down every up-to-date client shows each named account it lists or was told about (own list not being loaded) as in game or offline, and as the right one of the two |
| `Server.LosingTheBridgeIsTold` | IMPL/mt/source/server/game.src/mobigame/client/client_base.cpp:23-29 | the step that loses the connection tells every up-to-date client that is to be told that an account only on mobile is offline |
| `Server.StepKeeps` | IMPL/mt/source/server/game.src/mobigame/mobi/packet_handlers.cpp:185-200 | login and logout packets, client events and local events keep the joint invariant |
| `Server.MobileIsWhatWasReported` | IMPL/mt/source/server/game.src/mobigame/mobi/packet_handlers.cpp:185-200 | over all joint runs an account is mobile exactly if the last presence packet handled about it was a login and the connection has not been lost since |
| `Server.MessengerRuns` | IMPL/mt/source/server/game.src/mobigame/mobi/packet_handlers.cpp:185-200 | the messenger's part of a joint run is a run of the messenger, so its theorems hold there |
| `Server.HostRuns` | IMPL/mt/source/server/game.src/mobigame/client/client_base.cpp:23-29 | and the client's part is a run of the client |
| `GameServer.GameServer.ClientEvent` | IMPL/mt/source/server/game.src/mobigame/client/client_base.cpp:23-29 | losing the connection empties the mobile set and notifies, in some order of the set |
| `GameServer.GameServer.PresencePacket` | IMPL/mt/source/server/game.src/mobigame/mobi/packet_handlers.cpp:185-200 | a login or logout packet reaches the messenger exactly if it is handled |
| `Presence.ClientsAreUpToDate` | IMPL/mt/source/server/game.src/messenger_manager.cpp:80-150 | over all runs, what an in-game client has been told since its list was sent, about any named account that it lists or was told about, and whose own list is not being loaded, is the status the server computes; accounts gone offline, which are on no list any more, included |
| `Presence.GoingOfflineIsTold` | IMPL/mt/source/server/game.src/messenger_manager.cpp:137-149 | whatever takes an account offline tells so, in the same step, every up-to-date client that is to be told, although the step also takes the account off its list |
| `PresenceHistory.StatusIsHistory` | IMPL/mt/source/server/game.src/messenger_manager.cpp:39-52 | over all runs, an account is in game exactly if its last accepted login is later than its last logout, on mobile exactly if its last mobile login is later than its last mobile logout and the last loss of the bridge, and its status is just that |
| `PresenceHistory.ListsAreHistory` | IMPL/mt/source/server/game.src/messenger_manager.cpp:258-317 | over all runs, a list names a friend exactly if it was added, or named by an answered list query, and neither removed since nor has one of the two gone offline; who hears of changes differs only in that going offline is no reason to stop |
| `PresenceHistory.ChangeIsTold` | IMPL/mt/source/server/game.src/messenger_manager.cpp:80-150 | a change of presence shows its new status to exactly the in-game accounts with a client that hear of it, and changes nothing else that anybody shows |
| `PresenceHistory.AddingIsTold` | IMPL/mt/source/server/game.src/messenger_manager.cpp:258-281 | adding a named friend shows its status to the one who adds it, if it has a client, and to nobody else |
| `PresenceHistory.LoadedListIsTold` | IMPL/mt/source/server/game.src/messenger_manager.cpp:185-198 | an answered list query shows its receiver the status of every friend in place of all shown before, and tells those who hear of the receiver |
| `PresenceHistory.OthersTellNothing` | IMPL/mt/source/server/game.src/messenger_manager.cpp:160-183 | login, removal, coming and going send nothing |
| `Presence.StepKeeps` | IMPL/mt/source/server/game.src/messenger_manager.cpp:19-317 | every operation keeps coherence towards all watchers, friends of offline accounts included, and keeps the relation within the transpose of the inverse relation |
| `Presence.NotifyRestores` | IMPL/mt/source/server/game.src/messenger_manager.cpp:80-90 | a change of presence followed by its notification restores coherence towards everybody in the inverse relation |
| `Presence.SendListSyncs` | IMPL/mt/source/server/game.src/messenger_manager.cpp:341-391 | a client just sent its list is up to date about everybody it watches |
| `Presence.LoadListKeeps` | IMPL/mt/source/server/game.src/messenger_manager.cpp:185-198 | a completed list query keeps coherence and ends the friend's stale period |
| `Presence.ConnectionLostIsLogoutOfAll` | IMPL/mt/source/server/game.src/messenger_manager.cpp:19-37 | HandleConnectionLost ends in the state, and sends the packets, of MobileLogout of every mobile account in set order |
| `Presence.OfflineIsForgotten` | IMPL/mt/source/server/game.src/messenger_manager.cpp:141-149 | who goes offline by logging out has no list and is on nobody's |
| `Presence.RemoveUndoesAdd` | IMPL/mt/source/server/game.src/messenger_manager.cpp:299-317 | removing a friend undoes adding it, on the list and in its inverse |
| `Presence.LoginIsNotTold` | IMPL/mt/source/server/game.src/messenger_manager.cpp:167-173 | the first proviso is needed, always: from Login to LoadList every up-to-date client that lists the account shows its status of before, which is then wrong |
| `Presence.NamelessNotReported` | IMPL/mt/source/server/game.src/messenger_manager.cpp:393-410 | the second proviso is needed: an empty name is listed and never reported |
| `Messenger.MessengerManager.GetUserStatus` | IMPL/mt/source/server/game.src/messenger_manager.cpp:39-52 | the status computed from the two presence sets |
| `Messenger.MessengerManager.NotifyStatusChange` | IMPL/mt/source/server/game.src/messenger_manager.cpp:80-114 | tells exactly the in-game accounts with a client that list the account; the loop is ForEachFriend |
| `Messenger.MessengerManager.MobileLogin` | IMPL/mt/source/server/game.src/messenger_manager.cpp:116-128 | refines MobileLogin: set, status, packets |
| `Messenger.MessengerManager.MobileLogout` | IMPL/mt/source/server/game.src/messenger_manager.cpp:130-150 | refines MobileLogout with the clean-up of an offline account |
| `Messenger.MessengerManager.CleanUpRelations` | IMPL/mt/source/server/game.src/messenger_manager.cpp:144-148 | the loop takes the account off every list and drops its own |
| `Messenger.MessengerManager.Login` | IMPL/mt/source/server/game.src/messenger_manager.cpp:160-183 | refines Login: refused names and repeated logins change nothing |
| `Messenger.MessengerManager.LoadList` | IMPL/mt/source/server/game.src/messenger_manager.cpp:185-198 | refines LoadList: both maps, the list packet, the notification |
| `Messenger.MessengerManager.Logout` | IMPL/mt/source/server/game.src/messenger_manager.cpp:200-226 | refines Logout |
| `Messenger.MessengerManager.SendList` | IMPL/mt/source/server/game.src/messenger_manager.cpp:341-391 | sends the computed status of every friend, or nothing |
| `Messenger.MessengerManager.AddToList` | IMPL/mt/source/server/game.src/messenger_manager.cpp:258-281 | refines __AddToList |
| `Messenger.MessengerManager.SendPresence` | IMPL/mt/source/server/game.src/messenger_manager.cpp:393-414 | SendLogin and SendLogout: one packet with the computed status, none for an empty name |
| `Messenger.MessengerManager.RemoveFromList` | IMPL/mt/source/server/game.src/messenger_manager.cpp:299-317 | refines __RemoveFromList |
| `Messenger.MessengerManager.HandleConnectionLost` | IMPL/mt/source/server/game.src/messenger_manager.cpp:19-37 | the set is visited in some order, and the outcome is the one ConnectionLostIsLogoutOfAll is about |
| `Utf8.IsValidUtf8` | Source/Core/Singletons/json_manager.cpp:239-327 | accepts a byte string exactly if it is the encoding (RFC 3629, section 3) of some sequence of Unicode scalar values |
| `Utf8.Advance` | Source/Core/Singletons/json_manager.cpp:245-324 | one turn of the loop keeps the question unchanged for the rest, or settles it |
| `Utf8.DecodeEncoding` | Source/Core/Singletons/json_manager.cpp:248-318 | every scalar's encoding is read back as that scalar, whatever follows |
| `Utf8.EncodeDecoded` | Source/Core/Singletons/json_manager.cpp:248-318 | what the validator accepts at a position is the encoding of the scalar it computed: no overlong forms, surrogates or values past 10FFFF |
| `Utf8.EncodingIsUnique` | Source/Core/Singletons/json_manager.cpp:239-327 | the sequence of scalars is unique |
| `Utf8.ConcatValid` | Source/Core/Singletons/json_manager.cpp:239-327 | behind a valid prefix, validity of the whole is validity of the rest: closed under concatenation |
| `Utf8.ValidIffGrammar` | Source/Core/Singletons/json_manager.cpp:239-327 | the accepted strings are exactly those of the byte grammar of RFC 3629, section 4 |
| `Frames.ReaderDelivers` | Source/Raw/raw_data.cpp:32-147 | for any well-formed packets, framed plain up to the key exchange and sealed after it, the reader delivers exactly that list in order and goes on with exactly the bytes behind them |
| `Frames.ReadFrame` | Source/Raw/raw_session.cpp:87-176 | one frame, plain or sealed, is read back whole, whatever follows it |
| `Frames.PlainPacketIsRead` | Source/Raw/raw_data.cpp:71-122 | a dynamic packet is delivered with exactly the part its size field announces, a fixed one with exactly its registered length |
| `Frames.PlainLengthIff` | Source/Raw/raw_data.cpp:102-118 | the length the reader computes is the packet's exactly if the sender has announced it in little-endian form at the registered offset |
| `Frames.SwitchesAtKeyExchange` | Source/Raw/raw_data.cpp:125-147 | the packet that enables encryption is the last one read in the clear; plain packets before it and sealed ones behind it are all delivered |
| `Frames.EndsAtHeaderIff` | Source/Raw/raw_data.cpp:43-69 | a plain header ends the chain exactly if it is zero, beyond the largest, or not registered |
| `Frames.StopsAtUnknown` | Source/Raw/raw_data.cpp:43-69 | at the first unknown header the chain ends, nothing more is delivered, and exactly what is behind that header stays unread |
| `Frames.ArrivalDoesNotMatter` | Source/Raw/raw_session.cpp:94-112 | how the bytes are split into arrivals changes neither packets, mode nor rest |
| `Frames.StreamIsCut` | Source/Raw/raw_session.cpp:87-176 | arbitrary input, in either mode and across the switch, is cut into delivered packets of registered or announced length, refused frames, at most one unknown header that ends the reading, and a rest that is not a whole frame yet |
| `Frames.CutAddsUp` | Source/Raw/raw_data.cpp:59-123 | the pieces and the rest are the input, without gap or overlap, and hold exactly what is delivered |
| `Frames.CutIsUnique` | Source/Raw/raw_session.cpp:87-176 | the input can be cut in no other way |
| `Frames.WaitsIff` | Source/Raw/raw_session.cpp:94-144 | the reader waits exactly while no whole frame or header it could act on has arrived |
| `Frames.SealedLayout` | Source/Raw/Network/crypto_helper.cpp:129-167 | a sealed frame is its little-endian size, the IV and the ciphertext, in this order |
| `Frames.AnnouncesIff` | Source/Raw/Network/crypto_helper.cpp:129-141 | four bytes are read as a number exactly if they are its little-endian form |
| `Frames.UnsealSeal` | Source/Raw/Network/crypto_helper.cpp:129-260 | decrypting the body of an encrypted frame gives the packet back |
| `Frames.SizeFieldExact` | Source/Raw/raw_session.cpp:130-144 | the reader accepts a sealed frame's size field, and it spans the frame, exactly for packets whose frame the 32-bit field can announce |
| `Frames.SizeRoundTrip` | Source/Raw/Network/crypto_helper.cpp:129-141 | the four size bytes are the size modulo 2^32 |
| `FrameReader.CryptoHelper.Encrypt` | Source/Raw/Network/crypto_helper.cpp:44-167 | replaces the bytes in place by size, IV and ciphertext, or leaves them on failure |
| `FrameReader.CryptoHelper.Decrypt` | Source/Raw/Network/crypto_helper.cpp:169-260 | replaces the bytes in place by the plaintext, or leaves them on failure |
| `FrameReader.EncryptThenDecrypt` | Source/Raw/Network/crypto_helper.cpp:44-260 | what one end encrypts in place the other decrypts in place to the same bytes |
| `FrameReader.Reader.PacketRegisterFixed` | Source/Raw/raw_data.cpp:13-18 | registers a header once |
| `FrameReader.Reader.PacketRegisterDynamic` | Source/Raw/raw_data.cpp:20-25 | registers a header once |
| `FrameReader.Reader.SessionRead` | Source/Raw/raw_session.cpp:87-113 | one turn of the plain chain: wait, end or deliver |
| `FrameReader.Reader.SessionReadEncrypted` | Source/Raw/raw_session.cpp:116-176 | one turn of the encrypted chain: wait, skip, end or deliver |
| `FrameReader.Reader.PacketHandle` | Source/Raw/raw_data.cpp:125-147 | delivers the packet and switches mode exactly on a successful key exchange |
| `FrameReader.Reader.Receive` | Source/Raw/raw_session.cpp:87-176 | driving the chain over whatever arrives yields the result ReaderDelivers is about |
| `Hkdf.Expand` | Source/Core/openssl_compat.h:127-159 | terminates, writes exactly the requested bytes and nothing behind them for every length up to 255 blocks, never hashes a message twice, and refuses longer requests untouched |
| `Hkdf.CounterNeverReused` | Source/Core/openssl_compat.h:134-156 | messages for different block numbers of one call differ, which is why Expand never hashes one twice |
| `Hkdf.BlocksLength` | Source/Core/openssl_compat.h:137-156 | n blocks are exactly n hash lengths of bytes |
| `Hkdf.BlocksExtend` | Source/Core/openssl_compat.h:137-156 | a longer request only extends the bytes of a shorter one |
| `Hkdf.BlockAt` | Source/Core/openssl_compat.h:137-156 | each block of a longer output is the HMAC of the info and its own number, whatever came before |
| `Hkdf.ExpandIsRfcIffOneBlock` | Source/Core/openssl_compat.h:126-159 | the fallback is HKDF-Expand of RFC 5869, section 2.3, for every HMAC exactly when at most one hash block is requested |
| `Hkdf.Derive` | Source/Core/openssl_compat.h:207-224 | extract and expand together are RFC 5869 for up to one block |
| `Hkdf.Extract` | Source/Core/openssl_compat.h:120-124 | the pseudorandom key is that of RFC 5869, section 2.2: HMAC under the salt |
| `Hkdf.OneBlockKey` | Source/Core/openssl_compat.h:207-224 | one block of HKDF is the HMAC, under the HMAC of the key material under the salt, of the info and a one |
| `Hkdf.DeriveAesKey` | Source/Raw/Network/key_exchange.cpp:120-144 | the AES key is the 32-byte HKDF of the shared secret under the fixed salt and info |
| `Containers.Container.Emplace` | Source/Core/Utility/container.h:27-43 | appends exactly when the key is new; index and owners stay in bijection |
| `Containers.Container.FindByKey` | Source/Core/Utility/container.h:46-54 | agrees with the insertion-ordered map |
| `Containers.Container.EraseByKey` | Source/Core/Utility/container.h:57-79 | removes that entry, keeps the order of the rest, and never reaches the branch called impossible |
| `Containers.Container.FindOwner` | Source/Core/Utility/container.h:65-66 | the first owner of that address, or none |
| `Containers.Container.Clear` | Source/Core/Utility/container.h:100-103 | leaves nothing, indexed or owned |
| `Containers.ErasedLinked` | Source/Core/Utility/container.h:62-77 | erasing an owner and its index entry keeps the bijection |
| `Containers.LookupAfterInsert` | Source/Core/Utility/container.h:27-54 | lookups after an insertion |
| `Containers.LookupAfterRemove` | Source/Core/Utility/container.h:46-79 | lookups after a removal |
| `Containers.RemoveAt` | Source/Core/Utility/container.h:65-77 | removal takes out one position and leaves the others in order |
| `MobiChars.NoLeakedDescriptor` | IMPL/mt/source/server/game.src/mobigame/character/ch_manager.cpp:46-199 | after any run, with descriptors destroyed from outside at any time, every live mobile descriptor belongs to exactly one entry |
| `MobiChars.StepKeeps` | IMPL/mt/source/server/game.src/mobigame/character/ch_manager.cpp:46-463 | every operation keeps ownership, keys equal to stored pids, and distinct handles |
| `MobiChars.ProcessKeepsExactlyLive` | IMPL/mt/source/server/game.src/mobigame/character/ch_manager.cpp:418-463 | a due clean-up leaves exactly the entries with a live, recently active descriptor, in their order |
| `MobiChars.ProcessDestroysExactlyIdle` | IMPL/mt/source/server/game.src/mobigame/character/ch_manager.cpp:418-463 | and destroys exactly the mobile descriptors idle too long |
| `MobiChars.OrdinaryDescriptorsSurvive` | IMPL/mt/source/server/game.src/mobigame/character/ch_manager.cpp:294-320 | no operation of the manager takes an ordinary player's descriptor away |
| `MobiChars.FailedLoadReleases` | IMPL/mt/source/server/game.src/mobigame/character/ch_manager.cpp:66-88 | a failed load releases entry and descriptor |
| `MobiChars.LogoutReleases` | IMPL/mt/source/server/game.src/mobigame/character/ch_manager.cpp:408-416 | a logout releases exactly its entry and descriptor |
| `MobiChars.LoginRequestOwns` | IMPL/mt/source/server/game.src/mobigame/character/ch_manager.cpp:294-320 | unless an ordinary player holds the login key, a login request ends with a fresh descriptor owned by the pid |
| `MobiChars.LoadOutcome` | IMPL/mt/source/server/game.src/mobigame/character/ch_manager.cpp:137-199 | CharacterLoad creates an entry and a descriptor exactly for a pid and a login known nowhere, and otherwise says, and reports, where it found them |
| `MobiChars.LoginRequestSpares` | IMPL/mt/source/server/game.src/mobigame/character/ch_manager.cpp:294-330 | a login request leaves every other pid's entry and destroys the mobile descriptor that held the key |
| `MobiChars.LoginRequestRefused` | IMPL/mt/source/server/game.src/mobigame/character/ch_manager.cpp:294-320 | where an ordinary player holds the key, a login request only drops the old entry |
| `MobiChars.StatusIsReported` | IMPL/mt/source/server/game.src/mobigame/character/ch_manager.cpp:66-88 | a status is reported once, under the pid that owns the handle, which stays exactly for success and loading |
| `MobiChars.LogoutIsReported` | IMPL/mt/source/server/game.src/mobigame/character/ch_manager.cpp:408-416 | a logout is reported exactly if there was something to log out |
| `MobiChars.ProcessReports` | IMPL/mt/source/server/game.src/mobigame/character/ch_manager.cpp:418-463 | a due clean-up reports each character it removes once; one that is not due does nothing |
| `MobiChars.EntriesAfterProcess` | IMPL/mt/source/server/game.src/mobigame/character/ch_manager.cpp:430-463 | an entry survives a due clean-up exactly if its descriptor is in the table and active within the timeout |
| `CharManager.CMobiCharManager.constructor` | IMPL/mt/source/server/game.src/mobigame/character/ch_manager.cpp:64-64 | starts without mobile characters, whatever ordinary descriptors there are |
| `CharManager.CMobiCharManager.DestroyMobi` | IMPL/mt/source/server/game.src/mobigame/character/ch_manager.cpp:46-62 | the destructor destroys exactly its own descriptor |
| `CharManager.CMobiCharManager.CreateDesc` | IMPL/mt/source/server/game.src/mobigame/character/ch_manager.cpp:104-133 | a fresh handle and a mobile descriptor under it |
| `CharManager.CMobiCharManager.CreateOwned` | IMPL/mt/source/server/game.src/mobigame/character/ch_manager.cpp:172-189 | Emplace never fails here |
| `CharManager.CMobiCharManager.CharacterLoad` | IMPL/mt/source/server/game.src/mobigame/character/ch_manager.cpp:137-199 | refines CharacterLoad: already loading, already here, on another core, or created |
| `CharManager.CMobiCharManager.SendLoginRequest` | IMPL/mt/source/server/game.src/mobigame/character/ch_manager.cpp:294-330 | refines SendLoginRequest; its Emplace always succeeds |
| `CharManager.CMobiCharManager.MobiGetByHandleID` | IMPL/mt/source/server/game.src/mobigame/character/ch_manager.cpp:90-101 | the first entry with that handle |
| `CharManager.CMobiCharManager.NotifyStatus` | IMPL/mt/source/server/game.src/mobigame/character/ch_manager.cpp:66-88 | refines NotifyStatus: reports, and releases on failure only |
| `CharManager.CMobiCharManager.HandleLogout` | IMPL/mt/source/server/game.src/mobigame/character/ch_manager.cpp:408-416 | refines HandleLogout |
| `CharManager.CMobiCharManager.CollectStale` | IMPL/mt/source/server/game.src/mobigame/character/ch_manager.cpp:430-451 | the first loop collects exactly the stale pids, in order |
| `CharManager.CMobiCharManager.Process` | IMPL/mt/source/server/game.src/mobigame/character/ch_manager.cpp:418-463 | both loops together are the clean-up the theorems are about |
| `Messages.ProcessedAtMostOnce` | IMPL/mt/source/server/game.src/mobigame/unprocessed/message_queue.cpp:35-60 | in every run no message is handed to Send twice and none handed over is still queued; the queue is bounded |
| `Messages.IdsCollideIff` | IMPL/mt/source/server/game.src/mobigame/unprocessed/message_queue.cpp:27-33 | two queued messages share a container id exactly when a multiple of 2^32 additions lies between them |
| `Messages.IdsDistinct` | IMPL/mt/source/server/game.src/mobigame/unprocessed/message_queue.cpp:27-33 | below 2^32 additions the ids in the queue are distinct |
| `Messages.AnswerFindsItsMessage` | IMPL/mt/source/server/game.src/mobigame/mobi_client.cpp:93-114 | the id put into the user-check packet is the id queued, and the bridge's answer finds that message as long as it is queued |
| `Messages.QueuedAfter` | IMPL/mt/source/server/game.src/mobigame/unprocessed/message_queue.cpp:27-74 | for every event, exactly which messages are queued behind it |
| `Messages.QueuedUntilTakenOut` | IMPL/mt/source/server/game.src/mobigame/unprocessed/message_queue.cpp:27-74 | in every run a message stays queued, from its addition on, until it is pushed out at the bound, found by an answer, or expired |
| `Messages.HandedOver` | IMPL/mt/source/server/game.src/mobigame/unprocessed/message_queue.cpp:35-48 | a message is handed to Send exactly by a good answer that finds it |
| `Messages.PushesOutTheNewest` | IMPL/mt/source/server/game.src/mobigame/unprocessed/message_queue.cpp:28-46 | the front that makes room at the bound need not be the oldest: once an answer has moved the newest message there, two more additions push it out before all others |
| `Messages.SwapOutRemovesOne` | IMPL/mt/source/server/game.src/mobigame/unprocessed/message_queue.cpp:40-46 | swap-with-back removes exactly that message, as a multiset |
| `Messages.PositionsNeverIncrease` | IMPL/mt/source/server/game.src/mobigame/unprocessed/message_queue.cpp:27-74 | no operation moves a message to a later position |
| `Messages.FreshMembers` | IMPL/mt/source/server/game.src/mobigame/unprocessed/message_queue.cpp:68-72 | the clean-up keeps exactly the messages within the timeout |
| `MessageQueue.CMessageHelper.MessageAdd` | IMPL/mt/source/server/game.src/mobigame/unprocessed/message_queue.cpp:27-33 | appends under the current id, dropping the front at the bound; the id wraps at 2^32 |
| `MessageQueue.CMessageHelper.FindPosition` | IMPL/mt/source/server/game.src/mobigame/unprocessed/message_queue.cpp:37-38 | the first message with that id |
| `MessageQueue.CMessageHelper.SwapWithBackAndPop` | IMPL/mt/source/server/game.src/mobigame/unprocessed/message_queue.cpp:42-45 | the in-place removal |
| `MessageQueue.CMessageHelper.MessageProcess` | IMPL/mt/source/server/game.src/mobigame/unprocessed/message_queue.cpp:35-48 | hands over and removes the message; true exactly if found and sent |
| `MessageQueue.CMessageHelper.MessageRemove` | IMPL/mt/source/server/game.src/mobigame/unprocessed/message_queue.cpp:50-60 | removes without handing over |
| `MessageQueue.CMessageHelper.MessageCleanupExpired` | IMPL/mt/source/server/game.src/mobigame/unprocessed/message_queue.cpp:62-74 | refines the clean-up, which runs at most once per interval |
| `MessageQueue.CMessageHelper.MessageGetContainer` | IMPL/mt/source/server/game.src/mobigame/unprocessed/message_queue.cpp:91-95 | the first message with that id, or none |
| `MessageQueue.SendUserCheck` | IMPL/mt/source/server/game.src/mobigame/mobi_client.cpp:93-114 | refuses empty arguments unchanged; otherwise packet and queue carry the same id |
| `MessageQueue.HandleUserCheck` | IMPL/mt/source/server/game.src/mobigame/mobi/packet_handlers.cpp:144-183 | a valid receiver gets the message, any other answer discards it; the result in every case |
| `JsonPath.GetAfterSet` | IMPL/free_plan/your_bridge_vds/usr.mobile/scripts/secondary/update-json.py:50-74 | what every path reads after a set, for arbitrary trees and paths: inside the value, above it, or unchanged beside it, even when a non-object on the way was replaced |
| `JsonPath.GetIsSeen` | IMPL/free_plan/your_bridge_vds/usr.mobile/scripts/secondary/jsonfield-value.py:23-46 | the reading script shows the value or object at a path, and null where there is no field |
| `JsonPath.SetsCommute` | IMPL/free_plan/your_bridge_vds/usr.mobile/scripts/secondary/update-json.py:50-74 | sets at incomparable paths commute |
| `JsonPath.LaterPrefixWins` | IMPL/free_plan/your_bridge_vds/usr.mobile/scripts/secondary/update-json.py:50-74 | a second set at the same path, or at a prefix, hides the first completely |
| `JsonPath.LaterExtensionNests` | IMPL/free_plan/your_bridge_vds/usr.mobile/scripts/secondary/update-json.py:50-74 | a set below an earlier one lands inside its value |
| `JsonPath.UpdateReadsBack` | IMPL/free_plan/your_bridge_vds/usr.mobile/scripts/secondary/update-json.py:135-138 | after the whole update loop a field reads back its value exactly when no later field is a prefix or extension of it (a null also survives a later prefix) |
| `JsonPath.SameOutcomeIff` | IMPL/free_plan/your_bridge_vds/usr.mobile/scripts/secondary/update-json.py:135-138 | for every document, two lists of scalar updates at the same paths give the same result exactly if the same updates stand in both, that is, have nothing at, above or below their path behind them |
| `JsonPath.CollectingChangesNothingIff` | IMPL/free_plan/your_bridge_vds/usr.mobile/scripts/secondary/update-json.py:107-138 | for every document, collecting the fields in a dict first makes no difference exactly if, for each path given, nothing above or below it follows its last argument just when nothing above or below it is first given behind its first argument |
| `JsonPath.CollectingIsHarmless` | IMPL/free_plan/your_bridge_vds/usr.mobile/scripts/secondary/update-json.py:107-138 | in particular if between two arguments for one path there is none for a path above or below it; this holds for objects as values, too |
| `JsonPath.CollectingReorders` | IMPL/free_plan/your_bridge_vds/usr.mobile/scripts/secondary/update-json.py:107-138 | it always makes a difference if such an argument is between, its path had not been given before the first, and nothing above or below the path follows the second |
| `JsonPath.CollectedInOrder` | IMPL/free_plan/your_bridge_vds/usr.mobile/scripts/secondary/update-json.py:107-115 | fields are collected in the order in which their paths were first given |
| `JsonPath.CollectingCanReorder` | IMPL/free_plan/your_bridge_vds/usr.mobile/scripts/secondary/update-json.py:107-138 | a concrete command line on which collecting makes a difference |
| `JsonPath.JoinSplit` | IMPL/free_plan/your_bridge_vds/usr.mobile/scripts/secondary/update-json.py:60-60 | no path is lost by splitting at dots |
| `JsonPath.SplitJoin` | IMPL/free_plan/your_bridge_vds/usr.mobile/scripts/secondary/jsonfield-value.py:34-34 | nor by joining: dotted paths and lists of dot-free keys correspond |
| `JsonPath.GetNestedField` | IMPL/free_plan/your_bridge_vds/usr.mobile/scripts/secondary/jsonfield-value.py:23-46 | the cursor loop reads exactly the addressed value, or null |
| `JsonPath.Dict.PutLeaf` | IMPL/free_plan/your_bridge_vds/usr.mobile/scripts/secondary/update-json.py:72-74 | the final assignment |
| `JsonPath.Dict.StepInto` | IMPL/free_plan/your_bridge_vds/usr.mobile/scripts/secondary/update-json.py:64-70 | one turn of the loop: steps in, creating or replacing what is not a dict |
| `JsonPath.Dict.SetNestedField` | IMPL/free_plan/your_bridge_vds/usr.mobile/scripts/secondary/update-json.py:50-74 | updates nested mutable dicts in place so that the tree stands for the document with the path set, and nothing else changed |
| `JsonPath.UpdateFields` | IMPL/free_plan/your_bridge_vds/usr.mobile/scripts/secondary/update-json.py:135-138 | the update loop over mutable dicts is the composition UpdateReadsBack is about |

## Left out

- Boost.Asio, DNS, sockets and clocks: their outcomes are events in any order; nothing is said about fairness, so "can always reconnect" and "can always drain" say that a continuation exists, not that it happens.
- OpenSSL and iconv internals: AES-256-CBC is a pair of functions assumed inverse under a key with padded length; HMAC is any function with 32-byte results; the X25519 exchange is a success flag of `HandleKeyExchange`.
- StrandedProofs.NoStrandedPacket: has a proviso, because it allows events in any order, in which read tasks of many sessions could pile up unrun; that such runs strand a frame (`CrowdingStrands`), or keep an old chain alive (`TwoChainsAlive`), is a consequence of leaving the order open, not a claim about the code. The statement for the order in which the code runs things is `Ordered.NoStrandedPacketInOrder`.
- StrandedProofs.NoStrandedPacketBelowCap: the same, with a bound in place of the proviso.
- Ordered.NoStrandedPacketInOrder: for runs in which no row of sessions beginning while another attempt is under way is as long as the task cap; the timers do not rule such rows out (`Recovery.RedialDoesNotWait`, `Ordered.OverlappingAttemptsShareReads`), where the outcomes of attempts are free; the one socket they share is not modelled.
- The ready queue of `Ordered` is first in, first out; closing a socket is taken to complete its reads at once, before anything the next connect brings, as Boost.Asio has it.
- BridgeTheorems.OneReadChainPerSession: "at most one", counted by the session that began the chain; it says nothing about a chain going on, which `Recovery.ReadChainGoesOnIff` settles step by step.
- BridgeTheorems.PlainThenEncrypted: later frames are encrypted if their sender asks, which is the default of Send; the one caller that does not ask is the key packet itself.
- Presence.ClientsAreUpToDate: two provisos, both needed by the code: the friend's own list is not being loaded, and its name is not empty.
- JsonPath.CollectingChangesNothingIff: the values are not objects, as `parse_value` guarantees.
- JsonPath.UpdateReadsBack: the fields are pairwise different and not objects, which the dict of `main` and `parse_value` guarantee.
- JsonPath.Dict.SetNestedField: the loop's cursor is the receiver of a tail call rather than a local variable; dicts are not shared, as after `json.load`.
- Hkdf.Derive: models the OpenSSL 1.1.1 branch; the branch for 3.x calls a library function and the one for older versions always fails.
- Frames.StopsAtUnknown: an encrypted frame that decrypts to nothing is read past its end by the code (`raw_session.cpp:170`); the model ends the chain there, as `packet_process_decrypted` does with empty data.
- FrameReader.Reader.Receive: reading requires registered sizes that keep reads inside the packet buffer, as the code's callers give them with `sizeof` and `offsetof`; registration takes any.
- Messenger.MessengerManager.LoadList: the insertion of the rows is elided in the source; it is taken to be that of all rows into both maps, followed by SendList, before the shown notification.
- CharManager.CMobiCharManager.CharacterLoad: the entry found at another core also has its pid cleared, which only that core's bookkeeping sees.
- Starting and stopping the io_context (`StartIO`, `StopIO`), and DoWork's time budget: any number of ready handlers may run in a tick.
- Frames.ReaderDelivers: whether a key-exchange packet succeeds is a function of its bytes, given with the reader's configuration; the packets are those the size field can announce and registered headers can carry.
- The stages of one read (header, fixed part, dynamic part) are one read in flight in `Session`; on bytes they are in `Frames`.
- Contents and sizes of the single packets, the per-packet send functions and the settings refresh: requests to send are arbitrary.
- The error category (`adjustErrorCategory`), which nothing reads, and EActivityState::BOTH, which has no caller.
- MessengerManager.RemoveAllList: iterates over a set its callee erases from. Every friend list packet is one packet.
- Order of set iteration: any order is allowed, and the theorems hold for all.
- The login and warp exchange with the database server, other cores, and the shutdown branches of the character manager; FindByPID of the P2P manager is a parameter.
- Wrap-around of the descriptor handle counter and of the counter of saved packets (which the code never reads) at 2^32; the container id of messages does wrap in the model.
- Capacity management in Container.Emplace, allocation failure, iterator access and ForEach over null owners, which cannot occur.
- File handling, backups, `parse_value` and `format_output` of the scripts.
- Core selection, flag wrappers, safe-area search and price helpers: one-line or single-loop facts.
