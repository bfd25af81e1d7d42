# Relay gateway: verified model

Relay is an asyncio WebSocket gateway with its own reliability protocol: per-channel
sequence numbers, a bounded recovery stream in Redis, Pub/Sub fanout across nodes,
ACK-based flow control per connection, session resumption with gap reports, and a
reference client that suppresses duplicates. This project models those protocols in
Dafny and proves what they keep over whole runs.

`dafny verify dfyconfig.toml` checks every file.

## How it is modelled

Concurrency is a state machine per protocol. Each step is what one task does between
two suspension points, each Redis command is one step, and a run is any sequence of
steps, so a theorem about all runs is a theorem about all interleavings. A step that is
not enabled leaves the state as it is. Where the program keeps mutable objects
(`Connection`, `ConnectionRegistry`, `ChannelSubscriptionManager`, `RelayClient`, the
channel keys in Redis, the stored ACK positions) there is a class with those fields whose
methods are proved to perform exactly the corresponding step.

| file | subject |
|---|---|
| `FlowControl.dfy`, `FlowLaws.dfy` | queue, window, sender and wake-up event of one connection |
| `Connections.dfy` | the connection object and the four-index registry |
| `ChannelLog.dfy`, `Publishing.dfy` | sequence counter, recovery stream, interleaved publishers |
| `Recovery.dfy` | replay and the gap flag |
| `Resume.dfy`, `ResumeWindow.dfy`, `Handler.dfy` | resuming a session; what can go wrong in its window; the RESUME loop |
| `EndToEnd.dfy` | a resumed connection and the client's handlers |
| `Fanout.dfy`, `LiveOrder.dfy`, `LiveCoverage.dfy`, `LiveRuns.dfy` | local delivery; order across nodes and connections; what is heard and missed; logs heard in full |
| `Listeners.dfy` | reference-counted Pub/Sub listeners |
| `Tenancy.dfy`, `Admission.dfy` | tenant namespaces; connection limits |
| `Heartbeat.dfy`, `Sessions.dfy` | timeouts and presence; durable ACK positions |
| `Client.dfy` | the reference client |

Logs such as `accepted`, `sent`, `appended`, `announced` and `handled` record what has
happened; no operation reads them. A serialised frame is represented by what it says and
its size in bytes. Limits and intervals are parameters; a theorem that needs one to be
positive says so.

## Model

| member | source | states |
|---|---|---|
| `FlowLaws.FifoConservation` | apps/gateway/connections/manager.py:108-177 | in every reachable state the accepted frames are those sent, held and queued in that order, the byte counter equals the queued sizes, frames subject to the bounds stay within both, and the window never exceeds its limit |
| `FlowLaws.EnqueueRefuses` | apps/gateway/connections/manager.py:122-142 | in every reachable state a NORMAL frame raises and a LOW one is dropped exactly when it would break a bound of the real queue, and a HIGH frame is never refused; an accepted frame joins the end of the queue, and of a refused one only a LOW one leaves a trace, in the count of dropped frames |
| `FlowLaws.OfferExactly` | apps/gateway/fanout/publisher.py:105-120 | a delivery changes nothing on a connection that is not ACTIVE; on an ACTIVE one it is an enqueue, and condemns it if and only if a NORMAL frame does not fit |
| `FlowLaws.BlockedExactly` | apps/gateway/connections/manager.py:156-177 | no lost wakeup: a sender that has not ended is blocked if and only if the queue is empty or it holds a frame before a full window |
| `FlowLaws.NothingOvertakes` | apps/gateway/connections/manager.py:166-177 | while the sender is parked no frame of any priority is written before an ACK, whatever else happens |
| `FlowLaws.OnlyNormalFramesWait` | apps/gateway/connections/manager.py:170-176 | in every reachable state the frame in front of the window, tested or parked, is NORMAL |
| `FlowLaws.OthersDoNotWait` | apps/gateway/connections/manager.py:170-177 | a HIGH or LOW frame at the head of the queue is taken and written whatever the window, which it leaves as it was |
| `FlowLaws.DeadConnectionStops` | apps/gateway/connections/manager.py:166-181 | after a connection is dead at most one more frame is written in any run, and a message only if its write had begun |
| `FlowLaws.TerminationStops` | apps/gateway/fanout/publisher.py:65-70 | the same from the moment any connection, in any state, is terminated |
| `FlowLaws.EndedSenderStops` | apps/gateway/connections/manager.py:177-181 | a cancelled sender and one whose write failed never write again and leave the frame in hand unsent; a failed write makes the connection DEAD |
| `FlowLaws.WindowRefinement` | apps/gateway/connections/manager.py:144-176 | after any run the window is the ordered filter of taken slots with no later covering ACK; tracked sends equal released plus in flight |
| `FlowLaws.AckReleasesExactly` | apps/gateway/connections/manager.py:147-151 | an ACK removes all and only the channel's slots at or below it, with multiplicity |
| `FlowLaws.AcksCollapse` | apps/gateway/connections/manager.py:147-151 | two ACKs on one channel act as their maximum |
| `FlowLaws.AcksCommute` | apps/gateway/connections/manager.py:147-151 | ACKs on different channels commute |
| `FlowLaws.RepeatedAckReleasesNothing` | apps/gateway/connections/manager.py:144-154 | a repeated or older ACK changes neither the window nor the event |
| `FlowLaws.CreditLaw` | apps/gateway/connections/manager.py:144-177 | whatever is queued, an ACK releasing k slots to a blocked sender lets through exactly the frames up to the first NORMAL one with k tracked ones before it, oldest first: the undisturbed sender sends them and no schedule sends more |
| `FlowLaws.CreditOfTracked` | apps/gateway/connections/manager.py:144-177 | with only tracked messages pending these are min(k, pending) frames |
| `FlowLaws.DrainSendsUpToTheWindow` | apps/gateway/connections/manager.py:161-177 | at any point of a run the undisturbed sender sends all it holds and has queued, of any priorities, in order up to the first NORMAL frame that finds the window full, and keeps the rest |
| `FlowLaws.NeverAckingBound` | apps/gateway/connections/manager.py:122-177 | without ACKs at most window + 1 + queue limit tracked messages are accepted in any run |
| `FlowControl.ReachableInv` | apps/gateway/connections/manager.py:108-181 | the conjunction of conservation, bounds, wake-up, window accounting and only NORMAL frames waiting survives every interleaving from any state that has it |
| `Connections.Connection.Enqueue` | apps/gateway/connections/manager.py:108-142 | the object performs the enqueue step and reports its outcome |
| `Connections.Connection.OnAck` | apps/gateway/connections/manager.py:144-154 | the object performs the ACK step and returns how many slots it released |
| `Connections.KeepUnacked` | apps/gateway/connections/manager.py:148-150 | the comprehension keeps the uncovered slots in order |
| `Connections.Connection.TakeFrame` | apps/gateway/connections/manager.py:167-171 | dequeueing, byte accounting and the priority branch are its step, of which the two lemmas on who waits speak |
| `Connections.Connection.PassWindow` | apps/gateway/connections/manager.py:156-176 | the window test, the cleared event, the state re-check and the taken slot are its step |
| `Connections.Connection.FinishSend` | apps/gateway/connections/manager.py:177-181 | a finished or failed write is its step |
| `Connections.Connection.RunSender` | apps/gateway/connections/manager.py:161-177 | the sender loop, undisturbed, ends blocked in the state the credit law speaks of |
| `Connections.ConnectionRegistry.Add` | apps/gateway/connections/manager.py:193-196 | adds one listing to the scan and keeps every index equal to it |
| `Connections.ConnectionRegistry.Remove` | apps/gateway/connections/manager.py:198-206 | removes one listing, known or not, and keeps every index equal to the scan |
| `Connections.DiscardFromEach` | apps/gateway/connections/manager.py:204-205 | the loop takes the id out of exactly the connection's channels |
| `Connections.ConnectionRegistry.Subscribe` | apps/gateway/connections/manager.py:211-216 | adds a channel to one listing, or nothing for an unknown id, and keeps the indexes |
| `Connections.ConnectionRegistry.Unsubscribe` | apps/gateway/connections/manager.py:218-222 | removes a channel from one listing, or nothing, and keeps the indexes |
| `Connections.ConnectionRegistry.LocalSubscribers` | apps/gateway/connections/manager.py:224-225 | equals a scan of live connections for the channel |
| `Connections.ConnectionRegistry.SessionConnections` | apps/gateway/connections/manager.py:227-228 | equals a scan of live connections for the session |
| `Connections.ConnectionRegistry.TenantConnectionCount` | apps/gateway/connections/manager.py:230-231 | equals the number a scan finds for the tenant |
| `Connections.CoherentRemove` | apps/gateway/connections/manager.py:198-206 | discarding a connection from its own buckets makes all three indexes those of the smaller scan |
| `ChannelLog.AnyInterleaving` | packages/redis/client.py:106-140 | for any interleaving and failure of publishers: numbers distinct, 1..counter split into appended, unwritten and abandoned, the stream a bounded suffix of the append order, each announcement of an appended entry and made once |
| `ChannelLog.KeptExactly` | packages/redis/client.py:126-140 | after any run XADD adds the publisher's entry at the end and keeps as many of the newest as the bound allows, an age trim of n takes the n oldest, and no other command changes the stream |
| `ChannelLog.FailedIsNeverAnnounced` | apps/gateway/fanout/publisher.py:45-62 | a publish that fails is never announced later, nor appended if it was not yet, whatever the others do |
| `ChannelLog.BufferIsContiguous` | packages/redis/client.py:113-140 | with serialised publishes, failed or not, the buffer is in number order and from its first entry on lacks exactly the numbers abandoned before XADD or not yet written; with a positive length bound it is empty only before the first append |
| `ChannelLog.SequenceOrderExactly` | apps/gateway/fanout/publisher.py:45-62 | for any interleaving and failure of publishers the announcement log is in sequence order if and only if no PUBLISH follows that of a higher number |
| `ChannelLog.SerialisedNeverLate` | apps/gateway/fanout/publisher.py:45-62 | serialised publishes, failed or not, never announce after a higher number |
| `Publishing.ChannelStore.AllocateSequence` | packages/redis/client.py:106-110 | INCR hands the publisher the next number |
| `Publishing.ChannelStore.AppendToBuffer` | packages/redis/client.py:113-140 | the stream becomes the old one and the entry, the newest up to the length bound, less the expired ones; this is the model's two steps |
| `Publishing.ChannelStore.PublishMessage` | apps/gateway/fanout/publisher.py:45-62 | an undisturbed publish appends and announces the next number and keeps a channel in order |
| `Recovery.ReplayChannel` | apps/gateway/recovery/replay.py:25-52 | returns exactly the stored entries above the position, and never a gap for position 0 |
| `Recovery.SortPermutes` | apps/gateway/recovery/replay.py:43 | the sort is a permutation |
| `Recovery.SortSorts` | apps/gateway/recovery/replay.py:43 | the sort orders by sequence |
| `Recovery.ReplayIsRetainedAbove` | apps/gateway/recovery/replay.py:32-52 | after any interleaving replay is strictly increasing and is exactly the retained entries above the position |
| `Recovery.GapExactly` | apps/gateway/recovery/replay.py:29-52 | for any interleaving and failure of publishers a gap is reported to a position of at least 1 if and only if a number above it and below everything retained was evicted, abandoned or not yet written |
| `Recovery.GapHonesty` | apps/gateway/recovery/replay.py:29-52 | with serialised publishes, failed or not, a positive length bound and any eviction, a gap is reported to a position of at least 1 if and only if a number above it and below everything retained was evicted or abandoned; an evicted entry above it always is reported, and without a report replay is everything ever appended above it, in order |
| `Recovery.GapHonestyUnfailed` | apps/gateway/recovery/replay.py:29-52 | if moreover no number was abandoned, a gap is reported if and only if an entry above the position was evicted |
| `Recovery.FailedPublishLooksLikeAGap` | apps/gateway/fanout/publisher.py:45-48 | a serialised run with one failed publish in which a gap is reported although everything appended above the position is retained |
| `Recovery.NoSilentLossExactly` | apps/gateway/recovery/replay.py:43-52 | with interleaved publishers no position silently loses a message above it if and only if every evicted number is below every retained one |
| `Recovery.InterleavedPublishersLoseSilently` | apps/gateway/fanout/publisher.py:47-48 | for every positive length bound two publishers appending out of number order can make a client lose a message above its position without a gap report |
| `Recovery.UnusualPositions` | apps/gateway/recovery/replay.py:49 | position 0 never reports a gap; a negative one does unless the stream is empty |
| `Recovery.ZeroBoundIsBlind` | packages/redis/client.py:134-135 | with a length bound of 0 nothing is retained and no gap is ever reported |
| `Resume.ResumeDelivers` | apps/gateway/websocket/handler.py:187-218 | for any position and any interleaving and failure of publishers a surviving resumed connection has accepted the replay and then the announcements since the listener attached, and these are sent, held or queued |
| `Resume.EnqueueAllExactly` | apps/gateway/connections/manager.py:122-142 | enqueueing NORMAL frames one by one raises if and only if their number and bytes together do not fit within both bounds, and then leaves exactly the longest beginning that does |
| `Resume.ConnectionRuns` | apps/gateway/websocket/handler.py:187-218 | a resumed connection goes through a run of its own, so the run theorems on flow control hold of it |
| `Resume.ArrivesExactly` | apps/gateway/websocket/handler.py:194-214 | an announcement the listener has reached arrived if and only if it came after the attachment or was replayed, and arrived twice if and only if both |
| `Resume.AtLeastOnceExactly` | apps/gateway/websocket/handler.py:187-218 | at least once: for a client that received the first k announcements, every later one the listener has reached arrives if and only if each of them announced before the attachment was retained at the read and has a number above the position |
| `Resume.SteadyResumeDelivers` | apps/gateway/websocket/handler.py:187-218 | with serialised publishes that do not fail, the same in terms of the append log, whose entry i has number i+1 |
| `Resume.QuietResumeIsExactlyOnce` | apps/gateway/websocket/handler.py:187-218 | if no publish was under way at the read and nothing was announced until the listener attached, the replay and every later announcement it reached were accepted, nothing else and nothing twice, in sequence order if announced so; with publishes serialised up to the read the replay is everything appended above the position |
| `Resume.QuietWindow` | apps/gateway/websocket/handler.py:194-214 | so it is when publishers do nothing between the read and the attachment |
| `Resume.ExactlyOnceExactly` | apps/gateway/websocket/handler.py:194-214 | after any run with serialised publishes that do not fail, delivery is exactly once and in order if and only if as much was announced at attachment as was appended at the read, or less was and the listener has handed over nothing; what it hands over of a shortfall arrives twice, an excess never arrives |
| `ResumeWindow.WindowLoses` | apps/gateway/websocket/handler.py:194-214 | from every resume of an ACTIVE connection after serialised publishes, with none under way, there is a run that loses a message published before the attachment |
| `ResumeWindow.WindowRepeats` | apps/gateway/websocket/handler.py:194-214 | from every resume of an ACTIVE connection after serialised publishes that replays a message its publisher has yet to announce, with room in the queue, there is a run that delivers it twice |
| `ResumeWindow.MessageLostInTheWindow` | apps/gateway/websocket/handler.py:194-214 | a concrete resume and run in which number 2 is lost |
| `ResumeWindow.MessageRepeatedInTheWindow` | apps/gateway/websocket/handler.py:194-214 | a concrete resume and run in which number 2 arrives twice |
| `ResumeWindow.RetainedMessageNeverArrives` | apps/gateway/recovery/replay.py:43-52 | a client that received and acknowledged number 2, announced first, never gets number 1, although it is retained and no gap is reported |
| `EndToEnd.HandlersSeeTheLog` | client/src/RelayClient.ts:215-256 | a client of any number of channels, whatever it received and handled of the resumed channel before: if each copy comes while its message is among the last W different ones, the handlers have seen that channel's log exactly once and in order, through any number of resumes |
| `EndToEnd.ExactlyOnceForTheHandlers` | client/src/RelayClient.ts:190-256 | the same for a client that resumes from its own last ACK, with everything it had handled beyond it delivered again |
| `EndToEnd.OverlapHandledOnce` | client/src/RelayClient.ts:215-256 | at every moment of a resume of one channel, if what the client had received beyond its position and what the listener was behind the read come to at most W, each message sent and received reached the handlers once |
| `Handler.HandleResume` | apps/gateway/websocket/handler.py:187-214 | it succeeds if and only if the replays of all granted asks fit together in queue length and bytes; then foreign channels are ignored, gapped ones reported in order and left alone, all others have their whole replay queued and counted and become subscribed, and nothing else changes; if not, it raises at the first ask that does not fit with those before it, which have been answered, and what there was room for stays queued |
| `Handler.ResumeOne` | apps/gateway/websocket/handler.py:191-214 | one turn of the loop; it raises only for a channel of the tenant without a gap whose replay does not fit |
| `Handler.EnqueueReplay` | apps/gateway/websocket/handler.py:199-211 | the replay is queued in order up to the first frame that raises |
| `Fanout.DeliverLocal` | apps/gateway/fanout/publisher.py:96-122 | in any visiting order: a subscriber that is not ACTIVE is unchanged and not returned, an ACTIVE one gets the frame if it is HIGH or fits, and is returned if and only if the frame is NORMAL and does not fit; all others are untouched |
| `Fanout.DeliverToEach` | apps/gateway/fanout/publisher.py:104-120 | the same for the loop over a set of connections |
| `Fanout.AcceptedOrCondemned` | apps/gateway/fanout/publisher.py:104-120 | over any run of a subscriber, replays included, either every message handed to it while ACTIVE was accepted in order, or its termination was scheduled, never both |
| `Fanout.TurnsAreARun` | apps/gateway/fanout/publisher.py:104-120 | deliveries, replays and the connection's own steps are a run of it, so the run theorems on flow control hold of it |
| `LiveOrder.SentIsSubsequenceOfLog` | apps/gateway/fanout/publisher.py:146-155 | the live frames any connection on any node sends are a subsequence of the channel's one announcement log |
| `LiveOrder.AgreementOnOrder` | apps/gateway/fanout/publisher.py:59-60 | no two connections send two live messages in opposite orders |
| `LiveOrder.SequenceOrderExactly` | apps/gateway/fanout/publisher.py:45-62 | if no publisher announces after a higher number every connection on every node sends in sequence order, and one that has sent the whole log does so only then |
| `LiveOrder.SerialOrderIsSequenceOrder` | apps/gateway/fanout/publisher.py:45-62 | with serialised publishes, failed or not, every connection sends in sequence order |
| `LiveCoverage.NothingSkipped` | apps/gateway/fanout/publisher.py:138-155 | while a node keeps listening and a connection on it stays subscribed and ACTIVE and refuses nothing, it accepts every announcement its node delivers, once each and in order, and no other live message |
| `LiveCoverage.MissedWhileLost` | apps/gateway/fanout/publisher.py:129-160 | what is announced while a node is not listening is never heard by its connections |
| `LiveCoverage.ListensExactly` | apps/gateway/fanout/publisher.py:138-160 | a node listens from a subscription until its loss and nothing else starts or stops it |
| `LiveCoverage.UnsubscribedHearsNothing` | apps/gateway/websocket/handler.py:171-174 | a connection that unsubscribed hears nothing until it subscribes again |
| `LiveRuns.EveryLogCanBeHeard` | apps/gateway/fanout/publisher.py:45-62 | for every run of the publishers and positive limits some history has a connection that sends the whole log, in sequence order if and only if no publisher announced after a higher number |
| `LiveRuns.SentOutOfOrder` | apps/gateway/fanout/publisher.py:45-62 | two interleaved publishers make a connection send number 2 before number 1 |
| `Listeners.ReferenceCount` | apps/gateway/rooms/subscriptions.py:27-51 | when every UNSUBSCRIBE names a held channel, across suspension points the count is unreleased holders plus redundant subscribes and everyone who finished subscribing has a listener |
| `Listeners.OneListener` | apps/gateway/rooms/subscriptions.py:27-51 | in every run at most one listener of a channel is running, and it is the one in the table |
| `Listeners.NeverTornDownUnderAHolder` | apps/gateway/rooms/subscriptions.py:41-51 | when UNSUBSCRIBE names held channels the listener only disappears when nobody holds the channel |
| `Listeners.TearsDownExactly` | apps/gateway/rooms/subscriptions.py:41-51 | in any state a step tears the listener down under a subscriber if and only if it is a release, the listener is up, the count is at most one and someone else holds the channel |
| `Listeners.CountIsShort` | apps/gateway/rooms/subscriptions.py:27-51 | in every run, with any number of UNSUBSCRIBEs of channels not held, the count is the unreleased holders plus redundant subscribes less the deficit those left |
| `Listeners.NeverTornDownExactly` | apps/gateway/websocket/handler.py:171-174 | a run never tears the listener down under a holder if and only if at each release that leaves others behind the deficit leaves at least two of the count |
| `Listeners.FirstStrayExactly` | apps/gateway/websocket/handler.py:171-174 | after a run without one, an UNSUBSCRIBE tears the listener down if and only if its sender does not hold the channel, someone does, the listener is up and the count is one |
| `Listeners.StrayUnsubscribeTearsDown` | apps/gateway/websocket/handler.py:171-174 | such a run exists |
| `Listeners.HolderTearsDownAfterAStray` | apps/gateway/websocket/handler.py:171-174 | after one, a connection that does hold the channel tears the listener down under another by leaving |
| `Listeners.SubscribeRevives` | apps/gateway/rooms/subscriptions.py:32-39 | in every run a finished subscribe leaves exactly one running listener, also after the last one died |
| `Listeners.DeadListenerIsReplaced` | apps/gateway/rooms/subscriptions.py:32-39 | a listener that dies stays in the table with nothing running, until a subscribe finishes: then a new one is in its place and running |
| `Listeners.SubscribedStaysServed` | apps/gateway/rooms/subscriptions.py:27-51 | when UNSUBSCRIBE names held channels, whoever finished subscribing has a listener in the table until it leaves, whatever the others do |
| `Listeners.ReleasedExactly` | apps/gateway/rooms/subscriptions.py:28-51 | in every run, when all have left, what stays counted is the redundant subscribes less the deficit of UNSUBSCRIBEs of channels not held; the channel is released if and only if these are equal |
| `Listeners.HeldOnlyHasNoDeficit` | apps/gateway/rooms/subscriptions.py:28-51 | when every UNSUBSCRIBE names a held channel the deficit is zero |
| `Listeners.NeverReleasedAgain` | apps/gateway/rooms/subscriptions.py:27-51 | after any run with more redundant subscribes than deficit, and as long as no further UNSUBSCRIBE names a channel not held, the count stays above zero and a listener in the table stays in it |
| `Listeners.SubscribedTwiceLeftOnce` | apps/gateway/rooms/subscriptions.py:27-51 | subscribing twice and leaving once leaves nobody and a running listener |
| `Listeners.SubscribedTwiceLeftTwice` | apps/gateway/websocket/handler.py:171-174 | a second UNSUBSCRIBE, of a channel no longer held, releases it |
| `Listeners.ChannelSubscriptionManager.CountSubscriber` | apps/gateway/rooms/subscriptions.py:27-28 | counts on one row, other channels unchanged |
| `Listeners.ChannelSubscriptionManager.EnsureListener` | apps/gateway/rooms/subscriptions.py:32-39 | starts a listener if there is none or it is done, other channels unchanged |
| `Listeners.ChannelSubscriptionManager.OnLocalUnsubscribe` | apps/gateway/rooms/subscriptions.py:41-51 | releases one row and cancels its listener at zero, other channels unchanged |
| `Listeners.ChannelSubscriptionManager.ReleaseAll` | apps/gateway/websocket/handler.py:244-246 | cleanup releases each of the connection's channels exactly once and cancels exactly the listeners that nobody else counts on |
| `Tenancy.SharedNamespaceExactly` | apps/gateway/protocol/auth.py:46-54 | two tenants share a channel if and only if one id with its colon is a prefix of the other |
| `Tenancy.ColonFreeTenantsAreDisjoint` | apps/gateway/protocol/auth.py:46-54 | colon-free ids never share a channel |
| `Tenancy.BelongsExactly` | apps/gateway/protocol/auth.py:46-58 | a tenant's channels are exactly the names put in its namespace |
| `Tenancy.TenantSeparation` | apps/gateway/websocket/handler.py:163-167 | in every reachable state of a node every subscription, message and in-flight slot of a connection is in its own tenant's namespace and, if the ids are colon-free, in no other's |
| `Tenancy.ChannelsExactly` | apps/gateway/websocket/handler.py:157-214 | SUBSCRIBE adds exactly a channel of the sender's tenant, a RESUME exactly one whose replay fits, UNSUBSCRIBE takes one away, and nothing else changes a connection's channels |
| `Tenancy.FramesExactly` | apps/gateway/fanout/publisher.py:96-122 | a delivery reaches exactly the connections with the channel, as an offer, and a control frame exactly the one it is for, at the end of its queue |
| `Tenancy.MembersExactly` | apps/gateway/websocket/handler.py:98-106 | connections come with nothing, go without trace and leave the others alone |
| `Admission.AdmissionBound` | apps/gateway/websocket/handler.py:56-106 | no interleaving of handshakes and disconnects exceeds per-tenant limit + handshake limit - 1 connections of a tenant |
| `Admission.BoundIsReached` | apps/gateway/websocket/handler.py:56-106 | for all positive limits some interleaving reaches that bound |
| `Admission.AdmittedExactly` | apps/gateway/websocket/handler.py:82-85 | a handshake passes the test if and only if its own tenant's registered connections are below the limit, and is gone if not; no connection is affected |
| `Admission.DisconnectFreesAPlace` | apps/gateway/websocket/handler.py:82-106 | at a full tenant a handshake is refused, and after any one of its connections has gone it is admitted |
| `Heartbeat.NoFalseTimeout` | apps/gateway/heartbeat/monitor.py:22-49 | a connection declared dead over a PING had no PONG recorded within the timeout of it |
| `Heartbeat.SilenceIsDetected` | apps/gateway/heartbeat/monitor.py:22-49 | while not declared dead, less than interval + timeout + two polls have passed since the last PONG, or since the task started if there was none |
| `Heartbeat.AwaitPong` | apps/gateway/heartbeat/monitor.py:34-46 | the polling loop ends at its first poll that finds the connection no longer ACTIVE or a PONG at or after the PING, and says which, or at the first poll at or after the deadline |
| `Heartbeat.Cadence` | apps/gateway/heartbeat/monitor.py:22-49 | in every run the first PING is one interval after the start, each next one between interval + poll and interval + timeout + poll after the last, and death is declared at a poll over the last of them |
| `Heartbeat.PongKeepsAlive` | apps/gateway/heartbeat/monitor.py:37-46 | after any run a PONG that comes while a PING is waited for is recorded and ends the wait at the next poll, from which a new interval runs |
| `Heartbeat.PresenceOutlivesHeartbeat` | apps/gateway/presence/tracker.py:47-63 | with a TTL of at least interval + timeout + two polls and the time from going online to the task's start, the presence key never expires under a connection the heartbeat keeps (26 s and that time, against 30 s, as shipped) |
| `Sessions.StoredIsMaximum` | apps/gateway/sessions/manager.py:52-57 | one connection's ACKs leave their maximum stored |
| `Sessions.DurablePosition` | apps/gateway/sessions/manager.py:52-62 | the position read back is the highest positive ACK or 0, unless every ACK was negative |
| `Sessions.StoredWasAcknowledged` | apps/gateway/sessions/manager.py:52-57 | over every interleaving of `record_ack` calls the stored position is one of a finished ACK, present as soon as one finished |
| `Sessions.DurableExactly` | apps/gateway/sessions/manager.py:52-57 | the position is the maximum of the finished ACKs all through a run of interleaved calls if and only if no ACK was overtaken between its read and its write |
| `Sessions.SerialIsDurable` | apps/gateway/sessions/manager.py:52-57 | with one ACK at a time none is overtaken and the position is always that maximum |
| `Sessions.PositionMovesBack` | apps/gateway/sessions/manager.py:54-57 | two interleaved ACKs move the position back from 9 to 5 |
| `Sessions.SessionStore.RecordAck` | apps/gateway/sessions/manager.py:52-57 | advances one position, all others unchanged |
| `Client.DedupWindow` | client/src/RelayClient.ts:218-256 | in any run the remembered ids are the last W handled, a message is handled if and only if its id is none of them, and equal ids are more than W apart |
| `Client.HandledOnceExactly` | client/src/RelayClient.ts:215-256 | in any run no message is handled twice if and only if each copy comes while its message is among the last W different ones received; then the handlers see the first copy of each, in order |
| `Client.CloseCopiesHandledOnce` | client/src/RelayClient.ts:215-256 | after any run, messages new to the client whose copies are at most W apart reach the handlers once each, in the order they first came |
| `Client.PositionWasReceived` | client/src/RelayClient.ts:282-287 | if only received messages are acknowledged, the resume position is the number of one |
| `Client.EvictOldest` | client/src/RelayClient.ts:252-255 | the loop keeps the last W ids and their set |
| `Client.GapCoverage` | client/src/RelayClient.ts:227-239 | since a reset every number from the first handled to the highest seen was handled or is in a reported gap |
| `Client.GapsAreHonest` | client/src/RelayClient.ts:227-236 | a reported gap is not empty and contains nothing handled since the reset |
| `Client.GapReportedExactly` | client/src/RelayClient.ts:218-239 | after any run a message reports a gap if and only if its id is not in the window, something was handled on its channel since the reset and its number is more than one above all of that; the gap is what lies between |
| `Client.AcksIncrease` | client/src/RelayClient.ts:282-287 | between resets ACKs strictly increase, are positive, and the last is the resume position |
| `Client.AckAdvances` | client/src/RelayClient.ts:282-287 | after any run an ACK moves its channel's position to the larger of the two and touches no other |
| `Client.NothingAckedEarly` | client/src/RelayClient.ts:219-245 | without automatic ACKs receiving and handling move no position; with them a new message moves none before its handlers are done |
| `Client.GapReportResets` | client/src/RelayClient.ts:176-184 | after any run and a RESUME_GAP no channel has a resume position, the next message of any channel reports no gap, and with automatic ACKs its positive number becomes the position, even below the old one |
| `Client.UnsubscribeResets` | client/src/RelayClient.ts:269-275 | the same for the channel unsubscribed; every other channel keeps its positions |
| `Client.AutoAckCovers` | client/src/RelayClient.ts:219-245 | a handled message and a duplicate are both covered by the resume position afterwards |
| `Client.RelayClient.OnMessage` | client/src/RelayClient.ts:215-239 | the object performs the receive step and reports duplicate and gap |
| `Client.RelayClient.RememberId` | client/src/RelayClient.ts:249-256 | the object remembers the id in its window |
| `Client.RelayClient.SendAck` | client/src/RelayClient.ts:282-287 | the object performs the ACK step |

## Where the code and its documentation differ

The model follows the code.

- docs/backpressure.md:67-73 says HIGH frames bypass the window and LOW ones are
  flow-controlled. There is one queue, so a HIGH frame waits behind a parked message
  (`FlowLaws.NothingOvertakes`), and only NORMAL frames wait for the window
  (`FlowLaws.OnlyNormalFramesWait`).
- docs/ordering.md:8-10 promises sequence order to every subscriber. Interleaved
  publishers may announce out of sequence, and a subscriber then receives them so
  (`LiveRuns.SentOutOfOrder`). Subscribers always agree on the announcement order
  (`LiveOrder.AgreementOnOrder`), which is sequence order exactly under
  `LiveOrder.SequenceOrderExactly`.
- docs/session-resumption.md:51-63 promises a gap report whenever messages are gone. With
  interleaved publishers it holds of messages above the position exactly under
  `Recovery.NoSilentLossExactly`. A publish
  that fails after taking its number can cause a report although nothing is gone
  (`Recovery.FailedPublishLooksLikeAGap`).
- docs/delivery-semantics.md:5-7 promises that a retained message reaches a session that
  reconnects at least once. It holds exactly under `Resume.AtLeastOnceExactly`. It fails
  for a message published between the stream read and the listener's attachment
  (`ResumeWindow.MessageLostInTheWindow`), and for one announced after a higher number
  that the client has acknowledged (`ResumeWindow.RetainedMessageNeverArrives`).
- docs/session-resumption.md:38-41 calls the client's second SUBSCRIBE idempotent. It raises
  the listener count, which then does not return to zero when the client unsubscribes once
  (`Listeners.NeverReleasedAgain`); only an UNSUBSCRIBE too many makes up for it
  (`Listeners.ReleasedExactly`).
- docs/session-resumption.md:45-47 says the stored position never moves backwards. Two
  connections of one session can move it back (`Sessions.DurableExactly`).

## Left out

- FastAPI, WebSocket and Redis transport, JSON and Pydantic encoding: a write appends to a log, a frame carries its size.
- Message timestamps: not part of a modelled message, because replay and live delivery format them at different moments.
- Redis outages, restarts and counter loss; the age trim is taken never to reach the entry just added.
- The RESUMED frame and the other direct socket writes: they are not ordered with queued frames.
- Listener reconnect delays and client backoff: one `min` with randomness each.
- Handler.HandleResume: no other task runs between one channel and the next, although the listener start that follows each subscription suspends there; the streams are given as they were when read, and the listener bookkeeping is in `Listeners.dfy`.
- Listeners.ChannelSubscriptionManager.ReleaseAll: no other task runs between two releases; releases interleaved with everything else are the run theorems of `Listeners.dfy`.
- Connections.ConnectionRegistry.LocalSubscribers: returns a set, because the order of the returned list is arbitrary.
- Fanout.DeliverLocal: returns the rejecting ids as a set, because their order follows the arbitrary visiting order.
- Connections.Connection.RunSender: takes every write to succeed; failed writes and other tasks in between are covered by the run theorems.
- Heartbeat.PresenceOutlivesHeartbeat: sleeps are exact, the key is refreshed at the moment a PONG is recorded, and the TTL must also cover the time between going online and the start of the heartbeat task, which the source does not bound.
- Heartbeat.SilenceIsDetected: speaks of a connection that stays ACTIVE, with exact sleeps.
- EndToEnd.HandlersSeeTheLog: message ids are taken to be unique, and publishes serialised and unfailing.
- The expiry of the stored ACK position: the ACK theorems speak of a session that stays within its resume window.
- Methods that are one assignment (marking a connection DEAD, clearing the client's positions, reading the stored position): only their steps in the state machines are modelled.
- Presence listings, IDLE state and the separate commands of `connection_offline`.
- Control-plane records, API keys, node registration, draining notices, health probes, metrics and logging.
- Idempotent publish: lookup and store are separate commands without a lock, so only sequential retries are idempotent.
