# TinyTelegram: PTS sequencing and sync

TinyTelegram gives every user one counter (PTS) in Redis. Each message takes one number from the
receiver's counter and one from the sender's, is stored in Postgres with both, and reaches clients
live through gateways or later through `GetDiff(cursor)`. This project models that path as step
machines whose runs interleave freely, drives them with imperative classes that follow the Go and
JavaScript code, and proves what every run keeps.

| file | what it models |
|---|---|
| `Counters.dfy` | Redis as a log of INCRs; a counter is the number of a user's entries |
| `Backend.dfy` | the step machine: PersistMessage calls, primary, replica, failover, table; its invariant |
| `Sequencing.dfy` | uniqueness, freshness, order, conservation, which calls can still commit |
| `Diff.dfy` | the GetDiff query, paging a fixed table, what the UNIQUE constraints alone keep |
| `Sync.dfy` | GetDiff while the back end runs: exactly what a cursor can miss |
| `Coverage.dfy` | what a WAIT must cover for numbers to stay distinct |
| `MessageService.dfy` | `AllocatePTSWithWait`, `PersistMessage`, `GetDiff`, `GetUserPTS` as methods under interference |
| `Gateway.dfy` | connection map and bounded channels of one gateway, and the process as a class |
| `Delivery.dfy` | all handlers, gateways, channels and peer deliveries over the back end, as one machine |
| `Tabs.dfy` | several connections of one user: the fate of each one's channel |
| `Overtaking.dfy` | exactly which messages can reach a channel out of number order |
| `Handler.dfy` | `WebSocketHandler` as a sequential loop inside that machine |
| `Client.dfy` | the web client's `localPts`, message map and pending acks, folded over its events |
| `Acks.dfy` | pairing of acks with sends, from the client to the stored row |
| `App.dfy` | the client object, whose fields its history of events determines |
| `Presence.dfy` | one user's presence key, its TTL and heartbeats |

How the code is represented:

- A concurrent operation is a sequence of atomic actions. `Next` applies one action; a run is any
  sequence of enabled actions. Each method of a class takes, for every gap between its own commands,
  a list of actions others take there, and the fate of each command (answered, reply lost, refused,
  answered by a deposed primary). Its contract holds for all of them.
- Entries of the INCR log carry a history tag naming the call that issued them. No operation reads it.
- Message ids are call numbers: UUIDs are assumed not to repeat. Gateways, deliveries and channels
  are numbers standing for addresses and references.

Assumptions:

- **A1** (the parameter `a1`): a successful WAIT covers both INCRs of its call, in the same epoch
  (`message-service/store/redis.go:68-79`). The commands go through a pooled client, so it is not
  automatic. `AckIsSafeIff` and `WaitCoverageIff` show exactly what coverage is needed, call by
  call; `WaitMustCover` is a run where uniqueness is lost without it. Without A1 there remain: no
  repeats within a role (`ConstrainedReachable`), what paging can lose (`PagingSkipsOnlyTwins`,
  `CrossClashIsExact`), and, for the messaging path, persist before deliver and at most once
  (`PersistBeforeDeliver`, `AllAccepted`, `AtMostOnce`), the handler's contract but for increasing
  numbers (`WebSocketHandler`), the channels' fate (`ConnectionFate`) and the pairing of acks
  (`EndToEnd`). Results about the order of numbers assume A1.
- **A2**: one replica (`infra-cdk/lib/data-stack.ts:97`), promotable only once it has synced with the
  current primary; failover truncates the log to the part it holds. A replica that went away comes
  back with a sync of at least what it held.
- A command may be answered by a primary that a failover has deposed. Such an INCR may return any
  number. Such a GET returns what that primary counted while it was live, or more.
- **A3**: INSERT is atomic and durable; its reply may be lost.

Where the documentation and the code disagree, the code is modelled:

- The design promises that getDiff recovers every missed message. The INSERT follows the
  allocation, so a row in flight when the cursor passed it is skipped for good. `CursorMissIff` gives
  the exact condition, `SkippedRow` a run that meets it, and `SyncWalk` shows nothing else is ever
  missed.
- Strict delivery order is promised. A handler finishes a local delivery before it reads the next
  frame, so what follows it from the same connection carries higher numbers (`LocalRoutingIncreases`).
  Nothing orders different connections: a call that took its number first may commit and enqueue
  last, on one gateway or two, and a peer delivery runs beside everything else. `OrderLostIff` says
  for every message when it can still be overtaken, and `OvertakenReachable` that it happens.
- The deployment design says every gap belongs to a write that got Unavailable. A gap may also belong
  to an INCR whose reply was lost, to a call that got Internal, to a call in flight, or, for the
  one user it counts, to the benchmark endpoint (`HolesAreOwned`, with runs in `LostReplyHole` and
  `InternalHole`).
- The demo with several tabs of one user does not hold: the map keeps one channel per user, and an
  older connection's cleanup removes a newer connection's channel (`ConnectionFate`, with a run in
  `OrphanedTab`).
- `current_pts` of a GetDiff can be below a number it returns when a deposed primary answers the
  counter read (`DeposedBelow`); `DeposedReadIff` says exactly for which numbers it cannot.
- A message to oneself shows another number when its copy arrives after its ack (`AckCommutesIff`,
  `EndToEnd`).

## Model

| member | source | states |
|---|---|---|
| Backend.StepInv | message-service/store/redis.go:80-97 | every action (any call's next command, lost replies, crashes, replication, resync, failover) keeps: committed and WAIT-acked numbers are owned by their own INCR in the part of the log no failover truncates |
| Backend.StepDurable | message-service/store/redis.go:68-79 | the durable part of the log is append-only, across failovers too |
| Sequencing.StreamUnique | message-service/store/redis.go:80-97 | over all runs and failovers no number of one user repeats, received and sent numbers counted together and self-messages included |
| Sequencing.InsertCommits | message-service/grpc/server.go:42-57 | with a covering WAIT the UNIQUE constraints never reject: the INSERT of an allocated pair commits |
| Sequencing.Freshness | message-service/store/redis.go:81-96 | an INCR that runs after number p was committed or WAIT-acked returns more than p, whatever failovers lie between |
| Sequencing.CounterNeverBelow | message-service/store/redis.go:54-61 | every later counter value is at least every number promised before, though failover moves counters back |
| Sequencing.DeposedReadIff | message-service/store/redis.go:54-61 | a counter read from a deposed primary is at least p, whatever was added to it since, exactly when that primary had counted to p while live, which it had for every number promised by then |
| Sequencing.DeposedBelow | message-service/grpc/server.go:137-144 | a run in which a primary deposed earlier answers below a committed number |
| Sequencing.CommitOrder | message-service/grpc/server.go:27-65 | a call begun after a row committed gets higher numbers for every user the two share, in any roles |
| Sequencing.Conservation | message-service/grpc/server.go:28-56 | each number up to the counter has one owning INCR, and a row carries it in a role exactly when the owner's fate is committed in that role |
| Sequencing.HolesAreOwned | message-service/grpc/server.go:28-56 | a number no row carries is in flight, or belongs to a lost reply, a call that did not succeed, or, for the benchmark's user alone, the benchmark |
| Sequencing.LostReplyHole | message-service/store/redis.go:81-84 | a run in which a number is lost with an INCR's reply while the call itself succeeds under the next one |
| Sequencing.InternalHole | message-service/grpc/server.go:42-57 | a run in which a number is lost to a call whose WAIT succeeded and whose INSERT did not, so the client got Internal |
| Sequencing.BenchmarkHole | message-service/handler/message.go:10-11 | a run in which the benchmark endpoint burns its user's number |
| Sequencing.FailoverKeepsCommitted | message-service/store/redis.go:68-79 | failover truncates no INCR of a committed row |
| Sequencing.CommitIff | message-service/grpc/server.go:28-48 | a call without a row can still commit in some continuation exactly when its replies are of the current epoch or its WAIT is done |
| Sequencing.WaitMustCover | message-service/store/redis.go:81-96 | without A1 a concrete run commits one number of one user twice, once received and once sent |
| Coverage.AckIsSafeIff | message-service/store/redis.go:68-97 | for a waiting call in any reachable state, whatever epochs its replies are from: acking its WAIT keeps every continuation's numbers distinct exactly when its INSERT is bound to be rejected, or it is no self-message under one number, both numbers are within the durable counters, and no other call that has or can get a row drew one of them in the other role |
| Coverage.WaitCoverageIff | message-service/store/redis.go:68-97 | when both replies are of the current epoch, that is exactly when both INCRs are in the part of the log no failover truncates |
| Coverage.EarlierReplies | docs/specs/2026-04-18-aws-multi-az-deployment-design.md:214-217 | with a failover between INCRs and WAIT both happen: a run whose INCRs were lost, where the ack is unsafe, and one whose INCRs survived, where it is safe |
| Sync.ConstrainedReachable | message-service/store/migrations/002_add_unique_pts.sql:4-12 | whatever WAIT means, no run repeats a number within one role |
| Diff.ConstraintsAreExact | message-service/store/migrations/002_add_unique_pts.sql:4-12 | over any history of INSERTs with arbitrary numbers the table keeps both constraints, and a tried row is missing exactly when a row of the table has one of its numbers in the same role |
| Diff.CrossClashIsExact | message-service/store/migrations/002_add_unique_pts.sql:4-12 | an accepted INSERT keeps users' numbers distinct across roles exactly when it meets none of the same user in the other role |
| Diff.AtMostTwoShare | message-service/grpc/server.go:87-94 | under the constraints alone at most two rows of a user's stream share a number, one received and one sent |
| Diff.PageSkipsAtMostOne | message-service/grpc/server.go:87-94 | under the constraints alone a page boundary skips at most one row, a twin of the last returned one |
| Diff.PagingSkipsOnlyTwins | message-service/grpc/server.go:79-134 | under the constraints alone, over a whole paging with any limits, every row left out up to the final cursor is the twin, in the other role, of some page's last row |
| Diff.PageIsAnswer | message-service/grpc/server.go:85-98 | sorting the matching rows and cutting at the limit is an answer the SQL query allows |
| Diff.PageRefinesStream | message-service/grpc/server.go:85-98 | any answer to the query is the front of the user's stream, and the next cursor leaves exactly the rest |
| Diff.PagingRefinesStream | message-service/grpc/server.go:80-134 | pages of any limits (zero, negative, above 1000) concatenate to the front of the stream, each row once, in order |
| Diff.PagingTerminates | message-service/grpc/server.go:80-134 | as many reads as there are rows suffice, and then the pages are exactly the stream |
| Sync.CursorCompleteness | message-service/grpc/server.go:79-98 | a row appearing later at or below a committed number had done its INCR, and was pending, when that number was read |
| Sync.CursorMissIff | message-service/grpc/server.go:28-48 | a row of the user can still appear at or below the cursor exactly when a call holds such a number and can still commit |
| Sync.SkippedRow | message-service/grpc/server.go:28-48 | a run in which bob's cursor passes number 1, in flight, on to 2, and row 1 commits afterwards |
| Sync.SyncWalk | message-service/grpc/server.go:79-134 | pages read at any times of a run come out strictly ascending, and every row up to the final cursor, committed then or later, is collected unless a read passed over it while its call was pending |
| Sync.QuietSyncMissesNothing | message-service/grpc/server.go:79-134 | with nothing pending at any read, the collected rows are exactly the user's rows up to the cursor, for good |
| MessageService.Service.AllocatePTSWithWait | message-service/store/redis.go:80-97 | under any interference: the numbers are granted exactly when both INCRs are answered and the WAIT runs in a state whose replica covers both (with A1); any failure ends the call with no row; without others' INCRs the numbers are one above the old counters, two for the sender of a self-message |
| MessageService.Service.PersistMessage | message-service/grpc/server.go:27-65 | succeeds exactly when the numbers are granted, the INSERT is answered and no row has one of them in the same role, which A1 rules out; the returned row is stored, owns its numbers and is numbered above every earlier row of either party; a call left alone but for the replica catching up succeeds; Unavailable left no row; Internal only from the store, and a lost reply leaves the row |
| MessageService.Service.GetDiff | message-service/grpc/server.go:79-149 | at most limit (1000 if not in 1..1000) rows sent or received by the user and above the cursor, ascending, each once with the user's own number alone, and the page is full if one is missing; current_pts is the live counter, or a deposed primary's key, and at least every returned number if the answering primary was live when the rows were read; an error exactly when the query, a scan or Redis fails |
| MessageService.Service.GetUserPTS | message-service/store/redis.go:54-61 | returns the live counter, or a deposed primary's key, 0 for a missing key, never below a number promised while the answering primary was live |
| MessageService.Replay | docs/specs/2026-04-18-aws-multi-az-deployment-design.md:214-217 | a promoted replica's counters are those of the INCRs it holds, for every user, so INCRs that never reached it are allocated again |
| Gateway.SocketIsPrefix | gateway/handler/websocket.go:81-88 | socket output is a prefix of what was taken, taken plus buffered is what was accepted, at most 64 are buffered, and one write error loses one message |
| Gateway.WriterDrains | gateway/handler/websocket.go:81-88 | a writer left alone writes the buffered messages to the socket, oldest first |
| Gateway.FailedWriteIsLast | gateway/handler/websocket.go:81-88 | a failed write loses the oldest message and is the writer's last: nothing is taken or written afterwards, whatever comes |
| Gateway.ReachableUntilTouched | gateway/grpc/server.go:19-32 | a connection's channel is in the map exactly until the next RegisterConn or UnregisterConn of its user, and is closed exactly when an UnregisterConn comes first |
| Gateway.ChannelFate | gateway/grpc/server.go:19-54 | the same for any mapped channel, over any interleaving |
| Gateway.ExecOk | gateway/grpc/server.go:25-32 | channels in the map are open and under their own user in every run, so none is closed twice |
| Gateway.Server.UnregisterConn | gateway/grpc/server.go:25-32 | closes the mapped channel, which was open, and forgets the user |
| Gateway.Server.DeliverLocal | gateway/grpc/server.go:40-54 | true exactly when the receiver's channel was still open at the send and held fewer than 64, and then it accepted the message; panics exactly when the receiver was unregistered between lookup and send |
| Gateway.Server.DeliverMessage | gateway/grpc/server.go:60-71 | an empty message is refused; otherwise the message goes to its receiver's channel, and true is returned exactly when that channel accepted it |
| Delivery.StepInv | gateway/handler/websocket.go:90-143 | every action of any handler, delivery, writer or the back end keeps messages committed and in one place, and, with a covering WAIT, in order |
| Tabs.ConnectionFate | gateway/handler/websocket.go:59-79 | over any run of the whole system, a connection's channel is the user's entry exactly while no connection of that user opens or ends at the gateway, and is closed exactly when one ends before another opens |
| Tabs.OrphanedTab | gateway/handler/websocket.go:72-79 | a reachable state in which a live handler's channel is closed and out of the map because the user's older connection ended |
| Delivery.PersistBeforeDeliver | gateway/handler/websocket.go:106-142 | with or without A1, every ack and every enqueued message is a committed row with the same fields, acks go to the sender, messages only into a channel opened for their receiver |
| Delivery.AllAccepted | gateway/handler/websocket.go:81-88 | whatever is buffered, taken or written was accepted by that channel, so the previous row covers it |
| Delivery.AtMostOnce | gateway/handler/websocket.go:128-142 | with or without A1, no message id is enqueued twice over all gateways and channels |
| Delivery.SendToOutcome | gateway/grpc/server.go:40-54 | inside the whole system a send panics exactly on a closed channel, is lost exactly on one holding 64, and otherwise is accepted |
| Delivery.FailedRpcIsFinal | gateway/handler/websocket.go:138-142 | after a failed RPC no run ever puts the message into any channel |
| Delivery.AcksIncrease | gateway/handler/websocket.go:119-126 | acks on one connection carry strictly increasing sender_pts, over failovers and failed persists |
| Delivery.LocalDeliveryIncreases | gateway/handler/websocket.go:133-136 | messages one connection delivers locally sit in a channel with strictly increasing receiver_pts |
| Delivery.LocalRoutingIncreases | gateway/handler/websocket.go:90-136 | a local delivery is over before its connection delivers anything later, anywhere; with A1 later messages to the same receiver carry higher receiver_pts |
| Overtaking.OrderLostIff | gateway/handler/websocket.go:106-142 | in any reachable state a message ends up behind a higher number of its receiver, in some continuation, exactly when it already has, or a handler that can finish holds it, or its delivery has not looked up a channel, or holds an open one with room that a higher number is in or can still come to |
| Overtaking.OvertakenReachable | gateway/handler/websocket.go:128-142 | a reachable state with one gateway whose channel holds a higher number before a lower one |
| Handler.Node.WebSocketHandler | gateway/handler/websocket.go:32-144 | a request without user id or upgrade changes nothing; otherwise, under any interference, each frame in turn is acknowledged exactly when it is usable, its own call is persisted when the reply is taken, and both replies get through; each ack is the committed row of its frame; that row is in a delivery to the gateway the presence key named, run to its end if that is this gateway, and in none if the key named no gateway; acks increase if WAIT covers, only a panic on a closed channel of this gateway ends the loop early, and at the end the gateway has no entry for the user |
| Handler.Node.HandleFrame | gateway/handler/websocket.go:90-136 | one frame: acknowledged with its own call's row exactly in that case and then handed on where the presence key said, and the loop ends only if its delivery hit a closed channel |
| App.TinyTelegramClient.HandleAck | web-client/public/app.js:111-132 | in a well-paired history the ack that follows a others settles send a: it leaves the queue and stands under the server's id with the server's number, and no other message changes |
| App.TinyTelegramClient.HandleIncomingMessage | web-client/public/app.js:134-173 | the message is stored under its id with its own sender, receiver and content and the number of the user's role, and no other key changes; the gap is reported exactly when some number below the message's is above all shown before; until the first gap every number up to localPts has been shown, and localPts is always the highest shown |
| App.TinyTelegramClient.OnMessage | web-client/public/app.js:92-109 | after any frames in any order every ack stands with its own send, what came last under each id is what is held, and a gapless history has shown every number |
| Client.MergeMeaning | web-client/public/app.js:134-173 | what merging persisted messages ends with, told without their order |
| Client.Confluence | web-client/public/app.js:134-173 | any order and repetition of the same messages gives the same map and localPts |
| Client.WireAgrees | message-service/grpc/server.go:119-133 | the number GetDiff fills is the one the client selects, so a row is the same item live or synced |
| Client.CompleteSync | web-client/public/app.js:257-263 | a walk from 0 with nothing pending leaves the client with exactly the committed messages up to localPts, each with the row's own sender, receiver, content and number, and with all of the last read's table when the last page was short |
| Client.GapCheckSound | web-client/public/app.js:143-159 | without a reported gap the client has seen every number up to localPts |
| Client.GaplessSeesAll | web-client/public/app.js:111-159 | then no committed row at or below localPts, now or later, in either role, is unseen |
| Acks.FifoReconciliation | web-client/public/app.js:111-132 | in any interleaving, copies of the user's own messages included, after a acks of s sends exactly sends a+1..s are pending in order, and ack j's id holds send j or the copy that came after the ack |
| Acks.AckPosition | gateway/handler/websocket.go:96-126 | ack j answers frame j exactly when no frame up to j was skipped, otherwise a later one |
| Acks.EndToEnd | web-client/public/app.js:187-201 | over any committed rows of the user, acks before the first skip land on the stored message; it shows sender_pts exactly when it is not a message to oneself with two numbers whose copy came after the ack; with every send acked nothing is pending |
| Acks.AckCommutesIff | web-client/public/app.js:111-173 | ack and arrival of a user's own message commute exactly when it is not a self-message with two numbers |
| Presence.PresentIsRecent | gateway/store/redis.go:46-59 | a present key names the gateway of the connection that wrote last, less than 15 s ago |
| Presence.OneGateway | gateway/store/redis.go:46-72 | when all of a user's connections are at one gateway, a present key names it |
| Presence.WriteLasts | gateway/store/redis.go:46-80 | a successful heartbeat makes its own connection's gateway findable, and without other writes or deletes for exactly 15 s |
| Presence.HeartbeatTolerance | gateway/store/redis.go:16-80 | k failed heartbeats in a row never let the key lapse, in any run, exactly when 5(k+1) < 15 |
| Presence.RestoredAfterDelete | gateway/store/redis.go:51-80 | after another connection's delete the heartbeat's next tick, at most 5 s later, restores the key if it succeeds, whatever failed before, and keeps it through any streak of failures the TTL tolerates |
| Presence.Registry.Heartbeat | gateway/store/redis.go:61-80 | the loop misses no tick, and its writes are exactly one of its connection's own gateway per good tick; when it is stopped a key it had written is present if nobody deleted it and the longest streak of failures among the writes it made fits the TTL |
| Presence.Registry.GetUserGateway | gateway/store/redis.go:56-59 | finds a gateway exactly while the key has not expired, and it is that of one of the user's connections |

## Left out

- Command retries inside the Redis and SQL drivers: a retried INCR is a lost reply followed by a second INCR, which the model allows; a retried INSERT is not modelled.
- The 64-bit width of counters and pts columns: numbers are unbounded.
- Timestamps (`created_at`, `server_timestamp`, `client_timestamp`), the 100 ms WAIT timeout and the RPC deadlines: a timeout is an action that may happen at any time.
- Recognising a constraint violation in an error text: the violation is a direct outcome of the INSERT.
- The death of a gateway process, including the process-wide effect of a panic in a peer delivery: a panic only ends that delivery, or its own connection when the handler was sending.
- Presence inside `Delivery.dfy`: a lookup may return any gateway or none, which covers every state of `Presence.dfy`.
- Peer and message-service client caches, the gateway registry and its heartbeat: an RPC is an action that succeeds, fails, or succeeds with its reply lost.
- Web page rendering and `localStorage`: a client's model starts fresh; the pending queue is not saved by the code either.
- Reconnecting: the same client object reconnects after a lost connection (`app.js:293-298`) and keeps its pending queue. `EndToEnd` covers one connection from its start; an ack lost with the connection shifts every later pairing, as a skipped frame does.
- Temporary ids: assumed distinct, as drawn from the clock and a random string.
- Liveness: nothing is said about when a message arrives.
