# Verification of the chat server

A Dafny model of the multi-process chat server and proofs of what its parts promise. ChatServer
processes take text from users, pass it to their other users and, as relay frames, to every
ChatManager; a ChatManager passes a frame on to every ChatServer but the one it came from; a relayed
message goes to users only. Each process has a poll loop, a bounded queue and a pool of threads. The
model follows the Linux epoll build (edge triggered, not one-shot).

Check the project with `dafny verify dfyconfig.toml`.

## The modules

| module | what it models |
|---|---|
| `EventPump` | poll loop, ready queue and threads that pass connections round, generic in connection and message |
| `Network`, `NetworkFlow`, `NetworkHops`, `NetworkInv` | all processes together as a step system, and the invariant that every step keeps |
| `NetworkDelivery`, `NetworkOrder` | how many copies arrive, and in which order |
| `NetworkProgress`, `NetworkDrain` | no deadlock, and a weight that every step lowers |
| `Broadcasting` | the methods of ChatServer and ChatManager as classes, and their agreement with the steps |
| `Lifecycle` | accepting and closing beside each other: counter, client list, mutex, user limit |
| `Monitor`, `QueueRefinement` | the blocking queue, with its threads, mutex and condition variables; that it implements the bounded queue the other modules use |
| `Ring`, `Frames`, `Connections` | byte ring, packets, and the fill, drain and parse loops over them |
| `Sha256Spec`, `Sha256Words`, `Sha256` | FIPS 180-2, the block function on 64-bit words, the incremental hash |
| `Transfer`, `PropertiesFile`, `Split` | short reads and writes, the properties file, the string splitter |
| `Sequences`, `Bytes` | shared vocabulary |

## How to read the results

*The network.* A state holds, for every connection, what is in the socket, in the ring and in a
thread's hand; for every process its pump; for every server its broadcast queue and broadcasters.
An event is one step of one thread, so a run is any interleaving of any number of receivers, workers
and broadcasters. `NetworkInv.InvKept` is the central lemma: every event keeps one holder per
connection, first-in first-out connections and exact counts at every hop. From it follow the four
main results. `NetworkDelivery.ConservationAlways`: at every moment the copies of a message that a user has
and those still on their way are together as many as there are routes. `NetworkOrder.SenderOrder`:
with one manager and one broadcaster per server, what a user has from another is always the first k
messages of that user, in order. `NetworkProgress.NoDeadlock`: unless nothing is in flight, a step is
enabled. `NetworkDrain.EveryMessageArrives`: a state that no step leaves, which `WorkRunsOut` says is
reached in a bounded number of steps, has delivered everything.

*What turned out not to hold as written.* Each with its exact condition and a failing input.

- `CircularBuff::Get` tests `m_iHead <= m_iTail + length` where it should test for the wrap; it is
  first in, first out exactly within the bound `Ring.InOrder` (`FifoExactly`). `RunLeavesBound` is a run
  that leaves it, on a ring of any size from two bytes on; `GetCorrected` is a second version with the
  right test.
- `PutFromSocket` overruns its local buffer of 1024000 bytes exactly when a read takes the bytes read
  so far from below that number to above it (`OverrunExact`).
- A manager keeps a frame from the server it came from exactly when the stamped id has its upper 33
  bits alike, because `GetUniqId` returns `int`, and its low 32 bits are those of the id in the hello
  (`EchoExact`). The server takes a new id for every manager it connects to and stamps the last one, so
  with ids below 2^31 every manager whose hello carried another id echoes (`EchoAfterConnect`), also
  when the last one could not be reached;
  `FirstManagerEchoes` is a configuration in which the sender gets its own messages back.
- The receiver's edge-triggered drain loop, on a manager's connection with `used + 4096 < size`, ends
  exactly when the ring holds a concatenation of whole packets (`EndsExactly`); `IncompleteLoops` is a
  header without its body. The bound is needed: `FullRingLoops` is a full ring of whole packets on
  which the loop never ends, because header bytes come from behind the ring. The worker's loop, which
  stops at the first -1, ends on every ring (`WorkerLoopEnds`).
- `sha256_update` carries its length counter correctly exactly while the counter and the chunk stay
  below 2^33 together (`CarryExact`, `CarryFails`).
- A relayed message comes out of a ring as it was sent exactly when it ends in a zero byte
  (`RelayPassage`).
- Splitting undoes joining of delimiter-free pieces exactly for delimiters no proper beginning of which
  is also an end of them (`SplitUndoesJoinExactly`); `LongDelimiterFails` has one of the others.

*Assumptions.* Membership is fixed and all sockets stay live while messages are delivered. A message
of a user is what one fill reads from that user's socket. A frame is written, and read into the ring,
as a whole. `ChatManager::MessageBroadcast` is one step. The counter `m_iConnCount` is updated
atomically. Packets have bodies of at most 4092 bytes, text messages 1 to 1024 bytes, relay packets
at least 9 bytes of body. Plain ids (`PlainIds`) are distinct and below 2^31. Unsigned long has 64
bits. What the kernel reports, reads and writes is a parameter.

## Model

| member | source | states |
|---|---|---|
| EventPump.OwnershipStep | src/ChatServer.cpp:552-632 | every action of poll loop, thread or acceptor keeps exactly one holder for each open connection and none for a closed one |
| EventPump.Ownership | src/ThreadReceiver.cpp:34-113 | the same after every interleaving from the start, and whatever action comes next touches open connections only |
| EventPump.OneThreadPerConnection | src/ThreadWorker.cpp:34-93 | two threads never hold the same connection |
| EventPump.HolderIsExclusive | src/ChatManager.cpp:436-560 | a connection in the poll set, the queue or a thread is open and in none of the others |
| EventPump.TouchedIsOpen | src/ChatServer.cpp:350-370 | no action reads or frees a connection that has been closed |
| Network.NarrowExact | src/ClientChatServer.cpp:18-24 | the id that GetUniqId yields equals the recorded one exactly when the upper 33 bits of that agree |
| Network.TargetsExact | src/ChatServer.cpp:414-434 | the copied target list holds each user of the list but the sender, once |
| Network.ForwardTargetsExact | src/ChatManager.cpp:283-307 | a frame is passed to each listed server whose narrowed id differs from the frame's, once |
| Network.SendAllExact | src/ChatServer.cpp:387-399 | writing to a list of distinct sockets appends one copy to each of them and nothing elsewhere |
| NetworkFlow.ExclusiveKept | src/ThreadReceiver.cpp:34-113 | in the network every event keeps one holder for each connection of each process |
| NetworkFlow.Flow | src/ThreadWorker.cpp:34-93 | every event appends to and takes from each connection's pipe (thread, ring, socket) exactly what it sends and finishes, at the right ends |
| NetworkFlow.FifoMoves | src/Client.cpp:129-162 | so what was sent on a connection is what was dealt with followed by its pipe, in order |
| NetworkHops.NextRelays | src/ChatServer.cpp:436-441 | a broadcaster owes a message to each manager once, and not at all when it was relayed |
| NetworkHops.NextWrites | src/ChatServer.cpp:443-458 | a broadcaster owes a message once to each user that is not its source |
| NetworkInv.QueuedIsDeparted | src/ChatUser.cpp:94-172 | what leaves a connection of a server is what is queued for broadcasting from it |
| NetworkInv.ForwardedIsDeparted | src/ClientChatServer.cpp:74-134 | what a manager sends to a server is what it finished reading from the origin, if its id test lets it pass |
| NetworkInv.InvKept | src/ThreadBroadcaster.cpp:41-56 | every event keeps ownership, connection order and the exact counts of every hop |
| NetworkDelivery.RouteVia | src/ChatManager.cpp:283-307 | on the route through one manager, delivered and in flight together are one copy of each sent message, or none if the manager does not pass it |
| NetworkDelivery.RouteLocal | src/ChatServer.cpp:414-458 | on the local route, delivered and in flight together are one copy for every other user of the server |
| NetworkDelivery.Conservation | src/ChatServer.cpp:372-457 | in every state of the invariant copies delivered plus copies in flight equal the number of routes |
| NetworkDelivery.ConservationAlways | src/ChatServer.cpp:372-457 | so they do after every run from the start |
| NetworkDelivery.DeliveredAtQuiescence | src/ChatUser.cpp:94-172 | after any run, with nothing in flight, each user has as many copies as there are routes |
| NetworkDelivery.ForwardsToOthers | src/ChatManager.cpp:286-305 | with plain ids a manager passes a frame to every server but its origin |
| NetworkDelivery.EchoExact | src/ClientChatServer.cpp:22-24 | for any two 64-bit ids, recorded and stamped: when exactly a manager keeps a frame from its origin |
| NetworkDelivery.FirstManagerEchoes | src/ChatServer.cpp:178-180 | with two managers connected at different times the first echoes, and the sender is on a route of its own messages |
| NetworkDelivery.PlainRoutes | src/ChatServer.cpp:414-434 | with plain ids: one route to each other user of the sender's server, none to the sender, elsewhere as many as managers shared by the two servers |
| NetworkDelivery.PlainDelivery | src/ChatManager.cpp:283-307 | with plain ids, after any run with nothing in flight, the users have exactly so many copies |
| NetworkOrder.InOrderKept | src/ThreadBroadcaster.cpp:41-56 | with one broadcaster per server every event keeps writes to managers and users in queue order |
| NetworkOrder.RouteInOrder | src/ThreadReceiver.cpp:34-113 | on each route a user has received exactly the first k messages of the sender, in order |
| NetworkOrder.SenderOrder | src/CircularQueue.cpp:18-51 | with one manager and one broadcaster per server that holds for all messages from one user to another, after every run |
| NetworkProgress.PendingKept | src/ThreadReceiver.cpp:47-113 | every event keeps: a reported connection has input, and only a thread past its read has bytes in the ring |
| NetworkProgress.HandGoesOn | src/ChatUser.cpp:81-92 | a thread with a connection can itself take a step; only passing a message on waits, for a place in the broadcast queue |
| NetworkProgress.NoDeadlock | src/ChatServer.cpp:101-129 | with a thread in every stage, every reachable state with something in flight has an enabled step that is not a user's sending |
| NetworkDrain.WorkFalls | src/ThreadWorker.cpp:34-93 | every such step lowers a weight of the whole network |
| NetworkDrain.WorkRunsOut | src/ThreadBroadcaster.cpp:41-56 | so from every reachable state the number of steps before a user sends again is bounded |
| NetworkDrain.EveryMessageArrives | src/ChatServer.cpp:436-458 | a reachable state that no such step leaves has delivered every message on every route |
| Broadcasting.ChatServer.ConnectToMgr | src/ChatServer.cpp:165-233 | one pointer in the list for each address, NULL where connection, hello or answer failed; a new id for each turn, failed or not, the last being the server's id afterwards; the maximum is that of the last manager that answered, and unchanged when none did |
| Broadcasting.AllAnswer | src/ChatServer.cpp:165-233 | the list has no NULL exactly when all managers answered, and then holds them in the order of the addresses |
| Broadcasting.EchoAfterConnect | src/ChatServer.cpp:165-204 | with ids below 2^31 a manager echoes exactly when its hello carried another id than the last one |
| Broadcasting.ChatServer.MessageBroadcastToManagers | src/ChatServer.cpp:372-400 | appends one frame to each manager socket in list order |
| Broadcasting.ChatServer.GetBroadcastTargets | src/ChatServer.cpp:414-434 | returns the users of the list other than the sender, in order |
| Broadcasting.TargetsInOrder | src/ChatServer.cpp:414-434 | the targets of a list are those of its parts one after the other: each user but the sender, in list order |
| Broadcasting.ChatServer.MessageBroadcast | src/ChatServer.cpp:436-458 | writes to the managers unless relayed, then to each other user |
| Broadcasting.ChatServer.AcceptClient | src/ChatServer.cpp:296-348 | adds the client to list and poll set, or leaves list and counter as they were when the poll set refuses it |
| Broadcasting.ChatServer.CloseClient | src/ChatServer.cpp:350-370 | removes exactly this client and keeps the counter equal to the list size |
| Sequences.WithoutBetween | src/ChatServer.cpp:350-370 | taking a client off the list leaves those before it and those behind it, in order |
| Broadcasting.ChatServer.AcceptorRound | src/ThreadAcceptor.cpp:44-71 | accepts exactly while the list is below the maximum, and so never exceeds it |
| Broadcasting.ChatServer.RegisterManager | src/ChatServer.cpp:402-412 | adds a client for every manager socket that the poll set takes, in order, and for no other |
| Broadcasting.ChatManager.MessageBroadcast | src/ChatManager.cpp:283-307 | appends the frame to each server socket that the id test admits, in list order |
| Broadcasting.HelloStopsEcho | src/ClientChatServer.cpp:26-59 | after a hello, frames go back to that server exactly when their id is not the recorded one as GetUniqId yields it; never its own when the id is below 2^31 |
| Broadcasting.WriteAllExact | src/ChatServer.cpp:450-457 | each listed user gets one copy appended, nobody else anything |
| Broadcasting.UplinksExact | src/ChatServer.cpp:387-399 | the frames go to the server's managers, each once |
| Broadcasting.StepsMatchMethod | src/ThreadBroadcaster.cpp:41-56 | from taking a message to deleting it, a broadcaster's single steps write exactly what MessageBroadcast writes |
| Lifecycle.InvStep | src/ChatServer.cpp:296-370 | every step of accepting, registering, closing and reading keeps counter, list, mutex and limit in step |
| Lifecycle.BalancedKept | src/ChatServer.cpp:298-369 | the counter stays the list size plus accepts and closes in progress |
| Lifecycle.LimitedKept | src/ThreadAcceptor.cpp:44-71 | the check before the accept leaves room for the user although managers are added beside it |
| Lifecycle.CountingAndLimit | src/ChatServer.cpp:402-434 | in every reachable state the counter is exact, all listed pointers are live, users are within the maximum and all clients within the maximum plus the managers |
| Lifecycle.ReaderIsSafe | src/ChatServer.cpp:414-434 | while targets are copied no other thread changes the list or deletes a listed client |
| Lifecycle.ClosedOnce | src/ChatServer.cpp:350-370 | a thread that closes a client is the only one that has it |
| Lifecycle.HolderReleases | src/ChatServer.cpp:350-370 | the holder of the mutex always has an enabled step that releases it or brings the release nearer |
| Lifecycle.NobodyStuck | src/ChatServer.cpp:296-434 | in every reachable state with a thread in the middle of a call, a step is enabled that starts no new call |
| Monitor.DepositAppends | src/CircularQueue.cpp:25-27 | a deposit goes behind the contents and overwrites none of them |
| Monitor.WithdrawRemoves | src/CircularQueue.cpp:40-44 | a withdrawal takes the oldest value and leaves the others |
| Monitor.CircularQueue.Deposit | src/CircularQueue.cpp:18-31 | the critical section of EnQueue appends |
| Monitor.CircularQueue.Withdraw | src/CircularQueue.cpp:33-51 | the critical section of DeQueue removes the first |
| Monitor.WakeupKept | src/CircularQueue.cpp:22-30 | every step, barging and spurious wakeups included, keeps: sleepers only if every piece of work has a signalled thread or a pending signal |
| Monitor.Linearisation | src/CircularQueue.cpp:18-51 | after every interleaving the values put in are the values taken out followed by the ring, and the count is within the ring |
| Monitor.WakeupsCoverWork | src/CircularQueue.cpp:18-51 | with the mutex free, sleeping consumers imply no more values than signalled consumers; the same for producers and free slots |
| Monitor.SleepersAreServed | src/CircularQueue.cpp:18-51 | if a sleeper could proceed, some thread can take a step without a new call |
| Monitor.SleepersAgree | src/CircularQueue.cpp:18-51 | with all threads asleep or outside, sleepers are rightly asleep and all of one role |
| QueueRefinement.MonitorRefinesQueue | src/CircularQueue.cpp:18-51 | every interleaving of threads in EnQueue and DeQueue is a sequence of legal steps of one bounded first-in first-out queue |
| QueueRefinement.MonitorStep | src/CircularQueue.cpp:18-51 | one step of a thread is at most one of them, and a consumer gets the first value |
| QueueRefinement.PumpUsesQueue | src/ChatServer.cpp:101-109 | poll loop and threads change the ready queue by such steps only |
| QueueRefinement.NetworkUsesQueue | src/ChatServer.cpp:121-129 | every event changes each broadcast queue by at most one such step |
| Ring.StraightCopyExact | src/CircularBuff.cpp:204-213 | the test of Get takes the straight copy past the end exactly outside the bound |
| Ring.FifoExactly | src/CircularBuff.cpp:192-232 | Get yields the oldest bytes, whatever lies behind the ring, if and only if `head + len <= N` or `used + len < N` |
| Ring.RunLeavesBound | src/CircularBuff.cpp:204-213 | on a ring of any size n from two on: n bytes in, n-1 out, n-1 in, and the second of the next two bytes out was not put in |
| Ring.HalfEmptyInOrder | src/CircularBuff.cpp:192-232 | a ring kept less than half full is always within the bound |
| Ring.FifoRun | src/CircularBuff.cpp:137-232 | in every run of Put and Get that keeps the ring less than half full, bytes out followed by bytes held are bytes held at first followed by bytes in |
| Ring.CircularBuff.Put | src/CircularBuff.cpp:137-190 | appends in every valid state, or fails and changes nothing, exactly when there is no room |
| Ring.CircularBuff.Get | src/CircularBuff.cpp:192-232 | removes the first bytes always, and returns them within the bound; outside it returns ring end and memory beyond |
| Ring.CircularBuff.GetHeader | src/CircularBuff.cpp:67-97 | four bytes, those at the front if there are four and the bound holds, arbitrary ones otherwise |
| Ring.CircularBuff.GetCorrected | src/CircularBuff.cpp:192-232 | second version, not the program's: first in, first out in every valid state |
| Ring.CircularBuff.PutFromSocket | src/CircularBuff.cpp:332-389 | which fills succeed, which close the client and which lose their burst, and that success appends exactly the byte string that the reads were cut from |
| Ring.BurstOfCuts | src/CircularBuff.cpp:364-381 | for every byte string and every way to cut it into reads, the burst put in is that string, in order |
| Ring.FillResultExact | src/CircularBuff.cpp:332-389 | a fill closes the client exactly when the report is not positive or exceeds the free space, a read after data fails with something other than EAGAIN, data comes with 1024000 bytes already read, or no byte comes; else it is lost exactly when the burst outgrew the free space |
| Ring.OverrunExact | src/CircularBuff.cpp:364-381 | the local buffer is overrun if and only if some read takes the bytes read so far from below 1024000 to above; exactly 1024000 end the fill in time |
| Frames.EncodeReady | include/Packet.h:30-41 | an encoded packet at the front of a stream is found and decoded |
| Frames.CutEncoded | src/ClientChatServer.cpp:88-108 | cutting finds exactly the encoded packets, in order, and keeps the incomplete rest |
| Frames.CutContinues | src/ClientChatServer.cpp:88-108 | cutting piece by piece as bytes arrive finds what cutting all at once finds |
| Frames.Reencoded | src/ClientChatServer.cpp:88-108 | the packets cut, encoded again, and the rest are together the stream |
| Frames.PrefixOfFrames | src/ClientChatServer.cpp:88-108 | any beginning of the bytes of valid packets is cut into a beginning of those packets and exactly the bytes behind them, which are no whole packet |
| Frames.RelayRoundTrip | src/ChatServer.cpp:372-397 | framing, cutting and decoding give back the id and the message with its last byte zero, and leave what follows in the stream |
| Frames.RelayLayout | include/Packet.h:30-51 | on the wire: command 1620, body length and id, each low byte first, then the message |
| Frames.RelayIdentityExact | src/BroadcastMessage.cpp:25-30 | the decoded message is the one sent exactly when that ends in a zero byte |
| Connections.RelayPassage | src/ChatUser.cpp:101-138 | the same through any ring position within the bound of Get: header and packet are read as put, the id and the message come out, the rest stays |
| Connections.PassInReach | src/ClientChatServer.cpp:88-108 | within the bound of Get one pass of a parser does to the ring what cutting the first packet does to its bytes |
| Connections.ClientChatServer.ExecuteCommand | src/ClientChatServer.cpp:88-134 | at every ring position: takes as many bytes as the header it reads announces, or returns -1 and changes nothing; within the bound of Get that is one whole packet, never one of stale header bytes |
| Connections.ClientChatServer.Drain | src/ThreadWorker.cpp:64-75 | handles exactly the whole packets in the ring, in order, keeps the rest, and ends |
| Connections.WorkerLoopEnds | src/ThreadWorker.cpp:64-75 | on every ring, whatever its position and bytes, the loop meets a -1 after at most used / 4 passes |
| Connections.Work | src/ThreadWorker.cpp:34-93 | rounds of fill and drain handle what the stream cut says, up to a failed fill, which closes the client; a peer that hung up is closed with nothing handled |
| Connections.RoundsExact | src/ThreadWorker.cpp:46-75 | with fills that close or are lost: the packets handled are those of the bursts not lost, cut in one piece, up to the first fill that closes, and the ring keeps what follows them |
| Connections.ClosedExactly | src/ThreadWorker.cpp:46-56 | the worker closes the client if and only if some fill closes it and none before does |
| Connections.LostBurstGoesOn | src/ThreadWorker.cpp:46-56 | a lost burst does not close: the rounds go on as if it had not come |
| Connections.Reassembly | src/ThreadWorker.cpp:46-75 | however the bytes are spread over fills, packets and rest are those of the whole stream |
| Connections.ReassembledPackets | src/ThreadWorker.cpp:46-75 | for a byte stream that begins the bytes of valid packets, cut in any way into fills and reads: handled is a beginning of those packets, kept are exactly the bytes behind them, less than a packet, and at the end all are handled |
| Connections.WorkMayRun | src/ThreadWorker.cpp:46-75 | fills that succeed, carry a beginning of the bytes of valid packets and leave more than 4096 bytes free meet what Work requires, so Work handles the packets of the line above |
| Connections.BroadcastMessage.SetMessage | src/BroadcastMessage.cpp:25-30 | the message is the source with its last byte zero, the others unchanged |
| Connections.PostedByExact | src/ChatUser.cpp:122-145 | a broadcast packet posts one message, marked as relayed and with the connection, byte for byte the body behind the id with its last byte zero; any other packet posts none |
| Connections.ChatUser.Post | src/ChatUser.cpp:122-145 | the method does that |
| Connections.PostedByAllExact | src/ChatUser.cpp:122-145 | a list of packets posts one such message for each broadcast packet, in order |
| Connections.ChatUser.ExecuteRelay | src/ChatUser.cpp:101-145 | at every ring position: takes what the header it reads announces, or -1 with no change; a broadcast packet is posted as a relayed message, another dropped; within the bound of Get that is the first whole packet |
| Connections.ChatUser.ExecuteText | src/ChatUser.cpp:146-172 | all buffered bytes are posted as one message, not marked as relayed |
| Connections.ChatUser.ExecuteCommand | src/ChatUser.cpp:94-172 | either branch posts at most one message, with the connection and marked as relayed exactly for a manager's connection, as `Network.EntryOf` marks it |
| Connections.ChatUser.DrainText | src/ThreadReceiver.cpp:67-82 | the edge-triggered loop ends for a user after one pass |
| Connections.ChatUser.DrainRelays | src/ThreadReceiver.cpp:67-82 | it ends for a manager's connection that holds whole packets, and posts all of them in order |
| Connections.WholePacketsExact | src/ThreadReceiver.cpp:67-82 | nothing is left after cutting if and only if the stream is a concatenation of encoded packets |
| Connections.PassesEndExactly | src/ThreadReceiver.cpp:67-82 | on the bytes alone: passes come to nothing left if and only if the bytes are a concatenation of packets; an incomplete packet is a fixpoint |
| Connections.EndsExactly | src/ThreadReceiver.cpp:67-82 | on the ring, with `used + 4096 < size` and packets that fit: the loop empties it after some number of passes if and only if it holds a concatenation of packets |
| Connections.FullRingLoops | src/ThreadReceiver.cpp:67-82 | the bound is needed: on a full or nearly full ring of zeros, whole packets all, of any size divisible by four from twelve on, the loop never ends when 1, 0 follow in memory |
| Connections.IncompleteLoops | src/ThreadReceiver.cpp:67-82 | with a header whose body has not come the loop never ends |
| Sha256Words.LowPlus | include/NPUtil.h:77-87 | carries out of the low half never reach a result |
| Sha256Words.LowConstants | src/NPUtil.cpp:781-844 | the 64 constants are those of section 4.2.2 |
| Sha256Words.LowSchedule | src/NPUtil.cpp:752-763 | the lazily extended schedule holds modulo 2^32 the specified one |
| Sha256Words.LowP | src/NPUtil.cpp:756-770 | a P line is modulo 2^32 one iteration of section 6.2.2, F0 and F1 being Maj and Ch |
| Sha256Words.LowLines | src/NPUtil.cpp:781-844 | so are the 64 lines |
| Sha256Words.Simulation | src/NPUtil.cpp:725-854 | for every state and block the unmasked block function agrees modulo 2^32 with the hash computation of section 6.2.2 |
| Sha256.Quad | src/NPUtil.cpp:781-844 | four P lines with moved register names, schedule extended on demand, compute four lines of the block function |
| Sha256.Context.ProcessBlock | src/NPUtil.cpp:725-854 | the state becomes the block function of state and block |
| Sha256.CarryExact | src/NPUtil.cpp:865-869 | the carry test is right exactly while counter and length are below 2^33 together |
| Sha256.CarryFails | src/NPUtil.cpp:865-869 | a counter and a chunk at 2^33 for which it is wrong |
| Sha256.Context.Update | src/NPUtil.cpp:856-893 | the context stands for the input so far, in counters, state and used buffer, however it was split over calls |
| Sha256.BitLength | src/NPUtil.cpp:909-914 | the two length words are the 64-bit length in bits, below 2^61 bytes |
| Sha256.PaddingExact | src/NPUtil.cpp:895-920 | what finish feeds in is the padding of section 5.1.1 |
| Sha256.LowHash | src/NPUtil.cpp:725-854 | hashing whole blocks agrees with the specified hash value |
| Sha256.Context.Finish | src/NPUtil.cpp:903-930 | writes the digest of the input, and nothing behind it |
| Sha256.GoSha256 | src/NPUtil.cpp:933-941 | the digest of FIPS 180-2 |
| Transfer.Write | src/NPUtil.cpp:1050-1080 | for every schedule the bytes emitted are a beginning of the buffer, all of it exactly when its length is returned; it ends once calls make progress |
| Transfer.MovedExact | src/NPUtil.cpp:1050-1080 | what the calls move is the sum of what each allows, cut off at the limit |
| Transfer.SocketWrite | src/Socket.cpp:161-197 | the same, and nothing on a closed descriptor |
| Transfer.Read | src/Socket.cpp:53-88 | fills a beginning of the buffer, short only at the end of the stream |
| PropertiesFile.LTrim | src/NPUtil.cpp:149-154 | in place, removes exactly the leading spaces |
| PropertiesFile.RTrim | src/NPUtil.cpp:156-164 | in place, removes exactly the trailing spaces |
| PropertiesFile.Properties.AddMap | src/Properties.cpp:107-135 | stores trimmed key and value of the line, or nothing without '=' or with an empty part |
| PropertiesFile.AddedExact | src/Properties.cpp:107-135 | for all blanks p, q, r, t and all k, v without blanks at their ends, k without '=': the line p k q = r v t stores v under k, unless nothing stands on one side of the '=' |
| PropertiesFile.NothingAdded | src/Properties.cpp:113 | a line without '=' stores nothing |
| PropertiesFile.Properties.Load | src/Properties.cpp:9-35 | the map after all lines that fit the buffer, comments and empty lines skipped |
| PropertiesFile.LineIgnored | src/Properties.cpp:19-30 | a line that is empty or begins with '#' or a zero leaves the map as it was |
| PropertiesFile.LineLoaded | src/Properties.cpp:19-30 | any other line stores its trimmed value under its trimmed key, and loading goes on behind it |
| PropertiesFile.LastLine | src/Properties.cpp:19-30 | the last line counts without its newline |
| PropertiesFile.LongLineEnds | src/Properties.cpp:19-30 | a line of 1024 characters or more ends the loading |
| PropertiesFile.Properties.Flush | src/Properties.cpp:47-68 | prints every entry of the map once, each line cut where the buffer ends |
| PropertiesFile.PrintedExact | src/Properties.cpp:57-63 | an entry is printed as its line, or as the first 1023 characters of that |
| PropertiesFile.RoundTrip | src/Properties.cpp:47-68 | loading the printed text into an empty map restores the map, for all printable maps and every order of printing |
| Split.SplitAt | src/ChatServer.cpp:152-163 | the pieces between occurrences, left to right; ends for every non-empty delimiter |
| Split.JoinTokens | src/ChatServer.cpp:152-163 | joining the pieces gives the string back |
| Split.TokensAreFree | src/ChatServer.cpp:152-163 | no piece contains the delimiter |
| Split.SplitUndoesJoinExactly | src/ChatServer.cpp:152-163 | splitting undoes joining of all lists of delimiter-free pieces if and only if the delimiter has no border |
| Split.TokensOfJoin | src/ChatServer.cpp:152-163 | so it does for delimiters of one character |
| Split.LongDelimiterFails | src/ChatServer.cpp:152-163 | and not for "aa" |

## Left out

- Sockets, epoll, processes, signals, logging and time are outside the model; only bytes available, bytes moved and events delivered remain, as parameters or free choices.
- The kqueue, one-shot and level-triggered branches, and `EPOLLOUT`: one platform and one build.
- Two threads' partial writes on one socket and EAGAIN in the middle of a frame: frame writes are atomic in the network, and `Transfer` has the write loop by itself.
- An incomplete frame in a receiver's ring: the network reads whole frames; `Connections.EndsExactly` says what the receiver's loop does otherwise.
- Closing and accepting while messages travel: the network has fixed membership; `EventPump` and `Lifecycle` have closing and accepting without messages.
- A descriptor closed and reused between copying the targets and writing to them.
- `Monitor` and the bounded queues of `EventPump` and `Network` are separate states; `QueueRefinement` relates their steps. Freedom from deadlock is proved of each, not of the network with the monitor's sleepers in it.
- NetworkProgress.NoDeadlock: the client-list mutex is not part of the network's state, where copying the targets is one step; that a thread inside the mutex is never blocked, and nobody for good by it, is in `Lifecycle`.
- Ring.CircularBuff.PutFromSocket: the model's burst has no end, so what an overrun of the local buffer damages is not modelled; `Ring.OverrunExact` says when there is one.
- The second accept branch in `ChatServer::Run` for clients of type CLIENT_SERVER: no such client is ever armed there.
- A non-atomic `m_iConnCount`, which concurrent increments could spoil.
- Broadcasting.ChatServer.MessageBroadcastToManagers: requires a list without NULL, because it dereferences every pointer; so do `MessageBroadcast`, when not relayed, and `RegisterManager`.
- In the network the hellos are over; each manager has its own recorded id, the server the one it stamps.
- The command switch of the manager besides broadcasting: heartbeats and unknown commands only answer or log.
- `HealthCheckUsers` and `ThreadTic`: never started.
- `CircularBuff::Resize`: never called.
- The copies of the queue (`EventQueue`, `SendQueue`, `QoSQueue`, `CloseQueue`) and of the frame parser (`ClientServer`), and the classes that are not built.
- Message memory: `new` and `delete` of messages, and of clients outside `Lifecycle`.
- Broadcasting.ChatServer.AcceptClient: runs without interruption; its interleaving is in `Lifecycle`.
- Monitor.CircularQueue.Deposit: the wait loop, signal and mutex are in the step system beside the class.
- PropertiesFile.Properties.AddMap: requires key and value, where it reads them, to fit their buffers, because `strncpy` leaves exactly the longer ones without a terminating zero (`CopyText`).
- PropertiesFile.Properties.Load: requires this of each line, for the same reason.
- Sha256.GoSha256: for lengths that are not negative; a negative `int` becomes a length beyond any buffer.
