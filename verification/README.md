# RProxy, verified

A Dafny model of the stateful parts of RProxy, a reactor-style reverse proxy, and of its
benchmark client. Sockets, epoll, splice and connect are the environment: their answers are
parameters, and every theorem holds for all of them. Handlers and loops that change state in
the program are methods over fields, arrays and loops here, each proved against a
specification function; the theorems are then about all runs of those functions.

| file | what it models |
|---|---|
| `Checksum.dfy` | the ICMP checksum against the end-around-carry sum of RFC 1071 |
| `Buffer.dfy` | the growing, compacting byte buffer against a plain byte queue |
| `Connection.dfy` | the partial-write sender and its two copies of the interest mask |
| `Server.dfy` | the connection table and its re-entrant teardown |
| `Ledger.dfy`, `Transfer.dfy`, `Relay.dfy`, `Proxy.dfy` | traffic accounts, the two byte movers, several loops at one backend, the session tables |
| `Queue.dfy` | the locked queue under interleaving, and the lock-free queue's capacity |
| `Ids.dfy` | the concurrent 16-bit id counters |
| `Balancer.dfy`, `LoopGroup.dfy` | batch queue and the two round-robins |
| `BenchModel.dfy`, `BenchInvariant.dfy`, `BenchOutcome.dfy`, `Bench.dfy` | the benchmark client: handlers, invariant, what they achieve, program |
| `DivMod.dfy`, `Basics.dfy` | division by a variable divisor, round-robin shares; shared definitions |

Where the code does not do what it is for, the model keeps the code and proves when it does:

- `sendInLoop` requires READABLE, but `enableWrite` ORs into an empty mask and so drops it. A
  connection with one short write never sends again (`StuckForever`), and all payload arrives
  exactly when no write is short (`DeliversIff`). `Drains` is about the `Intended` variant,
  which keeps the old mask and restores DefaultEvents. The bad cast in `disableWrite` is in
  the model as a crash and is not reached through `sendInLoop` (`MasksAgree`).
- `disconnect` closes the socket, and only then asks the kernel to drop it and has the server
  remove it once more. The server stays coherent and closes just what was reported exactly
  when no connection is entered under that descriptor in between (`TeardownSafeIff`).
- `close` comes before the lock that guards the session tables, and every loop that gets a
  hang-up goes through the teardown. The tables stay intact exactly when no connect reuses a
  descriptor before its erasure and no second erasure comes after its reuse
  (`SessionsIntactIff`, `ReuseBreaksSession`, `SecondLoopBreaksSession`).
- A `zeroCopy` whose output fails leaves bytes in the shared pipe for ever (`PipeEmptyIff`).
  The next call delivers them first, whoever it is for (`LeftoverGoesToNext`, `ForeignByte`):
  destinations get exactly their own bytes iff no output fails (`DestinationsIff`).
- `account` adds a first charge twice; it is right because the first charge is always 0
  (`BookedExactlyIff`, `LedgerExact`).
- `pop` leaves the lock before it removes the element: right for one consumer
  (`OneConsumerIsFifo`), and in general exactly when no consumer gets the front that another
  has not removed yet (`FifoIff`).
- A new backend is registered twice, so that two event loops watch it whenever there is more
  than one (`WatchedByTwoLoopsIff`). They read and send without a lock, so that its answers
  are sure to stay in order exactly when there is one loop (`AnswersInOrderIff`).
- `forward` drops the rest of a packet whose `send` fails: where packets are not overtaken, a
  session gets all its bytes through exactly when no `forward` is cut (`SessionDeliversIff`,
  `Relay.DeliversInOrderIff`).
- The server tests for WRITABLE before CLOSABLE, so a hang-up reported together with
  writability closes nothing (`HangUpIgnoredIff`), and a connection stuck after a short send
  stays (`StuckInTable`).
- The checksum starts from 0xffff instead of 0, which by itself differs from RFC 1071 only
  for buffers of zeros (`ZeroBufferDiffers`, `CorrectIff`).
- The balancer starts each batch at the first backend, so the gap between backends grows
  without bound (`GapAcrossBatches`, `SingleSocketBatches`), while the README of the program
  speaks of an even share.
- The rounding loop of the lock-free queue does not end for requests above 2^63
  (`RoundingEndsIff`), ids can repeat after 65536 draws (`AlwaysDistinctIff`), and two folds are
  not enough for every buffer over 131074 bytes (`BoundIsTight`, `CorrectIff`).

## Model

| member | source | states |
|---|---|---|
| Checksum.Accumulate | src/proxy/ping.hpp:75-87 | the loop yields 0xffff plus the sum of the little-endian words, odd byte zero-padded, without wrapping 64 bits |
| Checksum.Compute | src/proxy/ping.hpp:75-94 | up to 131074 bytes the result is the complement of the one's-complement sum, except 0 instead of 0xffff for a buffer of zeros |
| Checksum.CorrectIff | src/proxy/ping.hpp:89-92 | for every int-sized buffer the result is RFC 1071's exactly when some byte is not zero and the second fold leaves no carry |
| Checksum.ZeroBufferDiffers | src/proxy/ping.hpp:77 | for buffers of zeros, of any length, the code gives 0 and RFC 1071 gives 0xffff |
| Checksum.CorrectWhenSafe | src/proxy/ping.hpp:89-92 | up to 131074 bytes two folds leave no carry: the result is RFC 1071's unless all bytes are zero |
| Checksum.FinishRange | src/proxy/ping.hpp:89-92 | the folded value lies in 1..0xffff and differs from the sum by a multiple of 0xffff |
| Checksum.BoundIsTight | src/proxy/ping.hpp:89-92 | a 131075-byte buffer with sum 2^32+65535 gets a wrong result |
| Checksum.ReceiverAccepts | src/proxy/ping.hpp:49-50 | storing x in the zeroed field makes the whole buffer check to 0 iff x is the checksum, up to the two zeros |
| Checksum.OrderIndependent | src/proxy/ping.hpp:79-87 | buffers that are permutations of each other's words have the same checksum |
| Checksum.ByteOrderIndependent | src/proxy/ping.hpp:79-92 | swapping the bytes of every word swaps the bytes of the result |
| Buffer.QueueConserves | src/network/buffer.cc:92-162 | over any run of calls, appended bytes are the taken bytes followed by the content |
| Buffer.ArrayBuffer.constructor | src/network/buffer.cc:7-11 | an empty buffer of the given size |
| Buffer.ArrayBuffer.Swap | src/network/buffer.cc:27-32 | exchanges storage and contents |
| Buffer.ArrayBuffer.FindEol | src/network/buffer.cc:74-78 | the first newline of the content, or none |
| Buffer.ArrayBuffer.FindEolFrom | src/network/buffer.cc:80-90 | the first newline from a position on; positions outside the content are refused |
| Buffer.ArrayBuffer.Retrieve | src/network/buffer.cc:92-101 | drops exactly that prefix; an over-long request changes nothing |
| Buffer.ArrayBuffer.RetrieveUntil | src/network/buffer.cc:103-109 | drops up to a position within the content |
| Buffer.ArrayBuffer.RetrieveAll | src/network/buffer.cc:111-115 | empties the buffer |
| Buffer.ArrayBuffer.RetrieveAsString | src/network/buffer.cc:117-131 | returns exactly the prefix it drops |
| Buffer.ArrayBuffer.Append | src/network/buffer.cc:141-154 | concatenates; storage is replaced iff content and data do not fit in it together; a null pointer is refused |
| Buffer.ArrayBuffer.EnsureWritableBytes | src/network/buffer.cc:156-162 | content unchanged and room for the request |
| Buffer.ArrayBuffer.HasWritten | src/network/buffer.cc:164-170 | takes in bytes stored behind the content, if there is room |
| Buffer.ArrayBuffer.MakeSpace | src/network/buffer.cc:172-190 | content unchanged by resize or overlapping copy; grows iff live bytes and request exceed the storage |
| Buffer.ArrayBuffer.SlideToFront | src/network/buffer.cc:180-185 | the overlapping forward copy leaves the live bytes at the front |
| Connection.OutputConserved | src/network/tcp_connection.cc:91-148 | accepted bytes then buffered bytes are all payloads sent while connected, in order |
| Connection.MasksAgree | src/network/channel.cc:49-72 | cached mask equals kernel mask, pending bytes are watched for writability, the bad cast is not reached |
| Connection.BadCastCrashes | src/network/channel.cc:65-69 | were READABLE set, the write that empties the buffer would crash |
| Connection.StuckForever | src/network/tcp_connection.cc:128-148 | as written, once bytes are pending no further byte is ever accepted |
| Connection.DeliversIff | src/network/tcp_connection.cc:91-148 | as written, all payload is accepted exactly when no write before the disconnect is short |
| Connection.ShortSendSticks | src/network/tcp_connection.cc:121-134 | a short send after which the rest is never written |
| Connection.DrainStep | src/network/tcp_connection.cc:137-145 | intended mask: each positive write shrinks the buffer, and the last restores DefaultEvents |
| Connection.Drains | src/network/tcp_connection.cc:128-148 | intended mask: as many productive writes as pending bytes deliver everything |
| Connection.TcpConnection.constructor | src/network/tcp_connection.cc:7-15 | connected, nothing pending, default events |
| Connection.TcpConnection.Send | src/network/tcp_connection.cc:91-126 | writes at once only when nothing is pending, keeps what is left in order and then watches for writability; nothing once disconnected |
| Connection.TcpConnection.SendInLoop | src/network/tcp_connection.cc:128-148 | writes the front of the buffer if READABLE is set, and disables writing when the buffer is empty |
| Connection.TcpConnection.EnableWrite | src/network/channel.cc:49-55 | both masks become the context's mask with WRITABLE |
| Connection.TcpConnection.DisableWrite | src/network/channel.cc:65-72 | default events in both masks, or a crash on a null context |
| Connection.TcpConnection.DemultiplexModify | src/network/demultiplex.cc:74-87 | cached mask, then kernel mask, become the context's |
| Server.TeardownExactlyOnce | src/network/tcp_server.cc:176-243 | any batch removes exactly the connections with a closing report (hung up, and neither forwarded nor writable), closes each once and lowers the counter once |
| Server.HangUpIgnoredIff | src/network/tcp_server.cc:195-219 | of a connection that hangs up in every report, a batch keeps it iff each of them is writable too |
| Server.StuckInTable | src/network/tcp_server.cc:195-219 | as written, over all runs: after a short send a connection stays in the table and nothing more is sent, as long as hang-ups are reported together with writability |
| Server.BatchValid | src/network/tcp_server.cc:176-224 | a batch keeps counter = table size, masks coherent, and no destructor re-enters |
| Server.ForwardedIff | src/network/tcp_server.cc:195-200 | the balancer gets, in order, each report with READABLE and without CLOSABLE for a connection in the table, unless an earlier one for it had CLOSABLE without WRITABLE |
| Server.ReportOutcome | src/network/tcp_server.cc:184-220 | from every reachable state, one more report of a batch, by its bits: left to the balancer, one writing step of that connection alone, its end, or nothing |
| Server.AcceptOutcome | src/network/tcp_server.cc:123-150 | from every reachable state, a new descriptor is in the table, open, counted, and watched with the default events |
| Server.SendToOutcome | src/network/tcp_connection.cc:91-126 | from every reachable state, a send is one step of that connection alone |
| Server.AlwaysValid | src/network/tcp_server.cc:123-243 | over all runs: counter, table, kernel interest and open sockets agree, accepted = closed + open, cached = kernel mask |
| Server.TeardownSafeIff | src/network/tcp_server.cc:211-219 | with the acceptor's steps between those of a teardown: the server ends coherent, and closes just the reported connections, iff none was entered into the table under a descriptor in its teardown |
| Server.ReuseKillsConnection | src/network/tcp_server.cc:217-218 | the interleaving after which a new connection is destroyed unreported |
| Server.UninterruptedIsHandled | src/network/demultiplex.cc:89-98 | the removal, the kernel's drop and the second removal in a row are the handling of the report |
| Server.UninterruptedIsRegistered | src/network/eventloop.cc:28-29 | accept, table entry and the kernel's watch in a row are the registration |
| Server.TcpServer.DemultiplexRegister | src/network/demultiplex.cc:52-72 | the connection is in the table and watched with the default events |
| Server.TcpServer.UpdateForRegister | src/network/tcp_server.cc:123-150 | adds the connection and counts it, under the lock; for a descriptor already in the table it never returns, waiting for its own lock |
| Server.TcpServer.Destroy | src/network/tcp_connection.cc:17-22 | socket closed once; a channel that has not left leaves now, without locking again |
| Server.TcpServer.Leave | src/network/channel.cc:25-34 | flags the channel, removes the connection, drops the interest |
| Server.TcpServer.DemultiplexRemove | src/network/demultiplex.cc:89-98 | server first, then kernel |
| Server.TcpServer.RemoveConnection | src/network/tcp_server.cc:226-243 | removes a present connection and does nothing for an absent one; the mutex is never locked twice |
| Server.TcpServer.Disconnect | src/network/tcp_connection.cc:34-38 | the connection is gone when the call returns |
| Server.TcpServer.UpdateForWait | src/network/tcp_server.cc:176-224 | the whole batch is handled, and its readable sockets go to the balancer |
| Ledger.BookedExactlyIff | src/pubsub/pub_sub.cc:76-83 | a charge is booked once iff the address is known and the sum does not wrap, or it is 0 |
| Ledger.RegisterBalanced | src/network/tcp_server.cc:139 | the charge at registration keeps ledger and deliveries equal |
| Ledger.ChargeBalanced | src/pubsub/pub_sub.cc:76-96 | a charge past the limit check is for a known address and keeps them equal |
| Ledger.PubSubCenter.Account | src/pubsub/pub_sub.cc:76-83 | adds the charge, twice for an unknown address, in 64 bits |
| Ledger.PubSubCenter.IsLimited | src/pubsub/pub_sub.cc:85-96 | unknown addresses read as SIZE_MAX and are limited |
| Transfer.MovedAllWithoutError | src/proxy/proxy_server.cc:198-209 | the sending loop leaves bytes behind only after an error |
| Transfer.MovedAllIff | src/proxy/proxy_server.cc:198-209 | the sending loop leaves bytes behind iff an answer is an error while bytes are still to be sent |
| Transfer.MovedIsSum | src/proxy/proxy_server.cc:198-209 | what gets out is the sum of the answers up to an error, or everything |
| Transfer.Forward | src/proxy/proxy_server.cc:217-261 | sends a prefix of one packet and returns its length |
| Transfer.ForwardOutcome | src/proxy/proxy_server.cc:217-261 | a prefix of what the source has ready is sent and counted: all of it, or a full packet, iff no send fails before |
| Transfer.ForwardsDeliverDataIff | src/proxy/proxy_server.cc:217-261 | over any run of reads that fit a packet, all the sources had has been sent, in order, iff no send failed while some was left |
| Transfer.ForwardsDeliverIff | src/proxy/proxy_server.cc:217-261 | over any run of calls, all packets read have been sent, in order, iff no call was cut by an error |
| Transfer.Pipe.ZeroCopy | src/proxy/proxy_server.cc:185-215 | outputs the front of pipe and input, keeps the rest, returns the count |
| Transfer.PipeConserves | src/proxy/proxy_server.cc:185-215 | over any run, all input is all output followed by the pipe's content |
| Transfer.PipeEmptyIff | src/proxy/proxy_server.cc:185-215 | the pipe is empty after a run iff no output splice of the run failed |
| Transfer.DestinationsGetTheirOwn | src/proxy/proxy_server.cc:185-215 | without failed outputs every destination gets exactly its own sources' bytes in order |
| Transfer.DestinationsIff | src/proxy/proxy_server.cc:185-215 | over any run, every destination has got exactly its own bytes iff no output splice failed |
| Transfer.LeftoverGoesToNext | src/proxy/proxy_server.cc:200-212 | after a failed output the next productive call delivers the oldest byte left behind first, whoever it was read for |
| Transfer.ForeignByte | src/proxy/proxy_server.cc:200-212 | a run in which one destination is sent a byte read for another, and not its own |
| Proxy.StepIntactIff | src/proxy/proxy_server.cc:110-148 | from intact tables a step breaks them iff it reuses a descriptor that is still in the table, or erases one that is open again |
| Proxy.SessionsIntactIff | src/proxy/proxy_server.cc:95-148 | any number of loops anywhere in the teardown: tables are inverse and open backends known throughout a run iff no connect answers with a descriptor not erased yet and no erasure meets one that is open again |
| Proxy.OneCloserIntactIff | src/proxy/proxy_server.cc:110-148 | with one loop for each teardown: iff no connect answers with a descriptor between its close and its erasure |
| Proxy.SerialisedSessions | src/proxy/proxy_server.cc:110-148 | the teardown as one step: inverse tables, and known backends are exactly the open ones, whatever the loops report |
| Proxy.ReuseBreaksSession | src/proxy/proxy_server.cc:112-144 | the interleaving after which an open backend is unknown |
| Proxy.SecondLoopBreaksSession | src/proxy/proxy_server.cc:97-118 | the interleaving in which the second loop's erasure hits the next session of the descriptor |
| Proxy.TeardownIsOneStep | src/proxy/proxy_server.cc:98-118 | undisturbed, lookup, close and erasure are the one step |
| Proxy.LedgerExact | src/proxy/proxy_server.cc:155-166 | over all runs each account equals the bytes the log of transfers delivered upstream for its address, at most one packet over the limit |
| Proxy.OrderOutcome | src/proxy/proxy_server.cc:130-171 | from every reachable state, one more order of a batch: a session iff the client has one or a descriptor is free; then, if the address is known and not over the limit, exactly one packet goes to that session's backend and its bytes are charged; else nothing is sent or charged; without a session the batch ends |
| Proxy.BatchOutcome | src/proxy/proxy_server.cc:95-120 | from every reachable state, a batch of reports: all lookups succeed iff every descriptor has a session not closed earlier in the batch; then just the sessions reported closed are gone from tables, open and watched descriptors, and just the other readable backends' answers have been handed on |
| Proxy.RegisterOutcome | src/network/tcp_server.cc:139 | accepting a client opens an account with 0 unless its address has one |
| Proxy.WatchedByTwoLoopsIff | src/proxy/proxy_server.cc:139-180 | in every reachable state every session's backend is watched by two event loops iff the group has more than one, else by one |
| Proxy.AnswersInOrderIff | src/proxy/proxy_server.cc:93-105 | for every session in every reachable state: the loops that watch its backend hand its answers on in order in all interleavings without errors iff the group has one loop |
| Relay.DeliversInOrderIff | src/proxy/proxy_server.cc:217-261 | for every interleaving of loops: the client gets what was read, in order, iff no send failed and no packet overtook one read before it |
| Relay.LoopsInOrderIff | src/proxy/proxy_server.cc:217-261 | a set of loops keeps the order in all runs without errors iff it has no two members |
| Relay.TwoLoopsReorder | src/proxy/proxy_server.cc:223-244 | two loops that read x, then y, and send y first |
| Relay.UndisturbedIsForward | src/proxy/proxy_server.cc:217-261 | left alone, a loop's read and sends are one call of forward |
| Proxy.SessionPrivate | src/proxy/proxy_server.cc:105-163 | over any run, from a session's start until its backend is reported closed, its client and backend exchange bytes with each other only |
| Proxy.SessionDeliversIff | src/proxy/proxy_server.cc:105-163 | while a session lasts, from the client, and with one loop also to it: the bytes that got through are those read, in order, iff no forward was cut |
| Proxy.ResponseReturns | src/proxy/proxy_server.cc:105 | the answer of a request's backend goes to the requesting client |
| Proxy.ProxyServer.ForwardOne | src/proxy/proxy_server.cc:130-171 | one order: session set up if there is none, limit tested, packet forwarded and charged; a failed connect throws |
| Proxy.ProxyServer.Pair | src/proxy/proxy_server.cc:139-145 | descriptor watched, session in both tables, descriptor watched once more |
| Proxy.ProxyServer.Watch | src/proxy/proxy_server.cc:145 | the group's next loop watches the descriptor |
| Proxy.ProxyServer.ReportOne | src/proxy/proxy_server.cc:95-120 | one report: a readable one is forwarded to the client, a closing one ends the session, an unknown descriptor throws |
| Proxy.ProxyServer.CloseSocket | src/proxy/proxy_server.cc:112 | the second step of the teardown, before the lock, whoever has closed the descriptor already |
| Proxy.ProxyServer.EraseSession | src/proxy/proxy_server.cc:114-118 | the last step, under the lock: whatever session the tables hold for the descriptor by then is erased |
| Proxy.ProxyServer.LookUp | src/proxy/proxy_server.cc:97-98 | the first step; an unknown descriptor throws |
| Proxy.ProxyServer.UpdateForForward | src/proxy/proxy_server.cc:124-173 | orders are served in turn until a connect throws |
| Proxy.ProxyServer.UpdateForWait | src/proxy/proxy_server.cc:90-122 | reports are served in turn until a lookup throws |
| Queue.FifoIff | src/network/queue.hpp:25-43 | for every interleaving, once all pops have returned: FIFO iff no consumer got the front while another had not removed it |
| Queue.ClashedIsTwice | src/network/queue.hpp:37-40 | after such a clash some element stays handed out twice, whatever follows |
| Queue.GoodWithoutClash | src/network/queue.hpp:25-43 | without one, the queue is FIFO and size counts the unclaimed elements |
| Queue.SizeCounts | src/network/queue.hpp:29-38 | in every run size is what was pushed less what was claimed |
| Queue.PushedAreValues | src/network/queue.hpp:25-31 | in every run the push history is the values of the pushes, in order |
| Queue.PopReturnsFront | src/network/queue.hpp:33-43 | from every reachable state, an undisturbed pop of a free consumer returns and removes the front |
| Queue.OneConsumerIsFifo | src/network/queue.hpp:25-43 | as written: one consumer and any number of producers never clash, and the queue is FIFO |
| Queue.LockedRemovalIsFifo | src/network/queue.hpp:33-43 | removal under the lock: any number of consumers, and size equals the length |
| Queue.OverlapDuplicates | src/network/queue.hpp:37-40 | the schedule in which the second consumer takes before the first removes: one element returned twice, the next lost, size possibly below 0 |
| Queue.LockedQueue.Push | src/network/queue.hpp:25-31 | the value joins the end and is counted |
| Queue.LockedQueue.PopFront | src/network/queue.hpp:33-43 | undisturbed, returns the value it removes, and waits while there is none |
| Queue.LockedQueue.TakeFront | src/network/queue.hpp:35-39 | the half of pop under the lock: the front is read and discounted, unless the queue is empty |
| Queue.LockedQueue.RemoveFront | src/network/queue.hpp:40 | the half of pop after the unlock: drops whatever is in front by then |
| Queue.BitTestIff | src/network/queue.hpp:100 | the bit test accepts exactly the powers of two |
| Queue.RoundingEndsIff | src/network/queue.hpp:102-109 | the loop ends iff the request is at most 2^63 |
| Queue.RoundUpToPowerOfTwo | src/network/queue.hpp:102-109 | the least power of two not below the request, under twice a non-zero one |
| Queue.LockFreeQueue.constructor | src/network/queue.hpp:63-77 | the stored capacity is that least power of two |
| Ids.IdsDistinct | src/pubsub/pub_sub.hpp:18-40 | in every interleaving with at most 65536 additions the ids are distinct and increasing |
| Ids.AttemptSucceedsIff | src/pubsub/pub_sub.hpp:24-27 | an attempt succeeds iff the others added a multiple of 65536 times since its load |
| Ids.AlwaysDistinctIff | src/pubsub/pub_sub.hpp:18-40 | the ids of every interleaving with n additions are distinct iff n is at most 65536 |
| Ids.IdCounter.NewId | src/pubsub/pub_sub.hpp:21-30 | with any steps of other threads inside each attempt, ends with its first successful attempt and returns the id that consumed |
| Balancer.Balancing | src/proxy/loader.cc:170-181 | the map is the round-robin assignment of the batch |
| Balancer.AssignedTotal | src/proxy/loader.cc:170-181 | the assignment covers exactly the batch, with backends only |
| Balancer.FairWithinBatch | src/proxy/loader.cc:170-181 | position j of n gets floor((m+n-1-j)/n) of m distinct sockets |
| Balancer.GapAcrossBatches | src/proxy/loader.cc:174-180 | the gap between positions i < j is the number of batches with i < m mod n <= j |
| Balancer.SingleSocketBatches | src/proxy/loader.cc:174-180 | one-socket batches all go to the first backend, however many |
| Balancer.DispatchedOnceInOrder | src/proxy/loader.cc:58-62 | arrived = dispatched, then in hand, then queued, in every interleaving |
| Balancer.ArrivedAreArrivals | src/proxy/loader.cc:58-62 | what is dispatched, in hand and queued is exactly the batches handed over, in order |
| Balancer.RoundDispatches | src/proxy/loader.cc:149-166 | whenever a batch waits and there is a backend, one round dispatches the oldest |
| Balancer.OrdersTotal | src/proxy/loader.cc:155-166 | every dispatched map is total on its batch with values among the backends |
| Balancer.LoadBalancer.UpdateForLoadbalance | src/proxy/loader.cc:58-62 | the batch joins the queue's end |
| Balancer.LoadBalancer.TakeBatch | src/proxy/loader.cc:149-153 | the oldest batch moves into the hand |
| Balancer.LoadBalancer.ServeBatch | src/proxy/loader.cc:155-166 | the batch in hand is balanced and dispatched |
| LoopGroup.LoopThreadGroup.constructor | src/network/group.hpp:34-43 | n loops, cursor at the first |
| LoopGroup.LoopThreadGroup.RegisterFd | src/network/group.hpp:50-60 | registration k goes to loop k mod n |
| LoopGroup.LoopsWithinOne | src/network/group.hpp:50-60 | after any number of registrations no two loops differ by more than one |
| BenchInvariant.LowestFitsWindow | benchmark/benchmark.cpp:552-554 | with a client missing, the lowest free descriptor is in the window and its slot is vacant |
| BenchInvariant.SlotsInjective | benchmark/benchmark.cpp:552-570 | live descriptors have different slots, and the live counter counts the occupied ones |
| BenchInvariant.FullLeavesNoVacancy | benchmark/benchmark.cpp:580-590 | with all clients alive no slot is vacant |
| BenchInvariant.SwitchTo | benchmark/benchmark.cpp:319-323 | deleting one event and adding the other uses the right epoll operations and leaves just the other |
| BenchInvariant.CreateTidy | benchmark/benchmark.cpp:513-578 | creating a client, or failing to, keeps the invariant |
| BenchInvariant.CloseTidy | benchmark/benchmark.cpp:307-317 | closing a client keeps the invariant and makes room |
| BenchInvariant.ResetTidy | benchmark/benchmark.cpp:319-340 | a reset client is like a new one on its descriptor |
| BenchInvariant.RecvTidy | benchmark/benchmark.cpp:362-438 | a read event keeps the invariant and the other registrations, or the process exits |
| BenchInvariant.SendTidy | benchmark/benchmark.cpp:440-485 | a write event keeps them, and switches to reading exactly when the request is out |
| BenchInvariant.BatchTidy | benchmark/benchmark.cpp:676-701 | closing and creating clients within a batch leaves the rest of the batch valid |
| BenchInvariant.CreateNeedTidy | benchmark/benchmark.cpp:580-590 | refilling ends with all clients alive, or the process exits |
| BenchInvariant.TimeoutsTidy | benchmark/benchmark.cpp:645-657 | resetting timed-out clients keeps the invariant |
| BenchInvariant.AlwaysValid | benchmark/benchmark.cpp:659-715 | the invariant holds in every reachable state until the process exits |
| BenchOutcome.BatchOutcome | benchmark/benchmark.cpp:676-701 | from every valid state, each report of a batch has its effect on what the ones before it left: error, read or write |
| BenchOutcome.RecvOutcome | benchmark/benchmark.cpp:362-438 | would-block changes nothing; a broken read or bad response makes the client anew; an incomplete one adds its bytes; a complete one is counted, stops the loop at the number needed, and else resets or replaces the client; an over-full buffer ends the process |
| BenchOutcome.SendOutcome | benchmark/benchmark.cpp:440-485 | would-block changes nothing; a broken write makes the client anew; otherwise the bytes count, and reading begins iff the request is out |
| BenchOutcome.ErrorOutcome | benchmark/benchmark.cpp:681-692 | the client is made anew, and the 1001st error ends the process |
| BenchOutcome.ReplacedOutcome | benchmark/benchmark.cpp:307-317 | old registration, descriptor and slot go; a new client waits to write on the lowest free descriptor, or one fewer is alive |
| BenchOutcome.TimeoutsOutcome | benchmark/benchmark.cpp:645-657 | exactly the occupied slots that have timed out start afresh; nothing else changes |
| BenchOutcome.RefillExitsIff | benchmark/benchmark.cpp:580-590 | refilling ends the process iff it fails to make one of the clients missing |
| BenchOutcome.DoneIsComplete | benchmark/benchmark.cpp:431-436 | over every run, doneRequests is the number of complete responses up to the number needed, and the loop is told to stop at it |
| Benchmark.Bench.AddEvent | benchmark/benchmark.cpp:254-283 | merges the event into the mask and registers it; ADD for an empty old mask, else MOD; a wrong one changes no registration |
| Benchmark.Bench.DelEvent | benchmark/benchmark.cpp:285-305 | takes the event out of the mask; DEL for an empty new mask, else MOD; a wrong one changes no registration |
| Benchmark.Bench.CloseConnection | benchmark/benchmark.cpp:307-317 | registration and descriptor go, the slot is vacant, one client fewer is alive |
| Benchmark.Bench.CreateClient | benchmark/benchmark.cpp:513-578 | a client on the new descriptor is in slot fd mod n, watched for writing, and counted; a failed connect changes nothing |
| Benchmark.Bench.ResetClient | benchmark/benchmark.cpp:319-340 | the client waits to write its request from the start, with an empty receive buffer |
| Benchmark.Bench.ClientDone | benchmark/benchmark.cpp:342-360 | stops the loop once enough requests are done, else resets the client or replaces it by a new one |
| Benchmark.Bench.RecvFromServer | benchmark/benchmark.cpp:362-438 | a read blocks, replaces the client, exits on an over-full buffer, or completes a request with at most one latency entry, in bounds |
| Benchmark.Bench.SendToServer | benchmark/benchmark.cpp:440-485 | a write blocks, replaces the client, or goes on, and switches to reading when the request is out |
| Benchmark.Bench.CreateNeedClients | benchmark/benchmark.cpp:580-590 | creates clients until none is missing; one failure ends the process |
| Benchmark.Bench.ClearTimeoutConnection | benchmark/benchmark.cpp:645-657 | resets exactly the occupied slots that have timed out |
| Benchmark.Bench.HandleEvents | benchmark/benchmark.cpp:676-701 | all reports are handled in order until the process exits, ending in a valid state, and the latencies of the complete responses that count are stored in order |

## Left out

- Checksum.Compute: assumes a 64-bit `unsigned long` and a little-endian machine; `Ping::ping` itself and the ICMP exchange are not modelled.
- Buffer.ArrayBuffer.Append: data inside the buffer itself is not modelled. The copying constructor, which can overrun a small initial size, is left out.
- Buffer.ArrayBuffer.EnsureWritableBytes: lengths are unbounded, so a request so large that `writerIndex_ + len` wraps is not modelled.
- Connection.DrainStep, Connection.Drains: hold of the intended masks only; as written the buffer does not drain.
- Connection.TcpConnection.Send: the connection is taken to be in the server's table, so that the mask always reaches its context.
- `TcpConnection::read` writes at `peek()` and is right only for an empty buffer; `shutdownWrite` meets the same bad cast as `disableWrite`. Neither is modelled.
- Server.TcpServer.DemultiplexRegister: relies on `accept` returning a descriptor that is not open, and so not in the table.
- Server.TcpServer.UpdateForWait: one event loop and its kernel registrations at a time, with the acceptor beside it in TeardownSafeIff; accesses by several loops between `find` and use are not modelled, nor is the destruction of the server. The Release build never counts up.
- Proxy.ProxyServer.ForwardOne: backend events are not handled between the first registration and the filling of the tables; one in between would find no entry. `read` errors other than EAGAIN, and client descriptors recycled while their session lives, are left out. A successful non-empty send or splice moves at least one byte.
- Proxy.ProxyServer.ReportOne: other threads are not interleaved between its steps; SessionsIntactIff and AnswersInOrderIff are about that.
- Proxy.SessionPrivate: reports are handled one at a time.
- Proxy.SessionDeliversIff: reports are handled one at a time, so the direction to the client is for one loop; Relay has the others.
- Proxy.ProxyServer.UpdateForWait: a lookup that throws abandons the batch and nobody catches it, so the process ends; the model goes on with the next call. UpdateForForward throws into the balancing thread, likewise.
- Proxy.LedgerExact: the traffic map is accessed by one thread at a time; the wiring of balancer, proxy and server is assumed, since src/main.cc is not part of this model.
- Queue.LockedQueue.PopFront: waiting is returning nothing; the reference read after the removal is modelled as a copy made before it. `size_` is never initialised in the program and starts at 0 here, and it does not wrap. `empty()` answers the opposite of its name.
- Queue.RoundUpToPowerOfTwo: larger requests do not return; RoundingEndsIff says so. The lock-free queue has no operations beyond its capacity.
- Balancer.Balancing: backends are fixed while one batch is balanced. `checkAllBackend` is left out: two of its three removal tests can never hold, and it looks up backends it has removed.
- Ids.IdCounter.NewId: memory-order effects; the counters are static per translation unit, and each is one counter here.
- Benchmark.Bench.CreateClient: an encoding of no bytes or a failed one is left out (its test on an unsigned length never holds), and an ADD fails only when it is the wrong operation.
- Benchmark.Bench.ResetClient: the same encoding assumption.
- Benchmark counters that only reach the report, the function pointers, EINTR retries, and slot memory before the first fill (taken as vacant).
- Option parsing, logging, `InetAddr`, `StreamSocket`, `Acceptor`, the event loop's threads, `WorkerGroup` and plain accessors: they wrap system calls or fields and keep no state that the theorems are about. Synchronous dispatch is modelled only where a call shown here goes through it.
