# Verified model of the systems-programming course servers

A Dafny model of the protocols in the course repository whose guarantees rest on whole runs:
an edge-triggered epoll reactor, the framing and the text codec it speaks, a semaphore ring
queue, a monitor queue, a thread pool with a double-checked singleton, a chat broadcaster, a
pool of processes over pipes, the descriptor table of a select server and the line reader of
an HTTP server. `dafny verify dfyconfig.toml` checks all of it.

| file | what it models |
|---|---|
| Text.dfy | substring search, decimal printing, `atoi` |
| Framing.dfy | `readPackage`, `removeHeader`, `addHeader`, and the loops that cut a byte stream into packages |
| Protocol.dfy | requests, responses, and the books a server keeps for one client |
| Reactor.dfy, ReactorTheorems.dfy | the epoll server and its kernel; what its invariant means for a client |
| CalServer.dfy | the thread-per-client calculator server |
| Client.dfy | the client's waiting for an answer, and its conversation with that server |
| Codec.dfy | the text form of the messages, `splitstrings`, the client's `splitFormula` |
| Threads.dfy, SemaphoreRing.dfy, RingQueue.dfy | counting threads; the ring queue as a step system and as an object over an array |
| MonitorQueue.dfy | the queue with one mutex and two condition variables |
| ThreadPool.dfy | the pool, its workers and its singleton |
| ChatServer.dfy | receiver and broadcaster over the ring queue and the client table |
| ProcessPool.dfy | descriptor tables, fork, pipes, dispatch and shutdown |
| SelectServer.dfy | the descriptor table of the select server |
| HttpLines.dfy | the line reader, request parsing, response layout and the handler |

## How the model is built

Sequential code that updates objects is a class or a method with loops, proved against
functions on values (`Drain`, `ReadAll`, `WriteAll`, `AfterSender`, `Swept`, ...); the
properties are then lemmas about those functions and preserved invariants. Concurrent code is
a step system: one program counter a thread, one atomic step a line that touches shared
state, and theorems about every reachable state of every interleaving, for any number of
threads. The main theorems of each step system tie what goes into a run, the calls and
datagrams of its steps, to what comes out of it, the values returned and sent
(`RunDelivers`, `RunSafe`, `EveryDatagramDelivered`, `EveryCommandExecuted`); the histories
kept in the states only serve their proofs. Each operation is also shown step by step from
call to return, undisturbed (`PushMakes`, `GetBuilds`, ...).

Results of `recv`, `send`, `accept`, `epoll_wait`, `select` and `read` are parameters that
every theorem quantifies over. In the reactor they are finite scripts; a script that has run
out answers EAGAIN. Connections of the reactor are records in an explicit heap with
addresses: using a connection needs a proof that its address is still live, so use after
`delete` and aliasing are ruled out by the proofs, and an address may be given out again.

Where the code is not followed to the letter:

- 8.11/epollServer.2/epollServer.hpp:212 compares where it means to assign; the model takes
  the intent, that exactly the bytes received are appended, and streams are free of NUL.
- 8.11/epollServer.2/epollServer.hpp:155 registers IN and ET and ignores its argument; the
  model does the same, and both callers pass that mask.
- 8.11/epollServer.2/epollServer.hpp:113-116 can reach `send` with nothing to write; the model
  lets that call branch on any errno.
- 7.20/netCalculator/protocol.hpp:24-29 receives up to 2048 bytes into a buffer of 2048 and
  writes a NUL behind them, which after a full receive is one past the end; the model takes
  the intent, that exactly the bytes received are appended, for chunks of every size.
- 7.17/v2_udp_socket_/udp_server.hpp:70-106 cuts a datagram at 2047 bytes and at a NUL; a
  message of the model is what is left of it. An empty one is passed over, as in the code.
- Errors and hang-ups are never reported on the listening descriptor, whose sender is null.
- `atoi` is that of the GNU C library: saturation at 64 bits, truncation to 32.
- The package size is truncated to a 32-bit integer as in the code, and an exception of
  `removeHeader` ends the program (`threw`); both matter only from 2^31 - 1 bytes on, and
  `SizedIsSharp` shows that this bound is exact.
- The serializer of the reactor is a parameter; `Codec` proves the text one.

Findings about the code:

- A client that is closed while the reactor reads from it gets nothing more: no answer to
  the bytes read last, and none of the bytes that were waiting in its output buffer. It has
  been sent the answers to everything complete in what it sent exactly when its output buffer
  was empty and the bytes read last complete nothing (`ClosedAnsweredIff`). One request and
  then the end of the connection, read in one go, gets no byte (`LastRequestLost`); so does
  one request whose answer did not fit the kernel's buffer, followed by the end of the
  client's side (`HalfCloseLost`).
- The accept loop ends exactly when some answer is EAGAIN: an error that comes again and
  again, such as running out of descriptors, keeps it turning (`AcceptingEndsIff`).
- The first calculator server has answered everything complete after every chunk exactly
  when no chunk completes more than one request (`AnswersAllIff`); of two requests in one
  chunk the second waits (`PipelinedWaits`).
- An empty payload stops the request loop: whatever is behind it stays unread until more
  bytes arrive (`EmptyPayloadStops`).
- A formula with a character that is no digit behind the operator makes the client's scan
  turn for ever (`ScanEndsIff`), and so does an HTTP message without a final separator
  (`LoopEndsIff`).
- The default suffix of an HTTP path is never used, because the web root holds a dot
  (`SuffixIsAPiece`).
- A monitor queue of capacity 0 deadlocks; every other capacity is free of deadlock, also a
  negative one, which equals no size and so never stops a producer (`DeadlockFreeIff`).
- Without closing the inherited write ends the shutdown of two or more processes never gets
  past the first (`LeakyBlocks`).

## Model

| member | source | states |
|---|---|---|
| Text.Wrap32 | 8.11/epollServer.2/protocol.hpp:29 | assigning a wider sum to an int keeps every value that fits |
| Text.Find | 8.11/epollServer.2/protocol.hpp:22 | the first occurrence and no earlier one, or that there is none |
| Text.AtoiInvertsPrint | 8.11/epollServer.2/utility.hpp:45-48 | `atoi` gives back every 32-bit integer `to_string` printed, the minimum included |
| Text.UnsignedValuePrint | 8.11/epollServer.2/utility.hpp:45-48 | a printed number is read back whatever non-digit follows it |
| Text.AtoiReads | 7.20/netCalculator/functionSet.hpp:31-34 | atoi on white space, a sign and digits, whatever non-digit follows, gives the number if it is a 32-bit one, and -1 or 0 for one beyond 64 bits |
| Framing.ReadPackageExtend | 8.11/epollServer.2/protocol.hpp:18-39 | a package that can be cut off stays the same whatever arrives behind it |
| Framing.DrainConserves | 8.11/epollServer.2/epollServer.hpp:336-370 | on every buffer, well-formed or not, the packages cut off followed by what is left are the buffer |
| Framing.DrainContinues | 8.11/epollServer.2/epollServer.hpp:336-370 | draining, appending and draining again is draining everything at once |
| Framing.StarvedPrefix | 8.11/epollServer.2/epollServer.hpp:363-367 | if a stream is cut up to its end, so is every prefix of it |
| Framing.PositiveSlice | 8.11/epollServer.2/protocol.hpp:41-48 | for a positive length the payload is the slice right behind the first CRLF |
| Framing.RemoveHeaderIs | 8.11/epollServer.2/protocol.hpp:41-48 | for every package and length: the bytes in front of the last two, the two negative lengths that start inside the package, and an exception for anything else |
| Framing.DrainNeverThrows | 8.11/epollServer.2/epollServer.hpp:341-349 | below 2^31 - 1 bytes the loop never raises out_of_range, whatever the bytes are |
| Framing.SizedIsSharp | 8.11/epollServer.2/protocol.hpp:29 | at every size from 2^31 - 1 on some buffer makes it raise |
| Framing.ReadsBackIffFits | 8.11/epollServer.2/protocol.hpp:18-55 | one readPackage gives an encoded payload back whole, whatever follows, exactly when the package size fits an int |
| Framing.EmptyPayloadStops | 8.11/epollServer.2/epollServer.hpp:363-367 | an empty payload comes off, ends the loop, and leaves the bytes behind it unread |
| Framing.DecodesIffCarries | 8.11/epollServer.2/epollServer.hpp:336-370 | through the loop: an encoded payload comes off whole and what follows is drained as it would be alone, exactly for the non-empty payloads whose package size fits an int |
| Framing.PackageLayout | 8.11/epollServer.2/protocol.hpp:50-55 | the bytes of a package: the length in decimal digits up to the first CRLF, the payload right behind it, and CRLF as the last two bytes |
| Framing.ProperPrefixStarves | 8.11/epollServer.2/protocol.hpp:22-31 | cut short anywhere, a package is incomplete |
| Framing.CompleteInIsLargest | 8.11/epollServer.2/protocol.hpp:30-31 | the number of packages complete in a prefix is the largest whose bytes fit |
| Framing.DrainOfPrefix | 8.11/epollServer.2/epollServer.hpp:336-370 | every prefix of a well-formed stream yields exactly the packages complete in it |
| Framing.PayloadsOfFrames | 8.11/epollServer.2/protocol.hpp:41-55 | removing the headers gives back the payloads, and the packages make up the stream |
| Framing.ChunkInvariance | 8.11/epollServer.2/epollServer.hpp:201-257 | running the loop after every chunk gives what one run over all bytes gives |
| Framing.ChunkedStreamDecodes | 8.11/epollServer.2/epollServer.hpp:201-257 | any payloads (with CRLF inside or not), in any chunks, stopped anywhere: exactly the complete payloads come out, and all of them at the end |
| Framing.OlderReaderYieldsPrefix | 7.20/netCalculator/protocol.hpp:18-53 | one package per recv yields, in any chunks, a prefix of the same payloads and loses no byte |
| Framing.OlderReaderPassesEmpty | 7.20/netCalculator/protocol.hpp:42-52 | an empty payload is passed over |
| Framing.OlderReaderPace | 7.20/netCalculator/protocol.hpp:24-52 | after each chunk it has returned one payload more than before, or as many as are complete, whichever is less |
| Framing.KeepsUpIff | 7.20/netCalculator/protocol.hpp:24-52 | it has returned everything complete after every chunk if and only if no chunk completes more than one package |
| CalServer.ReceivePackage | 7.20/netCalculator/protocol.hpp:18-53 | one recv and at most one package, with the three kinds of result |
| CalServer.ServiceIO | 7.20/netCalculator/cal_server.hpp:73-108 | the loop computes the session function on every sequence of chunks, the throwing case included |
| CalServer.NextPackage | 7.20/netCalculator/cal_server.hpp:81-89 | on a prefix of a well-formed stream a package that comes off is the next payload's |
| CalServer.ServesPrefix | 7.20/netCalculator/cal_server.hpp:73-108 | whatever the chunks, the client is sent the answers to a prefix of its payloads, in order, and the rest of its bytes are in the buffer |
| CalServer.AnswersAllIff | 7.20/netCalculator/cal_server.hpp:73-108 | the server has answered every complete request after every chunk if and only if no chunk completes more than one |
| CalServer.PipelinedWaits | 7.20/netCalculator/cal_server.hpp:81-106 | of any two requests that arrive in one chunk the first is answered and the second waits in the buffer |
| CalServer.TurnOutcomes | 7.20/netCalculator/cal_server.hpp:76-107 | on any bytes a turn ends the session exactly for a length of -1 or an exception, answers exactly for any other length but 0, and loses no byte behind the package cut off |
| CalServer.EmptyPayloadSkipped | 7.20/netCalculator/cal_server.hpp:83-84 | an empty payload gets no answer; a request in the same chunk waits, one in the next chunk is answered |
| Client.AwaitAnswer | 7.20/netCalculator/client.cc:103-125 | the receiving loop computes the waiting function on every sequence of chunks |
| Client.AwaitEnds | 7.20/netCalculator/client.cc:103-118 | on any chunks the waiting ends exactly with the first that is the end of the connection or completes a package whose length is not 0 |
| Client.AwaitsOne | 7.20/netCalculator/client.cc:103-118 | the client waits exactly until all chunks of one package are there, and then has it whole and an empty buffer |
| Client.ServesOne | 7.20/netCalculator/cal_server.hpp:76-107 | the chunks of one request make the server answer it once and leave its buffer empty |
| Client.Conversation | 7.20/netCalculator/client.cc:81-125 | any requests one after the other, in any non-empty chunks both ways: in every round the client gets exactly one package, it holds the result of that request, and both buffers are empty again |
| Protocol.RepliesSnoc | 8.11/epollServer.2/epollServer.hpp:345-362 | one more payload adds exactly its framed answer |
| Protocol.RepliesTell | 8.11/epollServer.2/epollServer.hpp:358-361 | the bytes of the replies tell how many payloads were answered |
| Protocol.BalancedReceive | 8.11/epollServer.2/epollServer.hpp:210-214 | receiving keeps bytes in and bytes out balanced |
| Protocol.BalancedSend | 8.11/epollServer.2/epollServer.hpp:267-271 | a partial send keeps them balanced |
| Protocol.BalancedHandle | 8.11/epollServer.2/epollServer.hpp:336-370 | a run of the request loop keeps them balanced |
| Protocol.DigestMore | 8.11/epollServer.2/epollServer.hpp:244-257 | after reading and handling nothing complete is left in the buffer |
| Reactor.WriteAll | 8.11/epollServer.2/epollServer.hpp:264-295 | what was sent followed by what is left is the buffer, and nothing is left of a buffer that was emptied |
| Reactor.Kernel.Recv | 8.11/epollServer.2/epollServer.hpp:209 | the bytes received are entered in the log of the socket named and of no other |
| Reactor.Kernel.Send | 8.11/epollServer.2/epollServer.hpp:267 | the bytes taken are a prefix of those offered, and are entered in the log of the socket named and of no other |
| Reactor.Kernel.Accept | 8.11/epollServer.2/epollServer.hpp:171 | an accepted descriptor is one that was not open |
| Reactor.Kernel.CtlAdd | 8.11/epollServer.2/epoll.hpp:29-41 | adds a mask for an open descriptor that has none, else fails |
| Reactor.Kernel.CtlMod | 8.11/epollServer.2/epoll.hpp:43-55 | replaces the mask of a registered descriptor, else fails |
| Reactor.Kernel.CtlDel | 8.11/epollServer.2/epoll.hpp:57-61 | removes the mask, and tells whether there was one |
| Reactor.Kernel.Wait | 8.11/epollServer.2/epoll.hpp:63-69 | reports each registered descriptor at most once, with flags its mask allows; any such batch can occur |
| Reactor.VisibleIff | 8.11/epollServer.2/epoll.hpp:63-69 | the flags that can be reported are exactly those the mask asks for, and errors and hang-ups on anything but the listening socket |
| Reactor.EpollServer.InitServer | 8.11/epollServer.2/epollServer.hpp:77-91 | establishes the invariant with the listening socket as the only entry, watched for input, edge-triggered, and nothing received, sent or closed |
| Reactor.EpollServer.AddConnection | 8.11/epollServer.2/epollServer.hpp:130-159 | a fresh object, the table entry and the kernel mask are added together, and the kernel accepts the mask |
| Reactor.EpollServer.Admit | 8.11/epollServer.2/epollServer.hpp:172-178 | a descriptor accept has returned gets a fresh object, an entry and a mask, and the invariant holds again |
| Reactor.EpollServer.AcceptOne | 8.11/epollServer.2/epollServer.hpp:167-196 | one accept adds one connection on a new descriptor exactly when one was there, and stops the loop exactly at EAGAIN |
| Reactor.EpollServer.Accepter | 8.11/epollServer.2/epollServer.hpp:162-199 | uses the answers up to the first EAGAIN, or all of a finite script without one, adds one connection on a new descriptor for each of them that was one, keeps the invariant and leaves every existing connection as it was |
| Reactor.EpollServer.Excepter | 8.11/epollServer.2/epollServer.hpp:305-322 | mask, table entry, socket and object disappear together |
| Reactor.EpollServer.EnableReadWrite | 8.11/epollServer.2/epollServer.hpp:329-334 | object and kernel get the same mask, and the kernel call succeeds |
| Reactor.EpollServer.SendOnce | 8.11/epollServer.2/epollServer.hpp:267-274 | exactly the bytes the kernel took leave the front of the buffer |
| Reactor.EpollServer.SendLoop | 8.11/epollServer.2/epollServer.hpp:264-297 | the whole effect of the writing loop on the world, for every script of sends |
| Reactor.EpollServer.Sender | 8.11/epollServer.2/epollServer.hpp:259-303 | writes as that loop does, with the write event registered exactly if bytes are left, and no use of a freed connection |
| Reactor.EpollServer.RecvOnce | 8.11/epollServer.2/epollServer.hpp:207-214 | exactly the bytes the kernel gave for the connection's descriptor are appended to its buffer |
| Reactor.EpollServer.HandleRecive | 8.11/epollServer.2/epollServer.hpp:201-242 | the whole effect of the reading loop on the world, for every script of recvs: the bytes read are appended in order, and the connection is closed exactly if the reading function says so |
| Reactor.EpollServer.CutPackage | 8.11/epollServer.2/protocol.hpp:18-39 | readPackage on the connection's buffer, with the package entered in the books |
| Reactor.EpollServer.HandleOne | 8.11/epollServer.2/epollServer.hpp:341-367 | one package off the input and its answer onto the output |
| Reactor.EpollServer.HandleRequest | 8.11/epollServer.2/epollServer.hpp:336-370 | terminates on every buffer; cuts exactly what draining cuts and queues exactly its replies |
| Reactor.EpollServer.Reciver | 8.11/epollServer.2/epollServer.hpp:244-257 | read, answer, write: world and scripts afterwards as one function of those before, and the invariant again |
| Reactor.EpollServer.OnInput | 8.11/epollServer.2/epollServer.hpp:118-121 | the reading or accepting handler runs on the object in the table, with exactly its effect on world and scripts; afterwards the descriptor leads to the same object or to none, and every other entry and its book are untouched |
| Reactor.EpollServer.OnOutput | 8.11/epollServer.2/epollServer.hpp:123-126 | the writing handler runs on the object in the table, with exactly its effect on world and scripts, and every other entry and its book are untouched |
| Reactor.EpollServer.Dispatch | 8.11/epollServer.2/epollServer.hpp:106-127 | one report: reading or accepting if it says input, error or hang-up, then writing if it says output, error or hang-up and the connection is still there, both on the object the descriptor led to; world and scripts are those of the two halves in turn; it throws exactly when the request loop does |
| Reactor.EpollServer.HandleReport | 8.11/epollServer.2/epollServer.hpp:106-127 | the same, with the invariant before it, histories that only grow and all other entries untouched |
| Reactor.EpollServer.NextReport | 8.11/epollServer.2/epollServer.hpp:106-127 | the next report of a batch goes on where the one before has left off, on an entry that is what it was when the batch began |
| Reactor.EpollServer.LoopOnce | 8.11/epollServer.2/epollServer.hpp:103-128 | a batch: every report is handled, in order, each from the world and scripts the one before has left, on the object the report was made for, found as it was when the batch began, although descriptors are closed and reused in between; only an exception ends it early |
| Reactor.EpollServer.Dispatcher | 8.11/epollServer.2/epollServer.hpp:93-101 | any number of batches, each what epoll_wait makes of the proposed one, each from the world and scripts the one before has left, each handled as LoopOnce says; the invariant holds, every history has only grown, and a throw needs 2^31 - 1 bytes from one client |
| Reactor.AddedKeeps | 8.11/epollServer.2/epollServer.hpp:130-159 | adding a connection keeps registry, books and rest |
| Reactor.RemovedKeeps | 8.11/epollServer.2/epollServer.hpp:305-322 | closing one keeps them for all others |
| Reactor.SenderKeeps | 8.11/epollServer.2/epollServer.hpp:259-303 | every outcome of the writing loop keeps them |
| Reactor.ReciverKeeps | 8.11/epollServer.2/epollServer.hpp:244-257 | every outcome of the reading half keeps them |
| Reactor.ThrewOversized | 8.11/epollServer.2/epollServer.hpp:348 | the request loop raises only for a client that sent at least 2^31 - 1 bytes |
| Reactor.QuietListener | 8.11/epollServer.2/epollServer.hpp:139-142 | the write event is never registered for the listening socket |
| Reactor.ReciverSameObject | 8.11/epollServer.2/epollServer.hpp:118-126 | after the reading handler a descriptor leads to the object it led to, or to none |
| Reactor.SenderMoves | 8.11/epollServer.2/epollServer.hpp:259-303 | writing rewrites no history, whether the connection lives or is closed |
| Reactor.ReciverMoves | 8.11/epollServer.2/epollServer.hpp:244-257 | reading and answering rewrite no history |
| Reactor.MovedTwice | 8.11/epollServer.2/epollServer.hpp:93-101 | growing histories compose over handlers and batches, closed connections included |
| ReactorTheorems.EndToEnd | 8.11/epollServer.2/epollServer.hpp:201-303 | bytes sent followed by the output buffer are the framed answers to exactly the payloads complete in what was received, in order, and the input buffer is the unfinished rest |
| ReactorTheorems.ClientDecodes | 8.11/epollServer.2/epollServer.hpp:336-370 | a client that decodes what it got finds a prefix of the answers to its requests, and all of them once the output buffer is empty |
| ReactorTheorems.ClosedClients | 8.11/epollServer.2/epollServer.hpp:305-322 | for every client ever closed, the bytes sent and those still waiting are the replies to the packages cut off, and those packages and the unparsed rest are what it sent |
| ReactorTheorems.ClosedWhileReading | 8.11/epollServer.2/epollServer.hpp:215-247 | a client closed while being read has been sent nothing more, and what it was sent followed by the output bytes thrown away are the answers to what was complete in earlier readings |
| ReactorTheorems.ClosedAnsweredIff | 8.11/epollServer.2/epollServer.hpp:215-247 | such a client has been sent the answers to everything complete in what it sent if and only if its output buffer was empty and the bytes read last complete nothing |
| ReactorTheorems.LastRequestLost | 8.11/epollServer.2/epollServer.hpp:215-247 | one request and then the end of the connection, read in one go, gets no byte in answer |
| ReactorTheorems.HalfCloseLost | 8.11/epollServer.2/epollServer.hpp:305-322 | one request on a fresh connection, whose answer the kernel has no room for, and then the end of the client's side: the whole answer is thrown away with the connection |
| ReactorTheorems.ClosedWhileWriting | 8.11/epollServer.2/epollServer.hpp:288-297 | a client closed because writing failed had been owed the answers to everything complete in what it sent, and if any byte was waiting some byte of them is thrown away |
| ReactorTheorems.RegistryAgrees | 8.11/epollServer.2/epollServer.hpp:103-199 | table, interest set and open sockets have the same descriptors, live objects are those in the table, no two entries share one, each mask equals the kernel's, and what passed through a socket since it was accepted is what the connection in its entry has received and sent |
| ReactorTheorems.NoStalledOutput | 8.11/epollServer.2/epollServer.hpp:298-301 | between handlers the write event is registered if and only if output is pending, and the read event always is |
| ReactorTheorems.ReadingStops | 8.11/epollServer.2/epollServer.hpp:205-241 | what was read is the bytes of the results used, in order; every result used but the last is some bytes or EINTR; the connection stays alive exactly when the last is EAGAIN, or the script is used up |
| ReactorTheorems.AliveMeansReadDry | 8.11/epollServer.2/epollServer.hpp:244-257 | a client alive after its reading handler has been read until the kernel had no more, and its history has grown by exactly those bytes |
| ReactorTheorems.AcceptingEndsIff | 8.11/epollServer.2/epollServer.hpp:165-197 | run on longer and longer parts of an endless supply of answers, the accept loop comes to an end if and only if some answer is EAGAIN |
| ReactorTheorems.EveryoneTakenIn | 8.11/epollServer.2/epollServer.hpp:165-197 | the table grows by one new descriptor for each connection before the first EAGAIN, and each of them leads to a fresh connection |
| ReactorTheorems.HandlersRun | 8.11/epollServer.2/epollServer.hpp:103-128 | each report of a batch has both its halves run on the object it was made for |
| ReactorTheorems.BatchReads | 8.11/epollServer.2/epollServer.hpp:103-128 | after a batch every client reported readable, in error or hung up has been closed, or read until the kernel had no more; what it sent has grown by exactly the bytes of the results used |
| ReactorTheorems.ReportAccepts | 8.11/epollServer.2/epollServer.hpp:103-128 | when the listening socket is reported in a batch everyone waiting is taken in |
| ReactorTheorems.RunReads | 8.11/epollServer.2/epollServer.hpp:93-128 | the same for every report of every batch of every run of the dispatcher |
| ReactorTheorems.ChainedLink | 8.11/epollServer.2/epollServer.hpp:93-101 | nothing happens between two batches, and every batch but the last goes over all its reports |
| ReactorTheorems.ReadTriesToWrite | 8.11/epollServer.2/epollServer.hpp:252-256 | what a client is owed after reading is offered to the kernel at once: bytes are left only when the last offer was refused with EAGAIN, or the script is used up |
| ReactorTheorems.WritingStops | 8.11/epollServer.2/epollServer.hpp:264-295 | every offer but the last one used takes something or is interrupted; the last takes the rest, or takes nothing and is answered EAGAIN or another error, unless the script is used up with bytes left |
| ReactorTheorems.WritingNothing | 8.11/epollServer.2/epollServer.hpp:113-126 | with nothing to write no byte moves, and only an error closes the connection |
| ReactorTheorems.PendingMeansRefused | 8.11/epollServer.2/epollServer.hpp:296-301 | output left on a live connection after the sender means that the last offer took nothing and was answered EAGAIN, or that the script is used up with the bytes still offered; a connection closed by it means that the last offer was answered another error |
| Codec.SplitStrings | 7.20/netCalculator/functionSet.hpp:9-29 | the loop appends exactly the pieces between separators |
| Codec.SplitLossless | 7.20/netCalculator/functionSet.hpp:9-29 | joining the pieces gives the string back, up to one separator at its end |
| Codec.PiecesHoldNone | 7.20/netCalculator/functionSet.hpp:15-20 | no piece holds a separator |
| Codec.SplitInvertsJoin | 7.20/netCalculator/functionSet.hpp:9-29 | splitting inverts joining on exactly the lists whose separators stand out and whose last piece is neither empty nor holds one |
| Codec.SplitDropsEmptyTail | 7.20/netCalculator/functionSet.hpp:23-27 | a trailing empty piece is dropped and nothing else |
| Codec.RequestMessage.Deserialize | 7.20/netCalculator/protocol.hpp:102-124 | accepts and fills the fields as the parse says, and leaves them alone on a refusal |
| Codec.ResponseMessage.Deserialize | 7.20/netCalculator/protocol.hpp:162-182 | the same for responses |
| Codec.RequestRoundTrip | 7.20/netCalculator/protocol.hpp:80-124 | over all 32-bit operands a request comes back unless its operator is a space, and then it is refused |
| Codec.ResponseRoundTrip | 7.20/netCalculator/protocol.hpp:141-182 | every response comes back |
| Codec.RequestTexts | 7.20/netCalculator/protocol.hpp:105-113 | the exact set of texts a request is read from |
| Codec.ResponseTexts | 7.20/netCalculator/protocol.hpp:162-182 | the exact set of texts a response is read from, the result first and the code second |
| Codec.WrittenForms | 7.20/netCalculator/protocol.hpp:80-160 | both messages are written in those forms, field by field |
| Codec.SplitFormula | 7.20/netCalculator/client.cc:24-59 | the state machine terminates and gives the operands and the operator |
| Codec.ScanEndsIff | 7.20/netCalculator/client.cc:30-51 | the loop ends if and only if everything behind the operator is a digit |
| Codec.FormulaRoundTrip | 7.20/netCalculator/client.cc:24-59 | a formula printed from two non-negative numbers and a non-digit operator is read back as that request |
| Codec.MessagesCarry | 7.20/netCalculator/client.cc:96-99 | every message fits the framing |
| Codec.DrainingPeers | 8.11/epollServer.2/epollServer.hpp:336-370 | between two peers that append and drain as the reactor does, any requests, pipelined and in any chunks both ways, come back as their results, in order |
| SemaphoreRing.InitialInv | 7.9/sem/RingQueue.hpp:13-25 | the constructed queue meets the invariant for every capacity from 1 on |
| SemaphoreRing.NextInv | 7.9/sem/RingQueue.hpp:36-63 | every step of every thread keeps permits, locks, positions and contents consistent |
| SemaphoreRing.RunInv | 7.9/sem/RingQueue.hpp:36-63 | in every interleaving the values read are a prefix of the values written, and none is overwritten before it is read |
| SemaphoreRing.InFlight | 7.9/sem/RingQueue.hpp:39-47 | permits in flight are those not used yet and those used and not posted yet |
| SemaphoreRing.RoomToWrite | 7.9/sem/RingQueue.hpp:39-43 | a producer with a permit always finds a free slot |
| SemaphoreRing.SomethingToRead | 7.9/sem/RingQueue.hpp:54-57 | a consumer with a permit always finds a value |
| SemaphoreRing.NeverLapped | 7.9/sem/RingQueue.hpp:43-58 | neither side ever laps the other |
| SemaphoreRing.SlotsDisjoint | 7.9/sem/RingQueue.hpp:43-57 | a writer and a reader inside their two locks never address the same slot |
| SemaphoreRing.OldestInSlot | 7.9/sem/RingQueue.hpp:57 | the slot a reader addresses holds the oldest value |
| SemaphoreRing.RefinesFifo | 7.9/sem/RingQueue.hpp:36-63 | every step is a step of an atomic FIFO bounded by the capacity |
| SemaphoreRing.RunDelivers | 7.9/sem/RingQueue.hpp:36-63 | in every run, from calls to returns: each producer's values enter in the order of its calls and none is left out, the values taken are those that entered, in that order, and each consumer's calls return what it took |
| SemaphoreRing.BlockedOnlyAt | 7.9/sem/RingQueue.hpp:66-75 | a thread waits only for a permit or for its lock |
| SemaphoreRing.SomeStepEnabled | 7.9/sem/RingQueue.hpp:36-63 | with a looping producer and consumer some thread can always step |
| RingQueue.PushMakes | 7.9/sem/RingQueue.hpp:36-49 | the seven steps of push alone add the value at the end of the queue |
| RingQueue.PopMakes | 7.9/sem/RingQueue.hpp:51-63 | the seven steps of pop alone take the oldest value |
| RingQueue.RingQueue.constructor | 7.9/sem/RingQueue.hpp:13-25 | an empty queue with all permits on the space side |
| RingQueue.RingQueue.Push | 7.9/sem/RingQueue.hpp:36-49 | on the array in place: the step system's run, and the value is the newest |
| RingQueue.RingQueue.Pop | 7.9/sem/RingQueue.hpp:51-63 | on the array in place: the step system's run, and the oldest value is returned |
| MonitorQueue.NextInv | 7.3/blockingQueue/blockQueue.hpp:111-143 | every step, also a spurious wakeup, keeps mutex, sizes, order and the two wakeup counts |
| MonitorQueue.RunInv | 7.3/blockingQueue/blockQueue.hpp:111-143 | so does every run |
| MonitorQueue.NoLostWakeup | 7.3/blockingQueue/blockQueue.hpp:115-127 | consumers all sleep only on an empty queue, producers all sleep only on a full one |
| MonitorQueue.SomeStepEnabled | 7.3/blockingQueue/blockQueue.hpp:111-143 | some thread can always step, without a spurious wakeup |
| MonitorQueue.RunSafe | 7.3/blockingQueue/blockQueue.hpp:109-143 | in every run, from calls to returns: each producer's values enter in the order of its calls and none is left out, the values returned are those that entered, in that order, up to those still queued, and the size never exceeds a positive capacity although only equality is tested |
| MonitorQueue.PushMakes | 7.3/blockingQueue/blockQueue.hpp:111-130 | push undisturbed with room: the value is the newest, the mutex free again, and one sleeping consumer woken |
| MonitorQueue.PopMakes | 7.3/blockingQueue/blockQueue.hpp:131-143 | pop undisturbed with a value there: the oldest is taken and returned, the mutex free again, and one sleeping producer woken |
| MonitorQueue.WokenPushes | 7.3/blockingQueue/blockQueue.hpp:115-121 | a producer that was woken takes the mutex and tests again |
| MonitorQueue.WokenPops | 7.3/blockingQueue/blockQueue.hpp:134-137 | so does a consumer |
| MonitorQueue.PushWaits | 7.3/blockingQueue/blockQueue.hpp:115-121 | on a full queue push goes to sleep and frees the mutex |
| MonitorQueue.PopWaits | 7.3/blockingQueue/blockQueue.hpp:134-137 | on an empty queue pop does |
| MonitorQueue.DeadlockFreeIff | 7.3/blockingQueue/blockQueue.hpp:103-143 | free of deadlock for all numbers of threads and all runs if and only if the capacity, any integer, is not 0 |
| MonitorQueue.BlockQueue.TryPush | 7.3/blockingQueue/blockQueue.hpp:115-124 | the critical section of push is the step system's: wait when full, else append |
| MonitorQueue.BlockQueue.TryPop | 7.3/blockingQueue/blockQueue.hpp:134-139 | the critical section of pop is the step system's: wait when empty, else take the oldest |
| ThreadPool.NextInv | 7.10/threadPool/thread_pool.hpp:32-131 | every step of callers and workers keeps locks, construction, wakeups and the fate of tasks consistent |
| ThreadPool.RunInv | 7.10/threadPool/thread_pool.hpp:32-131 | so does every run |
| ThreadPool.Singleton | 7.10/threadPool/thread_pool.hpp:32-45 | at most one pool is made, every caller that returned holds it, and it is initialised and started at most once with `_thread_cap` threads |
| ThreadPool.TasksExactlyOnce | 7.10/threadPool/thread_pool.hpp:58-112 | tasks are taken in push order; each is queued, in one worker's hand or finished, never in two hands, and `front()` is never called on an empty queue |
| ThreadPool.RunDelivers | 7.10/threadPool/thread_pool.hpp:58-112 | in every run, from calls to tasks run: each caller's tasks enter the queue in the order of its calls and none is left out, the tasks taken are those that entered, in that order, and each worker runs what it took, up to the one in its hand |
| ThreadPool.PushMakes | 7.10/threadPool/thread_pool.hpp:58-67 | pushTask undisturbed: the task is the newest, the lock free again, and one sleeping worker woken |
| ThreadPool.WorkMakes | 7.10/threadPool/thread_pool.hpp:84-112 | a worker undisturbed: it takes the oldest task and runs it without the lock |
| ThreadPool.WorkWaits | 7.10/threadPool/thread_pool.hpp:99-103 | with nothing queued it goes to sleep and frees the lock |
| ThreadPool.WokenWorks | 7.10/threadPool/thread_pool.hpp:99-107 | a worker that was woken takes the lock and tests again |
| ThreadPool.GetFinds | 7.10/threadPool/thread_pool.hpp:32-45 | get_instance returns a pool that is there without taking the lock |
| ThreadPool.GetBuilds | 7.10/threadPool/thread_pool.hpp:32-45 | get_instance with none there constructs one with as many threads as its capacity, starts each, frees the lock and returns it |
| ThreadPool.BlockedOnlyAt | 7.10/threadPool/thread_pool.hpp:32-131 | a thread waits only for one of the two locks or for a task |
| ThreadPool.FinishesOnce | 7.10/threadPool/thread_pool.hpp:105-110 | a worker finishes only a task that was in its hand and not finished |
| ThreadPool.NoSleepingOnTasks | 7.10/threadPool/thread_pool.hpp:60-65 | with a task queued and no signal pending the started idle workers are not all asleep |
| ThreadPool.QueuedTaskProgress | 7.10/threadPool/thread_pool.hpp:92-112 | a started pool with a queued task can always go on |
| ChatServer.NextGood | 7.17/v2_udp_socket_/udp_server.hpp:70-138 | every step of both threads keeps queue, table and deliveries consistent |
| ChatServer.RunGood | 7.17/v2_udp_socket_/udp_server.hpp:70-138 | so does every run from the start |
| ChatServer.ContiguousRun | 7.17/v2_udp_socket_/udp_server.hpp:108-130 | what a client was sent is a contiguous run of the messages in order of arrival, each once, from its first broadcast to the latest |
| ChatServer.RegisteredReceive | 7.17/v2_udp_socket_/udp_server.hpp:99-124 | a queued message's author is in the table, and whoever was registered when it was queued is sent it in its place |
| ChatServer.QuiescentMeansDelivered | 7.17/v2_udp_socket_/udp_server.hpp:70-138 | when neither thread can move without a new datagram, every message has been sent to everybody registered when it was queued |
| ChatServer.HearsAll | 7.17/v2_udp_socket_/udp_server.hpp:70-106 | in every run what is taken in is exactly the datagrams that came, the empty ones passed over, in order |
| ChatServer.ListensIff | 7.17/v2_udp_socket_/udp_server.hpp:79-88 | a datagram is taken exactly while the receiver waits for one |
| ChatServer.RunDelivers | 7.17/v2_udp_socket_/udp_server.hpp:70-138 | in every run what a client has been sent is a contiguous run of the datagrams that came, and who sent none is sent none |
| ChatServer.EveryDatagramDelivered | 7.17/v2_udp_socket_/udp_server.hpp:70-138 | in every run that has come to rest each client has been sent the datagrams from some message on, no later than its own first, up to the last, and nobody else anything |
| ChatServer.StepIsProgress | 7.17/v2_udp_socket_/udp_server.hpp:70-138 | every step but the coming of a datagram lowers the work that is left |
| ChatServer.ComesToRest | 7.17/v2_udp_socket_/udp_server.hpp:70-138 | without new datagrams every run comes to rest, within as many steps as work is left |
| ChatServer.BroadcasterWaits | 7.17/v2_udp_socket_/udp_server.hpp:114-119 | the broadcaster waits only for a message or for the receiver's lock |
| ChatServer.ReceiverWaits | 7.17/v2_udp_socket_/udp_server.hpp:79-104 | the receiver waits only for a datagram, for room or for the broadcaster's lock |
| ProcessPool.Lowest | 5.26/CtrlProc/proc.cc:75-76 | a new descriptor is the lowest free number |
| ProcessPool.CreatProcesses | 5.26/CtrlProc/proc.cc:66-111 | every child gets the read end of its own pipe and the write ends fork left it, the parent one write end for each; the pool satisfies the invariant if and only if children close what they inherit or there is one child only, else it is the leaky one |
| ProcessPool.NextInv | 5.26/CtrlProc/proc.cc:42-182 | every step of parent and children keeps it |
| ProcessPool.RunInv | 5.26/CtrlProc/proc.cc:42-182 | so does every run |
| ProcessPool.OneWriter | 5.26/CtrlProc/proc.cc:86-109 | once the children are set up, the write end of each pipe is held by exactly one descriptor, in the parent, until the parent closes it |
| ProcessPool.ShutdownNeverStuck | 5.26/CtrlProc/proc.cc:164-173 | while the parent waits for a child, some child can move |
| ProcessPool.MovesTerminate | 5.26/CtrlProc/proc.cc:42-64 | every move of a child is progress |
| ProcessPool.WaitReturns | 5.26/CtrlProc/proc.cc:171 | while the parent waits every run of the children has bounded length, and where no child can move any more waitpid returns |
| ProcessPool.StepIsProgress | 5.26/CtrlProc/proc.cc:144-182 | during the shutdown every step, of the parent or of a child, lowers the work that is left |
| ProcessPool.ShutdownCompletes | 5.26/CtrlProc/proc.cc:144-182 | every run of the shutdown has at most as many steps as work is left, and one that cannot go on has ended with the parent finished, every child gone and everything it was sent executed |
| ProcessPool.WritesReachReaders | 5.26/CtrlProc/proc.cc:134-137 | no command is written to a child that has left its loop, for any number of children |
| ProcessPool.DispatchIsFair | 5.26/CtrlProc/proc.cc:113-142 | counts of any two children differ by at most one; each executes what it was sent, in order, once |
| ProcessPool.SendAcceptedIff | 5.26/CtrlProc/proc.cc:113-132 | a command is taken exactly while the parent commands, fewer than 10 were given, and its number is that of a task |
| ProcessPool.RunDeals | 5.26/CtrlProc/proc.cc:130-141 | in every run each child is sent exactly the commands of the run whose turn falls to it, in rotation from child 1 on, in order |
| ProcessPool.EveryCommandExecuted | 5.26/CtrlProc/proc.cc:113-182 | when the parent is done every command given in the run has been executed once, by the child whose turn it was |
| ProcessPool.LeakyBlocks | 5.25/CtrlProc/proc.cc:48-82 | children created without the close loop, under the dispatch and shutdown of 5.26: with two children or more no run gets past waiting for the first |
| SelectServer.SelectServer.constructor | 8.6/selectServer.2/SelectServer.hpp:38-59 | a tidy table with the listening socket in slot 0 |
| SelectServer.SelectServer.Collect | 8.6/selectServer.2/SelectServer.hpp:66-89 | the bitmap is exactly the live descriptors, and the bound is their maximum |
| SelectServer.SelectServer.Accepter | 8.6/selectServer.2/SelectServer.hpp:148-178 | the new connection gets the first free slot or is closed |
| SelectServer.SelectServer.IOService | 8.6/selectServer.2/SelectServer.hpp:180-214 | answers what came, or closes the connection and frees its slot |
| SelectServer.SelectServer.HandlerEvent | 8.6/selectServer.2/SelectServer.hpp:116-146 | a scan serves each ready connection once, in slot order, frees exactly the broken ones and places the new one |
| SelectServer.SelectServer.ServeTurn | 8.6/selectServer.2/SelectServer.hpp:65-113 | one turn: bitmap, select and scan have exactly the effect of the turn on table and replies |
| SelectServer.SelectServer.StartServer | 8.6/selectServer.2/SelectServer.hpp:53-114 | over any sequence of select results table and replies are those of all turns in order, and the table is tidy |
| SelectServer.TurnConnects | 8.6/selectServer.2/SelectServer.hpp:116-214 | a turn closes exactly the connections that were ready and broken, and adds exactly the accepted one, if a slot is free |
| SelectServer.RunAnswers | 8.6/selectServer.2/SelectServer.hpp:53-214 | over any sequence of select results each client is sent the echo of every message that came while it was connected and ready, once, in order, and nothing else |
| SelectServer.EchoIs | 8.6/selectServer.2/SelectServer.hpp:186-193 | the reply is what was received up to a NUL, without its last byte, and the mark of the echo |
| SelectServer.PlacedFirst | 8.6/selectServer.2/SelectServer.hpp:159-177 | the search stops at the first free slot |
| SelectServer.ReadyOnce | 8.6/selectServer.2/SelectServer.hpp:119-145 | the connections served are the ready ones, each once |
| SelectServer.AcceptKeepsReady | 8.6/selectServer.2/SelectServer.hpp:126-136 | a connection accepted during a scan is not read in that scan |
| SelectServer.AcceptedOnce | 8.6/selectServer.2/SelectServer.hpp:148-214 | every descriptor ever accepted is in exactly one slot or was closed exactly once |
| HttpLines.LinesLossless | 7.29/httpServer/main.cc:40-52 | the lines, each followed by the separator, and the rest are the message |
| HttpLines.RestEmptyIff | 7.29/httpServer/main.cc:48 | nothing follows the last line if and only if the message is empty or ends in a separator |
| HttpLines.LoopEndsIff | 7.29/httpServer/main.cc:48-52 | the loop ends exactly on those messages |
| HttpLines.Desarialize | 7.29/httpServer/main.cc:36-69 | request line and body lines rebuild the message, which is used up |
| HttpLines.RequestLineWords | 7.29/httpServer/funcSet.hpp:54-59 | a request line gives back its three words |
| HttpLines.PathHasNoFinalSlash | 7.29/httpServer/main.cc:53-58 | the path is the url under the web root and never ends in a slash: the default page is added exactly for a final slash |
| HttpLines.LastDotIs | 7.29/httpServer/main.cc:59 | rfind gives the last dot or none |
| HttpLines.SuffixIsAPiece | 7.29/httpServer/main.cc:59-67 | the suffix is always a piece of the path, and the whole path when the url has no dot |
| HttpLines.ResponseParses | 7.29/httpServer/main.cc:98-112 | reading a response up to its first empty line leaves exactly the body, whatever it holds, and the length field is its size |
| HttpLines.HandlerHttpRequest | 7.29/httpServer/main.cc:81-113 | for any file system: a file that can be read comes back whole under 200, anything else under 404, with the length of the body and the type of the suffix, read back line by line |

## Left out

- Sockets, pthreads, semaphores, pipes and fork themselves: they are steps or parameters, as described above; addresses, ports, log texts and errno texts are not modelled.
- The jsoncpp serializer: it is an abstract total pair of functions; the text branch is proved instead.
- `calculate` and the operators of the class `Task`: the handler is a parameter.
- The poll server, whose table is that of the select server, the older epoll and select versions, and the earlier thread pools and queues: duplicates.
- Reactor.Kernel.CtlAdd: does not model an `epoll_ctl` that fails for lack of resources, on which the code asserts.
- Reactor.EpollServer.Dispatcher: the 64-entry bound of one batch is not modelled; batches of any size are.
- CalServer.ReceivePackage: does not model the 2048-byte buffer, nor the NUL written one past its end when a receive fills it.
- RingQueue.RingQueue.Push: a blocking `sem_wait` is the precondition that space is left; blocking itself is in the step system.
- RingQueue.RingQueue.Pop: likewise for data.
- ThreadPool.Singleton: assumes sequential consistency for the unguarded read of `_instance`.
- ThreadPool.TasksExactlyOnce: the pool is modelled as a step system only, because every line of it is interleaved with other threads.
- ChatServer.ContiguousRun: a client is identified by its name, the text form of its address, and `sendto` always takes the message.
- ProcessPool.CreatProcesses: `pipe` and `fork` succeed, and children start to move once all are created, which loses nothing because a child's moves touch only its own table while no command is sent.
- Codec.SplitStrings: an empty separator, on which the loop does not end, is excluded; no caller passes one. Positions are unbounded integers.
- SelectServer.SelectServer.Collect: descriptors of 1024 and above, which an `fd_set` cannot hold, are not told apart.
- SelectServer.SelectServer.IOService: the result of `send` is ignored as in the code.
- HttpLines.Desarialize: a message without a final separator is excluded, since the loop would not end (`LoopEndsIff`).
- HttpLines.HandlerHttpRequest: `read` gives a file that can be opened whole.
- Fairness, timing and weak memory.
