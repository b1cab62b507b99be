# RDMA replica service: a verified model

A client asks a server for a memory region, gets a descriptor for it, and then writes and flushes into
that region over RDMA.  This project models the logic of that service in Dafny: the wire codec, the
INIT/FINISHED exchange of the two handlers, the ownership of operation objects, the reactor and the
lifetime of its handlers, the region's memory and registration, the connection's teardown, and the
replica that the writes build up.  The foreign libraries (librpma, libpmem, epoll, Ceph's buffer lists)
are an environment: what their calls return is a parameter, and what they promise is a precondition or
a rule the model is audited against.

`dafny verify dfyconfig.toml` checks everything.

## How it is laid out

Code of the source that works by changing things is a class here; its methods are proved to change the
object as a specification function says, and the results over whole runs are lemmas about those functions.

| file | about |
|---|---|
| Bytes.dfy, Wire.dfy, Codec.dfy | little-endian fields, framed messages, the step-by-step encoder and decoder |
| Handshake.dfy, HandshakeSafety.dfy | both nodes, the wire between them, and runs without a call after FINISHED |
| HandshakeBalance.dfy, HandshakeFit.dfy | what every run keeps, and when a reply is wrong |
| HandshakeLag.dfy, HandshakeFaults.dfy | calls after FINISHED: exactly which faults they allow |
| HandshakeDrift.dfy, HandshakePlans.dfy | the exchange in numbers: exactly which plans can lose a region |
| HandshakeRegistration.dfy | which registration a reply and the client's region name |
| ServerHistory.dfy, Handlers.dfy | the server over every sequence of requests; the two handlers as objects |
| Operations.dfy, OperationHistory.dfy, ConnectionHandler.dfy | operation objects, `callback_table`, re-entrant callbacks, destruction; what the events alone say of them |
| Reactor.dfy, EventLoop.dfy | the event table, the epoll set, handlers that register and remove themselves |
| Lifetimes.dfy | the reactor, its handlers and the operations of each together |
| Region.dfy, MemoryManager.dfy | the block, its registration, and the order both are released in |
| Connection.dfy | `RpmaConn` and the destruction order of a handler's members |
| Mirror.dfy | what completed writes and flushes make of the replica |
| Naming.dfy | the cache file's name |

## What is proved

* **The exchange is safe if and only if nothing follows a FINISHED request**
  (`HandshakeFaults.SafeIffFinishedLast`), over every interleaving of both nodes and every outcome of
  the server's allocation, registration, peer configuration and file removal.  A FINISHED request posts
  two sends; the second has no receive and answers the client's next call instead.  Fault by fault, for
  every plan of calls:
  * a receive buffer is never read while a receive into it is posted (`HandshakeBalance.CreditsBalance`);
  * a call can be answered by the reply to another, and a message can be copied into a send buffer under a
    send that has not left, exactly when a call follows a FINISHED one;
  * the bytes of a waiting send can be changed exactly when moreover not all calls are FINISHED ones
    (`HandshakeFaults.AlteredIff`); as long as they are not, every message leaves as it was posted;
  * the size and flush type a client takes are wrong exactly when the server's region changed between
    the reply's leaving and its being read (`HandshakeFit.MisfitIffRegionChanged`).
* **Which plans can end in a wrong size or flush type** is decided by a check of the plan alone: it counts
  calls, requests handled and FINISHED requests, and knows no bytes, buffers or posts
  (`HandshakeDrift.MisfitIffDrifts`).  So flush-type agreement, which does not hold over every
  INIT/FINISHED sequence, holds over every other one (`HandshakeDrift.FlushTypeAgrees`).  Every plan the
  check rejects has two FINISHED calls, an INIT, a FINISHED and an INIT for no more, in this order, and for
  a client that may leave calls of its plan out these five decide (`HandshakePlans`).
* **A reply names the region's current registration if and only if** no request since has registered the
  region and then failed to configure the peer; the client's `_image_mr` does if and only if moreover the
  registration stood until the reply was read (`HandshakeRegistration`).  A client none of whose calls
  follows a FINISHED one can accept a region under a registration that has ended if and only if it repeats
  its first INIT call for no more (`EndedIffRepeats`).
* **Operations**, told from the events alone: over every run with re-entrant callbacks and inserts that
  other threads' completions overtake, the operations are the calls made, in order; each is freed exactly
  once, and its callback runs once if the call came with one and succeeded, and never otherwise; the table
  is exact while no insert is overtaken; and the destructor frees a dead pointer if and only if an
  overtaken insert was neither taken away by a later success at its address nor has a live object there
  (`OperationHistory`).
* **The reactor's table and the epoll set agree** at every wait of the loop, and a handler lives exactly
  while something refers to it; registration keeps that if and only if the descriptor is not in the table.
  A new connection comes in with both its entries exactly when both could be registered, and not at all
  otherwise.
  Every completion, and with it every callback that captured its handler, finds that handler alive, also
  where completions overtake inserts.
* **Every block is released once, by the matching call with the matching length, and never while
  registered**, over every run, if and only if no file of another length was mapped on the way.
* **A connection** is deleted once, last, and after a disconnect; the order of destruction is safe if and
  only if something took the connection down before (`Connection.HandlerTeardownSafeIff`).  Close events
  do; a handler whose admission failed (`Reactor.AdmitKeeps`) or whose owner lets it go without one
  (`Reactor.EndsOnlyBy`) is destroyed with its connection up.
* **The codec** reads back what was written over any stale bytes, exactly when no string outgrows its
  32-bit length.
* **Two requests share a cache file** exactly when ids and dot-joined names agree; a request has its
  file to itself exactly when neither of its names has a dot.

## Assumptions

* Ceph's `include/encoding.h` is not part of this model; its framing is written out in Wire.dfy: one
  version byte, one compatibility byte, a 32-bit little-endian length; strings carry a 32-bit length.
* A posted send reads its buffer when the message leaves.  A message waits while the peer has no posted
  receive, and messages of one connection keep their order.  Posts of the exchange succeed.
* Steps are atomic.  The server's callback is three of them (the request's effect on region and send
  buffer, with the first send of a FINISHED request; the next receive; the send), a client's call two
  (copy and receive; send), and the wire and the other node may act in between.  Post-and-insert is one
  step for the server and inside callbacks, and two for a client, whose reactor runs on another thread; a
  completion with its callback is one step.
* Of the server's foreign calls the allocation, `rpma_mr_reg`, `rpma_peer_cfg_set_direct_write_to_pmem`
  and `remove` may fail.  The calls whose failure the program ignores (EventOp.cc:459, 467, 474, 488) are
  taken to succeed.
* Where a statement compares registrations by their keys, no two registrations of a run have the same key.
* The server's send buffer does not hold a successful INIT reply before it was first written.
* librpma's descriptors are opaque to the program; the layout in Handshake.dfy stands for any that can
  be read back.  A descriptor that claims more bytes than it carries is treated like one that cannot be
  decoded; one too short for librpma is refused and the client goes on with the region it had.

## Model

| member | source | states |
|---|---|---|
| Wire.RoundTrip | Types.cc:4-86 | every message decodes to itself wherever it stands and whatever surrounds it, exactly when no string is too long for its 32-bit length; longer ones come back cut |
| Wire.Peek | Types.cc:49-54 | reading any message as the base class gives its type and stops at the end of the whole message |
| Wire.ReadersAgree | Types.cc:49-86 | for any bytes: exactly which frames the base-class reader accepts, and that whatever a larger reader accepts it accepts with the same type and end |
| Wire.PlainIsNeverInitOrReply | Types.cc:64-86 | a FINISHED frame never decodes as an INIT request or INIT reply, whatever follows it |
| Wire.FrameSizes | Types.cc:4-78 | exact size of each message, and exactly which messages pass the senders' length assertions |
| Wire.PlainBytes | Types.cc:42-47 | the FINISHED messages byte by byte |
| Wire.InitBytes | Types.cc:4-12 | an INIT request byte by byte: headers, lengths, type, id, size and names in this order |
| Wire.ReplyBytes | Types.cc:24-31 | a successful INIT reply byte by byte |
| Bytes.LEDigits | Types.cc:4-47 | numbers are stored least significant byte first |
| Wire.PrefixFree | Types.cc:4-86 | no message is a proper prefix of another and equal bytes mean equal messages |
| Wire.LastMessageWins | test_demo.cc:55-63 | after any copies to the front of one buffer, decoding gives the last message and nothing of what lies behind it |
| Wire.ReachedByte | EventOp.cc:501-504 | each byte of a reused buffer belongs to the last copy long enough to reach it |
| Wire.UnreachedByte | EventOp.cc:700-703 | bytes no copy reached keep their first value |
| Codec.BufferList.PutInfo | Types.cc:4-12 | appending field by field and filling in the length yields the specified frame |
| Codec.BufferList.PutDesc | Types.cc:24-31 | the same for the descriptor |
| Codec.BufferList.PutMessage | Types.cc:42-78 | the same for every message class, nested frames included |
| Codec.Iterator.GetInfo | Types.cc:14-22 | the advancing reader yields what the specification says and fails exactly when it does |
| Codec.Iterator.GetDesc | Types.cc:33-40 | the same for the descriptor |
| Codec.Iterator.GetPlain | Types.cc:49-54 | the same for the base class |
| Codec.Iterator.GetInit | Types.cc:64-70 | the same for the INIT request |
| Codec.Iterator.GetReply | Types.cc:80-86 | the same for the INIT reply |
| Codec.CopyIn | EventOp.cc:504-504 | the buffer's front is the message, the rest is untouched |
| Handlers.RpmaHandler.RegisterMrToDescriptor | EventOp.cc:428-506 | the new registration replaces the old one as soon as it is made; the send buffer gets the region's descriptors exactly when the peer was configured too |
| Handlers.RpmaHandler.GetDescriptorForWrite | EventOp.cc:508-519 | a region is made only if there is none; an unreadable request or failed allocation throws |
| Handlers.RpmaHandler.CloseRegion | EventOp.cc:521-534 | registration and region go, the reply is copied and a first send is posted |
| Handlers.RpmaHandler.Dispatch | EventOp.cc:536-549 | the peeked type decides; an unknown one changes nothing |
| Handlers.RpmaHandler.Deal | EventOp.cc:551-566 | handle, post the next receive, then send whatever the buffer holds |
| Handlers.ClientHandler.Start | EventOp.cc:692-710 | the request is copied, a receive and then a send are posted |
| Handlers.ClientHandler.ReadReply | EventOp.cc:643-672 | the descriptors are split at the region descriptor's size and both parts read; a region descriptor librpma refuses does not end the reading |
| Handlers.ClientHandler.Take | EventOp.cc:649-687 | the peer configuration is applied and `_image_mr` replaced before the size check, the flush type set after it; a refused descriptor leaves the old region |
| Handlers.ClientHandler.UseRemoteDescriptor | EventOp.cc:643-690 | what is taken is what the receive buffer says |
| Handlers.ClientHandler.Finish | EventOp.cc:706-753 | the callback ends the wait unless it throws; init_replica returns 0 whatever the descriptor's result, close_replica 0 exactly on success |
| HandshakeSafety.DescriptorTransport | EventOp.cc:457-504 | the slices the client hands on are byte for byte what the server got from librpma, over any stale buffer, for all sizes that fit |
| HandshakeSafety.ReadsReply | EventOp.cc:643-687 | a client reads from a reply exactly the size, pmem support and registration of the region it was built for |
| HandshakeSafety.UsageAllowsOne | EventOp.cc:431-438 | a region is registered for writes into it and for the one flush type its memory allows, and for nothing else |
| HandshakeSafety.RefusedRegionIgnored | EventOp.cc:653-687 | a region descriptor librpma refuses leaves the old region, applies the peer configuration and judges the old region's size |
| HandshakeSafety.MalformedStops | EventOp.cc:536-549 | what cannot be decoded stops the server before anything changes, an unknown type is passed over |
| HandshakeSafety.PostNextKeeps | EventOp.cc:554-562 | re-posting the receive before the reply leaves every clean world in order, so the next request always finds a receive |
| HandshakeSafety.RespondKeeps | EventOp.cc:564-565 | the reply goes out over a buffer no other send still needs, and from then on the client's answer is under way |
| HandshakeSafety.CleanRunsAreSafe | EventOp.cc:551-566 | in every run without a call after FINISHED there is no fault, what leaves a buffer is what was posted, every message finds a receive except the second FINISHED copy, and the flush type is always the registered and supported one |
| HandshakeSafety.AcceptsIffNoLarger | EventOp.cc:668-679 | without a call after FINISHED, every INIT reply carries the region's size and kind, and is taken exactly when the image is no larger than the first request's |
| HandshakeSafety.ServerIsHonest | EventOp.cc:508-534 | in every run, whatever fails, an INIT reply in the server's buffer gives the size and kind of memory of the region it has now |
| HandshakeSafety.SendsCounted | EventOp.cc:521-566 | server sends equal requests handled plus FINISHED requests handled, in every run |
| HandshakeBalance.CreditsBalance | EventOp.cc:551-565 | in every run of any calls neither side reads a buffer with a receive posted into it, and receives, requests and replies are counted exactly |
| HandshakeBalance.EarlyReadsMarked | EventOp.cc:551-565 | reading a buffer with a receive posted into it would be marked, and no mark is ever taken back |
| HandshakeBalance.CallReports | EventOp.cc:706-753 | in every run a call ends exactly when its reply can be read; init_replica then returns 0 whatever the reply offers, close_replica 0 exactly on success; otherwise the wait goes on |
| HandshakeBalance.ResultStays | EventOp.cc:719-753 | what a call returned stands until the next reply is read |
| HandshakeFit.MisfitIffRegionChanged | EventOp.cc:643-690 | in every run, what a client takes was the region when the reply left, and is wrong exactly when the region changed before the reply was read |
| HandshakeFit.TakenAsRead | EventOp.cc:643-690 | an offer replaces region and peer configuration in any case and the flush type only if the image fits; a refusal changes nothing |
| HandshakeFaults.SecondCopyIsStale | EventOp.cc:528-565 | while a reply waits that no call has taken, the next call can be answered by it before its request has left |
| HandshakeFaults.SafeIffFinishedLast | EventOp.cc:692-754 | every run of a client's calls is free of faults if and only if no call follows a FINISHED one; exactly otherwise a call can be answered by the reply to another, and a message copied under a send that has not left |
| HandshakeFaults.LeavesAsPosted | EventOp.cc:501-504 | in every run of any plan, unless the bytes of a waiting send were changed, every message leaves its buffer as it was posted |
| HandshakeFaults.AlteredIff | EventOp.cc:528-565 | the bytes of a waiting send can be changed, on either side, exactly when a call follows a FINISHED one and not all calls are FINISHED ones |
| HandshakeLag.LagExchange | EventOp.cc:551-566 | each FINISHED exchange leaves one more reply that no receive waits for |
| HandshakeDrift.MisfitIffDrifts | EventOp.cc:521-690 | a client can take a wrong size or flush type in some run if and only if its plan's tallies of calls and requests can lose a region, which a terminating check of the plan decides |
| HandshakeDrift.FlushTypeAgrees | EventOp.cc:649-687 | in every run of any plan the check passes, after every INIT reply taken the flush type is the one the server's region is registered for and the size is the region's |
| HandshakePlans.FitsUnlessHazardous | EventOp.cc:521-566 | a run with a wrong size or flush type has a plan with two FINISHED calls, INIT, FINISHED and an INIT for no more, in this order |
| HandshakePlans.LosesRegion | EventOp.cc:521-566 | every plan with a FINISHED call right after an INIT one, and a later INIT call for no more within reach of the spare replies of earlier FINISHED calls, loses a region |
| HandshakePlans.RequestLeavesAsAnother | EventOp.cc:692-703 | an eight-call plan that loses a region only because one request is overwritten by a later call and leaves as a FINISHED one |
| HandshakePlans.FlushTypeCanDisagree | EventOp.cc:521-566 | two FINISHED calls, INIT, FINISHED and an INIT for no more lose a region |
| HandshakePlans.DriftsInPartIffHazardous | EventOp.cc:521-690 | a client that makes some or all of its plan's calls can lose a region if and only if the plan has these five in order |
| HandshakeRegistration.ReplyNamesRegistrationIff | EventOp.cc:448-484 | in every run an INIT reply in the buffer names the current registration if and only if the last request that registered did not fail afterwards |
| HandshakeRegistration.ImageNamesRegistrationIff | EventOp.cc:649-687 | in every run the `_image_mr` a client takes names the current registration if and only if the reply did when it left and the registration has stood since |
| HandshakeRegistration.CleanImageIff | EventOp.cc:649-687 | without a call after FINISHED, if and only if the last request that registered did not fail afterwards |
| HandshakeRegistration.EndedRegistrationAccepted | EventOp.cc:448-484 | two INIT calls in a row, the second for no more, have a run, with a key of its own for each registration, in which the client takes a region whose registration has ended |
| HandshakeRegistration.EndedIffRepeats | EventOp.cc:448-484 | a client none of whose calls follows a FINISHED one can take such a region if and only if it repeats its first INIT call for no more |
| ServerHistory.AdvertisedSize | EventOp.cc:508-524 | an INIT reply gives the size and memory kind of the first INIT since the last FINISHED and the current registration, over every request sequence whose foreign calls succeed |
| ServerHistory.FailedSetupResends | EventOp.cc:551-565 | a setup that fails keeps or makes its region all the same and sends again what the send buffer held; if it failed after registering, the earlier registration has ended |
| ServerHistory.EndedRegistrationAdvertised | EventOp.cc:448-484 | a pmem region registered again and then not configured is advertised under a registration librpma no longer has |
| ServerHistory.SizeCheck | EventOp.cc:668-679 | the client's check passes exactly when its request is no larger than the one that opened the region |
| ServerHistory.CloseReplicaReports | EventOp.cc:521-534 | close_replica returns 0 exactly when there was no region or its file was removed |
| ServerHistory.RegionIsBlock | EventOp.cc:514-526 | the exchange's region and registration move as the memory manager's block and `data_mr` do, for every outcome |
| OperationHistory.OperationsAreCalls | EventOp.cc:336-356 | over every run the operations are the calls made, in order, each with the address, callback and acceptance it was made with and the outcome the events report |
| OperationHistory.LivesIff | EventOp.cc:326-356 | an object lives exactly from a call the device takes to its success, and the device holds it until it reports |
| OperationHistory.TableIsOutstanding | EventOp.cc:303-356 | over every run in which inserts precede successes the table holds exactly the live operations whose insert is done |
| OperationHistory.CallbackRunsIff | EventOp.cc:326-332 | over every run a callback runs once if its call came with one and a success of it is among the events, and never otherwise |
| OperationHistory.EveryOperationFreedOnce | EventOp.cc:188-195 | after destruction nothing lives and every operation asked for was freed exactly once, in whatever order inserts came; no dead pointer is used if inserts precede successes |
| OperationHistory.DeadPointerFreedIff | EventOp.cc:771-797 | over every run the destructor frees a dead pointer exactly when a pointer was inserted after its object's end, no later operation at that address succeeded and none lives there |
| Operations.ReuseTakesAway | EventOp.cc:771-797 | a completion between post and insert leaves a dead pointer, and a later operation at the same address takes it away |
| Operations.DeadUseFaults | EventOp.cc:326-329 | any use of a pointer whose object is gone is a fault, which the results above exclude |
| ConnectionHandlers.ConnectionHandler.Offer | EventOp.cc:776-778 | the first half of a post: the device has the pointer and the table does not, or the object is freed |
| ConnectionHandlers.ConnectionHandler.Keep | EventOp.cc:779-782 | the second half: the pointer goes into the table whatever has become of its object |
| ConnectionHandlers.ConnectionHandler.Issue | EventOp.cc:336-356 | both halves with nothing in between: the pointer is kept exactly when the device took the operation |
| ConnectionHandlers.ConnectionHandler.RunBody | EventOp.cc:551-566 | a callback's posts re-enter the engine one after the other |
| ConnectionHandlers.ConnectionHandler.Reclaim | EventOp.cc:326-329 | out of the table, callback, then free |
| ConnectionHandlers.ConnectionHandler.HandleCompletion | EventOp.cc:303-334 | each kind of completion moves the engine as specified and keeps ownership in order |
| ConnectionHandlers.ConnectionHandler.Dispose | EventOp.cc:188-195 | the loop over the table frees exactly what it holds, in any order, dead pointers included |
| Reactor.LoopAgrees | Reactor.cc:37-99 | at every wait the epoll set has the table's descriptors and live pointers, and a handler lives, and its descriptors are open, exactly while it is referred to |
| Reactor.CloseEndsHandler | EventOp.cc:253-255 | a close event removes exactly that handler's entries and destroys it unless held, touching nothing that is gone |
| Reactor.EndsOnlyBy | EventOp.cc:244-255 | a handler that outlived its admission ends only by a close event on its own connection or when the main program lets it go |
| Reactor.RegisterAgreesIff | Reactor.cc:37-67 | registration keeps agreement exactly when the descriptor is not in the table already; otherwise its entry goes and the kernel keeps its pointer |
| Reactor.RemoveSelfKeeps | EventOp.cc:415-422 | remove_self takes both entries and leaves the handler only if someone holds it |
| Reactor.RegisterSelfKeeps | EventOp.cc:401-413 | register_self adds both entries if all four kernel calls succeed and none otherwise |
| Reactor.AdmitKeeps | EventOp.cc:130-142 | an admitted handler lives with both its entries if all four kernel calls succeed; otherwise nothing of it is left |
| Reactor.AdmitsIff | EventOp.cc:130-142 | over every run a connection request at the acceptor brings in exactly the new handler, a Connection and a Completion node for it and the kernel's pointers to them, or changes neither table, kernel nor handlers |
| Reactor.OpensIff | EventOp.cc:619-631 | the same for a connection the main program opens, whose handler lives on while held |
| Reactor.ListensIff | EventOp.cc:107-112 | the acceptor's entry is made exactly when its descriptor could be registered |
| Reactor.OthersLeave | Reactor.cc:88-97 | any other wake-up leaves table, kernel and handlers as they are |
| Reactor.LetsGo | EventOp.cc:217-256 | letting go of a handler ends it exactly when nothing else refers to it and takes no entry away |
| Reactor.LastReferenceEnds | EventOp.cc:415-422 | whatever drops the last reference ends the handler and closes its descriptors, which the kernel then forgets |
| Reactor.NoDescriptor | Reactor.cc:37-42 | a handler without a descriptor for the type is neither registered nor removed |
| Reactor.DeadUseFaults | EventOp.cc:415-422 | any use of a handler that is gone is a fault |
| Reactor.StaleWakeFaults | Reactor.cc:90-92 | following the kernel's pointer to a node or handler that is gone is a fault |
| Lifetimes.CallbackFindsHandler | EventOp.cc:551-566 | over every run of loop, handlers and completions, overtaken inserts included, a completion descriptor leads to a living handler with its operations in order, so a callback finds the handler it captured |
| Lifetimes.EndFreesOperations | EventOp.cc:188-195 | over the same runs a handler that ends leaves no operation behind, each freed once, and no callback of it can run; no dead pointer is freed if no insert was overtaken |
| Lifetimes.EnginesAreHistories | EventOp.cc:303-334 | over every run the reactor is where its own events take it, and each living connection handler's operations are where what happened to that handler since it was made takes them |
| Lifetimes.DeadCompletionFaults | EventOp.cc:326-329 | a completion that leads to a handler that is gone is a fault |
| EventLoop.EventReactor.EmplaceEntry | Reactor.cc:49-53 | a new node, or the one that stands there with its type and handler overwritten and its old handler let go |
| EventLoop.EventReactor.RegisterHandler | Reactor.cc:37-67 | emplace, fill in, tell the kernel, and take the entry back if it refuses |
| EventLoop.EventReactor.RemoveHandler | Reactor.cc:69-79 | the descriptor leaves the epoll set, then the table |
| EventLoop.EventReactor.RegisterBoth | EventOp.cc:401-413 | both registrations, the first undone if the second fails |
| EventLoop.EventReactor.RemoveBoth | EventOp.cc:415-422 | every use of the handler finds it alive |
| EventLoop.EventReactor.AdmitNew | EventOp.cc:130-142 | the new handler is held while it registers itself |
| EventLoop.EventReactor.HandleEvent | Reactor.cc:90-92 | the kernel's pointer leads to a live node of a live handler, and agreement holds again afterwards |
| EventLoop.EventReactor.HandleEvents | Reactor.cc:83-99 | the loop keeps agreement over whatever the kernel reports and stops when the table is empty |
| EventLoop.LoopHandles | Reactor.cc:88-97 | the loop handles the wake-ups in order and leaves one unhandled only if the table was empty before it |
| EventLoop.LoopIsRun | Reactor.cc:88-97 | over wake-ups the kernel can report the loop is the run of all of them |
| Region.StepKeepsIff | MemoryManager.cc:28-95 | a request keeps the block, flag, size and registration in order exactly when it maps no file of another length |
| Region.RunKeepsIff | EventOp.cc:448-526 | the same over every run, so a registration covers a live block of its size at all times |
| Region.EveryBlockReturnedOnceIff | MemoryManager.cc:45-95 | over every run and destruction all blocks and registrations are given back by the rules exactly when no length differed |
| Region.WrongLengthUnmapped | MemoryManager.cc:82-93 | an existing file of another length is unmapped with the wrong length |
| Region.RulesCaught | MemoryManager.cc:45-95 | the audit is broken by exactly the releases, registrations and deregistrations the libraries forbid |
| Region.NewRegistrationEndsOld | EventOp.cc:448-455 | registering a block again ends the registration it had |
| Region.FirstRequestDecides | EventOp.cc:514-524 | the block has the size and kind the first request since the last FINISHED got, and is registered |
| MemoryManagers.MemoryManager.GetMemoryFromPmem | MemoryManager.cc:76-95 | a mapping that is not persistent or of another length is unmapped with the wanted size |
| MemoryManagers.MemoryManager.GetMemoryFromDram | MemoryManager.cc:97-101 | the heap block, or null |
| MemoryManagers.MemoryManager.Init | MemoryManager.cc:28-43 | pmem first, then the heap; throws exactly when both fail |
| MemoryManagers.MemoryManager.CloseAndRemove | MemoryManager.cc:45-57 | the matching release, and success exactly when there was no block or the file was removed |
| MemoryManagers.MemoryManager.Unload | MemoryManager.cc:59-70 | the matching release |
| MemoryManagers.DataRegion.Reset | EventOp.cc:448-455 | the old registration ends after the new one was taken |
| MemoryManagers.DataRegion.RegisterMr | EventOp.cc:448-455 | the block is registered with its size, or nothing changes |
| MemoryManagers.DataRegion.Setup | EventOp.cc:514-518 | a block is made only if there is none |
| MemoryManagers.DataRegion.Close | EventOp.cc:521-526 | deregistration precedes the release |
| MemoryManagers.DataRegion.Dispose | EventOp.h:155-157 | so it does in destruction |
| Connection.TeardownOnce | EventOp.cc:53-78 | the last connection set is deleted once, as the last call and after a disconnect; one never set is not |
| Connection.DisconnectsCounted | EventOp.cc:53-78 | one disconnect for each time the owner disconnected, and one by the destructor if the last thing was a hand-over |
| Connection.NoneLeakedIff | EventOp.cc:65-68 | every connection handed over is deleted exactly once if and only if at most one was handed over |
| Connection.HandlerTeardown | EventOp.cc:217-300 | one disconnect for each request, event error, wait error or failed fetch, one in all if there was none, then one delete |
| Connection.ReverseSafeIff | EventOp.h:122-135 | reverse destruction is safe exactly when nothing is declared before what it needs |
| Connection.HandlerTeardownSafeIff | EventOp.h:122-157 | registrations end before their memory and everything before the peer; over every sequence of incidents destruction is safe exactly when one of them took the connection down, which otherwise outlives the registrations its posted operations need |
| Connection.RpmaConn.Reset | EventOp.cc:65-68 | takes a connection and forgets any earlier disconnect |
| Connection.RpmaConn.Break | EventOp.cc:74-78 | marks and disconnects |
| Connection.RpmaConn.Dispose | EventOp.cc:53-63 | disconnects unless done, deletes, and does nothing without a connection |
| Mirror.ReplicaMirrors | EventOp.cc:771-784 | after any run each replica byte is the source byte at the same offset when the last write reached it, or untouched |
| Mirror.WriteCopies | EventOp.cc:771-784 | a write of up to a gibibyte inside both memories copies exactly its range, a longer one nothing |
| Mirror.SourceIsStored | EventOp.cc:771-784 | the client's memory holds what was last stored there; writes and flushes do not change it |
| Mirror.DurableMirrors | EventOp.cc:786-797 | each durable byte is the replica's byte when the last persistent flush covered it, or untouched |
| Mirror.WrittenAndFlushed | EventOp.cc:771-797 | written, left alone and flushed: replica and durable copy hold the source byte |
| Mirror.Replica.CompleteWrite | EventOp.cc:771-784 | a completed write changes exactly its range of the replica |
| Mirror.Replica.CompleteFlush | EventOp.cc:786-797 | a completed persistent flush changes exactly its range of the durable copy |
| Naming.SamePathIff | EventOp.cc:514-514 | exactly when two requests are served from one file |
| Naming.PathInjective | EventOp.cc:514-514 | with dot-free pool names the path gives back pool, image and id |
| Naming.OwnFileIff | EventOp.cc:514-514 | a request shares its file with no other exactly when neither name has a dot |
| Naming.DottedPoolsCollide | EventOp.cc:514-514 | two different volumes with one cache file |
| Naming.DecimalDigits | EventOp.cc:514-514 | the id is written in its decimal digits |
| Naming.DecimalLength | EventOp.cc:514-514 | all of them, without a leading zero |
| Naming.PathOf | EventOp.cc:514-514 | paths in full |

## Left out

- Timeouts and clocks: `cost_time` starts without a value and the callbacks capture stack flags; the model covers calls whose reply arrives in time.
- Failed posts in the exchange: the exchange assumes that sends and receives are posted; the operation engine models posts that fail.
- Completion draining: one completion is taken per wake-up, so nothing is claimed about progress.
- Data races on the client's `callback_table` itself, beyond the order of post, insert and completion.
- Names of four gibibytes or more in the exchange: there the requests are those whose names fit their length; Wire.RoundTrip says what happens to longer ones.
- Malformed descriptors of a foreign server: bytes beyond the received string, which the client would read, have no value here.
- A formula for the check of `HandshakeDrift`: it is a search over tallies, since requests that overwrite each other in the client's buffer make the counts depend on the order of events.
- Handlers whose registration with the reactor fails as they are made: Lifetimes.dfy follows those that outlive that step.
- The two-argument constructor of `MemoryManager`, which the handlers do not use.
- `write_atomic` and `prepare_for_send`, which are declared but not defined.
- The forwarding bodies of the operation classes, the programs' mains, logging and the build.
- The pool and image names of Naming.dfy are strings of characters, those of the wire are bytes; the two are not linked.
