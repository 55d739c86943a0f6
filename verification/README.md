# A verified model of WarpStream's core

WarpStream tunnels TCP and UDP inside WebSocket frames. This project models the
parts of it that are protocols rather than plumbing, and proves what they promise:

- the reverse-tunnel manager, where client tunnels wait in a bounded queue per
  listener and accepted connections take them out, while an idle reaper, a waiter
  timeout, a failing listener and shutdown race with both;
- the WebSocket frame writer and reader, and the pipe that carries a byte stream
  through them;
- the client's connection pool, the reverse UDP sessions and their idle timers;
- the target frame, the two SOCKS5 handshakes, the control-message walk, the
  tunnel-argument splitter and the restriction rules.

Concurrent code appears twice. A transition system with one step per mutex section,
atomic access, channel operation or `select` choice carries the theorems about every
run; classes with the program's own fields and loops carry the sequential bodies, each
proved against the function its transition uses or against a specification of its own.
Clocks are logical: a timer may fire at any step at or after its time. Bytes are
integers below 256, identities of goroutines, listeners and connections are numbers,
and widths matter only where the code depends on them (32-bit and 64-bit words are
written out in `Socks5`, `Frames` and `Cmsg`).

| files | subject |
|---|---|
| `ListenerQueue`, `QueueInvariants`, `QueueSteps`, `QueueTheorems`, `HandlerFrames`, `FinishRuns`, `TimeoutRace`, `QueueProgress`, `TunnelListener` | one listener's queue: steps, invariant, theorems, what no other step touches, who closes the transport, the idle-timeout race, progress, the in-place slice |
| `Registry`, `Rendezvous`, `ManagerTheorems`, `ReaperRuns`, `Manager` | the address-to-listener map, all listeners together, theorems, the reaper over every run, the manager object |
| `Bytes`, `Frames`, `RawFrames`, `FrameStreams`, `Conn`, `Pipe`, `PipeRuns` | the codec, its bytes one by one, streams of frames, the connection object, the copy loops, every run of a pipe |
| `Pool`, `ConnectionPool` | the pool's steps and theorems, its loops |
| `UdpSession`, `UdpTable` | one session as a queue, the session table with its timers and closes |
| `Targets`, `Socks5`, `Handshakes` | target frame, handshakes as functions and as buffer-reusing methods |
| `Cmsg`, `TunnelSpec`, `Restrictions` | the remaining parsers and rules |
| `Sequences`, `Wrappers` | shared vocabulary |

Five natural claims are false of the code. Each has a concrete counterexample and the
exact condition under which it holds:

- *A client handed out is never closed by its own idle timeout.* The test, the closing
  of the transport, the closing of `done` and the purge are separate steps, and the
  client can be handed out before the close or after it (`TimeoutRaceHappens`,
  `TakenAfterClose`, `TimeoutRaceExact`). Making test and close one step would not be
  enough: the window ends with the purge.
- *An acquirer waits at most ten seconds.* The timer starts before the deadline is
  computed (`SleepsPastDeadline`, `DeadlineExact`).
- *While the transport accepts them, the writer puts only whole frames on the wire.* A
  refused control frame leaves its first byte in the buffer, for the next frame to flush
  (`StrayByteSwallowsMessage`, `WholeFramesExact`).
- *No UDP session stays in the table after its handler's last close.* Another call may
  have closed the wrapper and not yet reached the table (`OutlivesHandler`,
  `InTableAfterHandler`).
- *The constant-time comparison is equality.* It looks at the low 32 bits of the lengths
  (`SameFailsWhenLong`, `ComparisonExact`, and for logins `TellsExactly`).

And a listener serves a client of another protocol exactly when it holds the address
(`JoinsByAddressAlone`, `JoinsAnotherProtocol`).

## Model

| member | source | states |
|---|---|---|
| `QueueTheorems.NoLostWakeup` | pkg/server/manager.go:194-373 | in every reachable state a sleeping acquirer means an empty queue and no quit, a sleeping enqueuer a full queue and no quit, so with room for one the two never sleep together; a finished client still queued on a live listener has its handler's purge pending |
| `QueueTheorems.OwnershipPartition` | pkg/server/manager.go:107-126 | over every run each client is exactly one of not yet queued, queued once, held by one connection, or removed because finished; no client goes to two connections; the queue stays within its bound |
| `QueueTheorems.FirstInFirstOut` | pkg/server/manager.go:297-373 | clients are handed out in the order they were queued, each found unfinished by a test made between the beginning and the end of the section that handed it out |
| `QueueTheorems.FinishedOnce` | pkg/server/manager.go:91-105 | `done` and the transport are each closed at most once under any race; a handler returns only with `done` closed, and with the transport closed if its client was not acquired; the timeout branch never closes a client it saw acquired |
| `FinishRuns.TransportClosedExactly` | pkg/server/manager.go:91-105 | over every run a client's transport is closed, and then once, exactly if its own handler is the one that entered `finish`; a connection's release never closes it |
| `TimeoutRace.TimeoutRaceExact` | pkg/server/manager.go:251-260 | over every run after a test that found the client idle: it is handed out exactly if some acquiring section ends with it as its first surviving entry, closed by the timeout exactly if the handler's `finish` is the one that runs, and every such section ends before the handler's own purge does |
| `TimeoutRace.TimeoutSparesUninterrupted` | pkg/server/manager.go:251-260 | so the client is never handed out when no acquiring section ends between the test and the end of the handler's purge |
| `TimeoutRace.TimeoutRaceHappens` | pkg/server/manager.go:251-260 | a run in which the client is handed out between the test and the close, and then closed |
| `TimeoutRace.TakenAfterClose` | pkg/server/manager.go:91-105 | a run in which the transport is closed right after the test, and the client then handed out because `done` is still open |
| `QueueProgress.HandlerProgress` | pkg/server/manager.go:218-323 | in every reachable state a client handler that has not returned, does not sleep and has something ready in its select can step, or the holder of `queueMu` can, or the connection running its client's `finish` |
| `QueueProgress.IncomingProgress` | pkg/server/manager.go:325-373 | likewise an incoming connection that neither sleeps, pipes nor is done, or the holder of `queueMu`, or the handler running `finish` for its client |
| `QueueTheorems.SleepsPastDeadline` | pkg/server/manager.go:325-373 | an acquirer that computed its deadline after starting its timer can sleep arbitrarily long past the deadline, its only timed broadcast spent |
| `QueueTheorems.DeadlineExact` | pkg/server/manager.go:326-335 | a sleeping acquirer's timed broadcast is always still due if and only if timer and deadline come from the same clock reading |
| `QueueTheorems.DeadlineAfterTimer` | pkg/server/manager.go:326-335 | the timer runs at least ten seconds, the deadline is never earlier than the timer's, and a broadcast that did not end the sleep came before the deadline |
| `QueueTheorems.EnqueueSectionIsStep` | pkg/server/manager.go:297-323 | an enqueuing step leaves the queue, the outcome and the sleepers that the function proved of the method gives; without a broadcast no other goroutine is touched |
| `QueueTheorems.AcquireSectionIsStep` | pkg/server/manager.go:325-373 | likewise for an acquiring step; without a broadcast no other goroutine is touched |
| `QueueTheorems.QuitFreezesQueue` | pkg/server/manager.go:194-206 | once quit is set no run queues anybody and the queue only loses entries, in order |
| `QueueSteps.StepInv` | pkg/server/manager.go:91-373 | every step of every goroutine keeps the listener's invariant |
| `QueueSteps.PurgeFacts` | pkg/server/manager.go:262-288 | what a purge removes is finished, what it keeps was alive when looked at, and a timed-out handler removes itself |
| `TunnelListeners.Compact` | pkg/server/manager.go:263-277 | writing survivors over the front of the slice being scanned is the order-preserving removal of exactly the nil and finished entries, and nothing outside the slice changes |
| `TunnelListeners.TunnelListener.PurgeDoneWaiters` | pkg/server/manager.go:262-288 | the whole purge, with its reset of an empty slice and its broadcast exactly when something went |
| `TunnelListeners.TunnelListener.Append` | pkg/server/manager.go:310-316 | appending to the shared slice adds the client at the end |
| `TunnelListeners.TunnelListener.EnqueueOnce` | pkg/server/manager.go:297-323 | one turn of the enqueue loop computes the section's queue, outcome and broadcast |
| `TunnelListeners.TunnelListener.TakeOnce` | pkg/server/manager.go:340-372 | one turn of the acquire loop likewise, and never yields a nil entry |
| `TunnelListeners.TunnelListener.AcquireOnce` | pkg/server/manager.go:340-372 | the client taken is marked acquired and no other client is touched |
| `TunnelListeners.TunnelListener.Quit` | pkg/server/manager.go:194-206 | shutting down sets quit once and wakes the sleepers |
| `ManagerTheorems.NoSharedClient` | pkg/server/manager.go:454-607 | no client tunnel is ever paired with two incoming connections, whatever the listeners |
| `ManagerTheorems.ActiveIsExact` | pkg/server/manager.go:137-155 | while a listener is registered `active` is the number of its connections begun and not ended, though both updates are skipped once it is unregistered |
| `ManagerTheorems.ActiveNeverNegative` | pkg/server/manager.go:137-155 | `active` is never negative, registered or not |
| `ManagerTheorems.ReaperSparesBusy` | pkg/server/manager.go:157-192 | the reaper, judging by a clock read before it took the lock, never removes a listener with a connection in flight |
| `ReaperRuns.ReaperExact` | pkg/server/manager.go:128-192 | at every tick in every run the reaper removes exactly the registered listeners with no connection running whose every creation, join, touch and beginning or end of a connection lies at least the idle timeout before the clock it read |
| `ReaperRuns.LastUsedIs` | pkg/server/manager.go:128-155 | along every run `lastUsed` of a registered listener is the time of the last of those events |
| `ManagerTheorems.ExitSparesOthers` | pkg/server/manager.go:523-543 | a dying listener's exit removes itself and nobody else, in particular no successor at its address |
| `ManagerTheorems.UnregisteredIsShut` | pkg/server/manager.go:73-89 | an unregistered listener is shut down or in some goroutine's list of listeners to shut down |
| `ManagerTheorems.NeverRegisteredAgain` | pkg/server/manager.go:397-451 | along every run an unregistered listener is never registered again |
| `ManagerTheorems.ShutQueueNeverGrows` | pkg/server/manager.go:297-323 | along every run of the manager the queue of a listener shut down never grows |
| `ManagerTheorems.EveryListener` | pkg/server/manager.go:34-58 | the queue of every listener of a running manager is a reachable queue with room for ten, so every theorem about reachable queues holds of it |
| `ManagerTheorems.JoinsByAddressAlone` | pkg/server/manager.go:397-451 | a client gets a listener of its own protocol exactly when its address is free or held by such a one |
| `ManagerTheorems.JoinsAnotherProtocol` | pkg/server/manager.go:397-451 | a run in which a SOCKS5 client joins a TCP listener |
| `Rendezvous.StepInv` | pkg/server/manager.go:73-607 | every step of the whole manager keeps the registry, every queue and their ties consistent |
| `Registry.StepInv` | pkg/server/manager.go:73-192 | every step keeps the registry's invariant: counts, pending shutdowns, exited loops |
| `Managers.ReverseTunnelManager.GetOrCreate` | pkg/server/manager.go:397-451 | joins the listener at the address or creates one, as the registry's step does; nothing changes when listening fails |
| `Managers.ReverseTunnelManager.Touch` | pkg/server/manager.go:128-135 | the registry's touching step |
| `Managers.ReverseTunnelManager.UpdateActive` | pkg/server/manager.go:137-155 | the registry's counting step, skipped once unregistered |
| `Managers.ReverseTunnelManager.ReapIdle` | pkg/server/manager.go:177-187 | deleting while scanning removes exactly the stale entries and lists each once |
| `Managers.ReverseTunnelManager.ReapIdleListenersOnce` | pkg/server/manager.go:176-192 | exactly the stale listeners leave the registry, shut down; all others are untouched |
| `Managers.ReverseTunnelManager.TakeAll` | pkg/server/manager.go:78-84 | the map is emptied into a list of exactly what was registered, each once |
| `Managers.ReverseTunnelManager.ShutDown` | pkg/server/manager.go:86-88 | exactly the listed listeners are shut down |
| `Managers.ReverseTunnelManager.Close` | pkg/server/manager.go:73-89 | nothing stays registered and whatever was registered is shut down |
| `Managers.ReverseTunnelManager.Unregister` | pkg/server/manager.go:528-538 | only the listener's own entry goes |
| `Frames.FrameInverse` | pkg/wst/connection.go:186-262 | a frame in any length form and under any masking key is read back exactly, and what follows it is left alone (sections 5.2 and 5.3 of RFC 6455) |
| `Frames.MaskUndo` | pkg/wst/connection.go:238-243 | unmasking with the same key undoes any masking |
| `Frames.LengthInverse` | pkg/wst/connection.go:200-219 | each of the three length forms is read back to its length |
| `Frames.WriterIsShortest` | pkg/wst/connection.go:122-184 | the writer's frame is never longer than another encoding of the same payload, and as long only in the same form |
| `Frames.ReadFrameStable` | pkg/wst/connection.go:186-262 | more bytes never change a frame that was complete |
| `RawFrames.ReadsRaw` | pkg/wst/connection.go:190-236 | on any bytes, told by the bytes: the opcode, the mask bit, the three length forms high byte first, the 10 MiB limit, which bytes are key, payload and rest, and when more are needed |
| `RawFrames.NoAnnouncement` | pkg/wst/connection.go:190-219 | a stream too short to announce a length is read no further |
| `RawFrames.UnmaskedRaw` | pkg/wst/connection.go:190-236 | an unmasked frame's payload is the announced bytes as they stand |
| `RawFrames.MaskedRaw` | pkg/wst/connection.go:238-243 | in a masked one bit b of payload byte i is the exclusive or of the bits of byte i and of key byte i mod 4 |
| `RawFrames.Hello` | pkg/wst/connection.go:186-262 | the masked text frame of section 5.7 of RFC 6455 is read as "Hello" |
| `RawFrames.OpcodesRaw` | pkg/wst/connection.go:245-258 | opcode 8 ends the call, 9 and 10 go to their handlers, a ping beyond 125 bytes is an error, and every other opcode is delivered |
| `RawFrames.WritesRaw` | pkg/wst/connection.go:122-184 | every byte of a written frame: first byte, length form and its bytes high byte first, the zero key of a masking writer, and the data unchanged |
| `FrameStreams.StreamInverse` | pkg/wst/connection.go:122-262 | reading any written sequence of frames yields exactly the data messages before the first close, in order, and each ping and pong payload once |
| `FrameStreams.ReadAllByMessages` | pkg/wst/connection.go:186-262 | what a session delivers is what repeated calls of ReadMessage deliver |
| `FrameStreams.CutStream` | pkg/wst/connection.go:186-262 | a stream cut anywhere delivers a prefix of what the whole stream delivers |
| `FrameStreams.MessageInverse` | pkg/wst/connection.go:122-262 | a data message written whole is what the next call delivers |
| `Connections.Unmask` | pkg/wst/connection.go:238-243 | the in-place loop is the mask |
| `Connections.Conn.WriteMessage` | pkg/wst/connection.go:122-184 | the frame goes out behind whatever the buffer held; a flush that fails sends part of it and breaks the writer for good, and a broken writer takes nothing |
| `Connections.Conn.WriteControl` | pkg/wst/connection.go:81-116 | likewise up to 125 bytes; beyond that an error with one stray byte left in the buffer |
| `Connections.Conn.ReadHead` | pkg/wst/connection.go:190-227 | reads the header the specification describes and no further |
| `Connections.Conn.ReadOneFrame` | pkg/wst/connection.go:190-243 | one frame, or the exact error, with the input left where the code leaves it |
| `Connections.Conn.HandlePing` | pkg/wst/connection.go:61-72 | a ping is answered with one pong of the same payload; a closed-connection error is swallowed, any other is reported |
| `Connections.Conn.Receive` | pkg/wst/connection.go:186-262 | the loop delivers the specified message, hands each control payload over once and answers each ping through the writer, ending at a pong that cannot be written |
| `Connections.ReliableExactly` | pkg/wst/connection.go:186-262 | while the transport accepts every pong a call delivers exactly what the frame format says; if it does not and the error is reported, the call ends with the failed pong |
| `Connections.PongsWritten` | pkg/wst/connection.go:61-72 | and what it writes is one pong for each answered ping, in order, behind what the buffer held |
| `Connections.PongRaw` | pkg/wst/connection.go:61-72 | the pong for a ping is 138, the length, the key if masking, and the ping's payload |
| `Connections.MakeCalls` | pkg/wst/connection.go:81-184 | any sequence of message and control calls: while the transport accepts their flushes everything up to the last call not refused is on the wire and the rest in the buffer, and once it does not a prefix of the output is |
| `Connections.WholeFramesExact` | pkg/wst/connection.go:81-93 | what those calls put on the wire, while the transport accepts it, is whole frames exactly when no refused control call is followed by a call that is not refused |
| `Connections.StrayByteSwallowsMessage` | pkg/wst/connection.go:81-93 | after one refused ping the next message is lost whatever its data and whatever follows: the reader goes on six bytes past the message's first one |
| `Pipes.CopyUp` | pkg/tunnel/pipe.go:18-37 | the copy loop over the reused buffer writes one frame per read and the close frame; when a write fails it stops with a prefix of that on the wire, all of it exactly when every frame was accepted |
| `Pipes.ChunkRaw` | pkg/tunnel/pipe.go:18-37 | each chunk read goes out behind a binary header, byte by byte |
| `Pipes.CloseRaw` | pkg/tunnel/pipe.go:21-23 | the closing frame has opcode 8 and the payload 3, 232: a normal closure |
| `Pipes.CopyDown` | pkg/tunnel/pipe.go:39-55 | the other loop writes exactly as much of the data of the messages delivered as TCP accepts |
| `Pipes.CopyFrames` | pkg/tunnel/pipe.go:39-55 | fed the written form of any frames, under any keys and length forms, it writes the payloads of those with opcode 1 or 2 before the first close, in order, and nothing of any other |
| `Pipes.PlayedIsCarried` | pkg/tunnel/pipe.go:39-55 | the same of the messages a stream of frames delivers |
| `Pipes.ReliableDelivery` | pkg/tunnel/pipe.go:39-55 | while pongs can be written those messages are the whole session's |
| `PipeRuns.MessageExact` | pkg/wst/connection.go:186-262 | a delivered message depends on its own bytes only |
| `PipeRuns.StepInv` | pkg/tunnel/pipe.go:14-58 | every read, write, control frame, cut, far read and failed pong keeps the pipe's invariant |
| `PipeRuns.StreamPreserved` | pkg/tunnel/pipe.go:14-58 | at every moment of every run, for every segmentation and every interleaving of other writers' control frames, the far bytes are a prefix of the near bytes, and all of them once the close frame is consumed |
| `Pool.Conservation` | pkg/client/pool.go:21-131 | at every moment each dialled connection is at exactly one of: pooled, with the maintainer, with a Get, with a Close, handed out, closed; none is pooled or closed twice |
| `Pool.NeverOverfull` | pkg/client/pool.go:38-80 | the pool never exceeds `minIdle` and the branch that discards because it is full is never taken |
| `Pool.EmptyAfterClose` | pkg/client/pool.go:115-131 | once some Close has returned the pool is empty for ever |
| `Pool.CloseCanReturn` | pkg/client/pool.go:115-131 | from every moment of every run, whatever the maintainer and the Gets were doing, a Close that was called can go on to return, by steps of its own and of the maintainer |
| `Pool.ClosingMoves` | pkg/client/pool.go:38-131 | its next such step is never blocked and brings it nearer |
| `Pool.ReturnedWhileOpen` | pkg/client/pool.go:82-113 | every connection a Get returned was returned on a look at `closed` made before it was stored |
| `Pool.StepInv` | pkg/client/pool.go:38-131 | every step of maintainer, Get and Close keeps the pool's invariant |
| `ConnectionPools.ConnectionPool.Fill` | pkg/client/pool.go:48-78 | the fill loop pools every connection it does not close, stops at cancellation or exactly `minIdle`, and its full branch is dead |
| `ConnectionPools.TurnsConserve` | pkg/client/pool.go:56-77 | every connection the loop dials is pooled or closed, once for each time it is dialled |
| `ConnectionPools.ConnectionPool.Get` | pkg/client/pool.go:82-113 | pooled connections first, in order; dialling only when empty; the last look at `closed`, wherever another goroutine stores it, decides between returning the connection in hand and closing it |
| `ConnectionPools.ConnectionPool.Close` | pkg/client/pool.go:115-131 | the drain loop closes everything pooled, once each |
| `UdpSessions.ReadsAreFifo` | pkg/server/reverse_udp.go:31-53 | over every sequence of calls the k-th packet read is the k-th accepted, pushed earlier: all of it, or its first bytes if the reader's buffer is smaller |
| `UdpSessions.LostOnlyWhenFullOrClosed` | pkg/server/reverse_udp.go:31-44 | a push is lost exactly when the session was closed before, or the pushes accepted before outnumber the packets read by 128 |
| `UdpSessions.EofAfterEverything` | pkg/server/reverse_udp.go:46-73 | end of file is seen exactly when the session is closed and every accepted packet has been read |
| `UdpSessions.UdpSessionConn.Push` | pkg/server/reverse_udp.go:31-44 | queues a private copy; never sends on a closed channel |
| `UdpSessions.UdpSessionConn.Read` | pkg/server/reverse_udp.go:46-53 | the oldest packet into the caller's buffer and nothing beyond it |
| `UdpSessions.UdpSessionConn.Close` | pkg/server/reverse_udp.go:59-73 | the first call alone closes the channel and runs the callback |
| `UdpSessions.UdpSessionConn.ReceiveAll` | pkg/server/reverse_udp.go:93-125 | what is queued is what arrived, although one buffer is overwritten by every datagram |
| `UdpTable.CallbackOnce` | pkg/server/reverse_udp.go:107-123 | under any race of closes a session's callback runs at most once, deletes that same session although it deletes by key, and until then the table holds it |
| `UdpTable.OnePerPeer` | pkg/server/reverse_udp.go:107-123 | of two sessions for one peer the older one's callback has run |
| `UdpTable.NeverRearmed` | pkg/tunnel/idletimer.go:37-73 | a closed wrapper's timer is stopped and no later step arms it |
| `UdpTable.InTableAfterHandler` | pkg/server/manager.go:545-547 | after the handler's last close the session is in the table exactly while another call is closing it |
| `UdpTable.WinningHandlerRemoves` | pkg/tunnel/idletimer.go:61-73 | a handler whose own call closed the wrapper leaves nothing in the table |
| `UdpTable.CloserRemoves` | pkg/server/reverse_udp.go:59-73 | the call still closing needs only its own steps, which nothing blocks, to remove the session |
| `UdpTable.OutlivesHandler` | pkg/tunnel/idletimer.go:61-73 | a run in which the session is in the table after its handler's last close returned |
| `UdpTable.StepInv` | pkg/server/reverse_udp.go:93-125 | every datagram, touch, timer and closing step keeps the table's invariant |
| `UdpTable.IdleTimeoutConn.Touch` | pkg/tunnel/idletimer.go:37-43 | re-arms an open wrapper and never a closed one |
| `UdpTable.IdleTimeoutConn.Transfer` | pkg/tunnel/idletimer.go:45-59 | traffic counts as activity only if bytes moved |
| `UdpTable.IdleTimeoutConn.Close` | pkg/tunnel/idletimer.go:61-73 | any number of calls close the wrapped connection once |
| `Targets.EncodeTargetFrame` | pkg/server/manager.go:609-619 | fills the frame, refusing exactly hosts over 255 bytes |
| `Targets.DecodeExact` | pkg/client/client.go:1010-1022 | decoding gives a target exactly on its frame and the frame's extensions |
| `Targets.TargetRaw` | pkg/server/manager.go:609-619 | the frame is the version, the host's length, the host, and the port's high and low byte |
| `Targets.DecodeRaw` | pkg/client/client.go:1010-1022 | and the port read is 256 times the first byte after the host plus the second |
| `Targets.StreamRoundTrip` | pkg/client/client.go:992-1006 | the byte-stream path takes exactly the frame and leaves the tunnelled bytes |
| `Targets.MessageRoundTrip` | pkg/client/client.go:978-985 | the frame sent as one WebSocket message comes back to the same target |
| `Socks5.DynamicTarget` | pkg/server/manager.go:621-685 | for every SOCKS5 domain CONNECT the server accepts, the target frame is never refused and the far end gets the same host and port on both transports |
| `Socks5.ParsersAgreeExactly` | pkg/client/client.go:680-709 | whatever two parsers that keep to the grammar answer, server and credential-free client agree on result, replies and bytes consumed exactly when nothing can be written, or the greeting is incomplete, or it offers method 0 |
| `Socks5.RequestInverse` | pkg/server/manager.go:640-684 | every well-formed CONNECT is read back and nothing after it is touched (sections 4 and 5 of RFC 1928) |
| `Socks5.RequestOnly` | pkg/server/manager.go:640-684 | only a well-formed CONNECT is accepted |
| `Socks5.RequestRaw` | pkg/server/manager.go:640-684 | a CONNECT's port is 256 times its first byte plus its second, for every kind of address |
| `Socks5.ServerRaw` | pkg/server/manager.go:621-685 | a domain CONNECT to the server, from the bytes sent to the bytes answered |
| `Socks5.ClientRaw` | pkg/client/client.go:680-791 | likewise to the client, with a user name and a password |
| `Socks5.RefusedRaw` | pkg/client/client.go:711-743 | and the bytes a wrong user name or password is answered with |
| `Socks5.RequestIsExactly` | pkg/server/manager.go:640-684 | the grammar allows exactly one answer to a stream: confirm a request, give up after four bytes if no continuation could be one, else read to the end |
| `Socks5.GreetingExact` | pkg/client/client.go:683-696 | a greeting is the version, a count and that many methods (section 3 of RFC 1928) |
| `Socks5.LoginExact` | pkg/client/client.go:711-743 | with credentials that tell, a login succeeds only with exactly the configured user name and password bytes, and with them goes on to the request (section 2 of RFC 1929) |
| `Socks5.TellsExactly` | pkg/client/client.go:711-743 | and that is so of exactly these credentials: not both have a field of at most 255 bytes that passes for them, or neither is such a field followed by 2^32s of zeros |
| `Socks5.ClientAcceptsExactly` | pkg/client/client.go:680-791 | the streams the client with such credentials accepts, exactly, and the three replies it needs |
| `Socks5.ConstantTimeEqual` | pkg/client/client.go:659-678 | the OR-accumulating loop decides equality of the zero-padded bytes and of the lengths' low 32 bits |
| `Socks5.ComparisonExact` | pkg/client/client.go:659-678 | against given bytes that is equality for every field of at most n bytes if and only if the bytes are not such a field followed by 2^32s of zeros |
| `Socks5.SameExact` | pkg/client/client.go:659-678 | at any length it is equality of sequences as long as each other |
| `Socks5.SameFailsWhenLong` | pkg/client/client.go:665 | 2^32 zero bytes pass for no bytes at all, the lengths being compared as 32-bit words |
| `Handshakes.ContainsMethod` | pkg/client/client.go:623-630 | finds the method exactly if it is listed |
| `Handshakes.ServeHandshake` | pkg/server/manager.go:621-685 | with its reused 256-byte buffer and its own reads and switch, exactly the answer the grammar allows the server, failed writes included |
| `Handshakes.HandleSocks5` | pkg/client/client.go:680-791 | likewise for the client's own code, with or without credentials |
| `Handshakes.Login` | pkg/client/client.go:711-743 | the user name survives the buffer's reuse for the password |
| `Handshakes.ServeRequest` | pkg/server/manager.go:640-684 | the server's copy of the request part gives the one answer of the grammar |
| `Handshakes.ClientRequest` | pkg/client/client.go:745-791 | so does the client's copy |
| `Handshakes.ClientChoice` | pkg/client/client.go:694-743 | the client's choice of method and what follows it |
| `Handshakes.RunBoth` | pkg/server/manager.go:621-685 | the two copies run on the same input end alike exactly under the condition of `ParsersAgreeExactly` |
| `Cmsg.ParseOrigDstAddr` | internal/socket/cmsg.go:18-54 | for every buffer the walk stays in bounds, gives up at least 16 bytes each turn, and answers for the first matching entry of what it holds |
| `Cmsg.WalkFindsFirst` | internal/socket/cmsg.go:18-54 | on every well-formed list with any padding bytes it fails exactly when no entry matches and otherwise answers for the first that does |
| `Cmsg.Ipv4Raw` | internal/socket/cmsg.go:18-54 | an entry at the front with level 0 and type 20: the port is bytes 18 and 19, high byte first, the address bytes 20 to 23 |
| `Cmsg.Ipv6Raw` | internal/socket/cmsg.go:18-54 | with level 41 and type 80: the same port, the address bytes 24 to 39 |
| `Cmsg.EntriesInverse` | internal/socket/cmsg.go:18-54 | every padded list of entries is read back entry by entry |
| `Cmsg.AlignDoesNotWrap` | internal/socket/cmsg.go:45-50 | rounding a length to 8 does not overflow and moves on by at least the entry |
| `TunnelSpecs.Split` | pkg/client/config.go:127-145 | the loop computes the bracket-aware fields |
| `TunnelSpecs.JoinUndoesSplit` | pkg/client/config.go:127-145 | the fields joined with colons are the text |
| `TunnelSpecs.SplitUndoesJoinExactly` | pkg/client/config.go:127-145 | splitting a join gives back the list exactly if no field has a bare colon and every field but the last closes its brackets |
| `TunnelSpecs.FourFieldsParse` | pkg/client/config.go:147-173 | a printed bind:port:host:port gives back its own parts, IPv6 included |
| `TunnelSpecs.ThreeFieldsParse` | pkg/client/config.go:147-173 | a printed port:host:port likewise, bound to the loopback address |
| `TunnelSpecs.TwoFieldsParse` | pkg/client/config.go:150-153 | a printed bind:port likewise |
| `TunnelSpecs.OneFieldParse` | pkg/client/config.go:147-150 | a port alone is bound to 127.0.0.1 |
| `TunnelSpecs.JoinedAsWritten` | pkg/client/config.go:169-170 | the local address is the bind address, in brackets if it has a colon, a colon and the port |
| `TunnelSpecs.RefusedExactly` | pkg/client/config.go:147-167 | separable fields are refused exactly when there are more than four |
| `TunnelSpecs.LargePortSaturates` | pkg/client/config.go:157-164 | a remote port out of range is not refused but becomes 65535, the library's range error being dropped |
| `Restrictions.Validate` | pkg/server/restrictions.go:176-189 | no rules admit everything, otherwise some rule must both match and allow |
| `Restrictions.Matches` | pkg/server/restrictions.go:191-207 | holds exactly if some match of the rule applies |
| `Restrictions.Allows` | pkg/server/restrictions.go:209-226 | holds exactly if some allowance for the claim's direction applies |
| `Restrictions.AllowsTunnel` | pkg/server/restrictions.go:228-284 | the conjunction of protocol, port, host and network conditions, empty lists passing |
| `Restrictions.AllowsReverse` | pkg/server/restrictions.go:286-342 | likewise for reverse claims, a Unix path ending the test early |
| `Restrictions.ProtocolTable` | pkg/server/restrictions.go:344-376 | the name of each protocol |
| `Restrictions.OneWay` | pkg/server/restrictions.go:209-226 | only the five reverse protocols are judged by a rule's reverse part, all others by its forward part |
| `Restrictions.MixedClaim` | pkg/server/restrictions.go:209-226 | a claim with a forward and a reverse protocol is judged by the reverse part, under the forward one's name |
| `Restrictions.TunnelConditions` | pkg/server/restrictions.go:228-284 | what each condition of a forward allowance means by itself: a name, an inclusive port range, a host pattern, a network, and a network beside a host pattern |
| `Restrictions.ReverseConditions` | pkg/server/restrictions.go:286-342 | likewise of a reverse one, where a host that is no address passes every network and a Unix claim skips ports and networks |
| `Restrictions.MatchConditions` | pkg/server/restrictions.go:191-207 | a path prefix, an authorization and a common name each match their own part of the request; a rule without matches or without allowances admits nothing |
| `Restrictions.NewRules` | pkg/server/server.go:106-144 | the file's rules if it loaded, else the compiled flags |
| `Restrictions.CompilingKeepsMeaning` | pkg/server/server.go:106-144 | for every claim and path the compiled flags admit it exactly if (there are no prefix flags, or for some flag the pattern "^/" and the flag without one leading slash compiles and matches) and (there are no targets or the claim is forward and some splittable entry has its host and parsed port) |

## Left out

- Sockets, dialling, TLS, certificates, signals and other foreign calls: their outcomes are parameters or nondeterministic steps.
- Part of a reply that fails inside a SOCKS5 handshake: such a write gets nothing out.
- bufio's 4096-byte spill: the writer's buffer reaches the wire only at a flush, so a failure shows there and not earlier.
- Custom ping and pong handlers: the default ones are modelled.
- Fragmentation (section 5.4 of RFC 6455): the reader ignores FIN and returns continuation frames as opcode 0, which the pipe drops; the round trips are about unfragmented messages.
- `PipeRW`, `PipeGorilla`, `PipeGorillaRW` and `PipeBiDir`: the same shape as `Pipe`, over other connections.
- The closing of the TCP connection when the copy from WebSocket ends (pkg/tunnel/pipe.go:42): each direction is modelled by itself.
- Choosing the bind address from a claim and opening the listening socket (pkg/server/manager.go:375-396): `GetOrCreate` starts from the address and whether listening succeeded.
- The HTTP proxy handshake (pkg/server/manager.go:696-729): it rests on the library's request parser.
- IP address text: an IPv4 or IPv6 SOCKS5 target is kept as its bytes, so `DynamicTarget` speaks of domain names.
- Invalid UTF-8 in tunnel arguments: the splitter works on characters, as the source's loop does on runes.
- Protocol choice, options, `stdio` and `unix` forms of a tunnel argument (pkg/client/config.go:30-114, 175-209): case analysis and URL parsing.
- Regular expressions, `SplitHostPort`, `EqualFold`, `ParseIP` and network membership in `Restrictions`: arbitrary functions, except that a quoted, anchored host pattern is equality.
- Loading rules from YAML and unmarshalling port ranges.
- Client-side UDP tables (pkg/client/client.go:1054-1194, 1323-1479): they delete by key without an identity test, and an old stream's cleanup can remove a newer entry.
- The 30-second fallback for a zero UDP timeout: the documentation says zero disables expiry (README.md:81) but the code does not; timers here have no length.
- Duration conversions, flag merging, logging, packaging, the Caddy module: no property beyond copying.
- Conn.WriteMessage: requires a payload below 2^63 bytes, the largest a slice can have.
- ParseOrigDstAddr: requires a buffer below 2^63 bytes, the largest a slice can have.
- ConnectionPool.Fill, ConnectionPool.Close: state the calls without interference; interleavings are in `Pool`.
