# A camera over UDP, modelled and proved

The repository sends camera pictures over UDP with a hand-written asynchronous I/O library for
Windows. This project models the parts of it that carry the hard invariants and proves what they
promise, for every input, every interleaving and every run.

Concurrent parts are state machines whose events are the interlocked operations, the kernel calls and
the completions of the original; a run is any sequence of enabled events, so it contains every
interleaving of any number of threads. For each machine there is a class with the original's operations
as methods. Its real fields are the shared words; ghost fields hold the state of the machine and the
events so far, and `Valid` says that these are a run. A method may be interrupted before any of its
shared accesses by `Others`, which stands for any number of steps of other threads: its callers know
only that the run goes on and that what belongs to the calling thread stays, and a lemma beside it
(`RelyStep`, `KeptStep`) shows that every step of another thread grants that. The contract of a method
states the exact sequence of events its thread adds on each path, what it holds afterwards, and that
its retry loops end. So the theorems about all runs are about the methods, whoever calls them and
whenever. Sequential parts are methods over arrays and fields, proved equal to functions of the old
contents, and the promises are proved about these functions.

- **Ring** (`RingSpec`, `RingProof`, `RingTheorems`, `RingBuffer`): the lock-free ring whose whole state
  is one word of read offset and data size. Producer and consumer restart each other from completion
  callbacks, with snapshots that may be stale. It refines a byte queue, in-flight operations never
  overlap, no restart is missed or doubled, and the stop callback fires once.
- **Locks and handles** (`Rundown`, `Lifetime`, `RundownLock`, `HandleLife`, `IoObject`): the rundown lock,
  the lifetime protocol built on it (UDP session, file handle), and what becomes of the handle when it is
  assigned again.
- **Connections** (`Connection`, `Endpoint`): the TCP and pipe connection with its listen and disconnect
  flags, over every nesting of callers, requests and completions.
- **Alert and service** (`Alert`, `Tidfa`, `Service`, `ServiceLoss`, `ServiceObject`): the two-bit wait word
  combined with one sticky kernel alert, the service loop that relies on it, and exactly when a control
  the service accepted gets lost.
- **UDP messages** (`Fragments`, `Reassembly`, `RoundTrip`, `Duplicates`, `Dispatcher`, `UdpEndpoint`,
  `Datagram`):
  fragmentation, the four reassembly slots, and what happens to duplicates, reused numbers and evicted
  slots; and the same on several threads at once (`Concurrent`, `ConcurrentSafe`, `ConcurrentScan`,
  `ConcurrentOverlap`, `ConcurrentSteal`, `ConcurrentRuns`).
- **Packets** (`Bytes`, `Crypto`, `PacketSpec`, `PacketTheorems`, `PacketLayout`, `Packet`): the overlapping
  packet layout, where an RSA block is encrypted over size, nonce, tag, key and possibly part of the payload;
  its bytes, what the decoders accept, and the round trips. The primitives are functions with inverse laws.
- **TCP framing** (`FramingSpec`, `Framing`, `Deframer`): the in-place deframer that counts its header word
  down, independent of how the stream is cut.
- **DNS** (`DnsSpec`, `DnsProof`, `DnsTermination`, `DnsResponse`, `DnsSocket`): question writer, name walker
  and answer walk (sections 3.1 and 4.1 of RFC 1035).
- **Camera list** (`CameraLayout`, `CameraList`, `CameraServer`, `CameraPins`, `CameraInfo`, `CameraCreate`,
  `CameraLookup`, `CameraDialog`, `CameraAgreement`): from the answers of the devices to the two lists the
  server creates, the one the client validates, what its dialog makes of it, and the lookup that must agree.

`Words` and `Modulo` hold what the modules share.

## Where the code departs from its intent

The model follows the code; these points have their own members.

- The contiguity test of the reassembly reads a field of the endpoint that nothing writes, so the
  byte counter alone decides. `RoundTrip.CounterIsBitmap` shows that for fragments the sender makes this is
  enough.
- `get` marks nothing, so a message looked up before the first fragment of another is stored can be given
  the same slot, and then at most one of the two is delivered (`ConcurrentRuns.BothLost`,
  `ConcurrentSteal.StealLoses`); without that every interleaving delivers exactly
  (`ConcurrentSafe.EveryInterleaving`). An overlap of two such lookups is necessary for it
  (`ConcurrentOverlap.StealOverlaps`) but not sufficient (`ConcurrentRuns.OverlapWithoutTheft`), and two
  thefts can cancel out (`ConcurrentRuns.TheftRepaired`).
- An evicted slot keeps its bits (`Duplicates.EvictorDelivered`); a finished slot that its own fragments
  refill stays occupied (`Duplicates.SpentStays`); an empty message is delivered once per datagram
  (`Duplicates.AgainIffEmpty`).
- `UnlockHandle` loads the handle after its release, so an `Assign` in between makes it close the new
  handle, locked or not (`HandleLife.ReassignedWhileDraining`, `HandleLife.BetweenIff`).
- RSA with AES skips the encryption of an empty payload, but decoding does not (`PacketTheorems.RsaAesRoundTrip`);
  an empty AES packet is refused (`PacketTheorems.AesRoundTrip`); a null payload pointer leaves the magic
  unset (`PacketTheorems.NullPayloadIff`).
- The DNS writer decrements its budget unchecked where a label starts, so a dot at index 253 bypasses the
  limit; the walker masks pointers to 10 bits and accepts label lengths up to 191; pointer cycles are not
  rejected (`DnsProof.TerminatesIffAcyclic`, `DnsTermination.ResponseEndsIff`).
- The service clears the union of three control codes from its accept mask, which are its two accept bits;
  an accepted target is lost in several ways, all of them listed by `ServiceLoss.NoTargetLost`, among them
  one in which no status call and no server start fails (`ServiceLoss.ErasedTargetLost`).
- A format index from 2^31 on selects another camera's range (`CameraLookup.LookupWrong`); a pin that is
  abandoned after some ranges were kept makes the two camera lists disagree (`CameraAgreement.AgreeIff`),
  which happens exactly if the room for entries runs out inside a pin (`CameraPins.TruthfulAgree`); the
  validator reads before the list of a server without cameras (`CameraList.ValidateFormats`).
- The dialog skips the entries of the first camera only. Behind any other camera it takes the second word of
  its first entry for the next name, so from the third line on it shows what is not there: exactly when is
  `CameraDialog.ListedIff` and `CameraDialog.PositionIff`, and two ordinary cameras are enough
  (`CameraDialog.ThirdCamera`). The validator, which the dialog calls, walks the same list correctly.
- Nothing keeps the server from listing a camera without a name or an entry without a compression, which a
  reader takes for the end (`CameraList.ReadInFullIff`).
- A repeated fragment of an unfinished message is refused, and the dispatcher then removes the connection
  (`Dispatcher.EndsAtRepeat`).

## Model

| member | source | states |
|---|---|---|
| RingTheorems.EveryRun | asio/CiclicBuffer.cpp:14-188 | After any interleaving of completions, exchange attempts, restarts, device transfers and `Stop`: the ring is a FIFO, in-flight operations do not overlap, each direction has exactly one owner when it may run and none otherwise, and the I/O count and `OnIoStop` are exact |
| RingTheorems.InvIsFifo | asio/CiclicBuffer.cpp:94-188 | Bytes handed to readers are a prefix of the bytes producers reported, and the data area holds exactly the committed, unreleased bytes in order; bytes fetched for a read in flight are the ones it will be charged with |
| RingTheorems.InvNoOverlap | asio/CiclicBuffer.cpp:60-92 | A write in flight names no cell of unread or uncommitted data, no cell twice, and no cell of a read in flight, although both were computed from snapshots that other completions may have changed |
| RingTheorems.InvSingleOperation | asio/CiclicBuffer.cpp:94-188 | At most one write and one read are outstanding, uncommitted or about to restart; the number is one exactly if space (data) suffices and no zero-byte completion ended the direction, so no restart is missed or doubled and some direction always runs until one ends |
| RingTheorems.InvIoCounted | asio/CiclicBuffer.h:52-83 | The I/O count is outstanding operations plus running callbacks plus one until `Stop`; `OnIoStop` fires once, exactly when all are gone; no operation starts at count zero |
| RingTheorems.EndedNeverRestarts | asio/CiclicBuffer.cpp:94-188 | A direction that ended with zero bytes has no owner in any later state of the run |
| RingProof.BuildBuffersCovers | asio/CiclicBuffer.cpp:25-58 | The one or two pieces name exactly the cells of the logical interval, in order, for the split and for the adjacent layout |
| RingProof.StepKeeps | asio/CiclicBuffer.cpp:94-188 | Every atomic action keeps the joint invariant of word, directions, threads and data |
| RingProof.WriteExchangedKeeps | asio/CiclicBuffer.cpp:123-128 | A successful or failed exchange of `EndWrite` keeps the invariant: it commits bytes written earlier without touching a read in flight |
| RingProof.ReadExchangedKeeps | asio/CiclicBuffer.cpp:171-176 | The same for `EndRead`: it releases bytes without touching a write in flight |
| RingProof.RestartedKeeps | asio/CiclicBuffer.cpp:130-135 | A restart computed from the exchange snapshot keeps the invariant although the word may have moved on |
| RingBuffer.ZRingBuffer.constructor | asio/CiclicBuffer.cpp:9-20 | `Init` and the assignments of `Start` establish the state all runs begin with, the memory being whatever it was |
| RingBuffer.ZRingBuffer.BuildBuffers | asio/CiclicBuffer.cpp:25-58 | Fills the caller's two entries so that they cover exactly the logical interval, cell by cell and in order |
| RingBuffer.ZRingBuffer.ReadAsync | asio/CiclicBuffer.cpp:60-74 | `BeginRead` is called exactly once, on exactly the unread cells of the snapshot, if they reach the minimum, and not at all otherwise; a read is in flight exactly if that call answers so |
| RingBuffer.ZRingBuffer.WriteAsync | asio/CiclicBuffer.cpp:76-92 | `BeginWrite` is called exactly once, on exactly the free cells of the snapshot, if they reach the minimum, and not at all otherwise; a write is in flight exactly if that call answers so |
| RingBuffer.ZRingBuffer.EndIo | asio/CiclicBuffer.h:57-60 | The callback is gone, and it was the last exactly if nothing is in flight, no callback runs and `Stop` was called; then `OnIoStop` has fired once |
| RingBuffer.ZRingBuffer.CommitWrite | asio/CiclicBuffer.cpp:121-128 | The exchange loop ends under interference; it commits once, and the callback then restarts the read first exactly if the snapshot it replaced could not be read from |
| RingBuffer.ZRingBuffer.CommitRead | asio/CiclicBuffer.cpp:169-176 | Likewise for the read side |
| RingBuffer.ZRingBuffer.EndWrite | asio/CiclicBuffer.cpp:94-140 | A whole write completion: the commit of the bytes, the restart of the read on the unread cells and of the write on the free cells of the word it wrote, the call each of them makes with its answer, and the count given back |
| RingBuffer.ZRingBuffer.EndRead | asio/CiclicBuffer.cpp:142-188 | A whole read completion: the release of the bytes, the restart of the write on the free cells and of the read on the unread cells of the word it wrote, the call each of them makes with its answer, and the count given back |
| RingBuffer.ZRingBuffer.Start | asio/CiclicBuffer.cpp:14-23 | The first write is begun with one call on the whole buffer, if the size allows it, and the direction has ended exactly if that call or the size refuses |
| RingBuffer.ZRingBuffer.Stop | asio/CiclicBuffer.h:80-83 | Gives the count of `Start` back once; `OnIoStop` fires here exactly if nothing else is left |
| Lifetime.EveryRun | inc/rundown.h:25-58 | In every run of the lock protocol the low 31 bits count the holders, nothing of an epoch is called after its final callback, and the epochs whose final callback ran are exactly those drained after rundown |
| Lifetime.StepKeeps | inc/rundown.h:25-58 | Every interlocked step keeps holders, epochs and the callback log in step |
| Lifetime.NoAcquireAfterRundown | inc/rundown.h:25-58 | Once inactive, `Acquire` fails and only an `Init` without holders makes the lock active again |
| Lifetime.DrainsOnce | inc/rundown.h:40-43 | `Release` returns TRUE exactly for the last holder after rundown, and at most once per epoch |
| Lifetime.ShutdownIsFinal | remote camera/TUDP.cpp:304-315 | However removals, timers, `Stop` and packets interleave after a rundown, until the next successful `Init` nobody new gets in |
| RundownLock.RundownProtection.Acquire | inc/rundown.h:25-38 | While other threads change the word, the retry loop ends and is one step to the outside: this thread holds the lock afterwards exactly if TRUE is returned |
| RundownLock.RundownProtection.Release | inc/rundown.h:40-43 | Gives the token back under interference; TRUE exactly for the thread that then owes the final callback of the epoch its token belonged to |
| RundownLock.RundownProtection.RundownLocked | inc/rundown.h:46-49 | The lock is inactive for the rest of the epoch, in which the caller keeps its token |
| RundownLock.RundownProtection.Init | inc/rundown.h:55-58 | Begins a new epoch without holders, or finds the lock not complete |
| RundownLock.Session.Handle | remote camera/TUDP.cpp:503-536 | `OnData` and `OnConnect` only between the acquire and the release of one thread, and `OnDisconnect` exactly if that release was the last of its epoch; a refused acquire does nothing |
| RundownLock.Session.OnPacket | remote camera/TUDP.cpp:496-545 | The whole of a packet for a known connection, under interference: the visit, and the removal of the connection with its own acquire, rundown and release exactly if the session was down already, the packet did not decode or its handler failed; after a removal the epoch is down |
| RundownLock.Session.NotifyDisconnect | remote camera/TUDP.cpp:304-315 | The path of `notify_disconnect` under interference: acquire, rundown, release, and `OnDisconnect` exactly if the release was the last |
| HandleLife.CarefulCloses | asio/io.cpp:63-80 | If `Assign` is called only on a completed lock, outside other calls of it and outside final callbacks, and nobody locks the handle before it is stored, then in every run `CloseObjectHandle` gets for each epoch that is over its own handle, once, and never while the handle is locked |
| HandleLife.LoadedOwnIff | asio/io.cpp:65-69 | The handle the draining thread loads is the one its epoch began with exactly if the last write to the field was the store of the `Assign` that began it |
| HandleLife.BetweenIff | asio/io.cpp:65-69 | For any run between the drain and the load: the handle closed is the drained epoch's own exactly if nothing was stored or cleared in between |
| HandleLife.ReassignedWhileDraining | asio/io.h:127-131 | The failing run: a second handle assigned between the drain and the load is closed while another thread holds its lock, and the first is never closed |
| IoObject.IoObject.Assign | asio/io.h:127-131 | `Init`, whose result is not looked at, and then the store, with steps of other threads between the two |
| IoObject.IoObject.LockHandle | asio/io.cpp:56-61 | A token exactly if the lock is taken, whatever others do; the handle returned is the field at the moment of the load |
| IoObject.IoObject.CloseDrained | asio/io.cpp:67-69 | Load, clear and close are the path of the drained thread, in this order, with others in between |
| IoObject.IoObject.UnlockHandle | asio/io.cpp:63-71 | The token is given back on every path, and exactly the last holder after rundown loads, clears and closes |
| IoObject.IoObject.Close | asio/io.cpp:73-80 | Lock, rundown and unlock as one path; nothing when the object is already down |
| Connection.EveryRun | asio/socket.cpp:363-423 | For TCP, pipe servers and pipe clients: in every run the lock counts exactly the requests in flight and the callers that still owe an unlock; each epoch gets one `OnDisconnect`, after all its callbacks; at most one disconnect is in flight; every unchecked `Init` finds the lock complete |
| Connection.StepKeeps | asio/pipe.cpp:411-481 | Every action of callers, requests, completions and handle closing keeps tokens, flags and listeners consistent |
| Connection.Refines | asio/socket.cpp:900-989 | Each action is one step of the lock protocol or leaves the lock alone |
| Connection.InvConserved | asio/socket.cpp:772-858 | Token conservation over pending, synchronously failed and unallocated requests |
| Connection.DisconnectKept | asio/socket.cpp:397-403 | The disconnect flag has exactly one holder while it is set, so one disconnect at a time |
| Connection.ListenKept | asio/socket.h:204-211 | The listen flag is set exactly from a claim to its failure or to the final release of the epoch, while the handle is open |
| Connection.AcceptedFindsComplete | asio/socket.cpp:958-967 | An accepted listener always finds the lock complete, also after the handle was closed |
| Connection.InitOpensEpoch | asio/pipe.cpp:455-463 | The unchecked `Init` opens a new epoch exactly if the lock is complete, which it always is for a listener; the `Assign` of a pipe client may come at any time and otherwise leaves the lock alone (asio/pipe.cpp:102) |
| Connection.InvReListenSafe | asio/socket.cpp:515-518 | While a connection or listener exists on an open handle, `Listen` and `Connect` are refused |
| Endpoint.ConnectionObject.LockConnection | asio/socket.h:199-202 | A token exactly if TRUE is returned, whatever others do |
| Endpoint.ConnectionObject.TestDisconnect | asio/socket.cpp:383-403 | "Already disconnected" and "only once": the caller becomes the owner of the flag, or is on its way out |
| Endpoint.ConnectionObject.UnlockConnection | asio/socket.h:204-211 | The token is given back exactly once; exactly the last holder after rundown frees the listen flag and then calls `OnDisconnect` |
| Endpoint.ConnectionObject.Start | asio/socket.cpp:772-858 | `Send`, `Recv`, `Read`, `Write` and `Transact` (asio/pipe.cpp:146-295) under interference: no token taken, or handed to a request in flight, or given back here; which of these follows from what the system makes of the request and whether there is a handle, and a refused request has its callback and its error handled here |
| Endpoint.ConnectionObject.Disconnect | asio/socket.cpp:374-423 | All paths of `Disconnect` for every reason, the six codes that mean "already" included, and for everything the system makes of the request: after the rundown the token goes to the one disconnect request in flight, or is given back; a failed start frees the flag |
| Endpoint.ConnectionObject.Close | asio/socket.cpp:364-372 | The connection is run down, the token given back, and the handle closed once; a pipe end closes its handle first (asio/pipe.cpp:328-337) |
| Endpoint.ConnectionObject.OnError | asio/pipe.cpp:392-409 | What each error of a transfer leads to: a socket disconnects (asio/socket.cpp:931); a pipe end disconnects, closes, runs the connection down under its token, or does nothing; the token of the transfer is not given away, and the disconnect or close that follows is a whole path of its own |
| Endpoint.ConnectionObject.CompleteFailed | asio/socket.cpp:910-941 | A transfer that failed without moving bytes: the callback exactly for a write and a transaction, then the handling of its error, and its token is given back exactly once |
| Endpoint.ConnectionObject.CompletePartial | asio/socket.cpp:914-933 | A failed socket receive that moved bytes calls `OnRecv` under its token, then receives again, does nothing, or handles the error, as the answer says, and gives the token back exactly once |
| Endpoint.ConnectionObject.CompleteOk | asio/socket.cpp:914-941 | A successful transfer calls back under its token, starts the next receive, a disconnect or nothing as the answer says, and gives its token back exactly once |
| Endpoint.ConnectionObject.CompleteEmpty | asio/socket.cpp:914-918 | A socket receive without error and bytes: no `OnRecv`; `OnEmptyRecv` keeps the connection or it is disconnected, and the token is given back exactly once |
| Endpoint.ConnectionObject.CompleteDisconnect | asio/socket.cpp:943-956 | The flag is freed before the token is given back; the handle is closed exactly once if the disconnect failed for a reason that counts, and else not (asio/pipe.cpp:441-453) |
| Endpoint.ConnectionObject.IOCompletionRoutine | asio/socket.cpp:900-989 | For every request in flight and every outcome, under any interference: whether `OnRecv`, `OnSend`, `OnRead`, `OnWrite` or `OnTransact` is called, what the answer or the error leads to, as events of a token of its own, and that the token handed to the request is given back exactly once (asio/pipe.cpp:411-481) |
| Endpoint.ConnectionObject.Next | asio/socket.cpp:922-928 | What the answer of a callback asks for is done: the next receive, nothing, or a disconnect, at a pipe client a close |
| Endpoint.ConnectionObject.Listen | asio/pipe.cpp:297-326 | Refused exactly while the flag is set; otherwise the listener is with the system, or has failed and freed the flag, as the system makes of the request (asio/socket.cpp:515-552) |
| Endpoint.ConnectionObject.InitConnection | asio/socket.cpp:966-966 | The `Init` whose result is not looked at makes the lock active |
| Endpoint.ConnectionObject.CompleteListen | asio/socket.cpp:958-984 | A failed listener frees the flag, an accepted one opens the epoch and is followed by the first receive, nothing or a disconnect as `OnConnect` answers, which leaves the listener alone |
| Endpoint.ConnectionObject.Assign | asio/pipe.cpp:84-108 | A pipe client is assigned its handle, and what `OnConnect` asks for follows: the first read, nothing, or a close |
| Alert.EveryRun | camera server/AlertByThreadId.cpp:7-136 | With one waiter and any number of alerters, in every run: a wait returns "alerted" exactly if an alert was committed since the last consumed one, and a timeout exactly if none was; at most one kernel alert is sent per wait and none is left over; the debug break is unreachable |
| Alert.StepKeeps | camera server/AlertByThreadId.cpp:24-135 | Every interlocked operation and kernel call keeps the word, the kernel alert and the results consistent |
| Alert.InvNoLostWakeup | camera server/AlertByThreadId.cpp:92-124 | A waiter that was alerted, or spins for its alert, can always go on |
| Tidfa.TIDFA.Alert | camera server/AlertByThreadId.cpp:7-46 | Under interference the loop ends; of this alerter there are the failed exchanges, the one that succeeds, and a kernel alert exactly if it was the first to find the thread waiting |
| Tidfa.TIDFA.WaitForAlert | camera server/AlertByThreadId.cpp:48-136 | The status returned is the one recorded for this wait, and it is "alerted" exactly if an alert was committed since the last one consumed; the loops end under interference |
| Tidfa.TIDFA.FinishWait | camera server/AlertByThreadId.cpp:92-129 | After the kernel wait: both bits cleared by one successful exchange, and the kernel half consumed exactly if the wait had timed out and an alert was found |
| Tidfa.TIDFA.Spin | camera server/AlertByThreadId.cpp:108-124 | The polling loop ends because the sender of the kernel alert is under way, and takes exactly that alert |
| Service.PendingKept | camera server/SvcBase.cpp:106-142 | The check point is nonzero exactly in pending states, and no control is accepted then |
| Service.HealthyKept | camera server/ep.cpp:17-63 | Every step keeps an accepted target on its way to `Run` |
| Service.HealthyRuns | camera server/ep.cpp:17-80 | While startup and status calls succeed, `Run` reports every accepted target in order, all but the pending one, and a pending target is never stuck |
| ServiceLoss.NoTargetLost | camera server/ep.cpp:17-63 | In every run, whatever status calls and starts fail: every accepted target is reported before the next is accepted and the last one is reported or still can be, if and only if no losing event happened; a losing event is a control accepted over an open target, after the loop has ended, or unannounced while nobody will wake `Run`, or a start that fails over an open target other than stop or succeeds over an unannounced one |
| ServiceLoss.PausedAndContinued | camera server/SvcBase.cpp:28-60 | A run of the service: a continue is refused while running and accepted when paused, a pause the other way round, and running, paused and running are promised and reported in turn |
| ServiceLoss.SoundIffLossless | camera server/ep.cpp:17-63 | The same as a condition on the state: nothing was lost and the open target can still be reported exactly if no losing event happened |
| ServiceLoss.FailedStartLoses | camera server/ep.cpp:42-45 | A run: a pause accepted during a failing start is overwritten by the stop |
| ServiceLoss.ExitedLoses | camera server/SvcBase.cpp:156-160 | A run: a pause accepted after the loop has ended is never reported |
| ServiceLoss.ErasedTargetLost | camera server/ep.cpp:23-27 | A run in which all status calls and server starts succeed and the loop goes on: a failed run-time start makes `Run` read its old target again, and its report erases a pause accepted in between |
| ServiceLoss.FieldsDoNotDecide | camera server/ep.cpp:17-63 | Two runs that lead to the same fields and threads, of which a pause loses the accepted stop in one and nothing in the other: whether a control is a losing event depends on the history |
| ServiceObject.ServiceBase.constructor | camera server/SvcBase.cpp:144-156 | `ServiceMain` up to `Run` establishes the state all runs begin with |
| ServiceObject.ServiceBase.BeginChangeState | camera server/SvcBase.cpp:130-142 | Changes state exactly if nothing is pending and the control is accepted, and else nothing |
| ServiceObject.ServiceBase.TryControl | camera server/SvcBase.cpp:28-60 | Continue is accepted exactly when paused, pause exactly when running, stop in any state, each with its accept bit and no check point; the pending state, the target, the check point and the mask that follow |
| ServiceObject.ServiceBase.SetState | camera server/SvcBase.cpp:106-128 | A state is reported, and its mask set, exactly if it is not current already |
| ServiceObject.ServiceBase.Progress | camera server/SvcBase.cpp:85-104 | A hint raises the check point exactly while one is set |
| ServiceObject.ServiceBase.HandlerEx | camera server/SvcBase.cpp:17-84 | Under interference: a control is decided by the fields at the moment of its lock, written out for each control, the change is pending right after, and `Run` is alerted exactly once if it is accepted and its status call succeeds |
| ServiceObject.ServiceBase.RunService | camera server/ep.cpp:17-63 | `Run` under interference is a sequence of whole turns: read, report, start if running, wait exactly unless the start failed, test |
| ServiceObject.ServiceBase.ServiceMain | camera server/SvcBase.cpp:144-161 | When `Run` has ended the service is reported stopped with no pending state, whatever was accepted meanwhile |
| RoundTrip.SessionDelivers | remote camera/TUDP.cpp:137-216 | For any set of messages of 1 to 64*0x580 bytes with distinct numbers, any arrival order and interleaving with at most four incomplete messages, any repetitions of fragments of unfinished messages, any clock: new fragments are accepted, repeated ones refused, and exactly the due message is delivered, with type and bytes, at each arrival |
| RoundTrip.DeliveredOnce | remote camera/TUDP.cpp:199-210 | The deliveries are the complete messages, each exactly once |
| Dispatcher.EndsAtRepeat | remote camera/TUDP.cpp:496-545 | With the dispatcher, which removes the connection at the first fragment that is refused: the deliveries are those due up to the first repeated fragment, and the session is ended if and only if one is repeated |
| RoundTrip.DuplicateRefused | remote camera/TUDP.cpp:193-215 | A duplicate before completion is refused and changes no slot |
| RoundTrip.ArrivalStep | remote camera/TUDP.cpp:175-216 | One new fragment: accepted, and the message is delivered exactly if it was the last missing one |
| RoundTrip.CounterExact | remote camera/TUDP.cpp:199-199 | The remaining-bytes counter equals the message length minus the lengths of stored fragments and meets the arriving length exactly at the last missing fragment |
| RoundTrip.CounterIsBitmap | remote camera/TUDP.cpp:199-199 | For sender-made fragments the counter runs out exactly when the bitmap is 2^k - 1, so the counter alone implies the contiguity test that was meant; also for k = 64 |
| RoundTrip.FillOk | remote camera/TUDP.cpp:193-207 | Storing a missing fragment keeps the bytes of the stored ones and completes exactly with the last |
| RoundTrip.GetOk | remote camera/TUDP.cpp:137-173 | `get` leaves a slot assigned to the message, without touching another incomplete message |
| RoundTrip.FreeSlotExists | remote camera/TUDP.cpp:149-170 | With at most four incomplete messages a new message finds a free slot, so nothing is evicted |
| Fragments.FragmentsJoin | remote camera/TUDP.cpp:281-302 | The fragments of the sender, joined, are the message |
| Fragments.ContiguousIsOnes | remote camera/TUDP.cpp:199-199 | The intended test `!((bits + 1) & bits)` accepts exactly the patterns 2^k - 1, the all-ones word included |
| Fragments.FragmentCount | remote camera/TUDP.cpp:292-299 | ceil(length / 0x580), at least one, at most 64 for a sendable message |
| Duplicates.DistinctKept | remote camera/TUDP.cpp:137-173 | Whatever number and length a fragment announces, two slots never name the same message |
| Duplicates.NeverAgain | remote camera/TUDP.cpp:193-210 | A finished non-empty message is never delivered again, whatever fragments of whatever messages come in whatever order, as long as its slot names it |
| Duplicates.DeliveredOnlyOnce | remote camera/TUDP.cpp:199-210 | After the arrival that delivers a message of a session, it is not delivered again for as long as its slot names it, whatever comes |
| Duplicates.SpentStays | remote camera/TUDP.cpp:193-212 | Because the counter has wrapped; such a slot also stays occupied |
| Duplicates.AgainIffEmpty | remote camera/TUDP.cpp:199-207 | The slot of a finished message delivers again on its next fragment exactly if the message is empty |
| Duplicates.ReusedNumberDropped | remote camera/TUDP.cpp:144-147 | A later message with the number of a finished one and another length is dropped without an error while a slot still names that number |
| Duplicates.EvictionKeepsBits | remote camera/TUDP.cpp:165-170 | Eviction keeps the old bits: the evicting fragment is stored exactly if the old message lacked that index |
| Duplicates.EvictorDelivered | remote camera/TUDP.cpp:160-173 | A message that evicts another one, and whose fragments all come, is delivered exactly if the evicted bits below its fragment count were all clear |
| ConcurrentSafe.EveryInterleaving | remote camera/TUDP.cpp:175-216 | `OnData` on any number of threads, each with a fragment of its own, split into lookup, bit, copy, subtraction, delivery and clearing: in every interleaving with room for the open messages in which no lookup assigns a slot from under a thread, each message is delivered at most once and with its bytes, not before all its fragments are counted, and exactly once when all have been handled |
| ConcurrentSafe.StepInv | remote camera/TUDP.cpp:193-212 | Every step of every thread keeps bits, bytes, counter and thread positions of each open message consistent |
| ConcurrentScan.EveryScan | remote camera/TUDP.cpp:137-173 | The same with the lookup split further, into the reads of one slot after another, while other threads set and clear the bits it reads without its lock: every such interleaving delivers exactly, if each lookup has room when it begins and takes no slot in use when it ends |
| ConcurrentScan.UninterruptedScan | remote camera/TUDP.cpp:137-173 | A lookup that is not interrupted does what it does as one step |
| ConcurrentOverlap.StealOverlaps | remote camera/TUDP.cpp:180-193 | The first lookup to take a slot from under a thread does so while another thread stands between its own assigning lookup and its bit |
| ConcurrentOverlap.NoOverlapDelivers | remote camera/TUDP.cpp:180-193 | So every interleaving delivers exactly in which no assigning lookup runs while another thread stands between its own assigning lookup and its bit |
| ConcurrentSteal.StealLoses | remote camera/TUDP.cpp:137-173 | If exactly one lookup of a run takes a slot from under a thread, then not both messages concerned are ever delivered, whatever happens before and after |
| ConcurrentSteal.DeliveredIffNoSteal | remote camera/TUDP.cpp:175-216 | For every run in which all fragments have been handled and at most one lookup takes a slot from under a thread: all messages are delivered exactly once if and only if none does |
| ConcurrentRuns.BothLost | remote camera/TUDP.cpp:180-193 | The failing run: two lookups before either bit, one slot for two messages, and neither is delivered |
| ConcurrentRuns.OverlapWithoutTheft | remote camera/TUDP.cpp:149-158 | A run in which an assigning lookup overlaps another one before its bit, takes nothing, and all three messages are delivered: the overlap alone is not what loses messages |
| ConcurrentRuns.TheftRepaired | remote camera/TUDP.cpp:149-158 | A run in which a second theft undoes the first, so that two thefts do not decide the outcome |
| Concurrent.AloneIsOnData | remote camera/TUDP.cpp:175-216 | A thread that is not interleaved does what the one-step `OnData` of the other results does: slots, status and delivery |
| UdpEndpoint.Endpoint.Init | remote camera/TUDP.cpp:225-246 | Frees and unassigns every slot |
| UdpEndpoint.Endpoint.Get | remote camera/TUDP.cpp:137-173 | The one-pass search: the message's slot, else the first free, else the eldest older than 999 ms |
| Reassembly.GotIs | remote camera/TUDP.cpp:137-173 | Which slot `get` returns: the first of the message if its length is the same; without one the first free; else the eldest if it is older than 999 ms; only the slot taken changes |
| Reassembly.EldestIs | remote camera/TUDP.cpp:160-170 | The slot evicted is older than 999 ms, none is older and those before it are younger; there is none exactly if no slot is older than 999 ms |
| Reassembly.FilledIs | remote camera/TUDP.cpp:193-213 | A fragment stored: its bytes at their place and all others as before, the clock, the counter modulo 2^32, and delivery, with the bits cleared, exactly if the counter runs out |
| UdpEndpoint.Endpoint.Receive | remote camera/TUDP.cpp:175-216 | `OnData` of one thread on the endpoint's slots: slots, status and delivery equal the specification |
| UdpEndpoint.Endpoint.SendUserData | remote camera/TUDP.cpp:281-302 | Sends a prefix of the fragments, all of them exactly on success; too long sends nothing and uses no number |
| Datagram.FragmentOverTheWire | remote camera/TUDP.cpp:253-279 | Every fragment of every message is read back from its AES packet as it was cut |
| Datagram.ParseEPacket | remote camera/TUDP.cpp:59-66 | The fragment header round-trips within its field widths |
| Datagram.EPacketImage | remote camera/TUDP.cpp:59-66 | The fragment header on the wire: length, type, message number and index, each low byte first |
| PacketTheorems.RsaRoundTrip | camera server/pkt.cpp:32-47 | A payload that fits the RSA block decodes to the same bytes, the empty one included |
| PacketTheorems.RsaAesRoundTrip | camera server/pkt.cpp:49-78 | RSA with AES returns payload and key exactly if the payload is not empty or the leftover nonce and tag authenticate the empty message |
| PacketTheorems.DhRoundTrip | camera server/pkt.cpp:98-139 | Diffie-Hellman returns every payload, and the key the sender derived |
| PacketTheorems.AesRoundTrip | camera server/pkt.cpp:199-214 | An AES packet decodes to its payload exactly if that is not empty |
| PacketLayout.AesImage | camera server/pkt.cpp:360-364 | The bytes of an AES packet: cookie, "AES*", sizes, nonce, tag, ciphertext |
| PacketLayout.RsaImage | camera server/pkt.cpp:32-47 | The bytes of the RSA form, chosen if the payload fits the block beside its size and no key is wanted: "RSA*", and the encryption of size, payload and old memory |
| PacketLayout.HybridImage | camera server/pkt.cpp:242-289 | The bytes of the hybrid form, chosen otherwise: "RSA+", and size, nonce, tag, key and ciphertext, of which the block encrypts the beginning |
| PacketLayout.DhImage | camera server/pkt.cpp:291-358 | The bytes of a Diffie-Hellman packet: "ECDH", sizes, nonce, tag, public key, ciphertext |
| PacketLayout.AesAccepts | camera server/pkt.cpp:199-214 | An AES packet is opened exactly if it has more than 48 bytes, reads "AES*", gives the rest as its data size and authenticates |
| PacketLayout.RsaAccepts | camera server/pkt.cpp:141-164 | A packet that reads "RSA*" decodes exactly if its block is there and decrypts; where payload and size then lie |
| PacketLayout.HybridAccepts | camera server/pkt.cpp:166-197 | A packet that reads "RSA+" decodes exactly if its block decrypts, the size in it fits the packet and the tag authenticates under the key in it |
| PacketLayout.DhAccepts | camera server/pkt.cpp:98-139 | A packet that reads "ECDH" decodes exactly if it is longer than its fields and payload, the rest is a key the provider agrees with, and a payload authenticates |
| PacketLayout.OthersRefused | camera server/pkt.cpp:216-240 | Any other packet is bad data, and a key of the other kind is refused |
| PacketTheorems.NullPayloadIff | camera server/pkt.cpp:38-42 | Without a payload pointer the magic stays what the memory held: the packet decodes to the empty payload exactly if that is the magic of the RSA form, or that of the hybrid form with a nonce and tag that open under the key bytes found there |
| PacketTheorems.BlockBelowModulus | camera server/pkt.cpp:44-46 | A byte-swapped size below 2^24 keeps the raw RSA block below 256^(BlockLength-1) |
| PacketTheorems.BlockRestored | camera server/pkt.cpp:156-160 | Decrypting the block restores the whole image, whatever part of the payload it overlaps |
| PacketTheorems.RsaDecodes | camera server/pkt.cpp:141-164 | `RSA_Decode` finds the image and size the encoder put there |
| Packet.UhPacket.AesEncodeI | camera server/pkt.cpp:17-30 | Nonce, tag and ciphertext written in place |
| Packet.UhPacket.AesDecodeI | camera server/pkt.cpp:8-15 | Opens in place, or leaves the image alone |
| Packet.UhPacket.AesEncode | camera server/pkt.cpp:360-364 | Header and sealed payload |
| Packet.UhPacket.AesDecode | camera server/pkt.cpp:199-214 | Size, magic and authentication checked in this order |
| Packet.UhPacket.RsaEncodeI | camera server/pkt.cpp:32-47 | Payload and swapped size, then the block encrypted over them |
| Packet.UhPacket.RsaAesEncodeI | camera server/pkt.cpp:49-64 | Key, sealed payload and swapped size, then the block encrypted over part of them |
| Packet.UhPacket.RsaEncode | camera server/pkt.cpp:242-289 | Chooses the form and sets the packet size |
| Packet.UhPacket.RsaDecode | camera server/pkt.cpp:141-164 | Decrypts the block in place |
| Packet.UhPacket.RsaAesDecode | camera server/pkt.cpp:166-197 | Decrypts block and payload in place |
| Packet.UhPacket.DhEncode | camera server/pkt.cpp:291-358 | Exported key, sealed payload, header |
| Packet.UhPacket.DhDecode | camera server/pkt.cpp:98-139 | Splits key and payload by the sizes and opens the payload |
| Packet.UhPacket.Decode | camera server/pkt.cpp:216-240 | Dispatch on the magic |
| Framing.StreamDelivered | camera server/https.cpp:80-140 | For any cut of a stream of sent packets that fit the buffer: all calls succeed exactly if no cut falls inside a header, and then the frames handed over are those received completely, in order |
| Framing.ChunkingIndependent | camera server/https.cpp:80-140 | However a stream is cut, if no call fails the frames are those of the whole stream |
| Framing.PrefixParses | camera server/https.cpp:94-113 | A beginning of the stream parses to its complete packets; the call fails exactly if it ends inside a header |
| Framing.FrameOpens | camera server/https.cpp:115-127 | A frame announces its own length and opens to the type and data sent; bare types are not decrypted |
| Framing.FrameImage | camera server/https.cpp:142-190 | The bytes of a frame: its size, the type masked bit by bit with the checksum, or the bare type, and the ciphertext |
| Framing.HeaderDecides | camera server/https.cpp:80-110 | What the header of a stream decides: a short header or a size beyond the buffer fails, a packet is handed on exactly if all of it is there |
| Framing.HandledSent | camera server/https.cpp:115-130 | The frames of sent packets reach `OnUserData` as sent, in order |
| Deframer.EncTcp.RoomForRest | asio/packet.h:42-86 | An incomplete packet always leaves free space for its remainder |
| Deframer.EncTcp.SendType | camera server/https.cpp:178-189 | A bare frame |
| Deframer.EncTcp.SendUserData | camera server/https.cpp:142-176 | Header, tag with checksum, ciphertext |
| Deframer.EncTcp.Keep | camera server/https.cpp:108-113 | An incomplete packet waits with its header counted down |
| Deframer.EncTcp.Take | camera server/https.cpp:115-137 | A complete packet is handed over and the rest moved to the front |
| Deframer.EncTcp.HandleFrame | camera server/https.cpp:117-130 | Decrypts in place and calls `OnUserData` |
| Deframer.EncTcp.OnRecv | camera server/https.cpp:80-140 | The loop hands over exactly the complete frames of what was seen so far, and the rest waits |
| Deframer.EncTcp.RecvOne | camera server/https.cpp:80-140 | One receive of any size that fits the free space: hands over the packets it completes, and fails exactly if it ends inside a header |
| Deframer.EncTcp.RecvAll | camera server/https.cpp:80-140 | One receive after another over (a beginning of) the stream of sent packets: after all calls exactly the packets received completely have been handed to `OnUserData`, as sent and in order, and a call fails exactly if it ends inside a header |
| DnsProof.WriterWalker | asio/dns.cpp:437-487 | The walker consumes exactly the strlen + 2 bytes the writer emits if and only if no label is empty |
| DnsProof.EncodeAt | asio/dns.cpp:375-399 | The wire form is the name behind a length byte, with the length of the label that follows in place of each dot, and a zero byte |
| DnsProof.PointerIs | asio/dns.cpp:459-475 | A pointer takes two bytes, its low ten bits are the target, and it is valid exactly if the target is inside and the name there is valid |
| DnsProof.TerminatesIffAcyclic | asio/dns.cpp:459-475 | The recursion of `IsNameValid` ends if and only if following the masked pointers from the name never revisits a name |
| DnsTermination.ResponseEndsIff | asio/dns.cpp:489-572 | The processing of a response ends if and only if every name it reaches, the question included, follows no pointer cycle |
| DnsProof.BackwardResponds | asio/dns.cpp:489-572 | If every masked pointer leads before its own name (section 4.1.4 of RFC 1035), the answer walk terminates |
| DnsProof.SelfPointerDiverges | asio/dns.cpp:459-475 | A pointer to the start of its own name recurs without end |
| DnsProof.LabelThenSelfPointer | asio/dns.cpp:459-475 | A concrete name whose pointer leads before itself and still does not terminate |
| DnsResponse.ResponseFirst | asio/dns.cpp:489-572 | A response with any question name and records named literally or by pointer: to a query of type 1 the first announced A record with four bytes not all zero, to one of type 28 the first AAAA record with sixteen bytes, and no address without one; header fields and types as bytes |
| DnsResponse.HostResolves | asio/dns.cpp:540-549 | An A record with four bytes not all zero, behind announced records of other types, is the address found |
| DnsResponse.AnswersTurn | asio/dns.cpp:519-569 | One turn of the record loop |
| DnsSocket.WriteLabel | asio/dns.cpp:379-394 | One label with its length patched; refused exactly for a label above 63 or a character at index 253 |
| DnsSocket.WriteName | asio/dns.cpp:375-397 | Succeeds exactly on accepted names and then emits their wire form |
| DnsSocket.WriteQuestion | asio/dns.cpp:345-405 | Identification, recursion bit, question count, name, type and class at their bytes; accepted exactly if all labels are short and the name has at most 253 characters or a dot at index 253 |
| DnsSocket.EchoAnswered | asio/dns.cpp:489-572 | A response that echoes the identification and the question of a written query is heard: its first record of the type asked for is the result |
| DnsSocket.IsNameValid | asio/dns.cpp:437-487 | Equals the walk specification, recursion and masks included |
| DnsSocket.Record | asio/dns.cpp:519-569 | One record with its bounds checks; it is the result exactly if its type bytes and its length are those of the address asked for |
| DnsSocket.OnRecv | asio/dns.cpp:489-572 | Equals the response specification; short messages, the response code, the identification and the number of answers decided on the bytes; an address found has the length of its type; position and remaining length add up to the message length throughout |
| CameraList.LaidOutAccepted | remote camera/client.cpp:11-64 | Every list laid out for at least one camera, all with a name and with compressions, is accepted |
| CameraList.LaidOutSeen | remote camera/client.cpp:38-63 | The validator walks, and prints, exactly the cameras and entries laid out, whatever the padding holds, if all have a name and compressions |
| CameraList.ReadInFullIff | remote camera/client.cpp:38-63 | The validator reads a list laid out in full, all cameras and all entries, if and only if every camera has a name and every entry a compression; the server ensures neither |
| CameraList.ValidateFormats | remote camera/client.cpp:11-36 | For any number of bytes: the look-back leaves the buffer exactly for two bytes, the list of a server without cameras; below six bytes all else is refused; from six on the validator stays inside, terminates and equals the validation specification |
| CameraList.WalkCameras | remote camera/client.cpp:38-63 | The camera loop |
| CameraDialog.PositionIff | remote camera/ep.cpp:631-660 | In a list with names and compressions, line p of the dialog is camera p, with its entries, if and only if no camera between the first and it has an entry |
| CameraDialog.FirstTwoRight | remote camera/ep.cpp:631-660 | So the first two lines are right for every such list |
| CameraDialog.ListedIff | remote camera/ep.cpp:631-660 | The dialog lists exactly the cameras laid out, and stays inside the list, if and only if no camera behind the first has an entry, except the last if the second word of its first entry begins with a zero character |
| CameraDialog.ThirdCamera | remote camera/ep.cpp:646-659 | The failing input: the accepted list of two cameras with one 640 x 480 entry each gives a third line made of width and height, for which no formats lie inside the list, and the walk leaves the list |
| CameraDialog.PositionRightIff | remote camera/ep.cpp:631-660 | For every list laid out, with or without names and compressions: line p is camera p if and only if all cameras up to it have names and the walk is stuck in none before it, which behind the first camera means at an entry without a compression and behind any other at its first entry |
| CameraDialog.ExactIff | remote camera/ep.cpp:631-660 | For every list laid out: the dialog lists exactly its cameras and stays inside if and only if all have names and the walk is stuck in none, or only in the last and before a zero character |
| CameraDialog.NeverCatchesUp | remote camera/ep.cpp:631-660 | Once the walk stands before the camera it should be at, no later line is the camera of its number |
| CameraDialog.RightFormats | remote camera/ep.cpp:571-589 | A line that is right offers the formats of its camera, up to one without a compression, and reading them stays inside the list |
| CameraDialog.AddCameras | remote camera/ep.cpp:608-667 | Validates and then walks as specified; the lines added before the walk leaves the list stay, and whether it does is reported |
| CameraDialog.OnSelChanged | remote camera/ep.cpp:571-589 | Lists the formats from the word of the chosen line on, and whether that stays inside the list |
| CameraServer.SelectIsFilter | camera server/server.cpp:101-147 | On well-formed device data with room for the entries the selection is a filter of all data ranges |
| CameraServer.Collect | camera server/server.cpp:101-147 | The in-place compaction: kept ranges lie one behind the other, their entries are appended, nothing before them changes |
| CameraPins.ListsAgree | camera server/server.cpp:140-147 | The two lists of a camera agree if and only if every pin whose count did not reach zero kept nothing |
| CameraPins.SelectExact | camera server/server.cpp:107-142 | On well-formed data the selection keeps the first usable ranges that find room, and reads all exactly if all find room |
| CameraPins.TruthfulAgree | camera server/server.cpp:46-156 | For pins that announce their ranges truthfully and share the room for entries: the two lists agree if and only if all usable ranges fit, or the last entry that fits is the last of a pin |
| CameraPins.TwoRangesOneRoom | camera server/server.cpp:125-147 | The failing input: one pin with two usable ranges and room for one entry gives the client an entry whose range the server drops |
| CameraInfo.OnePin | camera server/server.cpp:80-149 | One pin, whatever it answers: its usable ranges are compacted in place and kept only if all were read, its entries stay in any case |
| CameraInfo.CollectPins | camera server/server.cpp:45-156 | All pins of a camera, sharing both buffers: what each leaves for the next equals the specification |
| CameraCreate.AddCamera | camera server/server.cpp:172-214 | One camera, whatever its name and entries: its friendly name if it fits what is left, else a star, alignment, pins and the two zero words put it into both lists behind the previous one; it fails exactly if not even the star fits or no room is left behind the name |
| CameraCreate.CreateInfo | camera server/server.cpp:159-231 | Device data in, both lists out: each camera of the client's list carries exactly its friendly name if there is one and it fits what is left, and else a star; both buffers are laid out; it fails exactly at a camera for which not even a star fits or no room is left behind the name, or at the end of the list |
| CameraLookup.LookupExact | camera server/server.cpp:233-269 | For j below 2^31 the lookup finds exactly range (i, j) |
| CameraLookup.LookupWrong | camera server/server.cpp:249-261 | From 2^31 on it never finds camera i, and finds another camera's range exactly if one has that many |
| CameraLookup.GetStringsEnd | camera server/server.cpp:10-18 | Behind the empty name that ends the device paths |
| CameraLookup.FindRange | camera server/server.cpp:249-261 | One camera's ranges with the counter |
| CameraLookup.GetFormatInfo | camera server/server.cpp:233-269 | Returns path and range of the specification's result |
| CameraAgreement.KeptIff | camera server/server.cpp:140-147 | For truthful pins whose answers fit the buffer, a camera loses nothing exactly if the room for entries behind its name does not run out inside a pin |
| CameraAgreement.AgreeIff | camera server/server.cpp:159-269 | Over what `CreateInfo` makes of the answers of the devices: listed entries and lookup correspond at every position below 2^31 if and only if no camera has an abandoned pin with entries |
| CameraAgreement.CreatedSeen | remote camera/client.cpp:11-64 | A created list is read in full by the validator exactly if all cameras have a name and compressions, and is then accepted if there is a camera |
| CameraAgreement.DialogShows | remote camera/ep.cpp:608-667 | What the dialog makes of a created list: exactly its cameras, and line p exactly camera p, under the conditions of the walk |
| CameraAgreement.Choose | remote camera/ep.cpp:530-603 | A right line offers the entries of the camera created at that position |
| CameraAgreement.Session | camera server/server.cpp:159-269 | From the devices to the lookup: both lists are created, the client validates its own, its dialog lists the cameras (remote camera/ep.cpp:608-667), the user chooses format j on line i, and the server looks (i, j) up. Line i is camera i exactly if the walk is stuck in no camera before it; then the formats offered are its entries, and if nothing was lost the lookup yields its path and the range of the format chosen; every camera listed carries its friendly name, or a star if that does not fit |

## Left out

- UdpEndpoint.Endpoint.Receive: one thread, not interleaved; `Concurrent.AloneIsOnData` shows that this is what a thread of the concurrent machine does alone, and `ConcurrentSafe.EveryInterleaving` covers the interleavings.
- RoundTrip.SessionDelivers: about the receiver alone, which the dispatcher stops calling at the first refused fragment (`Dispatcher.EndsAtRepeat`). Message numbers are distinct within a session, and fragments of finished messages do not come again; what the wrapped 16-bit number and such fragments meet is stated in `Duplicates.NeverAgain` and `Duplicates.ReusedNumberDropped`.
- ConcurrentSteal.DeliveredIffNoSteal: for at most one stolen slot in a run, because `ConcurrentRuns.TheftRepaired` shows that with two the outcome is no longer decided by whether one was stolen.
- ConcurrentSafe.EveryInterleaving: the lookup is one step here and in the modules built on it, although other threads change the bits it reads without its lock; `ConcurrentScan.EveryScan` proves the same with the reads split. In both each fragment comes once, so repetitions that meet on several threads are not covered, and lookups find room, so there is no eviction; both are treated on one thread in `RoundTrip` and `Duplicates`.
- IoObject.IoObject.LockHandle: the acquire loop is one step here and in `Endpoint.ConnectionObject.LockConnection`, as `RundownLock.RundownProtection.Acquire` shows it to be.
- Endpoint.ConnectionObject.Start: which of the threads that hold the handle lock releases it last is left open, so a handle that was closed may go away at any later point.
- Endpoint.ConnectionObject.CompleteListen: `OnConnect` with a failure asks for nothing, as the library's own does (asio/socket.cpp:885-898).
- RingBuffer.ZRingBuffer.ReadAsync: the count, the virtual call that starts the transfer and, if that fails, its zero-byte completion are one step, as in `WriteAsync`.
- Tidfa.TIDFA.FinishWait: the kernel's return from the wait and the load of the word that follows it are one step.
- DnsSocket.WriteQuestion: assumes the 512-byte buffer and the 255-character limit of its callers (asio/dns.cpp:414, asio/dns.cpp:590), because its own size check compares with 4.
- Deframer.EncTcp.OnRecv: a header size below 8, for which the original computes a wrapped length, counts as failure.
- Packet.UhPacket.DhDecode: below 48 bytes the original's size wraps and it reads past the packet; the model reports `OutOfPacket`.
- CameraInfo.OnePin: a pin's answer of at most eight bytes, whose two header words the original reads from older memory, counts as unusable; answers have whole 16-bit words.
- CameraDialog.AddCameras: the camera box takes every line and adds it at the end; the copy of the list and the update of the other controls are left out, and what lies behind the list in memory is unknown, so a walk that leaves it has no further lines.
- CameraCreate.CreateInfo: friendly names hold no zero character before their end; the device interfaces could be enumerated; a driver that does not report a number of pins is a camera without pins, and the name query fails as a whole or delivers the name with its terminator.
- Rundown locks are modelled below 2^31 - 1 holders only.
- Windows, Winsock, thread pool, cryptographic, media and kernel-streaming calls are outcomes, parameters or abstract functions; keys of the wrong kind are simply refused.
- Interlocked operations are sequentially consistent steps; weaker memory orders are not modelled. A retry loop ends because other threads change the word only finitely often while it runs.
- Reference counts, among them the second release in remote camera/TUDP.cpp:611-612: the lifetime of the memory is not modelled, only the lifetime of sessions, connections and handles.
- The order of `OnConnect` against other callbacks, which run without a common lock, and of an `OnDisconnect` against the callbacks of the next epoch.
- A handle that is assigned again after it was closed, in the connection machine; `HandleLife` treats it for the object that owns the handle.
- The server copy of the UDP layer, which reports an accepted but incomplete fragment as bad data and limits the message size (camera server/TUDP.cpp:193-213, camera server/TUDP.cpp:281); the model follows the remote camera's copy.
- File transmission, TLS, the DNS cache and timers, the block heap, other sockets, logging and the user interface.
- The size check of `Start` is taken without the wrap-around of its 32-bit sum.
