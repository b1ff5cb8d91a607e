# A verified model of Indecorous

Indecorous runs coroutines on several threads and connects the threads by RPC. This project models the parts of it
where correctness hangs on an interleaving, on a protocol between threads, or on bytes, and proves what they keep.
`dafny verify dfyconfig.toml` checks everything.

| module | what it models |
|---|---|
| `MpscQueue` | the lock-free queue that carries messages to a thread: each shared access is one step of a machine, and the code of `push` and `pop` runs under arbitrary steps of the others |
| `LocalStream` | the queue together with its eventfd |
| `Shutdown` | distributed termination detection: one shared counter, and deltas that each thread flushes at the end of a run |
| `CrossThreadMutex`, `FlipBuffer` | the mutex that is handed on by RPC, and the double buffer built on it |
| `ThreadBarrier` | the two-sided barrier |
| `DomainName`, `DomainText`, `DomainPacket`, `DomainRecords` | the DNS name codec of the vendored resolver: wire form, text form, decompression, and the walk over the records of an answer |
| `QueryRules`, `ResolverRuns`, `Resolver`, `QueryList` | the resolver's retry machine: rules on values, runs, the code that changes queries in place, and the pointers of its list |
| `IntrusiveList` | the intrusive doubly linked list |
| `Semaphore` | the resizable semaphore |
| `MultipleWait` | a wait for any or all of several objects |
| `Wire`, `Message` | the serializers and the messages |
| `Sequences` | operations on sequences that several of these share |

A protocol is a machine: a `State`, labelled steps, an invariant that every step keeps, and theorems over all runs from
the initial state. Where the source changes fields or buffers in place, a class or a method on an array does so too,
and its contract ties it to the machine or to a function on values. Shared accesses are atomic and sequentially
consistent.

Some statements in the sources do not hold of the code. The model follows the code, and says exactly when they hold:

- `dns_getdn` checks the room for the terminator against the start of the buffer. A name whose labels fill all 255 bytes
  is read, with 256 bytes in all (`DomainPacket.OneByteTooLong`). What is read fits exactly if a limit of one byte less
  finds it too (`DomainPacket.ReadFitsIff`, `DomainPacket.ReadIsWellFormedIff`), and for the buffers of 255 bytes of a
  whole call of `dns_nextrr`, exactly if every name that it reads fits (`DomainRecords.InsideIff`). The contracts of
  `DomainPacket.GetDn` and of `DomainRecords.Parser` ask for one more byte, or for that condition.
- `dns_skipdn` does not accept a pointer that ends the packet, which `dns_getdn` does (`DomainPacket.SkipDn`,
  `DomainPacket.PointerAtTheEnd`).
- The semaphore is documented as first in, first out, but a new acq overtakes the queue whenever there is enough for it
  (`Semaphore.Sem.Acquire`, `Semaphore.Overtake`); only queued acqs are granted in order. Its sum is lost by a combination
  of an acq with itself (`Semaphore.Sem.Combine`) and by a move after a combination (`Semaphore.Sem.Move`,
  `Semaphore.CombineThenMove`). The debug assertion of `remove` holds exactly if no waiting acq asks for more than is left
  (`Semaphore.Sem.Remove`, `Semaphore.RemoveTooMuch`).
- The assertion at `src/sync/multiple_wait.cc:49`, that `item_finished` finds something still needed, fails in a wait for
  any of two objects that are both ready at once (`MultipleWait.SecondAnswerFindsNothingNeeded`). While a wait begins, it
  holds exactly until the needed objects have succeeded without a failure (`MultipleWait.CallFindsNeededIff`); once the
  owner is suspended, it holds always (`MultipleWait.ItemFindsNeeded`). The model goes on where the assertion fails, as the
  code does without assertions.
- `local_stream_t::read` may return nothing although a message was completely pushed: it is enough that another producer,
  behind that message, stands between exchange and link (`MpscQueue.PushedButNotReturned`). When nobody disturbs the call,
  `MpscQueue.AloneIsNothingIff` says exactly when it returns nothing.

## Model

| member | source | states |
|---|---|---|
| `MpscQueue.StepKeepsInv` | src/containers/intrusive.hpp:240-303 | every access of `push`, `pop` and `push_self`, by any producer or the consumer, keeps the chain invariant: a link from a live node to the next is either written or owed by exactly one actor between its exchange and its store |
| `MpscQueue.StepRefinesFifo` | src/containers/intrusive.hpp:240-303 | each access adds at the back of an abstract sequence (an exchange), removes at its front (the move of `m_front` past an item) or leaves it alone |
| `MpscQueue.RunConserves` | src/containers/intrusive.hpp:240-303 | over any run, what was inside followed by what was pushed is what was returned followed by what is inside |
| `MpscQueue.QueueIsFifo` | src/containers/intrusive.hpp:240-282 | in every run from the initial queue, under every interleaving, nodes are returned exactly once and in exchange order; none is lost or duplicated |
| `MpscQueue.NothingOnlyIfStalled` | src/containers/intrusive.hpp:247-282 | whatever the producers do meanwhile, a `pop` that is about to return null has noted a blocked moment since it began |
| `MpscQueue.AloneIsNothingIff` | src/containers/intrusive.hpp:247-282 | a `pop` of the queue at rest that nobody disturbs returns null if and only if nothing is inside, or a producer still owes the link of the front node, or of the first item while the stub is at the front; otherwise it returns the first item |
| `MpscQueue.PushedButNotReturned` | src/containers/intrusive.hpp:240-282 | a concrete run after which a completely pushed item is inside, its producer is gone, and an undisturbed `pop` returns null, because the push behind that item is not linked |
| `MpscQueue.MeetsMeans` | src/containers/intrusive.hpp:247-282 | what `MpscQueue.Queue.Pop` says of null: the machine is in a blocked state after some of the steps of the run |
| `MpscQueue.BlockedMeans` | src/containers/intrusive.hpp:240-282 | that moment is exactly: no item inside, or a producer between exchange and link right behind the front |
| `MpscQueue.EmptyMeans` | src/containers/intrusive.hpp:228-239 | the queue holds no item if and only if front and back are the queue object itself |
| `MpscQueue.EmptyIsInitial` | src/containers/intrusive.hpp:234-238 | an empty queue at rest is back in its initial shape, as its destructor asserts |
| `MpscQueue.ReturnedNode` | src/containers/intrusive.hpp:256-279 | the node `pop` returns is the item it removed, is never the stub, has no link, and is reachable by no other actor |
| `MpscQueue.OnlyBusyIsLinked` | src/containers/intrusive.hpp:240-282 | in every reachable state a node is linked only while it is inside or some actor still holds it, so that what `pop` has handed out can be destroyed, as the destructor of a node asserts |
| `MpscQueue.StubReadyForExchange` | src/containers/intrusive.hpp:294-298 | the assertion of `push_self`: the stub has no link when it is exchanged in again |
| `MpscQueue.ChainDistinct` | src/containers/intrusive.hpp:294-303 | no node, and in particular not the stub, is in the chain twice |
| `MpscQueue.Queue.constructor` | src/containers/intrusive.hpp:230-232 | the queue object starts in the initial state of the machine |
| `MpscQueue.Queue.Push` | src/containers/intrusive.hpp:240-245 | the three accesses of `push`, while all the others go on, are exactly one producer's three steps in a run of the machine |
| `MpscQueue.Queue.PushSelf` | src/containers/intrusive.hpp:294-298 | the two accesses of `push_self`, with arbitrary steps of the producers after each, lengthen the run of the machine, return nothing, and leave the front alone and the consumer ready to read again |
| `MpscQueue.Queue.Pop` | src/containers/intrusive.hpp:247-282 | the code of `pop`, with arbitrary steps of the producers after each of its accesses, is a run of the machine; it returns what that run returns; old contents and the items pushed in the run equal the result, if any, followed by the new contents; a node that is returned is unlinked and the caller's alone; and for null, some state of the run is blocked |
| `LocalStream.DoKeepsStream` | src/rpc/stream.cc:23-55 | every access of `write`, `read` and `wait` keeps the invariant that ties the queue to the eventfd |
| `LocalStream.NoLostWakeup` | src/rpc/stream.cc:23-55 | in every reachable state, a consumer asleep over a non-empty queue has a readable eventfd or a writer that has yet to signal |
| `LocalStream.QuietSleepIsEmpty` | src/coro/thread.cc:93-100 | once all writers are done, a consumer asleep in the main coroutine's loop with nothing readable has an empty queue |
| `LocalStream.QuietReadFindsMessage` | src/rpc/stream.cc:34-55 | once all writers are done, no message stays behind: a consumer asleep over one can be woken and then reads, and what it reads between two calls is the first message |
| `LocalStream.SleepsIff` | src/coro/thread.cc:93-100 | the consumer sleeps exactly after a read that returned nothing |
| `Shutdown.StepKeepsInv` | src/coro/shutdown.cc:29-55 | every access of every thread keeps the accounting: the counter is the sum over the threads of live tasks less unflushed delta, plus messages, plus what shutdown has not claimed |
| `Shutdown.FlushEffect` | src/coro/coro.cc:107-141 | the flush at the end of a dispatcher run moves a thread's delta into the counter, which stays exact |
| `Shutdown.MessagesNeedBusy` | src/rpc/hub.cc:52-75 | only while some task lives can a counted message move |
| `Shutdown.FinishIsSafe` | src/coro/shutdown.cc:43-55 | whatever deltas are still unflushed, finish is broadcast at most once, and from the decision on no task is alive, no counted message is in flight, and every begin task has completed |
| `Shutdown.FinishIsExact` | src/coro/shutdown.cc:43-55 | a fully flushed state with shutdown begun and no task or message left has already triggered the broadcast |
| `Shutdown.FinishReachesAll` | src/coro/shutdown.cc:43-55 | once a broadcast is over, every thread has been sent exactly one finish: its message waits, or its task runs or has run |
| `Shutdown.JobsConserved` | src/rpc/hub.cc:52-75 | a task that is sent arrives and runs: only a send and a spawn make one, and only its end, or a message for an unknown RPC, takes one away |
| `Shutdown.PostArrives` | src/rpc/hub.cc:52-75 | a message goes to the thread it was sent to, or to the queue that all threads share |
| `Shutdown.FinishFindsEventSet` | src/coro/thread.cc:43-50 | the assertion of `finish_shutdown`: the shutdown event is set on every thread that runs it, and it runs at most once per thread |
| `Shutdown.OnlyFlushReachesZero` | src/coro/shutdown.cc:47-54 | the nested updates of a broadcast, which count every finish message twice, cannot reach zero again; only a flush can |
| `Shutdown.Counter.constructor` | src/coro/shutdown.cc:24-27 | before the first reset no broadcast can happen |
| `Shutdown.Counter.Reset` | src/coro/shutdown.cc:29-33 | the counter starts with one dummy task more than was given |
| `Shutdown.Counter.Update` | src/coro/shutdown.cc:43-55 | `update` with its nested calls: it broadcasts to every target exactly on the first move from non-zero to zero since the reset, and leaves twice the number of targets |
| `CrossThreadMutex.StepKeepsInv` | src/cross_thread/ct_mutex.cc:62-102 | every critical section, errand and notification keeps the hand-off invariant, also for acqs destroyed while queued and for stale notifications to a reused address |
| `CrossThreadMutex.MutualExclusion` | src/cross_thread/ct_mutex.cc:17-36 | in every reachable state at most one acq owns the lock, and it is the front one |
| `CrossThreadMutex.SystemStepsEnd` | src/cross_thread/ct_mutex.cc:86-102 | the errands and notifications the runtime still owes run out |
| `CrossThreadMutex.NoLostHandoff` | src/cross_thread/ct_mutex.cc:62-102 | a non-empty lock list always has a front that owns the lock or to which somebody is on the way; when nothing is owed any more, the front owns it |
| `CrossThreadMutex.FirstComeFirstServed` | src/cross_thread/ct_mutex.cc:62-102 | over any run: as long as an earlier acq lives, a later one stands behind it and does not own the lock |
| `CrossThreadMutex.NewIsLast` | src/cross_thread/ct_mutex.cc:62-73 | a new acq stands behind every acq that exists |
| `CrossThreadMutex.StepKeepsOrder` | src/cross_thread/ct_mutex.cc:62-102 | no step changes the order of two acqs that stay |
| `CrossThreadMutex.NewWaiter` | src/cross_thread/ct_mutex.cc:29-36 | a waiter is not kept if its acq owns the lock already, which is when it is told at once, and kept if not |
| `CrossThreadMutex.WaiterStays` | src/cross_thread/ct_mutex.cc:29-60 | a waiter that is kept stays until it is taken back, or its acq is destroyed or owns the lock |
| `CrossThreadMutex.WaiterCame` | src/cross_thread/ct_mutex.cc:29-60 | nobody waits who did not ask to, or who took it back |
| `CrossThreadMutex.Mutex.AddLock` | src/cross_thread/ct_mutex.cc:62-73 | the code of `add_lock` is the machine's step: the new acq is put behind all the others, and a `ready` is left exactly when the step leaves one |
| `CrossThreadMutex.Mutex.ReleaseLock` | src/cross_thread/ct_mutex.cc:75-90 | the code of `release_lock` is the machine's step, with the same acq to notify |
| `CrossThreadMutex.Mutex.Notification` | src/cross_thread/ct_mutex.cc:92-102 | a notification makes its acq ready exactly if that acq is still at the front, and then the acq exists |
| `FlipBuffer.StepKeepsInv` | src/cross_thread/flip_buffer.hpp:49-88 | every step of writers, readers, flips and of the mutex below keeps the invariant of the two sides |
| `FlipBuffer.ActiveIsCommitted` | src/cross_thread/flip_buffer.hpp:55-83 | each thread's active side holds a whole committed value: the newest, or the one before while its flip is still to come |
| `FlipBuffer.StepSparesReaders` | src/cross_thread/flip_buffer.hpp:49-83 | no step changes the side a reader holds, and no step turns a thread back to an older version |
| `FlipBuffer.VersionStep` | src/cross_thread/flip_buffer.cc:24-32 | a thread sees a newer version exactly by its own flip |
| `FlipBuffer.VersionsNeverGoBack` | src/cross_thread/flip_buffer.cc:24-32 | over any run the version a thread sees never decreases, and committed values stay committed |
| `FlipBuffer.ReadersSeeCommitted` | src/cross_thread/flip_buffer.hpp:49-53 | in every reachable state a reader holds a whole value that was committed |
| `FlipBuffer.RestBetweenWrites` | src/cross_thread/flip_buffer.hpp:55-83 | between writes all threads agree on the active side, and both sides hold the newest value |
| `FlipBuffer.Buffer.constructor` | src/cross_thread/flip_buffer.hpp:41-45 | both sides hold the first value, and every thread is on the first side |
| `FlipBuffer.Buffer.ApplyRead` | src/cross_thread/flip_buffer.hpp:49-53 | whatever the writers are doing, the callback sees the committed value of its thread's version |
| `FlipBuffer.Buffer.FlipInternal` | src/cross_thread/flip_buffer.cc:28-32 | the code is the machine's step on that thread |
| `FlipBuffer.Buffer.Change` | src/cross_thread/flip_buffer.hpp:61-75 | the callback changes the side that no thread regards as active, starting from the newest value; its start and its end are the writer's only steps, while others read and lock |
| `FlipBuffer.Buffer.Broadcast` | src/cross_thread/flip_buffer.cc:24-26 | every thread is flipped, once, in whatever order, after the read that it may be in; nothing else of the write changes while others read and lock |
| `FlipBuffer.Buffer.CopyBack` | src/cross_thread/flip_buffer.hpp:79-82 | the overwriting of the inactive side is the writer's last two steps, while others read and lock |
| `FlipBuffer.Buffer.ApplyWrite` | src/cross_thread/flip_buffer.hpp:55-83 | a whole write, while others read and use the mutex, is a run of the machine in which the writer takes exactly its steps and each thread flips once; it commits exactly the callback's result, and leaves everything at rest with equal sides |
| `ThreadBarrier.StepKeepsInv` | src/coro/barrier.cc:10-29 | entering and leaving keep every thread in step with the number of completed rounds |
| `ThreadBarrier.ResetIsSafe` | src/coro/barrier.cc:12-14 | a side's counter is reset only when no thread waits on that side |
| `ThreadBarrier.WaitStaysOver` | src/coro/barrier.cc:15-17 | a thread whose wait is over can leave until it does, whatever the others do |
| `ThreadBarrier.WaitIsOverIff` | src/coro/barrier.cc:15-17 | a waiting thread may leave if and only if every thread has entered its round |
| `ThreadBarrier.Lockstep` | src/coro/barrier.cc:10-29 | for any number of threads and rounds: nobody leaves a round before all have entered it, and round counts differ by at most one |
| `ThreadBarrier.Barrier.Arrive` | src/coro/barrier.cc:10-29 | the code of `wait` up to where the thread blocks is the machine's step |
| `ThreadBarrier.Barrier.Depart` | src/coro/barrier.cc:15-29 | the predicate a blocked thread waits for is the machine's guard, and the code after it the machine's step |
| `DomainName.EncodeInjective` | external/udns-0.4/udns_dn.c:27-32 | the wire form determines the name, and no wire form is the beginning of another |
| `DomainName.EncodeHead` | external/udns-0.4/udns_dn.c:27-55 | what stands at the head of a wire form: the zero byte, or a length byte, the label and the rest |
| `DomainName.WellFormedMeans` | external/udns-0.4/udns_dn.c:66-145 | a name is well formed if and only if its labels have 1 to 63 bytes and its wire form has at most 255 |
| `DomainName.SameNameIff` | external/udns-0.4/udns_dn.c:41-55 | names are the same if and only if their labels are, byte by byte, but for a capital letter of ASCII and the small one 32 above it |
| `DomainName.DnLen` | external/udns-0.4/udns_dn.c:27-32 | the length of the wire form with its final zero |
| `DomainName.DnLabels` | external/udns-0.4/udns_dn.c:34-39 | the number of labels |
| `DomainName.EqualBytes` | external/udns-0.4/udns_dn.c:49-53 | the inner loop: equal labels but for the case of letters |
| `DomainName.DnEqual` | external/udns-0.4/udns_dn.c:41-55 | the length of the names if they are equal but for the case of letters, zero if not |
| `DomainText.DnToPSize` | external/udns-0.4/udns_dn.c:250-282 | the size of the printed name with its final zero, or zero above 1024 |
| `DomainText.PutByte` | external/udns-0.4/udns_dn.c:261-326 | one byte is escaped by its class, or refused when it and a final zero cannot fit |
| `DomainText.EscapeMeans` | external/udns-0.4/udns_dn.c:261-326 | the text of one byte: itself, itself behind a backslash if it is one of the six special ones, or a backslash and the three decimal digits of its value |
| `DomainText.EscapeConcat` | external/udns-0.4/udns_dn.c:261-326 | the text of a label is that of its bytes, one after the other |
| `DomainText.PrintConcat` | external/udns-0.4/udns_dn.c:295-330 | the text of a name is that of its labels, with dots between them |
| `DomainText.DnToP` | external/udns-0.4/udns_dn.c:287-334 | succeeds exactly when the buffer has the size that `dns_dntop_size` computes, returns that size and the text, and changes nothing behind it |
| `DomainText.SizeIsNeverZero` | external/udns-0.4/udns_dn.c:250-282 | for a well-formed name the printed size is at most 1024, so the zero result is not reached; the text holds no zero byte |
| `DomainText.ReadByte` | external/udns-0.4/udns_dn.c:105-131 | the next byte of the text: plain, escaped, or one to three decimal digits |
| `DomainText.UnescapeMeans` | external/udns-0.4/udns_dn.c:105-131 | one to three digits behind a backslash are a decimal number below 256, any other byte stands for itself, and there must be something |
| `DomainText.PToDn` | external/udns-0.4/udns_dn.c:66-145 | the parser, in place in its buffer: its result, its error code and `isabs` are those of the grammar, a successful result is the wire form of a well-formed name of the returned length, and nothing is written past the limit |
| `DomainText.StrLen` | external/udns-0.4/udns_dn.c:74-74 | a zero length argument stands for the C string up to its first zero |
| `DomainText.ParseFits` | external/udns-0.4/udns_dn.c:70-104 | a buffer takes a text exactly when the wire form of its name fits; a larger one gives the same name |
| `DomainText.FinalDot` | external/udns-0.4/udns_dn.c:66-145 | a final dot makes a name absolute, and is no part of it |
| `DomainText.EmptyLabel` | external/udns-0.4/udns_dn.c:83-104 | an empty label is refused: at the start, unless the text is a single dot, and in the middle |
| `DomainText.LongLabel` | external/udns-0.4/udns_dn.c:83-104 | a label of more than 63 bytes is refused, at the end of the text or before a dot |
| `DomainText.RoundTrip` | external/udns-0.4/udns_dn.c:66-145 | parsing what was printed gives the identical name, for every name and every buffer with room for it, through all escapes |
| `DomainPacket.GetDn` | external/udns-0.4/udns_parse.c:42-89 | the result and the error code are those of recursive decompression with at most 100 jumps; on success the buffer holds the wire form and the cursor is behind the name or behind the first pointer, and on failure it has not moved; a buffer of just the limit is enough exactly if the read stays inside |
| `DomainPacket.RoomOnlyCuts` | external/udns-0.4/udns_parse.c:80-88 | a smaller buffer gives the same name if its labels fit and no room if not |
| `DomainPacket.MoreJumps` | external/udns-0.4/udns_parse.c:65-75 | a larger budget of jumps gives the same name |
| `DomainPacket.SharedSuffix` | external/udns-0.4/udns_parse.c:65-75 | labels followed by a pointer stand for these labels before the name at the target, with one jump less |
| `DomainPacket.CompressedName` | external/udns-0.4/udns_parse.c:65-75 | the same in bytes: two bytes, the first with one of its two top bits set or both, hold the offset of the rest of the name |
| `DomainPacket.IntoHeader` | external/udns-0.4/udns_parse.c:65-75 | a pointer into the first twelve bytes is refused |
| `DomainPacket.HundredPointers` | external/udns-0.4/udns_parse.c:65-75 | a chain of pointers is followed if and only if there are at most a hundred |
| `DomainPacket.PlainName` | external/udns-0.4/udns_parse.c:53-86 | an uncompressed wire form reads back as its name, and the cursor ends behind it |
| `DomainPacket.CutOff` | external/udns-0.4/udns_parse.c:53-86 | a name that the end of the packet cuts off anywhere is refused, when read and when skipped |
| `DomainPacket.SelfPointer` | external/udns-0.4/udns_parse.c:65-75 | a pointer to itself is refused under every budget |
| `DomainPacket.ReadIsWellFormedIff` | external/udns-0.4/udns_parse.c:57-64 | with a limit below 255, what is read is always a well-formed name; at 255, if and only if a limit of 254 finds it too |
| `DomainPacket.ReadFitsIff` | external/udns-0.4/udns_parse.c:57-64 | the wire form of what is read takes at most one byte more than the limit, and fits into the limit if and only if the same call with one byte less finds the name |
| `DomainPacket.OneByteTooLong` | external/udns-0.4/udns_parse.c:57-64 | a concrete name whose labels fill all 255 bytes is read, with 256 bytes in all, so that this read does not stay inside 255 bytes |
| `DomainPacket.SkipDn` | external/udns-0.4/udns_parse.c:28-40 | skipping finds the place where reading stops, except after a pointer that ends the packet |
| `DomainPacket.PointerAtTheEnd` | external/udns-0.4/udns_parse.c:28-40 | a concrete packet: the pointer that ends it is read as a name, and there is no byte behind it for `dns_skipdn` to find |
| `DomainPacket.SkipAgrees` | external/udns-0.4/udns_parse.c:28-40 | wherever a name can be read there is such a place, inside the packet |
| `DomainRecords.NextShrinks` | external/udns-0.4/udns_parse.c:114-139 | a record that is found uses up at least one of the section |
| `DomainRecords.RecordMeans` | external/udns-0.4/udns_parse.c:118-130 | behind a name that can be read, compressed or not, ten bytes give type, class, time to live and length, the most significant byte first; the record is refused if and only if its data are not all there |
| `DomainRecords.FieldsAreBytes` | external/udns-0.4/udns.h:250-257 | every ten bytes are those of the fields that are read from them |
| `DomainRecords.RecordCutOff` | external/udns-0.4/udns_parse.c:118-130 | without a name that can be read, or without all of the ten bytes, there is no record |
| `DomainRecords.WrittenRecord` | external/udns-0.4/udns_parse.c:114-130 | a record that was written, with any name, type, class, time to live and data, is read, at any place in any packet |
| `DomainRecords.WrittenSection` | external/udns-0.4/udns_parse.c:114-139 | so is a whole section, record by record |
| `DomainRecords.WrittenAlias` | external/udns-0.4/udns_parse.c:140-147 | the data of an alias are a name and nothing more |
| `DomainRecords.WalkIsFilter` | external/udns-0.4/udns_parse.c:114-151 | once a record was found, or if no name is asked for or it has no alias in the section, repeated calls give exactly the records with the name, type and class, in order |
| `DomainRecords.FilterMeans` | external/udns-0.4/udns_parse.c:131-139 | which records these are: with the name asked for, if any, but for the case of letters, and with the type and class asked for, where zero stands for any |
| `DomainRecords.NothingMore` | external/udns-0.4/udns_parse.c:148-151 | if nothing in a readable section is what was asked for, the call says so, and the walk ends behind the section |
| `DomainRecords.WalkBreaks` | external/udns-0.4/udns_parse.c:114-130 | if a record cannot be read and none before it has the name asked for, the call fails |
| `DomainRecords.WalkFollowsAlias` | external/udns-0.4/udns_parse.c:131-147 | if nothing is what was asked for before a record that makes the name an alias, the walk goes on behind that record for the name that the alias stands for |
| `DomainRecords.AliasBreaks` | external/udns-0.4/udns_parse.c:140-147 | if the data of that record are no name, or more than a name, the call fails |
| `DomainRecords.FoundByAliases` | external/udns-0.4/udns_parse.c:131-147 | a record that is found has the name at the end of a chain of aliases from the name asked for, and the type and class asked for; the time to live is the least on the way, that of the record included |
| `DomainRecords.MinTtlMeans` | external/udns-0.4/udns_parse.c:134-146 | the least of these is one of them, and none of them is less |
| `DomainRecords.Parser.constructor` | external/udns-0.4/udns_parse.c:91-112 | the start of a walk: behind the type and the class of the question, where 255 stands for any, with as many records as the header says and the greatest time to live |
| `DomainRecords.Parser.ReadRecord` | external/udns-0.4/udns_parse.c:118-130 | the record at the cursor, or failure where its name, its fields or its data are not in the packet; 255 bytes for the name are enough if the read stays inside |
| `DomainRecords.Parser.Follow` | external/udns-0.4/udns_parse.c:140-147 | the alias must take up the record's data exactly; its name is then the one to look for, also where it replaces itself in its buffer |
| `DomainRecords.Parser.Round` | external/udns-0.4/udns_parse.c:114-149 | one round of the loop: the record found, the failure, or the walk that is left |
| `DomainRecords.Parser.NextRr` | external/udns-0.4/udns_parse.c:114-151 | the code of `dns_nextrr`, in place, is the walk, and gives the fields of the record that it finds; with 255 bytes in each buffer, on the condition of `InsideIff` |
| `DomainRecords.InsideIff` | external/udns-0.4/udns_parse.c:114-151 | a call stays inside buffers of 255 bytes if and only if every name that it reads fits into them |
| `QueryRules.SendChooses` | external/udns-0.4/udns_resolver.c:841-866 | the server asked is the first one of this round that is not skipped, or else of the next; it is waited for; the deadline is one second if another server is left in the round, and the doubled timeout if not; the names and what is skipped stay |
| `QueryRules.SendFailsIff` | external/udns-0.4/udns_resolver.c:848-863 | a query fails to be sent exactly when `sendto` refuses it, or when this round has no server left and there is no further round with one |
| `QueryRules.WaitDoubles` | external/udns-0.4/udns_resolver.c:804-812 | the wait for the last server of a round doubles with each round |
| `QueryRules.FindServMeans` | external/udns-0.4/udns_resolver.c:753-760 | the first server that is not skipped, if there is one |
| `QueryRules.SendProgress` | external/udns-0.4/udns_resolver.c:841-866 | each transmission makes the measure smaller and sets a deadline in the future |
| `QueryRules.WithoutEdnsProgress` | external/udns-0.4/udns_resolver.c:1141-1159 | the retry without EDNS0 makes the measure smaller |
| `QueryRules.ReplyProgress` | external/udns-0.4/udns_resolver.c:1083-1198 | a reply ends the query, or sends it with a smaller measure, or leaves measure and deadline alone |
| `QueryRules.NextSrchValid` | external/udns-0.4/udns_resolver.c:728-746 | the next name is the original one before a later suffix, and well formed; the per-name state is reset |
| `QueryRules.NextSrchMeans` | external/udns-0.4/udns_resolver.c:728-746 | the next name has the first suffix left that can be used; all servers are tried again, from the first round, with EDNS0 |
| `QueryRules.UsableMeans` | external/udns-0.4/udns_resolver.c:731-739 | a suffix can be used if and only if the whole name is well formed, and the bare name only once |
| `QueryRules.NextSrchFails` | external/udns-0.4/udns_resolver.c:728-746 | the search is over if and only if no suffix that is left fits or is usable |
| `QueryRules.AsIsOnce` | external/udns-0.4/udns_resolver.c:735-742 | the name as it is is not asked for twice |
| `QueryRules.NoSuchNameMeans` | external/udns-0.4/udns_resolver.c:1097-1138 | the two negative results: each is given exactly when its reply comes, nothing is left to search, and no-data replies were or were not seen |
| `QueryRules.AnswerMeans` | external/udns-0.4/udns_resolver.c:1083-1198 | a query ends with a code of the parse routine if and only if a server that is waited for sends a whole answer with records, and the routine gives that code |
| `QueryRules.TempFailMeans` | external/udns-0.4/udns_resolver.c:1083-1198 | a reply ends a query with the temporary failure if and only if it calls for another transmission, and `sendto` refuses that or no server is left |
| `QueryRules.KeptMeans` | external/udns-0.4/udns_resolver.c:1083-1198 | a query waits on if and only if the reply is not expected, and nothing changes, or its server failed and another one may still reply, and that server is skipped from then on |
| `QueryRules.NextNameSent` | external/udns-0.4/udns_resolver.c:1097-1138 | after a negative reply the first server is asked for the next usable name, and that a name had no data is remembered |
| `QueryRules.AskedWithoutEdns` | external/udns-0.4/udns_resolver.c:1141-1159 | after a format error or an unknown operation that EDNS0 may explain, the query is sent to that server again, without EDNS0 from then on |
| `QueryRules.OtherServerAsked` | external/udns-0.4/udns_resolver.c:1160-1198 | when the last server that was waited for failed, a server that was not skipped is asked, and the failed one is skipped for this name |
| `QueryRules.NewQueryValid` | external/udns-0.4/udns_resolver.c:881-932 | a submitted query is valid and due at once |
| `QueryRules.NewQueryMeans` | external/udns-0.4/udns_resolver.c:881-932 | the first name: the bare one and no other without a search; the bare one, and the whole list to come, if it has more labels than `ndots`; else that with the first suffix that fits |
| `ResolverRuns.StepKeepsInv` | external/udns-0.4/udns_resolver.c:881-1236 | submission, timeouts, replies and cancellation keep the list sorted by deadline and every query in exactly one place |
| `ResolverRuns.CallbackOnce` | external/udns-0.4/udns_resolver.c:606-624 | in every run each submitted query is active, or had its callback called, or was cancelled: exactly one of these, exactly once |
| `ResolverRuns.SendsAreBounded` | external/udns-0.4/udns_resolver.c:841-866 | in every run each submitted query is sent at most a number of times that only the settings determine, whatever is submitted later; and so the total is bounded by the number of submissions |
| `ResolverRuns.LessRank` | external/udns-0.4/udns_resolver.c:728-866 | the lexicographic measure as one number |
| `ResolverRuns.InsertBehind` | external/udns-0.4/udns_resolver.c:826-832 | a query due after others goes behind them |
| `ResolverRuns.TimeoutsHandlesDue` | external/udns-0.4/udns_resolver.c:1203-1236 | exactly the queries that are due are sent or ended, once each; the others stay |
| `ResolverRuns.TimeoutsSettles` | external/udns-0.4/udns_resolver.c:1203-1236 | afterwards nothing is due, so a second call at that time changes nothing |
| `ResolverRuns.DueMeans` | external/udns-0.4/udns_resolver.c:1203-1236 | a query that is due is sent if a server is left and `sendto` takes it, and else its callback is told of the temporary failure |
| `ResolverRuns.ReceiveMeans` | external/udns-0.4/udns_resolver.c:961-1200 | a reply touches only its query, which is sent once again, waits on, or ends with its callback called once, with the status of the rule |
| `ResolverRuns.SubmitMeans` | external/udns-0.4/udns_resolver.c:881-932 | a submitted query is due before all others, and nothing else changes |
| `ResolverRuns.CancelMeans` | external/udns-0.4/udns_resolver.c:1310-1322 | a cancelled query leaves the list, no callback is called, and nothing else changes |
| `ResolverRuns.EveryQueryEnds` | external/udns-0.4/udns_resolver.c:841-1236 | in every run without new submissions, whatever replies come and whatever is cancelled, finitely many calls of `dns_timeouts` after the deadlines, a number known at the start, end every query |
| `Resolver.Context.FindServ` | external/udns-0.4/udns_resolver.c:753-760 | the loop over the servers |
| `Resolver.Context.FindSuffix` | external/udns-0.4/udns_resolver.c:731-739 | the loop over the suffixes stops at the next one that fits and is usable |
| `Resolver.Context.NextSrch` | external/udns-0.4/udns_resolver.c:728-746 | the query's fields, changed in place, are those of the rule |
| `Resolver.Context.FindPlace` | external/udns-0.4/udns_resolver.c:826-830 | the search from the tail of the active list |
| `Resolver.Context.EndQuery` | external/udns-0.4/udns_resolver.c:606-624 | the query leaves the list, the count goes down with it, and its callback is called once |
| `Resolver.Context.SendThis` | external/udns-0.4/udns_resolver.c:766-835 | a transmission, or the end of the query when `sendto` refuses ten times |
| `Resolver.Context.Send` | external/udns-0.4/udns_resolver.c:841-866 | the code of `dns_send`, in place, is the rule |
| `Resolver.Context.HandleReply` | external/udns-0.4/udns_resolver.c:1078-1198 | the switch over the reply codes, in place, is the rule |
| `Resolver.Context.Receive` | external/udns-0.4/udns_resolver.c:961-1200 | one reply keeps the context valid; the count equals the length of the list |
| `Resolver.Context.Submit` | external/udns-0.4/udns_resolver.c:881-932 | a new query is at the head, due at once, and counted |
| `Resolver.Context.Cancel` | external/udns-0.4/udns_resolver.c:1310-1322 | a cancelled query leaves the list without its callback |
| `Resolver.Context.Timeouts` | external/udns-0.4/udns_resolver.c:1203-1236 | the loop ends or sends exactly what is due; it returns `maxwait` if nothing is left, and else the smaller of that, if it is no negative number, and the wait for the nearest deadline |
| `QueryList.List.Remove` | external/udns-0.4/udns_resolver.c:99-104 | the pointers follow the sequence without the query |
| `QueryList.List.AddHead` | external/udns-0.4/udns_resolver.c:106-113 | the pointers follow the sequence with the query in front |
| `QueryList.List.InsertAfter` | external/udns-0.4/udns_resolver.c:115-127 | the pointers follow the sequence with the query behind the given one |
| `QueryList.List.FindPlace` | external/udns-0.4/udns_resolver.c:826-830 | the search along `dnsq_prev` stops behind the last query due no later |
| `QueryList.List.MoveToPlace` | external/udns-0.4/udns_resolver.c:824-832 | the query is taken out and put behind the last one due no later |
| `QueryList.SortedWith` | external/udns-0.4/udns_resolver.c:824-832 | at that place it keeps a sorted list sorted |
| `QueryList.List.Submit` | external/udns-0.4/udns_resolver.c:921-927 | the list stays linked and sorted when a query that is due before all others is put at the head |
| `QueryList.List.Resend` | external/udns-0.4/udns_resolver.c:821-832 | the list stays linked and sorted when a query gets a new deadline and is moved |
| `QueryList.List.TakeOut` | external/udns-0.4/udns_resolver.c:606-624 | the list stays linked and sorted when a query ends or is cancelled |
| `IntrusiveList.List.constructor` | src/containers/intrusive.hpp:56-60 | an empty list is a ring of its own node |
| `IntrusiveList.List.Move` | src/containers/intrusive.hpp:62-74 | the new list has the items, and the old one is empty; also when there were none |
| `IntrusiveList.List.Swap` | src/containers/intrusive.hpp:84-124 | all four cases exchange the items and sizes of two lists; a list swapped with itself stays as it is |
| `IntrusiveList.List.SwapRings` | src/containers/intrusive.hpp:106-121 | the case with items in both lists, which may be one list |
| `IntrusiveList.List.TakeRing` | src/containers/intrusive.hpp:88-105 | the cases with one empty list |
| `IntrusiveList.List.InsertBetween` | src/containers/intrusive.hpp:202-210 | the item is linked in between, and the size goes up |
| `IntrusiveList.List.RemoveNode` | src/containers/intrusive.hpp:212-217 | the item is unlinked and cleared, and the size goes down |
| `IntrusiveList.List.PushBack` | src/containers/intrusive.hpp:164-166 | the item is the last one |
| `IntrusiveList.List.PushFront` | src/containers/intrusive.hpp:168-170 | the item is the first one |
| `IntrusiveList.List.PopFront` | src/containers/intrusive.hpp:172-176 | the first item, or null, is taken off |
| `IntrusiveList.List.PopBack` | src/containers/intrusive.hpp:178-182 | the last item, or null, is taken off |
| `IntrusiveList.List.InsertBefore` | src/containers/intrusive.hpp:184-186 | the item stands before the given one |
| `IntrusiveList.List.Remove` | src/containers/intrusive.hpp:188-190 | the other items stay in order |
| `IntrusiveList.List.Front` | src/containers/intrusive.hpp:146-148 | the first item, or null |
| `IntrusiveList.List.Back` | src/containers/intrusive.hpp:150-152 | the last item, or null |
| `IntrusiveList.List.Next` | src/containers/intrusive.hpp:154-157 | the item behind the given one, or null |
| `IntrusiveList.List.Prev` | src/containers/intrusive.hpp:159-162 | the item before the given one, or null |
| `IntrusiveList.List.Empty` | src/containers/intrusive.hpp:192-194 | whether there is no item |
| `IntrusiveList.List.Each` | src/containers/intrusive.hpp:130-137 | the links alone lead through the items in order |
| `IntrusiveList.List.Clear` | src/containers/intrusive.hpp:139-144 | the items are taken off one by one, in order, and unlinked |
| `IntrusiveList.MoveNode` | src/containers/intrusive.hpp:21-28 | a moved node takes the place of the old one in its list |
| `IntrusiveList.MoveFreeNode` | src/containers/intrusive.hpp:21-28 | a moved node that is in no list stays in none |
| `Sequences.InsertThenRemove` | src/containers/intrusive.hpp:184-217 | removal undoes insertion |
| `Semaphore.FitIsLongest` | src/sync/semaphore.cc:163-171 | what the pump grants is the longest prefix of the queue that does not ask for more than there is |
| `Semaphore.Sem.Grant` | src/sync/semaphore.cc:166-169 | the front of the queue gets what it asked for, and its waiters are told |
| `Semaphore.Sem.Pump` | src/sync/semaphore.cc:163-171 | exactly that prefix is granted, in queue order, their waiters and no others are told of success, and then the queue is empty or its front asks for more than there is |
| `Semaphore.ToldStep` | src/sync/semaphore.cc:163-171 | the waiters are told line by line |
| `Semaphore.Sem.Acquire` | src/sync/semaphore.cc:19-32 | granted at once if there is enough, even past the queue, and queued at the back if not |
| `Semaphore.Overtake` | src/sync/semaphore.cc:19-32 | a concrete sequence in which a later acq is granted while an earlier one waits |
| `Semaphore.Sem.Release` | src/sync/semaphore.cc:65-71 | the count comes back, and exactly what fits then is granted and told; capacity stays available plus owned |
| `Semaphore.Sem.ReleaseQueued` | src/sync/semaphore.cc:65-71 | a waiting acq can only release nothing, and that changes nothing |
| `Semaphore.Sem.MoveGranted` | src/sync/semaphore.cc:7-17 | a moved acq has the place, the count and the parent of the old one, which is empty |
| `Semaphore.Sem.MoveQueued` | src/sync/semaphore.cc:7-17 | a moved waiting acq keeps its place in the queue and its waiters |
| `Semaphore.Sem.DestroyGranted` | src/sync/semaphore.cc:34-43 | what the acq owned comes back, and exactly what fits then is granted and told |
| `Semaphore.Sem.DestroyQueued` | src/sync/semaphore.cc:34-43 | a waiting acq that goes lets those behind it through: exactly what fits in the rest of the queue is granted and told |
| `Semaphore.Sem.Extend` | src/sync/semaphore.cc:130-134 | a larger capacity is available, and exactly what fits then is granted and told |
| `Semaphore.Sem.Remove` | src/sync/semaphore.cc:136-147 | what the acq owns leaves the capacity, and the acq is dead; nobody is granted or told; the debug assertion holds if and only if no waiting acq asks for more than is left |
| `Semaphore.Sem.Invalidate` | src/sync/semaphore.cc:136-144 | the part before the scan: the count leaves, and the acq is dead |
| `Semaphore.Sem.Scan` | src/sync/semaphore.cc:145-146 | the scan of the queue |
| `Semaphore.RemoveTooMuch` | src/sync/semaphore.cc:136-147 | a concrete sequence in which that assertion fails |
| `Semaphore.Sem.Combine` | src/sync/semaphore.cc:53-63 | capacity stays available plus owned if and only if the two acqs differ or own nothing |
| `Semaphore.Sem.AddWait` | src/sync/semaphore.cc:73-80 | a callback is told at once or kept |
| `Semaphore.Sem.Move` | src/sync/semaphore.cc:101-110 | a moved semaphore keeps its sum if and only if no dead acq still carries a count |
| `Semaphore.CombineThenMove` | src/sync/semaphore.cc:53-110 | a concrete sequence after which the sum is lost |
| `Semaphore.SumCompare` | src/sync/semaphore.cc:101-110 | the sums agree exactly if no dead acq carries a count |
| `MultipleWait.ResumedOnce` | src/sync/multiple_wait.cc:48-81 | in every run of a suspended wait the owner is resumed exactly once, with what the events decide, and then no callback is in any list; before that it is not resumed |
| `MultipleWait.SuccessIff` | src/sync/multiple_wait.cc:48-59 | the wait ends well exactly when the needed items succeed before anything fails or interrupts |
| `MultipleWait.DecideMeans` | src/sync/multiple_wait.cc:48-81 | all that events can decide: with fewer successes than needed, a failed item ends the wait with its failure, and the interruptor with interruption if it succeeds and with its own failure if not; enough successes end it well; nothing else ends it |
| `MultipleWait.EnoughRegistered` | src/sync/multiple_wait.cc:48-59 | as long as the wait goes on, enough items are registered to end it |
| `MultipleWait.WaitEndsOnce` | src/sync/multiple_wait.cc:18-81 | a started wait returned at once and is never resumed, or is resumed exactly once |
| `MultipleWait.NothingRegistered` | src/sync/multiple_wait.cc:8-16 | a wait in which nothing is registered ends only by the interruptor, with its result and at its only event; without an interruptor it never ends |
| `MultipleWait.BegunMeans` | src/sync/multiple_wait.cc:28-28 | the answers given at once decide by their successes and their last failure |
| `MultipleWait.FailedMeans` | src/sync/multiple_wait.cc:48-59 | of several failures told at once the last one counts |
| `MultipleWait.GoodMeans` | src/sync/multiple_wait.cc:48-59 | what counts as good is the number of objects that succeed at once |
| `MultipleWait.WaitingMeans` | src/sync/multiple_wait.cc:27-42 | what is left registered is exactly the objects that have not answered |
| `MultipleWait.CallFindsNeededIff` | src/sync/multiple_wait.cc:27-59 | while a wait begins, the call of `item_finished` for an object that answers at once finds that something is still needed if and only if at no point before it the needed objects had succeeded without a failure |
| `MultipleWait.SecondAnswerFindsNothingNeeded` | src/sync/multiple_wait.cc:27-59 | a concrete wait for any of two objects that both answer at once: the second call of `item_finished` finds that nothing is needed |
| `MultipleWait.ItemFindsNeeded` | src/sync/multiple_wait.cc:48-59 | while the owner is suspended, every call of `item_finished` finds that something is still needed, and the waiter not ready |
| `MultipleWait.Waiter.constructor` | src/sync/multiple_wait.cc:8-16 | how many items are needed |
| `MultipleWait.Waiter.AddItem` | src/sync/multiple_wait.cc:44-46 | the callbacks stay numbered in the order in which they are added |
| `MultipleWait.Waiter.CancelAll` | src/sync/multiple_wait.cc:105-110 | every callback of the wait is off its object's list |
| `MultipleWait.Waiter.MakeReady` | src/sync/multiple_wait.cc:61-70 | a waiting owner is resumed, once and with the result, after the callbacks are cancelled |
| `MultipleWait.Waiter.ItemFinished` | src/sync/multiple_wait.cc:48-59 | one item's result: a failure, or the last success that is needed, ends the wait; a later failure replaces the result; and where nothing is needed any more the count wraps around |
| `MultipleWait.Waiter.WaitDone` | src/sync/multiple_wait.cc:72-81 | the interruptor's call: a wait that is not over yet ends as interrupted if the interruptor succeeds, and with its failure if not |
| `MultipleWait.Waiter.BeginAll` | src/sync/multiple_wait.cc:28-28 | the loop over the callbacks is the fold of their answers |
| `MultipleWait.Waiter.Wait` | src/sync/multiple_wait.cc:27-42 | returns at once with nothing left registered but the interruptor, or suspends with exactly the others registered |
| `MultipleWait.Waiter.Fire` | src/sync/multiple_wait.cc:112-114 | an object tells its callback: the event of the run |
| `MultipleWait.Waiter.Interrupt` | src/sync/multiple_wait.cc:72-81 | the interruptor tells the waiter: the event of the run |
| `MultipleWait.Waiter.Play` | src/sync/multiple_wait.cc:48-81 | any sequence of calls by the objects and the interruptor is a run |
| `MultipleWait.Waiter.Destroy` | src/sync/multiple_wait.cc:18-25 | the destructor takes the waiter off the interruptor's list and changes nothing else |
| `MultipleWait.WaitGeneric` | src/sync/multiple_wait.hpp:71-100 | a whole wait, from the constructor to the destructor: it ends with the last failure told at once, or well if enough is ready, or else with what the interruptor says or the first event that decides, where a mere interruption is reported as such; the owner is resumed at most once, and no callback and no waiter is left in any list |
| `Wire.WordOfBytes` | src/rpc/serialize.cc:20-40 | the bytes of a word read back as the word |
| `Wire.WordHead` | src/rpc/serialize.cc:20-40 | the first byte is the most significant one |
| `Wire.BytesOfWord` | src/rpc/serialize.cc:20-40 | any bytes are those of the word that they read as |
| `Wire.SignBit` | src/rpc/serialize.cc:42-58 | the top bit of the first byte of a signed number is its sign, and the rest is its two's complement |
| `Wire.IntegerExample` | src/rpc/serialize.cc:20-58 | concrete bytes of a truth value, an unsigned and a negative number of two bytes |
| `Wire.WordRoundTrip` | src/rpc/serialize.cc:42-58 | signed and unsigned numbers of any width survive |
| `Wire.RoundTrip` | src/rpc/serialize_stl.hpp:53-113 | over the whole universe of types, reading what was written, before any suffix, gives the value and leaves the suffix |
| `Wire.AllRoundTrip` | src/rpc/serialize_stl.hpp:24-31 | the elements of a container survive in order, also where the container refuses equal keys |
| `Wire.Injective` | src/rpc/serialize_stl.hpp:53-113 | no value's bytes are the beginning of another's of its type |
| `Wire.ReadExtends` | src/rpc/serialize_stl.hpp:65-112 | what is read does not depend on the bytes behind it |
| `Wire.CutOff` | src/rpc/serialize_stl.hpp:65-112 | a value whose bytes are cut off anywhere is not read |
| `Wire.PutMeans` | src/rpc/serialize_stl.hpp:65-112 | a sequence takes every element that is read, a set only one of each, and a map only the first with its key |
| `Wire.ContainerExample` | src/rpc/serialize_stl.hpp:53-64 | concrete bytes of a container: its length in eight bytes, and then its elements |
| `Wire.AnyByteIsTruth` | src/rpc/serialize.cc:5-19 | every byte but zero reads as true |
| `Wire.ReadHasType` | src/rpc/serialize_stl.hpp:65-112 | whatever the bytes are, a value that is read has its type, with distinct keys where the container has them |
| `Message.SizeOf` | src/rpc/serialize_stl.hpp:54-60 | the declared size of every value is exactly the number of bytes written for it |
| `Message.SizeOfAll` | src/rpc/serialize_stl.hpp:366-377 | the accumulating loop over the elements |
| `Message.WriteMessage.PushBack` | src/rpc/message.cc:37-40 | one byte behind those written |
| `Message.WriteMessage.WriteWord` | src/rpc/serialize.cc:25-32 | the bytes of an integer behind those written |
| `Message.WriteMessage.WriteValue` | src/rpc/serialize_stl.hpp:61-64 | the bytes of a value behind those written |
| `Message.WriteMessage.WriteItems` | src/rpc/serialize_stl.hpp:24-31 | the bytes of the elements, in order |
| `Message.WriteMessage.constructor` | src/rpc/message.cc:26-35 | the header is written, and exactly the payload has room behind it |
| `Message.WriteMessage.Create` | src/rpc/message.hpp:61-70 | the buffer is full when the message is created, as `release` asserts, and holds header and payload |
| `Message.MessageLayout` | src/rpc/message.cc:26-35 | where the parts of a created message stand: the magic number, the three ids, the payload size, and from the fortieth byte on the payload |
| `Message.ReadMessage.Pop` | src/rpc/message.cc:60-63 | the next byte |
| `Message.ReadMessage.ReadWord` | src/rpc/serialize.cc:33-39 | the integer at the cursor, unless the bytes run out |
| `Message.ReadMessage.ReadValue` | src/rpc/serialize_stl.hpp:65-112 | the value at the cursor, unless the bytes run out |
| `Message.ReadMessage.ReadItems` | src/rpc/serialize_stl.hpp:65-73 | the loop over the elements: each is taken at the end, or only if its key is new |
| `Message.ReadMessage.Parse` | src/rpc/message.cc:70-80 | succeeds if and only if there are forty bytes and the first eight are the magic number; the ids are the next three words, and what is left is what stands behind the header |
| `Message.HeaderMeans` | src/rpc/message.cc:70-80 | a header can be read if and only if there are forty bytes; what it says is words of eight of them |
| `Message.ParseOfCreate` | src/rpc/message.cc:26-80 | a created message is parsed to the same ids, payload size and value, with nothing left |
| `Message.ParseStream` | src/rpc/message.cc:82-101 | succeeds if and only if a message is there; gives its ids, its payload and what follows it in the stream |
| `Message.NextMeans` | src/rpc/message.cc:82-101 | a message is there if and only if there are forty bytes, the first eight are the magic number, and as many bytes follow as the last eight say |
| `Message.StreamRoundTrip` | src/rpc/message.cc:82-101 | messages written one after the other come out one by one, with their ids and values |

## Left out

- Weak memory: each access of an atomic or of a node pointer is one sequentially consistent step.
- MpscQueue: `size` is not modelled; the source says that it may be wrong while others write.
- MpscQueue.NothingOnlyIfStalled: one direction only. The reverse does not hold under interference, because a `pop` that
  passes a blocked moment may still find the link written when it reads it; without interference,
  `MpscQueue.AloneIsNothingIff` is exact.
- LocalStream: the eventfd counter does not overflow, and spurious wakeups and interrupted system calls are not modelled.
- Shutdown: assumes in every state that fewer than 2^64 tasks and messages are alive (`Fits`), that the queues hold only
  task messages at `reset`, and that all targets are local; replies are not counted by the code and are not modelled.
- Shutdown: the system coroutines that cancel their own count within one run (`ignore_coro_for_shutdown_t`) are not modelled.
- CrossThreadMutex: an acq is built, notified and destroyed on its home thread, which its id determines; waiters are a set,
  and the calls that tell them are not recorded.
- FlipBuffer: writers and readers are on the threads that get the broadcast; the drainer and the calls of `on_flip` are not
  modelled.
- ThreadBarrier: the mutex and condition variable are atomic sections and a guard.
- DomainText: the conversions from addresses to reverse names, and `dns_dntodn`, are not modelled.
- DomainRecords: `dnsrr_dn` and `dnsp_dnbuf` (`external/udns-0.4/udns.h:335`, `external/udns-0.4/udns.h:355`) and the
  buffer at `external/udns-0.4/udns_resolver.c:1030` have exactly 255 bytes, one less than `dns_getdn` may write. A call on
  such buffers is modelled where it stays inside them; what happens beyond them is not.
- DomainRecords: the parsers of the single record types, and the sizes they compute, are not modelled.
- Resolver: query ids, sockets, the packet that is sent, the matching of a reply to a query and the user's timer are not
  modelled; a reply is given as its code, and a failure of all ten calls of `sendto` as a parameter.
- Resolver: the active list is a sequence there, and QueryList proves the pointers; callbacks only leave a record, so a
  callback that submits or cancels is not modelled; the shift of the timeout does not overflow; `dns_close` is not modelled.
- IntrusiveList: the callbacks of `each` and `clear` are a record of the items.
- Semaphore.Sem.Remove: starts from a granted acq; the wait for one that is still queued is not modelled.
- Semaphore: `resize` is not modelled; counts do not overflow; the destructor of a dead acq, which is still in a list, is
  not modelled.
- MultipleWait: the objects and the interruptor are given by what they answer; their moves are not modelled.
- Wire: structures and argument lists are nested pairs; floating-point numbers are their bit patterns; the iteration order
  of unordered containers is the order of the value; a priority queue is its container.
- Message: a buffer too short for the header, or without the magic number, fails here where the source asserts.
- TCP streams, epoll, files, context switching, timers, the arena, and RPC registration: system calls and compile-time
  plumbing around the protocols.
- `mutex_acq_t`, the drainer, events, promises and the shared registry are not modelled.
