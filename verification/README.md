# Verified models of gocommon

Dafny models of the parts of gocommon with the most state and arithmetic: the
goroutine pool, the ring deque, the netlink codec and connection, promises, the
slab buffer, the Internet checksum and log rotation, with their properties
proved for all inputs, all runs and all reachable states.

`dafny verify dfyconfig.toml` checks everything. A module lives in the file of
the same name.

## What is modelled

- **Goroutine pool** (`PoolModel`, `PoolInvariant`, `PoolSafety`,
  `PoolCapacity`, `PoolOverrun`, `PoolDrain`, `PoolLate`, `PoolOrder`, `PoolOutcome`, `PoolLock`, `PoolQuits`,
  `PoolReturn`, `IdleWorkers`). Submitters,
  workers, one scavenger, callers of Release and a clock interleave one shared access at a time.
  The invariant gives every live worker one owner and every task one place.
  The comment at gpool/pool.go:10 promises that the pool limits the number of
  goroutines. `CapacityKeptIffOneInside` shows when the code keeps that: with at
  most k goroutines inside Submit or Invoke, running stays within c + k - 1, the
  bound is reached, and so the limit holds exactly for k = 1. `IdleWorkers` has
  the two idle containers as classes and shows that they expire the same workers
  on sorted content, and exactly the old ones if and only if the content is
  partitioned at the expiry time. recycleTime is stamped before the lock is
  taken, so the container is not always sorted: `InOrderIffCapacityOne` shows
  that it is in every run exactly for capacity 1, and `OnlyOldIffRingOrSmall`
  that the stack can hand out a fresh worker exactly from capacity 3 on and
  without a limit. A closed pool can still start workers (`PoolLate`), because retrieveWorker does
  not test IsClosed; `DrainBound` counts them and `DrainsToZero` shows that the
  pool still drains. `PoolOutcome` says who gets a worker, who waits and who is
  refused; `PoolReturn` in which order idle workers are handed out.
- **Deque** (`DequeShape`, `Deque`, `Rings`, `Bits`). Every operation of the ring buffer
  refines the operation on a sequence; resizing costs amortised two copies an
  operation; both rotation algorithms are the mathematical rotation.
- **Netlink** (`Nlenc`, `Attributes`, `AttributeTree`, `Messages`, `Conn`).
  Attribute lists and trees of typed, nested attributes round-trip; re-encoding
  is canonical; messages round-trip in both directions; a multi-part reply is
  received whole however it is split. The message header is the one of section
  2.3.2 of RFC 3549. `host` is the byte order of the machine. An empty
  batch makes Receive stop early, so `ReplyExactIff` has as its exact condition
  that no batch before the one with the Done is empty. The sequence counter wraps to 0, which Validate takes for
  "not numbered"; `WrappedNumberIsNotChecked` says exactly when.
- **Promises** (`Promise`, `PromiseWaits`, `PromiseAll`). Calls of resolve and reject race with
  their writes, locks and waits as separate steps. A promise settles once,
  and its outcome is that of the call at the end of its chain. A promise given to resolve
  need not settle the promise it is given to, since it may be nil or wait for it:
  `CanSettleIffNotDoomed` says exactly when a pending promise still can. `PromiseAll` is the protocol of All.
- **SlabBuffer**. A byte FIFO across re-slice, slide and reallocate; in aligned
  mode sizes are rounded down and still suffice.
- **Checksum**. Two folds are the one's complement sum of section 1 of RFC 1071
  exactly up to 131076 bytes, and storing the result verifies exactly up to
  131078 bytes; the echo message is that of RFC 792.
- **Log rotation** (`LogNames`, `LogRotation`). No rename overwrites a live file
  if and only if the numbers of the renamed files are distinct, and every file
  moves up by one over any number of rotations. The comment above oldLogFiles speaks of a sort by
  modification time; the code sorts by number, and that is what is modelled.

Integers are unbounded where the source's 64-bit int cannot overflow; 16-bit and
32-bit truncation is written out. A panic is a distinguished result. Clocks,
addresses of allocations, directory listings and the answers of sockets are
parameters.

## Model

| member | source | states |
|---|---|---|
| PoolModel.ValidIffMade | gpool/pool.go:79-122 | the configurations the pool is proved for are exactly those NewPool gives: a size of 0 or less means no limit, and then PreAlloc is refused |
| PoolInvariant.InitInv | gpool/pool.go:79-174 | the invariant holds when a pool is made |
| PoolInvariant.StepKeepsInv | gpool/pool.go:46-344 | every step of a submitter, worker, scavenger or Release keeps the invariant: lock, ownership of workers, places of tasks, counters |
| PoolInvariant.RunKeepsInv | gpool/pool.go:46-344 | the invariant holds in every state of every run |
| PoolLock.LockProtects | gpool/pool.go:273-318 | the idle container and blockingNum change only in a step of the one that holds the lock, in every run |
| PoolLock.LockCanBeFreed | gpool/pool.go:273-343 | in every state whoever holds the lock can go on to give it back |
| PoolLock.ReleaseCanFinish | gpool/pool.go:237-245 | from every state in which a stack-backed Release has been called it can go on to its end, all idle workers told |
| PoolSafety.ExactlyOneHolder | gpool/worker.go:62-100 | in every reachable state a live worker has exactly one holder (idle container, one submitter, scavenger, itself) and at most one message in its channel |
| PoolSafety.NoExitWithMessage | gpool/worker.go:64-99 | a worker with a message in its channel is at its receive or on its way there, so none exits with a task undelivered |
| PoolSafety.SendsWaitForArrivalOnly | gpool/gpool.go:60-71 | a send of Submit, Invoke, the scavenger or reset finds room in a buffered channel; at an unbuffered one, used on one processor, the worker is at its receive or one lock-free step of its own before it |
| PoolSafety.AcceptedTaskIsKept | gpool/pool.go:179-202 | from the moment Submit returns nil its task is in a live worker's channel, executing, or executed, and started exactly as often as that says |
| PoolSafety.RefusedTaskNeverRuns | gpool/pool.go:184-186 | a task whose Submit gave up is never started |
| PoolOutcome.StaysOrTurns | gpool/pool.go:267-318 | in any step a goroutine inside Submit or Invoke stays where it is or has its turn, and idle workers, running, capacity, Nonblocking, blockingNum, MaxBlockingTasks and IsClosed decide where that leads |
| PoolOutcome.NeverWaits | gpool/pool.go:283-286 | with Nonblocking, or without a limit, nobody is ever in the waiting loop and blockingNum is 0, in every run |
| PoolOutcome.RefusedOnlyIf | gpool/pool.go:283-293 | Submit or Invoke gives up only if the pool is Nonblocking, nothing is idle and the capacity is used up; or it waits, and MaxBlockingTasks is reached or the pool has been closed |
| PoolOutcome.WaitsOnlyIf | gpool/pool.go:274-289 | a goroutine starts to wait only if nothing is idle, the capacity is used up and the pool is not Nonblocking |
| PoolOutcome.SpawnsOnlyIfNoneIdle | gpool/pool.go:274-281 | a new worker is asked for only when none is idle and running is below the capacity |
| PoolOutcome.WaitingPoolRefusesNone | gpool/pool.go:288-293 | without Nonblocking and MaxBlockingTasks no task is refused as long as the pool is open, in every run |
| PoolOutcome.UnlimitedRefusesNone | gpool/pool.go:277-281 | without a limit no task is ever refused |
| PoolQuits.QuitsOnlyIf | gpool/worker.go:82-98 | a worker quits only if it gets nil, its task panicked or was nil, more workers run than the capacity when it has finished a task, or the pool is closed |
| PoolQuits.ClosedPoolIsNotScavenged | gpool/pool.go:51-54 | the scavenger of a closed pool finishes its round and starts no other |
| PoolReturn.OrderOfReturn | gpool/pool.go:334-343 | of two idle workers the one put back earlier is nearer the head of the container, in every run |
| PoolReturn.DetachOrder | gpool/work_stack.go:32-43 | the stack hands out the worker that was put back last, the ring the one that was put back first |
| PoolReturn.ExpiryOrder | gpool/pool.go:57-67 | the scavenger takes a worker only together with all that were put back before it |
| PoolReturn.PutBackWithItsTime | gpool/pool.go:325-334 | a worker is put back with a recycleTime between the end of its task and its return |
| PoolSafety.RunProgress | gpool/worker.go:82-98 | over any stretch of a run a task only moves on, from submitter to channel to worker to done |
| PoolCapacity.CapacityBound | gpool/pool.go:267-318 | with capacity c > 0 and at most k goroutines inside, running is the number of live workers and running plus authorised spawns is at most c + k - 1 |
| PoolCapacity.OneSubmitterKeepsCapacity | gpool/pool.go:10-16 | one submitter at a time never exceeds the capacity |
| PoolCapacity.PassedBound | gpool/pool.go:321-326 | in every run, with any number of goroutines inside and however far running exceeds the capacity, at most capacity workers are past revertWorker's test or back in the container |
| PoolCapacity.IdleWithinCapacity | gpool/pool.go:334-343 | the idle container never holds more workers than the capacity |
| PoolCapacity.RingNeverFull | gpool/worker_loop_queue.go:46-66 | the pre-allocated ring never reports full to a worker that puts itself back, in any run |
| PoolCapacity.BlockingBound | gpool/pool.go:289-315 | blockingNum is the number of goroutines in Wait and never exceeds a non-zero MaxBlockingTasks |
| PoolOverrun.BoundIsReached | gpool/pool.go:278-281 | for every capacity and every k some run reaches the bound c + k - 1 |
| PoolOverrun.CapacityKeptIffOneInside | gpool/pool.go:278-281 | running stays within the capacity in every run with at most k goroutines inside if and only if k is 1 |
| PoolDrain.IdleStaysEmptyAfterRelease | gpool/pool.go:237-245 | from the end of a stack-backed Release on, the pool is closed and nothing is idle in every later state |
| PoolDrain.WorkerDrains | gpool/worker.go:82-98 | in a closed pool every worker step brings its worker closer to the cache |
| PoolDrain.DrainBound | gpool/pool.go:295-309 | from any closed state on, in every run, with submitters parked, spawning or sending, the worker steps are bounded by what was left, and each submitter inside starts at most one more worker |
| PoolDrain.SomeoneCanGoOn | gpool/pool.go:321-344 | while a worker of a released pool is live, whoever else is inside, some step lowers the measure |
| PoolDrain.PoolCanGoOn | gpool/pool.go:289-315 | while a worker runs or a submitter is inside a released pool, some steps lower the measure |
| PoolDrain.DrainsToZero | gpool/pool.go:237-245 | from every state after a Release has finished the pool can go on to one with no running worker and nobody inside Submit or Invoke |
| PoolDrain.StaysDrained | gpool/pool.go:237-245 | from there on nothing runs and nobody is inside, in every run |
| PoolLate.LateLaunchesReachBound | gpool/pool.go:267-281 | for every stack-backed pool and every n a run in which n submitters are inside when Release finishes and all n then start a worker |
| PoolLate.LateLaunchesBounded | gpool/pool.go:267-318 | never more: after a Release the owing submitters start at most one worker each |
| IdleWorkers.ExactIffPartitioned | gpool/work_stack.go:66-77 | a boundary splits content into exactly the expired and the rest if and only if the content is partitioned at that time |
| IdleWorkers.SearchFindsBoundary | gpool/work_stack.go:66-77 | the binary search ends at a boundary on any content |
| IdleWorkers.ScanFindsBoundary | gpool/worker_loop_queue.go:94-105 | the ring scan ends at a boundary on any content |
| IdleWorkers.StackAndRingAgree | gpool/work_stack.go:45-64 | on the same sorted content stack and ring expire the same workers, exactly those not newer than the expiry time |
| IdleWorkers.ExpiryExactIffPartitioned | gpool/worker_loop_queue.go:86-108 | expiry of either container is exact if and only if the content is partitioned |
| IdleWorkers.AddedSortedIff | gpool/work_stack.go:27-30 | a sorted container stays sorted by an insert if and only if the newcomer is not older than the last |
| PoolOrder.InsertKeepsOrderIff | gpool/pool.go:325-334 | revertWorker keeps the idle container in order if and only if the worker was not stamped before the last one in it |
| PoolOrder.OrderedIffInsertsAre | gpool/pool.go:321-344 | in any run the container is in order throughout if and only if every worker is put back behind no younger one |
| PoolOrder.InOrderIffCapacityOne | gpool/pool.go:325-326 | the container is in order in every run, with any number of goroutines inside, if and only if the capacity is 1 |
| PoolOrder.OnlyOldIffRingOrSmall | gpool/work_stack.go:45-77 | expiry hands out expired workers only, in every run and at every time, if and only if the container is the ring or the capacity is 1 or 2 |
| PoolOrder.FreshWorkerExpires | gpool/pool.go:325-326 | for every larger stack-backed pool a run after which the binary search takes a fresh worker for expired |
| PoolOrder.ExactIffCapacityOne | gpool/pool.go:45-67 | expiry hands out exactly the expired workers, in every run and at every time, if and only if the capacity is 1 |
| IdleWorkers.WorkerStack.Insert | gpool/work_stack.go:27-30 | appends; a sorted stack stays sorted if and only if the newcomer is not older than the last |
| IdleWorkers.WorkerStack.Detach | gpool/work_stack.go:32-43 | takes the newest, or nothing when empty |
| IdleWorkers.WorkerStack.BinarySearch | gpool/work_stack.go:66-77 | the loop computes Search |
| IdleWorkers.WorkerStack.RetrieveExpiry | gpool/work_stack.go:45-64 | what is returned followed by what stays is the old content, split at a boundary |
| IdleWorkers.WorkerStack.Reset | gpool/work_stack.go:79-85 | tells every worker once, oldest first, and empties the stack |
| IdleWorkers.LoopQueue.constructor | gpool/worker_loop_queue.go:15-20 | an empty ring |
| IdleWorkers.LoopQueue.Len | gpool/worker_loop_queue.go:22-40 | the number of workers, full and empty told apart by isFull |
| IdleWorkers.LoopQueue.Insert | gpool/worker_loop_queue.go:46-66 | appends to the FIFO, or reports released or full exactly then and changes nothing |
| IdleWorkers.LoopQueue.Detach | gpool/worker_loop_queue.go:69-83 | takes the oldest, or nothing exactly when empty |
| IdleWorkers.LoopQueue.RetrieveExpiry | gpool/worker_loop_queue.go:86-108 | returns the longest expired prefix and keeps the rest in order |
| DequeShape.StepKeepsOk | util/mem/queue.go:265-301 | capacity stays 0 or a power of two, at least the count |
| DequeShape.StepCost | util/mem/queue.go:265-301 | an operation's copies plus the change of potential are at most 2 for a push and 1 for a pop |
| DequeShape.AmortisedCost | util/mem/queue.go:70-124 | over any run copies are at most 2 a push and 1 a pop, plus the potential at the start |
| DequeShape.CostFromEmpty | util/mem/queue.go:70-124 | from empty at most 2m copies plus half the initial capacity, and 2m when that is within the minimum |
| DequeShape.RunKeepsSnug | util/mem/queue.go:280-284 | capacity stays 0, the minimum, or a larger power of two below 4 * Len |
| DequeShape.UnallocatedStaysSnug | util/mem/queue.go:265-284 | started without a buffer the capacity is always 0, the minimum, or a larger power of two below 4 * Len |
| DequeShape.RunKeepsMinimum | util/mem/queue.go:265-284 | a minimum that has been set stays over any run, and the buffer is never shorter |
| Deque.RotatedAt | util/mem/queue.go:193-196 | element i of the rotation by n is element (i + n) mod Len |
| Deque.RotateOneMore | util/mem/queue.go:193-196 | one step more moves the front element to the back |
| Deque.RotateIsPopPush | util/mem/queue.go:193-196 | rotation by n or -n is n times pop and push at the ends |
| Deque.MaskWraps | util/mem/queue.go:255-262 | the bit mask is the modulus, for -1 as well |
| Deque.FullRotation | util/mem/queue.go:206-213 | moving head and tail of a full buffer rotates its contents |
| Deque.BackToFront | util/mem/queue.go:217-224 | one round of the back-to-front loop is one rotation step |
| Deque.FrontToBack | util/mem/queue.go:229-236 | one round of the front-to-back loop is one rotation step |
| Deque.Deque.TailIsModulus | util/mem/queue.go:8-14 | in every valid deque with a buffer, tail is (head + count) mod length, and equals head exactly when empty or full |
| Deque.Deque.Zero | util/mem/queue.go:8-14 | the zero deque is empty and usable |
| Deque.Deque.New | util/mem/queue.go:28-55 | empty; capacity and minimum are the sizes rounded up to powers of two, no buffer for capacity 0 |
| Deque.Deque.Resize | util/mem/queue.go:289-301 | same contents in a buffer of exactly twice their number |
| Deque.Deque.GrowIfFull | util/mem/queue.go:265-277 | same contents and room for one more |
| Deque.Deque.ShrinkIfExcess | util/mem/queue.go:280-284 | same contents; halves the buffer exactly when a quarter full and above the minimum |
| Deque.Deque.PushBack | util/mem/queue.go:70-77 | appends, across wraparound and growth |
| Deque.Deque.PushFront | util/mem/queue.go:80-87 | prepends, across wraparound and growth |
| Deque.Deque.PopFront | util/mem/queue.go:92-104 | removes and returns the first, or panics exactly when empty |
| Deque.Deque.PopBack | util/mem/queue.go:109-124 | removes and returns the last, or panics exactly when empty |
| Deque.Deque.Front | util/mem/queue.go:129-134 | the first element, or the panic |
| Deque.Deque.Back | util/mem/queue.go:139-144 | the last element, or the panic |
| Deque.Deque.At | util/mem/queue.go:158-164 | element i, or the panic exactly when out of range |
| Deque.Deque.Set | util/mem/queue.go:169-175 | element i replaced and no other |
| Deque.Deque.Clear | util/mem/queue.go:182-191 | empty contents in the same buffer; exactly the slots from head round to tail become nil, none when the buffer was full |
| Deque.Deque.SetMinCapacity | util/mem/queue.go:246-252 | the minimum becomes 2^exp, or 16 when that is smaller or does not fit an int; contents unchanged |
| Deque.Deque.Rotate | util/mem/queue.go:196-237 | the rotation for every integer n, with buffer and capacity unchanged |
| Deque.RunAll | util/mem/queue.go:70-124 | any run of pushes and pops gives contents and results of the same run on a sequence, within the copy bound |
| Bits.AndIsBitwise | util/mem/queue.go:255-262 | the model of & is the "and" of every bit of the two's complement forms |
| Bits.AndLowMask | util/mem/queue.go:255-262 | x & (2^k - 1) is x mod 2^k for every integer x |
| Bits.AndHighMask | util/mem/SlabBuffer.go:75-79 | x & -(2^k) is x rounded down to a multiple of 2^k |
| Nlenc.GetOfPut | netlink-client/nlenc/int.go:10-98 | reading back what was put gives the integer, in either byte order |
| Nlenc.PutOfGet | netlink-client/nlenc/int.go:10-98 | putting back what was read gives the bytes |
| Nlenc.PutAt | netlink-client/nlenc/int.go:20-47 | the byte of weight 256^i is i places from the front in little-endian order and i from the end in big-endian |
| Nlenc.TrimNul | netlink-client/nlenc/string.go:12-18 | drops exactly the trailing NULs |
| Nlenc.StringRoundTripIff | netlink-client/nlenc/string.go:6-18 | a string survives if and only if it does not end in NUL |
| Nlenc.Align | netlink-client/align.go:12-27 | the least multiple of 4 that is not smaller |
| Attributes.ExactRoundTrip | netlink-client/attribute.go:73-128 | decoding the encoding of attributes whose lengths are right gives them back |
| Attributes.DecodedIsExact | netlink-client/attribute.go:42-69 | every decoded attribute has the length of its payload |
| Attributes.ReencodingIsCanonical | netlink-client/fuzz.go:10-21 | whenever decoding succeeds, encoding the result succeeds and decodes to the same list |
| Attributes.FlatRoundTripIff | netlink-client/attribute.go:73-101 | a list with inferred lengths round-trips if and only if 4 + len fits 16 bits for each |
| Attributes.EncodeConcat | netlink-client/attribute.go:73-101 | marshalling distributes over concatenation, errors included |
| Attributes.EncodeOne | netlink-client/attribute.go:29-39 | the bytes of one attribute: length, type, payload, zeros; a length of the caller's own is written as it is and one below 4 is an error, only 0 is inferred |
| Attributes.EncodeFailsIff | netlink-client/attribute.go:84-96 | marshalling fails if and only if some attribute has a length from 1 to 3, or 0 and 4 + len of less than 4 modulo 2^16 |
| Attributes.DecodeIff | netlink-client/attribute.go:42-128 | unmarshalling accepts exactly the bytes that can be walked from header to header past the end, and returns the attributes on the way; a zero length takes four bytes and gives none |
| Attributes.Marshal | netlink-client/attribute.go:29-39 | writes header, payload and zero padding at idx and nothing else, or fails exactly for a length below 4 |
| Attributes.MarshalAttributes | netlink-client/attribute.go:73-101 | computes Encode, with no write out of range, and fails exactly for a list with an attribute that cannot be written |
| Attributes.UnmarshalAttributes | netlink-client/attribute.go:104-128 | terminates on every byte string with no read out of range and computes Decode |
| AttributeTree.TreeRoundTrip | netlink-client/attribute.go:138-442 | every tree of typed and nested attributes with 4 + len at most 65535 at each level and strings not ending in NUL encodes, and decoded with its own byte order is the same tree |
| AttributeTree.OnlyFittingReturn | netlink-client/attribute.go:73-128 | a tree that comes back from the start of its own encoding fits at every level, and only padding was missing |
| AttributeTree.TreeRoundTripIff | netlink-client/attribute.go:138-442 | a tree survives if and only if every payload at every level fits its 16-bit length and no string ends in NUL |
| AttributeTree.NodeRoundTrip | netlink-client/attribute.go:224-302 | each typed accessor reads back what its encoder wrote |
| AttributeTree.AttributeEncoder.Bytes | netlink-client/attribute.go:401-410 | adds the attribute unless there is an error already |
| AttributeTree.AttributeEncoder.Uint8 | netlink-client/attribute.go:331-340 | adds one byte |
| AttributeTree.AttributeEncoder.Uint16 | netlink-client/attribute.go:343-355 | adds two bytes in the encoder's order |
| AttributeTree.AttributeEncoder.Uint32 | netlink-client/attribute.go:358-370 | adds four bytes in the encoder's order |
| AttributeTree.AttributeEncoder.Uint64 | netlink-client/attribute.go:373-385 | adds eight bytes in the encoder's order |
| AttributeTree.AttributeEncoder.String | netlink-client/attribute.go:389-398 | adds the string with its NUL |
| AttributeTree.AttributeEncoder.Do | netlink-client/attribute.go:418-433 | adds what the callback returned or keeps its error |
| AttributeTree.AttributeEncoder.Encode | netlink-client/attribute.go:436-442 | the first error, or the encoding of all attributes added |
| AttributeTree.AttributeDecoder.Next | netlink-client/attribute.go:173-184 | moves to the next attribute exactly while there is one and no error |
| AttributeTree.AttributeDecoder.Uint | netlink-client/attribute.go:224-283 | the integer, or an error exactly when the payload has another size |
| AttributeTree.AttributeDecoder.String | netlink-client/attribute.go:215-221 | the payload without trailing NULs |
| AttributeTree.AttributeDecoder.Do | netlink-client/attribute.go:293-302 | keeps the first error |
| AttributeTree.EncodeTree | netlink-client/attribute.go:418-442 | nested encoders compute the encoding of the tree |
| AttributeTree.DecodeTree | netlink-client/attribute.go:157-302 | nested decoders compute the decoding of the tree |
| Messages.MarshalBinary | netlink-client/message.go:185-201 | computes Marshalled |
| Messages.UnmarshalBinary | netlink-client/message.go:204-225 | computes Unmarshalled |
| Messages.MarshalThenUnmarshal | netlink-client/message.go:185-225 | a marshalled message is read back with its header and its data cut or padded to its length |
| Messages.MessageRoundTripIff | netlink-client/message.go:185-225 | a message survives if and only if its length is a multiple of 4 and that of header and data |
| Messages.UnmarshalThenMarshal | netlink-client/message.go:204-225 | accepted bytes are reproduced exactly |
| Messages.WireLayout | netlink-client/message.go:185-201 | a message marshals if and only if its length is a multiple of 4 from 16 up; length, type, flags, sequence and PID are at 0, 4, 6, 8 and 12, the data from 16 on, cut or zero-padded |
| Messages.AcceptedIff | netlink-client/message.go:204-225 | bytes are accepted if and only if there are at least 16, a multiple of 4, and the first four say how many; each other case has its error |
| Messages.MultiIsBitOne | netlink-client/conn.go:303-306 | the Multi flag is bit 1 |
| Messages.NoErrorIff | netlink-client/message.go:228-260 | a message is no error if and only if its type is not 2 or its code is four zero bytes; fewer than four bytes are errShortErrorMessage |
| Messages.CodeIsNegated | netlink-client/message.go:252-257 | the int32 -n is reported as n, for every n but 0 |
| Conn.FilledRequestRoundTrips | netlink-client/conn.go:205-228 | a request without length that passes the 32 KiB test marshals, and unmarshals to the same header and the data zero-padded to a multiple of 4 |
| Conn.OwnLengthMarshalsIff | netlink-client/conn.go:518-521 | a request with its own length marshals if and only if that is a multiple of 4 from 16 up |
| Conn.FixedKeeps | netlink-client/conn.go:518-530 | what the caller set is kept; a length of 0 becomes the padded size, a number of 0 the next one, a PID of 0 the connection's |
| Conn.NumberedInOrder | netlink-client/conn.go:148-162 | requests of one call are numbered consecutively modulo 2^32, skipping those numbered already |
| Conn.NumberedApart | netlink-client/conn.go:534-536 | fewer than 2^32 requests get different numbers |
| Conn.GoesIff | netlink-client/conn.go:295-311 | a read goes on if and only if the last message marked Multi is not a Done |
| Conn.DrainsToFirstStop | netlink-client/conn.go:286-320 | error-free batches are taken whole, up to and including the first that does not go on |
| Conn.ReplyExactIff | netlink-client/conn.go:246-320 | a multi-part reply is returned exactly, without its Done and with all that is behind the batch of the Done left unread, if and only if no batch before that one is empty |
| Conn.SplitDoesNotMatter | netlink-client/conn.go:278-320 | two splits of a reply into non-empty batches give the same result |
| Conn.ErrorHoweverSplit | netlink-client/conn.go:297-300 | a reply with an error message gives that error however it is split |
| Conn.CodeIsReported | netlink-client/conn.go:297-300 | Receive turns a message of type 2 with the code -n, behind any parts and however split, into the error n |
| Conn.ShortErrorIsReported | netlink-client/message.go:248-250 | and one with fewer than four bytes of data into errShortErrorMessage |
| Conn.CleanReplyIsNoError | netlink-client/conn.go:286-320 | without such a message a reply is read to the end of some batch, or waits for more |
| Conn.SocketErrorIsReported | netlink-client/conn.go:287-290 | an error of the socket behind any parts is returned, and what was read is dropped |
| Conn.TrimsOnlyTheEnd | netlink-client/conn.go:263-273 | Receive takes away a last message exactly if it is flagged Multi and of type 3 |
| Conn.Validate | netlink-client/conn.go:540-560 | accepts exactly the replies that match, else reports the first mismatch, sequence before PID |
| Conn.WrappedNumberIsNotChecked | netlink-client/conn.go:545-547 | replies are accepted with any number if and only if the request's number wrapped to 0 |
| Conn.Conn.NextSequence | netlink-client/conn.go:534-536 | adds one modulo 2^32; it is 0 exactly after 2^32 - 1 |
| Conn.Conn.FixMsg | netlink-client/conn.go:518-530 | computes Fixed, using a number only when it gives one |
| Conn.Conn.LockedSend | netlink-client/conn.go:205-228 | too large changes nothing; a refused request has used its number; else the request is sent with the caller's type, flags and data, the caller's length, number and PID where set, and the connection's PID otherwise |
| Conn.Conn.SendMessages | netlink-client/conn.go:148-179 | fills the caller's list in place up to the first request that is too large, and sends all or nothing; every request keeps what its caller set and gets the connection's PID otherwise |
| Conn.Conn.Drain | netlink-client/conn.go:278-320 | the loop computes Received and leaves the rest unread |
| Conn.Conn.LockedReceive | netlink-client/conn.go:246-274 | trims only a final Done |
| Conn.Conn.Execute | netlink-client/conn.go:122-143 | the request keeps what its caller set and gets the connection's PID otherwise; replies match it in number and PID, unless the number wrapped to 0; each error has its cause |
| Promise.StepKeepsInv | util/process/progoroutine.go:154-192 | every step keeps the invariant and no step touches the outcome of a settled promise |
| Promise.RunKeepsInv | util/process/progoroutine.go:154-206 | so does every run |
| Promise.SettlesOnce | util/process/progoroutine.go:154-206 | a promise that left pending stays so, with the same result, error and winner, in every continuation |
| Promise.CounterIsPending | util/process/progoroutine.go:45-55 | the wait counter is 0 or 1, and 1 if and only if the promise is pending or the holder of its mutex is between clearing pending and wg.Done |
| Promise.CounterOutlivesPending | util/process/progoroutine.go:174-176 | a run in which pending is cleared and the counter is still 1 |
| Promise.ReturnedIsSettled | util/process/progoroutine.go:154-192 | a call of resolve or reject that has returned has left its promise settled |
| Promise.NeverHoldsAPromise | util/process/progoroutine.go:162-173 | no promise ever holds a promise |
| Promise.AwaitReadsTheOutcome | util/process/progoroutine.go:104-107 | a counter at 0 means settled, and what is read from then on is the outcome |
| Promise.OutcomeComesFromTheEndOfTheChain | util/process/progoroutine.go:154-178 | a settled promise has the outcome of the plain resolve or reject at the end of its chain, as has every promise of the chain |
| PromiseWaits.StuckNeverSettles | util/process/progoroutine.go:154-165 | promises whose mutex is lost to a nil promise, or that wait for such or for one another, or are about to, stay pending in every continuation |
| PromiseWaits.SelfResolveIsStuck | util/process/progoroutine.go:154-165 | a run in which a promise is resolved with itself and waits for itself |
| PromiseWaits.NilResolveIsStuck | util/process/progoroutine.go:162-164 | a run in which a promise is resolved with a nil promise and its mutex is never unlocked |
| PromiseWaits.CanSettleIffNotDoomed | util/process/progoroutine.go:154-206 | a pending promise can still settle in some continuation if and only if it is in no set of promises each of which has its mutex lost to a nil promise or waits for one of the set |
| PromiseAll.StepKeepsInv | util/process/progoroutine.go:110-145 | every step of inputs, helpers and receiver keeps the invariant of All |
| PromiseAll.ResolvedWithEveryValue | util/process/progoroutine.go:132-143 | if All resolves, slot i is input i's value for every i and no input was rejected |
| PromiseAll.RejectedWithSomeError | util/process/progoroutine.go:138-141 | if All rejects, it is with the error of some input |
| PromiseAll.SendsNeverBlock | util/process/progoroutine.go:117-130 | the channels never hold more than their capacity and no sender finds one full |
| PromiseAll.AtMostOneMessage | util/process/progoroutine.go:120-130 | an input sends its value or its error, at most once and never both |
| PromiseAll.NoDeadlock | util/process/progoroutine.go:132-142 | while All is not settled and every input is, some step of All can be taken |
| PromiseAll.StepProgress | util/process/progoroutine.go:79-145 | every step of All lowers what is left to do |
| PromiseAll.EndsSettled | util/process/progoroutine.go:110-145 | once every input is settled every run of All is finite and can only end settled |
| SlabBuffer.AlignSize | util/mem/SlabBuffer.go:75-85 | at least 8192, whole blocks, short of what was asked for by less than a block |
| SlabBuffer.RoundingFallsShort | util/mem/SlabBuffer.go:75-85 | the rounded size is too small exactly when over 8192 and not whole blocks |
| SlabBuffer.RoundingLeavesRoom | util/mem/SlabBuffer.go:140-149 | with a capacity of at least 8192 the rounded-down new size still has room for contents and n bytes |
| SlabBuffer.OffsetAligns | util/mem/directio.go:19-53 | the offset arithmetic yields an aligned address |
| SlabBuffer.AllocAlignedBuf | util/mem/directio.go:24-53 | fails for size 0 only, and the second alignment test never fails |
| SlabBuffer.SlabBuffer.InitAlign | util/mem/SlabBuffer.go:37-43 | an empty aligned buffer; it cannot fail |
| SlabBuffer.SlabBuffer.Truncate | util/mem/SlabBuffer.go:87-91 | empties the buffer and keeps the storage |
| SlabBuffer.SlabBuffer.TryGrowByReSlice | util/mem/SlabBuffer.go:98-104 | extends the slice exactly when the capacity allows, unread bytes kept |
| SlabBuffer.SlabBuffer.Grow | util/mem/SlabBuffer.go:107-158 | room for n bytes without losing an unread one, or the panic with everything kept, only when twice the capacity plus n exceeds the largest int; the storage is kept when there is room behind or within half of it; else it is 409600 bytes for a nil buffer, and twice the old plus n, up to a block more or less in aligned mode |
| SlabBuffer.SlabBuffer.WriteUnsafeDirectly | util/mem/SlabBuffer.go:167-178 | stores all of p behind what is unread |
| SlabBuffer.SlabBuffer.Read | util/mem/SlabBuffer.go:185-212 | hands out the oldest bytes, as many as fit; EOF when none is handed out, except for an empty p on an empty buffer |
| SlabBuffer.SlabBuffer.Next | util/mem/SlabBuffer.go:215-226 | hands out at most n of the oldest bytes, as a slice of the buffer's own storage; panics exactly for negative n |
| SlabBuffer.RunAll | util/mem/SlabBuffer.go:161-226 | over any run, bytes handed out followed by bytes unread are all bytes written |
| Checksum.CheckSum | util/net/ping.go:128-143 | the loop and the folds compute the complement of the twice folded word sum |
| Checksum.ByteWeights | util/net/ping.go:132-137 | a byte at an even place adds 256 times its value to the sum, one at an odd place its value |
| Checksum.OnesSumIsCanon | util/net/ping.go:128-143 | the one's complement sum of the words is the word sum's residue modulo 65535 in 1..65535, or 0 |
| Checksum.TwoFoldsExactIff | util/net/ping.go:139-140 | two folds are exact if and only if no carry is left |
| Checksum.ExactUpToLength | util/net/ping.go:128-143 | checkSum is the Internet checksum of every message of a length if and only if that is at most 131076 |
| Checksum.StoredVerifiesIff | util/net/ping.go:69-71 | storing the checksum in a zero field makes the message's checksum 0 if and only if the two folds left no carry |
| Checksum.StoredVerifiesUpToLength | util/net/ping.go:69-71 | storing works for every message of a length from 4 up with a zero field if and only if that is at most 131078 |
| Checksum.GenSequence | util/net/ping.go:152-156 | the two bytes spell the int16 in two's complement |
| Checksum.BuildEcho | util/net/ping.go:59-71 | every echo request passes its own checksum, whatever its size |
| LogNames.AtoiOfItoa | log/newlog/output.go:283-286 | the number a name shows is the number it was made with |
| LogNames.SequenceOfNumbered | log/newlog/output.go:346-348 | oldLogFiles reads off Name.k the number k |
| LogNames.AtoiIff | log/newlog/output.go:284-286 | the conversion accepts exactly the strings whose digits, behind at most one sign, spell a number by position, and returns it |
| LogNames.SequenceIs | log/newlog/output.go:280-288 | a name counts as the number it ends in behind one character, and as 0 if it ends in none |
| LogNames.NameOfIff | log/newlog/output.go:346-348 | the name rotation gives number k is Name, a dot and the decimal digits of k without leading zero, and no other |
| LogNames.RotatedIff | log/newlog/output.go:346-348 | the names rotation gives are exactly Name, a dot and digits of which the first is not 0 |
| LogRotation.NoOverwriteIffDistinct | log/newlog/output.go:243-256 | no rename overwrites a live file if and only if the renamed files show distinct numbers |
| LogRotation.HandleAllMoves | log/newlog/output.go:243-256 | then every kept file is at its target, dropped ones are gone, others untouched |
| LogRotation.CanonicalIff | log/newlog/output.go:346-348 | a directory has only Name and Name.k if and only if each file with the prefix is Name, or Name, a dot and digits of which the first is not 0 |
| LogRotation.FileNameIff | log/newlog/output.go:346-348 | file k is Name for 0 and else Name, a dot and the digits of k, by position |
| LogRotation.RollShifts | log/newlog/output.go:232-263 | with only Name and Name.k, file k+1 holds what file k held, only k+1 >= the maximum is dropped, Name is new; without any such file nothing changes |
| LogRotation.RotationsKeepHistory | log/newlog/output.go:226-263 | after n rotations file k holds what Name held k rotations ago, or what file k-n held at the start |
| LogRotation.FileCount | log/newlog/output.go:244-250 | at most the maximum number of files remain |
| LogRotation.OrderThatKeepsAll | log/newlog/output.go:46-48 | with only Name and Name.k and the files taken in any order, no rename overwrites a live file if and only if file k+1 comes before file k whenever both are there and k+1 is below the maximum |
| LogRotation.NoRotationOverwrites | log/newlog/output.go:226-263 | over any number of rotations no rename overwrites a live file |
| LogRotation.NumberZeroIsLost | log/newlog/output.go:281-287 | Name.0 shows the number of Name, and one of the two is lost |
| LogRotation.Output.OldLogFiles | log/newlog/output.go:267-295 | exactly the files with the log's prefix, each once, with their numbers, highest first |
| LogRotation.Output.RollRunOnce | log/newlog/output.go:232-263 | the loop performs the rotation |

## Left out

- Deque.Deque.Clear: leaves the slots of a full buffer as they are, as the source does, so free slots need not be nil afterwards.
- IdleWorkers.WorkerStack.RetrieveExpiry: returns a value; the reuse of one expiry slice by the next call is not captured.
- LogNames.AtoiOfItoa: numbers are unbounded; the 64-bit clamp of Atoi and the overflow of sequence + 1 are not modelled.
- Checksum.StoredVerifiesIff: is about word sums of messages up to 8 GiB.
- Pool: Release of a ring-backed pool, since loopQueue.reset sends to one worker for ever.
- PoolModel.ValidIffMade: sizes over 2^31 - 1, which NewPool truncates to 32 bits, are not covered.
- Pool: Tune, Reboot and overlapping scavengers, which change the capacity or share the expiry slice.
- Pool: liveness under lost wakeups; a goroutine in Wait may wake at any time.
- Pool: spinlock, sync.Cond and sync.Pool internals; they are an atomic lock, free wakeup and a bag.
- Deque: running out of memory, and int overflow of sizes over 2^62.
- SlabBuffer: the branch of grow for an aligned nil buffer, which no aligned constructor leads to, and ResetOffOnUnSafe.
- Netlink: system calls, namespaces, BPF, socket options, debug output, ParseNetlinkMessage, and concurrent Send and Receive on one Conn.
- Promise: the texts of panic errors, a panic outside the executor's goroutine, which ends the program, and Then and Catch outside All.
- Log rotation: failing file operations, real clocks, asynchronous flushing; log/log/output.go has the same rotation and is not modelled again.
- util/mem/cache, util/mem/ring, SyncArray, ChannelBuf, event, util/fsm, selector, service-wrapper and the network clients are not modelled.
