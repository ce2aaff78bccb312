# Proofs about a set of Linux driver exercises

A Dafny model of the parts of the `ldd3` drivers that hold real state machines, and proofs of what they keep.
`dafny verify dfyconfig.toml` checks everything.

## What is modelled

Sequential code is a class whose methods do what the C functions do to the same fields; each method is proved
against a function of the old state or states its whole effect. Concurrent code is a state machine with one step
per locked section, atomic operation or unlocked load; an invariant is proved for every step and the results hold
for every run (`Run` folds a list of steps from the initial state).

| file | subject |
|---|---|
| `PipeRing`, `PipeDevice`, `PipeProtocol`, `PipeCalls`, `PipeEof` | `scull_pipe.c`: the circular buffer as a FIFO queue, the device under its semaphore, any number of processes sleeping and waking, what each of their steps and whole calls do to the queue, a reader at end of file |
| `RxFilter`, `NetRing`, `NetQueue`, `NetProtocol`, `NetStatistics`, `NetSolo` | the impair network driver: multicast CAM, descriptor rings, NAPI poll of one queue, all queues under interleaving, each counter by itself, one packet followed all the way |
| `ScullStore`, `ScullDevice` | `scull_core.c`: the address map, the device as a byte store, reset, ioctl, serial runs |
| `RbullStore`, `RbullProtocol`, `RbullRuns` | `rbull.c`: the segment loop on the backing store; workers, timeouts, lock and flush counter at once; requests run to their end, and runs that show what goes wrong |
| `ScatterDma` | `do_sg_dma` with `edu_dma_transfers` |
| `AccessControl`, `AccessRuns` | scullsingle, sculluid, scullwuid; an open of scullwuid from the call to its end |
| `Volume` | the two volume roundings of the USB audio exercise |

The step functions and the code they follow:

- PipeProtocol.Apply: `ldd3/ch06_advanced_char/scull_pipe.c:17-136`, opens and releases 181-226. A reader or writer
  advances its pointer, wraps it, releases the semaphore and wakes the other queue in separate steps. `Glance` and
  `Weigh` are the first look of `wait_event`, before going onto the queue; `Load` and `Decide` the look from the queue,
  which is repeated after every wake-up. Each look is two unlocked loads, in either order.
- NetProtocol.Act: `ldd3/ch17_net/impair_qvec.c:23-198` and `ldd3/ch17_net/impair_main.c:14-100`. `sched` and `missed`
  are the two NAPI state bits; completing a poll while `missed` is set schedules it again. `NetProtocol.Seen` is an
  observer beside the machine: it follows a run and notes the allocator, the committed filter and the RX ring whenever
  the drain loop looks at them, without reading the machine's own log.
- RbullProtocol.ActOn: `ldd3/ch16_block/rbull.c:98-212`. Claiming `done` and ending the request are separate steps.
- AccessControl.Apply: `ldd3/ch06_advanced_char/scull_access_control.c:107-152`, one step per load of an unlocked
  look, the first of them before going onto the queue; `AccessControl.SingleApply`: lines 15-34.
- `ScullDevice.Apply` and `ScullDevice.Pass`: `ldd3/common_scull/scull_core.c:15-188` and 211-325.

Assumptions about the kernel: memory accesses are seen in program order where the code relies on semaphores, spinlocks
and wait queue barriers; `wake_up` takes every waiter off the queue; allocation, copies from and to the user, signals,
timers and interrupts are parameters and may fail or come at any time; a file is released only when no call on it is in
progress; the network core serialises transmits of one queue and waits for the timer handler and the poll before teardown;
a request reaches the rbull worker with at least one segment if it writes.

## Where the code and its comments disagree

- `scull_pipe.c:216` wakes the readers when the last writer leaves, "let readers see EOF", but the wait condition at
  line 37 only looks at the pointers. `PipeEof.WokenReaderGoesIff` is the exact condition,
  `PipeEof.ReaderSleepsThroughEof` what that means for every run, `PipeEof.EofIsMissed` a run from the beginning.
- `scull_core.c:73` sends items 0 and 1 to the same node, so two offsets one item apart share storage there.
  `ScullStore.SharedStorage` says exactly which, and `ScullDevice.CopyInCopyOut` exactly what is read back.
- `scull_core.c:22-35` advances `next` only for nodes with data, so resetting a list with an empty node never ends or
  follows a pointer never set. `ScullDevice.ResetEnds` is the exact condition and `ScullDevice.WriteUnpopulates` says
  exactly which writes leave an empty node; the pointer arrays are never freed.
- `scull_core.c:312-321`: the shift of the qset changes the quantum. Tell and reset commands return -EINVAL.
- `rbull.c:137` counts segments and line 183 uncounts requests. `RbullProtocol.FlushIsSafe` says exactly when a flush
  can pass and `RbullProtocol.RestLeaves` exactly which requests leave something on the counter; from the beginning, a
  write of two or more segments ends well and no flush passes ever after (`RbullRuns.WriteThenFlush`). The abort exit at
  145-149 is the only one that keeps the lock (`RbullProtocol.LockAtRest`, `RbullRuns.TimeoutKeepsLock`).
- `scull_access_control.c:17-22`: an open of scullsingle can be refused while nobody has the device open
  (`AccessControl.RefusedWhileFree`).
- `impair_main.c:171-180` describes a filter without a multicast list; the code below it keeps one.
- `uac_ctrl.c:40` stores the rounded sum into 16 bits, which can turn the loudest volume into the softest
  (`Volume.LoudestBecomesSoftest`).

## Model

| member | source | states |
|---|---|---|
| PipeRing.SpaceFree | ldd3/ch06_advanced_char/scull_pipe.c:67-72 | free space from two pointers with one slot sacrificed, also for loads that see one pointer on the end of the buffer |
| PipeRing.SpaceLaw | ldd3/ch06_advanced_char/scull_pipe.c:67-72 | bytes queued plus free space is the buffer size less one; equal pointers mean empty and nothing else |
| PipeRing.ReadTakesPrefix | ldd3/ch06_advanced_char/scull_pipe.c:46-57 | a read takes a non-empty prefix of the queue, before the wrap |
| PipeRing.WriteAppends | ldd3/ch06_advanced_char/scull_pipe.c:107-125 | a write past the space test stores a non-empty prefix of its data behind the queue and never makes the pointers meet |
| PipeRing.BrokenCopyIsInvisible | ldd3/ch06_advanced_char/scull_pipe.c:120-124 | a copy that fails half way changes nothing a reader can see |
| PipeRing.WrapKeepsContents | ldd3/ch06_advanced_char/scull_pipe.c:58-59 | the wrap of either pointer keeps the queue |
| PipeRing.ReadSection | ldd3/ch06_advanced_char/scull_pipe.c:46-60 | what a read returns followed by what it leaves is the old queue |
| PipeRing.WriteSection | ldd3/ch06_advanced_char/scull_pipe.c:107-128 | the new queue is the old one followed by what was written |
| PipeRing.TwoReadsDrain | ldd3/ch06_advanced_char/scull_pipe.c:46-60 | two large reads return the whole queue in order and leave it empty |
| PipeDevice.ScullPipe.GetSpaceFree | ldd3/ch06_advanced_char/scull_pipe.c:67-72 | the buffer size less one less what is queued |
| PipeDevice.ScullPipe.TryRead | ldd3/ch06_advanced_char/scull_pipe.c:23-60 | end of file, sleep, fault or a prefix of the queue, each exactly when; the rest of the queue stays |
| PipeDevice.ScullPipe.ReadRoom | ldd3/ch06_advanced_char/scull_pipe.c:45-49 | a read is served as much as was asked for, is queued and lies before the end of the buffer, the most that all three allow, and something |
| PipeDevice.ScullPipe.WriteRoom | ldd3/ch06_advanced_char/scull_pipe.c:107-118 | a write is granted the most that the request, the free space and the end of the buffer allow, and something |
| PipeDevice.ScullPipe.TryWrite | ldd3/ch06_advanced_char/scull_pipe.c:95-128 | no space, fault or a prefix of the data appended, each exactly when; the prefix is as long as request, free space and end of the buffer allow |
| PipeDevice.ScullPipe.Open | ldd3/ch06_advanced_char/scull_pipe.c:181-207 | counts the open, allocates an empty buffer on the first one, leaves everything alone on failure |
| PipeDevice.ScullPipe.Release | ldd3/ch06_advanced_char/scull_pipe.c:208-226 | uncounts the open, wakes readers after the last writer, frees the buffer after the last of all |
| PipeDevice.ScullPipe.Poll | ldd3/ch06_advanced_char/scull_pipe.c:138-173 | readable, writable and hangup in terms of the queue |
| PipeProtocol.StepKeepsInv | ldd3/ch06_advanced_char/scull_pipe.c:17-226 | every step of any process keeps pointers in range, FIFO order, the semaphore discipline and what sleepers rely on |
| PipeProtocol.PipeIsSafe | ldd3/ch06_advanced_char/scull_pipe.c:17-136 | over every interleaving: accepted bytes are delivered bytes followed by the queue, a sleeper whose condition holds has a wake-up coming, only a caller inside its locked section holds the semaphore |
| PipeProtocol.NoMutualSleep | ldd3/ch06_advanced_char/scull_pipe.c:37 | a sleeping reader and a sleeping writer never coexist without a wake-up on its way |
| PipeProtocol.StuckMeansWaiting | ldd3/ch06_advanced_char/scull_pipe.c:73-94 | no deadlock: when nobody can move, the semaphore is free and all callers sleep on one side for a condition that is false |
| PipeCalls.ReadFindsNothing | ldd3/ch06_advanced_char/scull_pipe.c:23-36 | in any reachable state, a read whose section finds the queue empty changes no byte, releases the semaphore and leaves if there is no writer or O_NONBLOCK, and otherwise goes to wait |
| PipeCalls.ReadFindsBytes | ldd3/ch06_advanced_char/scull_pipe.c:45-57 | a read that finds bytes returns the front of the queue and leaves the rest; how much is the least of request, queue and distance to the end, so something for a non-empty request; or it faults, nothing taken and the semaphore free |
| PipeCalls.WriteFindsFull | ldd3/ch06_advanced_char/scull_pipe.c:73-94 | a write whose section finds the ring full changes no byte, releases the semaphore, gives up under O_NONBLOCK and otherwise goes onto the queue |
| PipeCalls.WriteFindsSpace | ldd3/ch06_advanced_char/scull_pipe.c:107-125 | a write that finds space puts the front of its data behind the queue; how much is the least of request, free space and distance to the end, so something for non-empty data; or it faults and the queue stays |
| PipeCalls.EverySection | ldd3/ch06_advanced_char/scull_pipe.c:17-125 | after every run from the beginning: what the next locked section delivers or accepts, what stays queued, and where its caller goes, in all cases |
| PipeCalls.WrapEffect | ldd3/ch06_advanced_char/scull_pipe.c:58-60 | pointers back inside, queue unchanged, semaphore free |
| PipeCalls.WakeUpEffect | ldd3/ch06_advanced_char/scull_pipe.c:62 | everybody on the other side's queue is woken, nobody else |
| PipeCalls.ReadCompletes | ldd3/ch06_advanced_char/scull_pipe.c:45-64 | a read at the semaphore of a non-empty pipe, undisturbed, returns with the front of the queue, writers woken |
| PipeCalls.WriteCompletes | ldd3/ch06_advanced_char/scull_pipe.c:99-136 | a write at the semaphore of a pipe with space, undisturbed, returns with its bytes behind the queue, readers woken |
| PipeCalls.WriterLooks | ldd3/ch06_advanced_char/scull_pipe.c:82-88 | a writer on its way onto the queue looks and sleeps there exactly if the ring is full |
| PipeCalls.ReadLetsWriterIn | ldd3/ch06_advanced_char/scull_pipe.c:62-94 | a read followed by the writer that was asleep: the read takes the front, the writer is woken and puts at least a byte behind the rest |
| PipeCalls.OpenEffect | ldd3/ch06_advanced_char/scull_pipe.c:181-207 | the first open gives an empty buffer, any other keeps the queue; no process moves |
| PipeCalls.ReleaseEffect | ldd3/ch06_advanced_char/scull_pipe.c:208-226 | the buffer goes exactly with the last file that reads or writes; readers are woken exactly when the last writer leaves |
| PipeEof.LookDecides | ldd3/ch06_advanced_char/scull_pipe.c:37 | at the end of a look a reader goes for the semaphore exactly when the two pointers it loaded differ |
| PipeEof.FirstLook | ldd3/ch06_advanced_char/scull_pipe.c:37 | the first look of the wait goes back to the semaphore exactly when the pointers differ, and onto the queue otherwise |
| PipeEof.WokenReaderGoesIff | ldd3/ch06_advanced_char/scull_pipe.c:37 | a woken reader left to itself goes on to where it would see end of file if and only if the pointers differ, and sleeps again otherwise, however many writers there are |
| PipeEof.ReaderSleepsThroughEof | ldd3/ch06_advanced_char/scull_pipe.c:214-216 | over every run without a successful write and without a signal to it, a reader waiting on an empty pipe never leaves the wait |
| PipeEof.EofIsMissed | ldd3/ch06_advanced_char/scull_pipe.c:208-226 | a run from the beginning after which the last writer has left and the reader sleeps on the empty pipe |
| RxFilter.RxAccept | ldd3/ch17_net/impair_qvec.c:6-20 | the search loop decides what the filter state admits |
| RxFilter.ImpairDev.SetRxMode | ldd3/ch17_net/impair_main.c:153-203 | the committed state is flags, address and the first 16 entries of the list, and all multicast if there are more |
| RxFilter.ImpairDev.SetMacAddress | ldd3/ch17_net/impair_main.c:132-151 | a new primary address reaches device and filter, the rest of the committed state stays in step |
| RxFilter.CamAgreesWithList | ldd3/ch17_net/impair_main.c:182-202 | nothing wanted is refused; equality with the unbounded list unless it has more than 16 entries; exactly which addresses get in too many |
| NetRing.CircCount | ldd3/ch17_net/impair_ring.c:11-13 | the used slots between two indices |
| NetRing.CircSpace | ldd3/ch17_net/impair_ring.c:7-9 | one slot less than the rest is free |
| NetRing.PushedPackets | ldd3/ch17_net/impair_main.c:33-40 | filling the next slot appends one packet and occupies no other slot |
| NetRing.PoppedPackets | ldd3/ch17_net/impair_qvec.c:44-47 | clearing the oldest slot removes the first packet |
| NetRing.ImpairRing.Init | ldd3/ch17_net/impair_ring.c:15-26 | rejects bad sizes untouched, otherwise empty indices and cleared slots up to the size, the others as they were; a valid empty ring for the full size |
| NetRing.ImpairRing.Push | ldd3/ch17_net/impair_main.c:25-43 | refuses exactly when full, otherwise appends |
| NetRing.ImpairRing.Pop | ldd3/ch17_net/impair_qvec.c:37-52 | takes the oldest packet and leaves its slot NULL |
| NetRing.ImpairRing.FreeAll | ldd3/ch17_net/impair_ring.c:28-43 | ends, frees every remaining packet once and in order, leaves no slot occupied |
| NetQueue.ThroughStep | ldd3/ch17_net/impair_qvec.c:54-118 | one more packet extends what passes and the statistics by its own verdict |
| NetQueue.BytesAdd | ldd3/ch17_net/impair_qvec.c:97-114 | byte and multicast counts of a queue are those of its parts, wherever it is cut |
| NetQueue.QVector.Xmit | ldd3/ch17_net/impair_main.c:25-46 | busy and stopped exactly when the ring is full, otherwise enqueued in order |
| NetQueue.QVector.PopTx | ldd3/ch17_net/impair_qvec.c:36-52 | takes the oldest packet and wakes a stopped queue |
| NetQueue.QVector.Forward | ldd3/ch17_net/impair_qvec.c:54-117 | copy, header, filter and room decide whether one packet reaches the RX ring; the counters follow |
| NetQueue.QVector.DrainOne | ldd3/ch17_net/impair_qvec.c:36-118 | one turn of the drain loop on both rings, the statistics and the freed packets |
| NetQueue.QVector.Drain | ldd3/ch17_net/impair_qvec.c:23-121 | takes as many packets as budget and ring allow, forwards exactly those that pass, frees each; every counter by what left the TX ring and what came into the RX ring |
| NetQueue.QVector.Deliver | ldd3/ch17_net/impair_qvec.c:122-170 | hands up the oldest packets in order, as many as budget and ring allow |
| NetQueue.QVector.Poll | ldd3/ch17_net/impair_qvec.c:172-186 | takes and hands up as many packets as budget and rings allow; completes exactly below the budget and then both rings are empty; keeps the balance of the counters |
| NetProtocol.ActKeepsQueueInv | ldd3/ch17_net/impair_qvec.c:23-198 | every step of producer, timer, NAPI, watchdog or close keeps order and ownership of packets and copies, and a coming visit |
| NetProtocol.CloseFreesTheRest | ldd3/ch17_net/impair_qvec.c:235-258 | close frees what both rings still hold, every accepted packet once in all |
| NetProtocol.ActPaysDebt | ldd3/ch17_net/impair_qvec.c:111-117 | the counters move exactly by what a queue owes less |
| NetProtocol.StepKeepsInv | ldd3/ch17_net/impair_qvec.c:172-198 | the invariant of all queues and the balance of the global counters over every step |
| NetProtocol.ActAgrees | ldd3/ch17_net/impair_qvec.c:54-101 | every step decides what an observer of allocator, committed filter and RX ring would decide |
| NetProtocol.NoPacketLost | ldd3/ch17_net/impair_qvec.c:23-170 | over every run: no packet stranded, every packet and every copy in one place; the packets and copies that went up are in transmit order exactly those that passed the allocator, a filter committed when they were looked at, and the room in the RX ring, as an independent observer sees them; a full ring is the only reason for want of room; a stopped queue is full, a closed queue has given everything back |
| NetProtocol.FilterIsLast | ldd3/ch17_net/impair_qvec.c:6-20 | over every run the filter that is in force is the last one the observer saw committed |
| NetProtocol.StatisticsLaw | ldd3/ch17_net/impair_qvec.c:113-116 | between iterations, transmitted is received plus dropped plus waiting plus discarded at close |
| NetStatistics.ActCountsFates | ldd3/ch17_net/impair_qvec.c:54-160 | each step moves each of the four counters by what it does to the packets of its queue |
| NetStatistics.EachCounter | ldd3/ch17_net/impair_qvec.c:23-170 | over every run, across close and reopen, each counter by itself: completed, on their way up, refused and noted, discarded at close |
| NetSolo.DrainOneAlone | ldd3/ch17_net/impair_qvec.c:36-118 | one turn of the interleaved drain loop left to itself judges the oldest packet by allocator, filter and room, and ends in the state that verdict calls for |
| NetSolo.DeliverOneAlone | ldd3/ch17_net/impair_qvec.c:134-164 | one turn of the deliver loop hands up the oldest packet and counts it as received |
| NetSolo.LoopEnds | ldd3/ch17_net/impair_qvec.c:29-186 | both loops stop at the budget, the drain loop hands over to the deliver loop on an empty ring; a poll below its budget completes, unless a schedule was missed |
| NetSolo.XmitLaw | ldd3/ch17_net/impair_main.c:25-46 | under interleaving a transmit is refused exactly when one slot is left, and then only stops the queue |
| NetSolo.WatchdogRestarts | ldd3/ch17_net/impair_main.c:49-67 | the watchdog starts a stopped queue, and timer and handler then make NAPI look at the TX ring |
| NetSolo.CloseLaw | ldd3/ch17_net/impair_qvec.c:235-258 | after close both rings are empty and everything accepted has been freed; the counters move by what was discarded; a reopen gives an idle queue |
| NetSolo.OnePacketThrough | ldd3/ch17_net/impair_qvec.c:23-198 | a packet transmitted on an idle queue is handed up if and only if copy, header and filter let it; the queue is idle again and the counters say which it was |
| ScullStore.NodeNumbers | ldd3/common_scull/scull_core.c:61-84 | by offsets: the first node for the first two items, one node further for every further item, the same place inside the node; inside item 0 the offset is quantum number times quantum plus rest |
| ScullStore.SharedStorage | ldd3/common_scull/scull_core.c:61-84 | two offsets share a byte exactly when they are p and p plus an item with p in item 0 |
| ScullStore.SameQuantum | ldd3/common_scull/scull_core.c:101-104 | the offsets up to the end of a quantum lie side by side in it |
| ScullStore.GrownKeeps | ldd3/common_scull/scull_core.c:65-82 | appending nodes loses no stored byte and keeps the geometry |
| ScullStore.StoredIs | ldd3/common_scull/scull_core.c:152-174 | storing at an address changes that range only; bytes that appear around it are zero |
| ScullStore.WriteThenRead | ldd3/common_scull/scull_core.c:130-188 | repeated short writes then repeated short reads of a range, at any position: the exact bytes that come back |
| ScullStore.RoundTrip | ldd3/common_scull/scull_core.c:73 | they are the written bytes past item 0 or for at most an item, and in general exactly when the bytes sharing storage agree |
| ScullDevice.ReadLaw | ldd3/common_scull/scull_core.c:86-129 | a read returns the stored bytes up to end of file and of quantum, none in a hole or past the end, and leaves the device as it was, no node appended |
| ScullDevice.NoMemoryKeeps | ldd3/common_scull/scull_core.c:148-165 | a write that runs out of memory anywhere loses nothing |
| ScullDevice.BadAddressKeeps | ldd3/common_scull/scull_core.c:171-175 | a write that faults has overwritten what it copied, nothing else, and the size stays |
| ScullDevice.WroteIsWrite | ldd3/common_scull/scull_core.c:167-184 | a write that succeeds stores up to the end of the quantum, keeps all other bytes and covers the size |
| ScullDevice.CopyInCopyOut | ldd3/common_scull/scull_core.c:86-188 | the round trip on the device itself, for every position, length and geometry |
| ScullDevice.ResetEnds | ldd3/common_scull/scull_core.c:20-37 | the freeing loop reaches the end of the list if and only if every node has an array |
| ScullDevice.PassesStick | ldd3/common_scull/scull_core.c:20-37 | otherwise it visits the first empty node for ever, or follows a pointer never set if that is the first node |
| ScullDevice.WriteUnpopulates | ldd3/common_scull/scull_core.c:145-166 | a write, successful or not, keeps every node populated if and only if its node exists, or nothing could be allocated, or its node is the next one and got its array |
| ScullDevice.CopiedInThenReset | ldd3/common_scull/scull_core.c:20-37 | after a range was copied in, the freeing loop reaches the end if and only if the range began in a node that was there or was the next one; always for a range from the start or from the end of the device |
| ScullDevice.Ioctl | ldd3/common_scull/scull_core.c:211-325 | which commands can change which global, and that a shift only ever changes the quantum |
| ScullDevice.IoctlLaw | ldd3/common_scull/scull_core.c:220-325 | what set, tell, exchange and shift store can be queried back and nothing else changes; a shift is undone by shifting back; every return code, with and without the capability |
| ScullDevice.StepKeepsSound | ldd3/common_scull/scull_core.c:45-58 | every file operation and ioctl keeps geometry and coverage; only a reset adopts sizes, those of the globals then |
| ScullDevice.StepLaw | ldd3/common_scull/scull_core.c:86-188 | in a serial run only writes and resets change the device, only ioctls the globals; a write that succeeds stores its bytes and keeps the others, one without memory keeps all |
| ScullDevice.OpenReturnsIff | ldd3/common_scull/scull_core.c:45-58 | an open for writing returns if and only if the freeing loop of its reset does |
| ScullDevice.GeometryIsStable | ldd3/common_scull/scull_core.c:154-166 | over every serial run arrays and quanta keep the sizes that the globals had at the last reset |
| ScullDevice.ScullDev.FindItem | ldd3/common_scull/scull_core.c:61-84 | follows no link for items 0 and 1 and one more for each further item, appending what is missing; fails exactly when allocations run out |
| ScullDevice.ScullDev.Read | ldd3/common_scull/scull_core.c:86-129 | computes what ReadLaw is about |
| ScullDevice.ScullDev.Provide | ldd3/common_scull/scull_core.c:154-166 | allocates the missing array and the missing, zeroed quantum |
| ScullDevice.ScullDev.Write | ldd3/common_scull/scull_core.c:130-188 | computes what the laws of the three outcomes are about |
| ScullDevice.ScullDev.FreeNodes | ldd3/common_scull/scull_core.c:19-37 | the freeing loop on any list, watched for any number of passes: where its pointer stands, what it has freed, each block once |
| ScullDevice.ScullDev.Reset | ldd3/common_scull/scull_core.c:15-43 | ends exactly on populated lists, with an empty device in the new sizes, every node and quantum freed once and no pointer array; on other lists it never ends |
| RbullStore.FittingIsFirstOverflow | ldd3/ch16_block/rbull.c:129-134 | the segments that count are those before the first that overflows the store |
| RbullStore.FlatAt | ldd3/ch16_block/rbull.c:126-180 | byte b of segment i lies behind all the bytes of the segments before it |
| RbullStore.FilledIsRange | ldd3/ch16_block/rbull.c:155-157 | the segments of a read, joined, are the range of the store |
| RbullStore.SegmentationsAgree | ldd3/ch16_block/rbull.c:153-173 | what was written in one segmentation is read back in any other |
| RbullStore.RbullDev.MoveSegment | ldd3/ch16_block/rbull.c:153-173 | one segment extends what the request has done to the store so far |
| RbullStore.RbullDev.Transfer | ldd3/ch16_block/rbull.c:109-180 | moves exactly the segments before the first overflow; success exactly when there is none and the operation is known |
| RbullProtocol.ActCounts | ldd3/ch16_block/rbull.c:135-187 | increments less decrements of a request are what its position says it holds |
| RbullProtocol.StepKeepsInv | ldd3/ch16_block/rbull.c:98-212 | every step of worker or timeout handler keeps the ending protocol, the counter and the lock |
| RbullProtocol.EndedOnce | ldd3/ch16_block/rbull.c:189-210 | ended at most once, exactly once when both are through, also by the abort exit; by the handler with a timeout, by the worker with success if and only if it is a flush or all its segments fit and the operation is known (or there are none), otherwise with an error |
| RbullProtocol.FlushIsSafe | ldd3/ch16_block/rbull.c:113-118 | the counter is the sum over all requests; a waiting flush can pass if and only if every write is before its first increment or past its decrement with nothing left |
| RbullProtocol.RestLeaves | ldd3/ch16_block/rbull.c:123-187 | what a request at rest has left on the counter: nothing if and only if it is no write, or was not aborted and has one segment, fits not at all or is unknown |
| RbullProtocol.OnlySingleSegmentsBalance | ldd3/ch16_block/rbull.c:135-183 | a successful write leaves its segments less one on the counter |
| RbullProtocol.LockAtRest | ldd3/ch16_block/rbull.c:135-176 | a worker at rest holds the lock if and only if it left by the abort exit |
| RbullProtocol.SurplusBlocksFlushes | ldd3/ch16_block/rbull.c:182-187 | once something is left, no flush passes in any later state |
| RbullProtocol.AbortKeepsLock | ldd3/ch16_block/rbull.c:144-149 | after an aborted write no segment is ever moved again, after an aborted read none is written |
| RbullProtocol.AbortStopsMoving | ldd3/ch16_block/rbull.c:144-149 | once the timeout handler has raised abort, a worker outside a segment moves none in any later state |
| RbullProtocol.LocksIff | ldd3/ch16_block/rbull.c:139-142 | a worker gets the lock exactly when whoever holds it, aborted workers included, reads as it does |
| RbullProtocol.WritesAreAlone | ldd3/ch16_block/rbull.c:135-142 | a write moves its segment while no other request moves one |
| RbullRuns.AnyRequestEnds | ldd3/ch16_block/rbull.c:98-193 | from the beginning any request, by itself and in time, reaches its end with the status its job deserves |
| RbullRuns.WriteEndsWell | ldd3/ch16_block/rbull.c:123-193 | from the beginning a write of any number of segments, by itself, ends with success and leaves its segments less one |
| RbullRuns.WriteThenFlush | ldd3/ch16_block/rbull.c:113-187 | a flush after such a write can pass exactly if it had one segment, and otherwise in no later state |
| RbullRuns.TimeoutKeepsLock | ldd3/ch16_block/rbull.c:135-210 | from the beginning a write times out, leaves by the abort exit, is ended by the handler and keeps the lock in every later state |
| ScatterDma.PagesCover | ldd3/ch15_mmap_dma/main.c:105-111 | the page count reaches from the first to the last byte and no further, even when the address wraps; what it is for length 0 |
| ScatterDma.BuildSegments | ldd3/ch15_mmap_dma/main.c:153-166 | the segments partition the range, one a page, as many as pages; nothing remains, so the error branch is dead |
| ScatterDma.ExactlyOneSegment | ldd3/ch15_mmap_dma/main.c:155-161 | every byte lies in exactly one segment, that of its page |
| ScatterDma.BoundIsPageStart | ldd3/ch15_mmap_dma/main.c:155-161 | a segment other than the first begins where its page begins, so the cuts lie on page boundaries of the user range |
| ScatterDma.MergedCuts | ldd3/ch15_mmap_dma/main.c:168-181 | whatever neighbours are merged, the mapped segments cut the range in order |
| ScatterDma.UnmergedFits | ldd3/ch15_mmap_dma/main.c:178-188 | a segment that was not merged passes the size check of the transfer |
| ScatterDma.LastReachingSegmentWins | ldd3/ch15_mmap_dma/main.c:81-102 | after transfers to the device each byte of the window is that of the last segment long enough to reach it |
| ScatterDma.Result | ldd3/common_edu/edu_core.c:23-61 | success and each error code, exactly when: size, interruption, busy, direction and lateness, in this order |
| ScatterDma.EduDev.Transfer | ldd3/common_edu/edu_core.c:19-95 | size check, interruption, busy, direction and outcome decide the result; the in-flight flag is restored; success moves exactly the prefix, a late transfer the part that was copied, any other failure nothing |
| ScatterDma.EduDev.TransferAll | ldd3/ch15_mmap_dma/main.c:179-191 | succeeds exactly when every transfer does and otherwise returns the error of the first failure, nothing but the transfers before it having moved unless it timed out; on success every mapped segment holds the window prefix of its length, or the window is what the segments left in turn |
| ScatterDma.Host.GetPages | ldd3/ch15_mmap_dma/main.c:123-134 | the fast pinning, or the slow one after everything the fast one got was let go |
| ScatterDma.Host.DoSgDma | ldd3/ch15_mmap_dma/main.c:81-209 | on every way out each page is unpinned once, each array freed once and the mapping undone; which error comes when, that of the first failing transfer included; what success has transferred |
| AccessControl.SingleIsExclusive | ldd3/ch06_advanced_char/scull_access_control.c:15-34 | flag, holders and openers backing off add up to one over every run, so at most one holder |
| AccessControl.SingleOpensIff | ldd3/ch06_advanced_char/scull_access_control.c:17-22 | an open succeeds exactly when there is no holder and nobody backing off |
| AccessControl.RefusedWhileFree | ldd3/ch06_advanced_char/scull_access_control.c:17-22 | a run in which an open is refused while nobody has the device open |
| AccessControl.FreeAfterBackingOff | ldd3/ch06_advanced_char/scull_access_control.c:15-34 | the same run continued: once the refused have given their decrement back an open gets in |
| AccessControl.UidDevice.Open | ldd3/ch06_advanced_char/scull_access_control.c:55-79 | lets in exactly the first opener and those who pass the owner test; the first becomes the owner |
| AccessControl.UidDevice.Release | ldd3/ch06_advanced_char/scull_access_control.c:81-87 | the count stays the number of opens |
| AccessControl.StepKeepsInv | ldd3/ch06_advanced_char/scull_access_control.c:107-152 | every locked section, unlocked load and wake-up keeps count, owner test and what sleepers rely on |
| AccessControl.OwnedOpensAreSafe | ldd3/ch06_advanced_char/scull_access_control.c:107-152 | over every run: count is the number of holders, all passed the test against the owner, a sleeper to whom the device is available has a wake-up coming |
| AccessControl.OwnerStays | ldd3/ch06_advanced_char/scull_access_control.c:130-132 | the owner is constant while the device stays open |
| AccessControl.TestLaw | ldd3/ch06_advanced_char/scull_access_control.c:107-133 | the locked section of an open in any reachable state: the opener becomes a holder if and only if there is none or it passes against the owner; the first becomes the owner; otherwise nothing changes and it leaves if nonblocking and goes to wait if not |
| AccessControl.ReleaseLaw | ldd3/ch06_advanced_char/scull_access_control.c:141-152 | one holder less, the owner stays, and a wake-up is due exactly after the last |
| AccessRuns.OpenMeets | ldd3/ch06_advanced_char/scull_access_control.c:116-133 | the same from the call: in, away with O_NONBLOCK, or on to wait |
| AccessRuns.LookDecides | ldd3/ch06_advanced_char/scull_access_control.c:107-113 | an unlocked look goes for the lock if and only if the device is available; the first look leads onto the queue otherwise, a look from the queue to sleep |
| AccessRuns.WaiterGetsIn | ldd3/ch06_advanced_char/scull_access_control.c:122-152 | the last holder releases: the sleeping opener is woken, gets in and is the owner |
| AccessControl.StuckMeansOwned | ldd3/ch06_advanced_char/scull_access_control.c:122-129 | when nothing can move, every opener left is asleep because of another owner |
| Volume.SnapIsClose | ldd3/ch13_usb/uacctl.c:86-96 | the result is in range and within half a step of a value in range |
| Volume.SnapIsNearest | ldd3/ch13_usb/uacctl.c:86-96 | no step in range is nearer |
| Volume.SnapIsMonotone | ldd3/ch13_usb/uacctl.c:86-96 | louder requests never give softer results |
| Volume.SnapTwice | ldd3/ch13_usb/uacctl.c:86-96 | snapping again changes nothing, exactly when; always for values in range |
| Volume.UacDev.SetChannel | ldd3/ch13_usb/uac_ctrl.c:33-65 | the value in the message is the rounded, wrapped and clamped one; every error return |
| Volume.UacDev.SetVolume | ldd3/ch13_usb/uac_ctrl.c:66-213 | out of range nothing is sent; both channels get the same value, the second only after the first succeeded; success exactly when both messages are done |
| Volume.DriverAgreesWithTool | ldd3/ch13_usb/uac_ctrl.c:38-42 | for values in range both roundings agree if and only if the rounded value fits into 16 bits |
| Volume.DriverWraps | ldd3/ch13_usb/uac_ctrl.c:38-42 | where it does not fit, the driver sends a negative value, or the minimum if that is higher |
| Volume.DriverKeepsToolResult | ldd3/ch13_usb/uacctl.c:187-197 | for every raw argument, exactly when the driver sends the tool's result unchanged; always with values in range and half a step of headroom |
| Volume.LoudestBecomesSoftest | ldd3/ch13_usb/uac_ctrl.c:40-42 | a device on which the loudest volume is sent as the softest |
| Volume.AboveMaximumIsRoundedTwice | ldd3/ch13_usb/uacctl.c:193-194 | a family of raw values above the maximum for which tool and driver end at opposite ends |

## Left out

- Module setup and teardown, registration with the kernel, sysfs, proc and debugfs, logging: call order only.
- Asynchronous notification of the pipe.
- Discards without segments, passthrough requests and reuse of a tag after a timeout in rbull.
- RbullStore.RbullDev.Transfer: segment buffers are values, so aliasing between a request's pages and the store is not captured; timeouts are in RbullProtocol only.
- ScullStore.SharedStorage: positions and sizes are unbounded; the truncation of large offsets to `int` is not modelled.
- ScullDevice.ScullDev.Write: requires positive sizes, since the code divides by both; what it does with negative ones is not modelled; each file operation is one atomic step, although the sizes are sampled before the semaphore is taken.
- ScullDevice.ScullDev.FindItem: the linked list is a sequence of nodes; sharing of nodes between devices cannot be expressed.
- NetQueue.QVector.Poll: no other user of the queue in between; interleaving is in NetProtocol.
- NetSolo.OnePacketThrough: one packet on an idle queue, nobody else moving; what every interleaving keeps is in NetProtocol.
- PipeCalls.ReadCompletes: the call runs undisturbed; what each of its sections does under interleaving is PipeCalls.EverySection.
- The error counters of the transmit watchdog, checksum flags, and byte counters over interleaved runs.
- ScatterDma.Host.DoSgDma: the count given to the unmap call, which is the mapped count and not the one that was mapped; what a late transfer does after the timeout.
- Power management, error recovery, interrupt rings and the page fault walks of the EDU drivers.
- scullpriv, and the copies of the scull core with other allocators: the same logic again.
- Decibel and percent arguments in floating point; step sizes of zero or less in the audio driver.
- Overflow of open counts and of the statistics counters.
