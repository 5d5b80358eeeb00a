# Verified models of the `ldd` example drivers

Dafny models of eight pieces of driver code under `ldd/`, with proofs of what each promises
its users. The code that changes device structures is modelled by classes with the same
fields and by methods with the same branches and loops; each is proved against functions on
values (a ring, a sparse store, the packet lists), and what those promise is proved as
lemmas. Concurrent drivers also have a state machine in which every unlocked load, every
sleep and every wake-up is a step of its own, with theorems about all runs of it. Check with
`dafny verify dfyconfig.toml`.

| files | subject |
|---|---|
| `ScullPipe.dfy`, `ScullPipeProtocol.dfy` | the pipe device: a ring, and any number of processes that read, write, poll, sleep and wake each other |
| `ShortprintRing.dfy`, `ShortprintEngine.dfy`, `ShortprintSteps.dfy`, `ShortprintRuns.dfy`, `ShortprintWitnesses.dfy`, `ShortprintDevice.dfy` | the printer driver: arithmetic of the page, the engine of writer, work function, interrupt, timer and closing processes, what each step does in terms of the byte stream, what holds over its runs, runs that go wrong, and its routines |
| `QuantumList.dfy`, `SparseStore.dfy`, `ScullDevice.dfy`, `ScullHistory.dfy` | the scull memory device: the linked list in kernel memory, the sparse byte store it stands for, the driver's operations, and whole runs as its users see them |
| `ScullpDevice.dfy` | the page-based store and its memory mappings, on the same list |
| `SnullLists.dfy`, `SnullAccounts.dfy`, `SnullBooks.dfy`, `Snull.dfy`, `SnullRuns.dfy` | the two network interfaces: packets on intrusive lists, what is owed to a receiver, the state the operations are specified on, the driver, and its runs |
| `BlockingOpen.dfy`, `SingleOpen.dfy` | admission to the access-controlled scull devices |
| `ShortText.dfy`, `ShortHalves.dfy`, `ShortDevice.dfy` | the interrupt device: text records in a ring, top and bottom halves against the unsplit handler |
| `Common.dfy` | bytes, quotients, a spare address |

Kernel memory is explicit where a driver allocates: a map from addresses to cells, in which
reading a freed cell is undefined (and so has to be proved impossible) and in which a cell
the device has lost would still be present. Allocation may fail at any call, copies to and
from user space may fault at any byte.

## What the proofs found

The code was modelled as it is. Where a natural claim about it is false, a lemma or method
shows a run or a state in which it fails, and a theorem or contract says when it holds.

- The pipe is a lossless FIFO with no lost wake-ups while it stays open, but every further
  open resets both pointers: the stream survives an open if and only if the pipe is empty
  (`OpenKeepsStreamIffEmpty`). With `scull_p_buffer` 1, whoever falls asleep in it sleeps
  until a signal (`OneByteBufferIsDead`), and a reader and a writer can both do so
  (`OneByteBufferDeadlocks`); from 2 on they cannot without a wake-up to come (`NoDeadlock`).
- `shortp_out_space` loads the tail twice without the lock. That is always safe for the
  data, and a writer that goes to sleep is always woken before the ring empties, except in
  one case: head on the first byte of the page, first load on the last byte, second load on
  the first (`LostEvaluation`). `SleepingWriterHasLittleSpace` proves it is the only case,
  `EvaluationCanBeLost` that it is reached, for every page and all bytes written, and
  `LostWriterSleepsOn` that the writer then sleeps until a signal.
- The comment that the timer is active when output is holds in neither direction.
  The timer is armed with output inactive by a timeout handler that tested the flag early
  (`TimerCanOutliveOutput`), and by a work function left over from the previous output that
  finds a byte before its writer has started the output (`TimerCanPrecedeOutput`); output
  goes on without a timer after a timeout that is taken for a missed interrupt
  (`OutputCanLackTimer`). `TimerFollowsOutput` says exactly when each direction holds
  throughout a run. What drives active output is in `OutputIsNeverStranded`.
- `scull_read` never changes the device. `scullp_read` lets a position equal to the size
  through, and lengthens the list exactly when the size ends on the last item, which
  happens (`ReadLengthensList`).
- A write that faults halfway leaves the copied bytes in place without moving the size, and
  whatever the faulting copy puts in the rest of its range.
- `snull_open` starts the queue whatever the pool holds: flow control is right afterwards if
  and only if the pool is not empty, and it may be, either because allocation failed
  (`OpenWithEmptyPool`) or because all packets are on their way when the device is closed
  and opened again (`ReopenWithPacketsInFlight`). Over whole runs, flow control fails at
  such an open and nowhere else (`HandleEvent`, `Run`).
- Frames are not always handled in the order sent, because both ends of the receive queue
  are its head: a poll that finds two different frames waiting handles the newest first
  (`SecondIsHandledFirst`). It keeps the order if and only if it takes none or finds only
  frames alike (`PollKeepsOrder`).
- In the interrupt device, an interrupt that arrives while the bottom half is printing is
  printed at once and schedules the bottom half again, which then finds nothing pending and,
  testing only after the first record, prints stale time values (`StaleStampsCanBePrinted`).
  The split driver prints the right stamps if and only if that never happens
  (`SplitDriverPrintsEveryStamp`).
- A refused open of the single-open device can itself make a later open be refused although
  nobody has the device open (`RefusedThoughFree`); `OneHolder` says when an open succeeds.

## Model

| member | source | states |
|---|---|---|
| `ScullPipe.SpaceFreeCountsSlots` | ldd/scull/pipe.c:181-186 | the modular expression is the number of free slots less the one always left free; the pointers are equal exactly when nothing is stored |
| `ScullPipe.PutAppends` | ldd/scull/pipe.c:202-215 | storing what a write may store, wrapped or not, appends it to the stream |
| `ScullPipe.TakeDropsOldest` | ldd/scull/pipe.c:137-148 | what a read may take is the front of the stream, and the rest stays |
| `ScullPipe.RoomIsPositive` | ldd/scull/pipe.c:138-141 | a read that does not wait has a byte to take, a write that does not wait has room for one |
| `ScullPipe.Pipe.Open` | ldd/scull/pipe.c:61-90 | counters, allocation on first open only, error path, and the reset of the pointers that empties the stream |
| `ScullPipe.OpenKeepsStreamIffEmpty` | ldd/scull/pipe.c:78-80 | an open leaves the stream as it was if and only if the pipe was empty |
| `ScullPipe.Pipe.Release` | ldd/scull/pipe.c:94-111 | the buffer goes exactly with the last reader and writer |
| `ScullPipe.Pipe.SpaceFree` | ldd/scull/pipe.c:181-186 | the result counts the free slots |
| `ScullPipe.Pipe.Read` | ldd/scull/pipe.c:126-149 | waits exactly if nothing is stored; otherwise delivers the front of the stream: all it was asked for, all there is, or up to the end of the buffer; a fault delivers nothing and loses nothing |
| `ScullPipe.Pipe.Write` | ldd/scull/pipe.c:198-216 | waits exactly if full; otherwise appends a prefix of the data: all of it, as much as fills the ring, or up to the end of the buffer; a fault changes no stored byte |
| `ScullPipeProtocol.StepKeepsInv` | ldd/scull/pipe.c:118-247 | every step of any process keeps the FIFO equation and the no-lost-wake-up property |
| `ScullPipeProtocol.ReadDelivers` | ldd/scull/pipe.c:137-149 | the section of a read with something to read delivers the front of the stream: all it was asked for, all there is, or up to the end of the buffer, and at least a byte if one was asked for |
| `ScullPipeProtocol.WriteAccepts` | ldd/scull/pipe.c:202-216 | the section of a write with room appends a prefix of its data: all of it, as much as fills the ring, or up to the end of the buffer, and at least a byte if there is one |
| `ScullPipeProtocol.SectionWaits` | ldd/scull/pipe.c:126-131 | on an empty (full) pipe a read (write) changes nothing and goes on to wait, or returns if it asked not to wait |
| `ScullPipeProtocol.PollSection` | ldd/scull/pipe.c:228-247 | a poll returns exactly if something it asked for is there, and sleeps on the queues otherwise |
| `ScullPipeProtocol.ReadStep` | ldd/scull/pipe.c:126-149 | `Pipe.Read` takes the machine's step: same ring, same bytes delivered, waiting where the machine waits |
| `ScullPipeProtocol.WriteStep` | ldd/scull/pipe.c:198-216 | `Pipe.Write` takes the machine's step: same ring, same bytes accepted, waiting where the machine waits |
| `ScullPipeProtocol.ReaderSleepsOnEmpty` | ldd/scull/pipe.c:131 | undisturbed, the test without the semaphore sends a reader to sleep exactly on an empty pipe |
| `ScullPipeProtocol.WriterSleepsOnFull` | ldd/scull/pipe.c:169-170 | undisturbed, it sends a writer to sleep exactly on a full pipe |
| `ScullPipeProtocol.NonblockingNeverWaits` | ldd/scull/pipe.c:128-129 | over every run, a read or write that asked not to wait is never on its way to sleep |
| `ScullPipeProtocol.OnlySleepersStandStill` | ldd/scull/pipe.c:118-247 | every process has a step to take unless it is asleep and not woken |
| `ScullPipeProtocol.PipeIsFifo` | ldd/scull/pipe.c:118-226 | over every run, bytes delivered followed by bytes stored are the bytes accepted, and a full ring is never taken for an empty one |
| `ScullPipeProtocol.SleepersAreNotStranded` | ldd/scull/pipe.c:126-152 | a process that stays asleep for reading (writing) faces an empty (full) pipe, or a writer (reader) has its wake-up still to issue |
| `ScullPipeProtocol.NoDeadlock` | ldd/scull/pipe.c:159-178 | with a buffer of two or more, a sleeping reader and a sleeping writer imply a process about to issue a wake-up |
| `ScullPipeProtocol.AgainMeansFull` | ldd/scull/pipe.c:181-186 | a free space of 0 from the second pair of loads means a full ring |
| `ScullPipeProtocol.OneByteBufferIsDead` | ldd/scull/pipe.c:159-186 | with a buffer of one, no run accepts a byte or wakes anybody; a sleeper sleeps until a signal |
| `ScullPipeProtocol.OneByteBufferDeadlocks` | ldd/scull/pipe.c:181-186 | with a buffer of one, a run that ends with a reader and a writer in that sleep and nobody else |
| `ShortprintRing.SpaceIsSafe` | ldd/shortprint/shortprint.c:119-126 | whatever the tail does between its two loads and after them, a positive space stays clear of unsent bytes and of the page end |
| `ShortprintRing.SpaceIsExact` | ldd/shortprint/shortprint.c:119-126 | with the tail at rest, the space is all but one of the free slots up to the page end |
| `ShortprintRing.NoSpaceMeans` | ldd/shortprint/shortprint.c:288-293 | what a writer that finds no space knows: a full ring, and an empty one in the lost evaluation only |
| `ShortprintRing.FreeFigureIs` | ldd/shortprint/shortprint.c:345-348 | the figure of the wake test counts free slots, except that it is 0 for an empty ring |
| `ShortprintRing.IncrIsModular` | ldd/shortprint/shortprint.c:128-134 | the pointer increment is addition modulo the page |
| `ShortprintRing.FreeSlotsAreUnsent` | ldd/shortprint/shortprint.c:298-302 | no slot a safe writer fills holds an unsent byte |
| `ShortprintRing.WindowGrows` | ldd/shortprint/shortprint.c:298-302 | a chunk in place and the head moved past it extend the stream in the page |
| `ShortprintEngine.SleepIsJustified` | ldd/shortprint/shortprint.c:288-293 | a writer that gives up on the queue faces a ring at least half full, or a work function about to test for waking it, or has lost its evaluation |
| `ShortprintEngine.StepKeepsInv` | ldd/shortprint/shortprint.c:162-400 | every step of writer, worker, handlers and closing processes keeps ring, copying, driving and waiting invariants |
| `ShortprintSteps.EvaluationStep` | ldd/shortprint/shortprint.c:288-297 | with the tail at rest, the writer copies as much as its call has left, the ring has room for and the page allows, and waits exactly on a full ring |
| `ShortprintSteps.AdvanceStep` | ldd/shortprint/shortprint.c:302-304 | the advance of the head accepts the next bytes of the call, at least one |
| `ShortprintSteps.CheckStep` | ldd/shortprint/shortprint.c:306-311 | afterwards output is active, with timer and work if it was not; the call ends exactly when all of it is written |
| `ShortprintSteps.DecideStep` | ldd/shortprint/shortprint.c:335-343 | the work function stops output, deletes the timer and wakes the closers exactly if every accepted byte is out, and else emits the next accepted byte |
| `ShortprintSteps.WakeStep` | ldd/shortprint/shortprint.c:345-348 | it wakes the writer exactly if the ring holds something and less than half a page |
| `ShortprintSteps.InactiveHandlersDoNothing` | ldd/shortprint/shortprint.c:365-385 | with output inactive, neither an interrupt nor a timeout queues work or arms the timer |
| `ShortprintSteps.InterruptQueuesWork` | ldd/shortprint/shortprint.c:363-372 | with output active, an interrupt queues the work and does nothing else |
| `ShortprintSteps.TimeoutGoesOn` | ldd/shortprint/shortprint.c:386-399 | with output active, a timeout arms the timer again or goes on as a missed interrupt |
| `ShortprintSteps.CloseStepSleeps` | ldd/shortprint/shortprint.c:162-168 | a release sleeps exactly on active output |
| `ShortprintSteps.WriterCanMove` | ldd/shortprint/shortprint.c:271-317 | the writer has a step to take unless it is asleep and not woken, or waits for the lock |
| `ShortprintSteps.WorkerCanMove` | ldd/shortprint/shortprint.c:325-357 | the work function has a step to take once begun, and begins when it is queued |
| `ShortprintSteps.EverythingWrittenComesOut` | ldd/shortprint/shortprint.c:271-349 | over every run in which no write is cut short by a fault or a signal, the bytes emitted are a prefix of all bytes written, in order, and all of them once output has stopped with no write in progress |
| `ShortprintRuns.BytesComeOutInOrder` | ldd/shortprint/shortprint.c:231-312 | over every run the bytes strobed out are a prefix of the write calls' bytes, call after call, less than a page behind |
| `ShortprintRuns.CopyNeverHitsUnsentByte` | ldd/shortprint/shortprint.c:298-302 | a writer copying on a stale space value never touches a slot in use |
| `ShortprintRuns.OutputIsNeverStranded` | ldd/shortprint/shortprint.c:253-265 | output idle on a non-empty ring only while a writer is about to take the lock; output active only while work, timer or a timeout handler will act; closers sleep only on active output |
| `ShortprintRuns.ReleaseSeesEveryByteOut` | ldd/shortprint/shortprint.c:162-168 | a release that goes through with no write in progress has seen every accepted byte emitted |
| `ShortprintRuns.SleepingWriterHasLittleSpace` | ldd/shortprint/shortprint.c:345-348 | a sleeping, unwoken writer has a free figure from 1 to half a page, or a wake test coming that will succeed, if and only if its evaluation was not the lost one |
| `ShortprintRuns.SleepingWriterIsServed` | ldd/shortprint/shortprint.c:288-293 | with both loads equal, the ring such a writer waits for is non-empty and being emptied |
| `ShortprintRuns.LostWriterSleepsOn` | ldd/shortprint/shortprint.c:288-293 | a writer asleep and unwoken on an empty ring stays so through any run without a signal |
| `ShortprintRuns.TimerFollowsOutput` | ldd/shortprint/shortprint.c:145-148 | the timer is confined to active output throughout a run if and only if no timeout handler and no left-over work function arms it on inactive output; output has its timer throughout if and only if the timer never fires on active output |
| `ShortprintRuns.LeftOverWorkMeetsWriter` | ldd/shortprint/shortprint.c:333-343 | the left-over work function does so only between a writer's advance of the head and its start of the output |
| `ShortprintWitnesses.EvaluationCanBeLost` | ldd/shortprint/shortprint.c:119-126 | for every page and initial contents and all bytes of a write of a page and a byte, a run that leaves the writer asleep and unwoken on an empty ring |
| `ShortprintWitnesses.TimerCanOutliveOutput` | ldd/shortprint/shortprint.c:384-392 | for every page, a run that leaves the timer armed after output has stopped |
| `ShortprintWitnesses.TimerCanPrecedeOutput` | ldd/shortprint/shortprint.c:336-343 | for every page, a run in which the timer is armed before output is started |
| `ShortprintWitnesses.OutputCanLackTimer` | ldd/shortprint/shortprint.c:397-399 | for every page, a run that leaves output active with no timer and no handler under way |
| `ShortprintDevice.Printer.OutSpace` | ldd/shortprint/shortprint.c:119-126 | the branches compute the free contiguous slots |
| `ShortprintDevice.Printer.DoWrite` | ldd/shortprint/shortprint.c:231-247 | strobes out the oldest unsent byte and nothing else |
| `ShortprintDevice.Printer.StartOutput` | ldd/shortprint/shortprint.c:253-265 | arms timer and work unless already active |
| `ShortprintDevice.Printer.DoWork` | ldd/shortprint/shortprint.c:333-349 | stops output exactly on an empty ring, else sends one byte; wakes writers exactly when the ring is non-empty and less than half full |
| `ShortprintDevice.Printer.AwaitSpace` | ldd/shortprint/shortprint.c:288-293 | no wait if there is space; else the work function runs until just over half the page is free, or as often as a signal allows |
| `ShortprintDevice.Printer.WriteChunk` | ldd/shortprint/shortprint.c:286-311 | a chunk is stored without waiting unless the ring is full, and is as long as the data left, the room and the page allow |
| `ShortprintDevice.Printer.Interrupt` | ldd/shortprint/shortprint.c:363-372 | handled, and work queued, exactly if output is active |
| `ShortprintDevice.Printer.Timeout` | ldd/shortprint/shortprint.c:379-400 | on active output, arms the timer again for a busy printer and queues the work for another; on inactive output, nothing |
| `ShortprintDevice.Printer.Write` | ldd/shortprint/shortprint.c:271-317 | the bytes taken are appended to the stream, contiguous and in order; less than all is reported only on a full ring whose wait was interrupted; a byte that cannot be read is reported in place of a count, and exactly if it is reached |
| `SparseStore.Decompose` | ldd/scull/main.c:309-312 | item, slot and offset recompose to the position |
| `SparseStore.DecompositionIsUnique` | ldd/scull/main.c:309-312 | and no other item, slot and offset do |
| `SparseStore.DigitsByQuanta` | ldd/scullp/mmap.c:77-81 | counting in pages first finds the same place |
| `SparseStore.WriteChangesOnlyItsRange` | ldd/scull/main.c:349-382 | a write sets its bytes up to the quantum end, keeps every other stored byte, and raises the size to its end |
| `SparseStore.ReachStops` | ldd/scull/main.c:369-371 | one write gets all the way or exactly to the end of the quantum, never past it |
| `SparseStore.ReadStops` | ldd/scull/main.c:304-322 | one read of a stored byte gets all the way, to the end of the file or exactly to the end of the quantum, never past it |
| `SparseStore.ReadReturnsTheBytes` | ldd/scull/main.c:304-329 | a read returns the stored bytes, none past the size, and nothing only at end of file, in a hole or for a count of 0 |
| `SparseStore.WriteLoopTerminates` | ldd/scull/main.c:369-378 | short writes in a loop get to the end of any buffer |
| `SparseStore.WriteThenReadReturnsBuffer` | ldd/scull/main.c:292-387 | looping writes then looping reads return the buffer, and every byte stored elsewhere is unchanged |
| `QuantumList.WalkFindsItem` | ldd/scull/main.c:275-285 | following `next` n times from an item reaches the n-th after it |
| `QuantumList.EveryCellIsInReach` | ldd/scull/main.c:63-84 | every allocated cell is an item of the chain, its table, or a quantum in that table |
| `ScullDevice.Device.Follow` | ldd/scull/main.c:262-286 | returns the n-th item, extending the list as needed; NULL exactly if fewer allocations succeed than items are missing; stored bytes unchanged either way |
| `ScullDevice.Device.Provide` | ldd/scull/main.c:358-368 | table and quantum of a slot, allocated where missing; NULL exactly if fewer allocations succeed than are missing, and never with two; a failure changes no stored byte |
| `ScullDevice.Device.MissingIs` | ldd/scull/main.c:262-286 | what a write has to allocate: nothing for a byte stored, else a quantum, a table if the item has none, and the items up to it |
| `ScullDevice.Device.Write` | ldd/scull/main.c:336-387 | stores all of the data or exactly up to the end of the quantum; out of memory exactly if fewer allocations succeed than items, table and quantum are missing, and then no effect at all; at a fault, the bytes copied and anything in the rest of the range |
| `ScullDevice.Device.Read` | ldd/scull/main.c:292-334 | returns the bytes stored, all asked for or up to the end of the file or of the quantum, and leaves memory and list untouched |
| `ScullDevice.Device.Trim` | ldd/scull/main.c:63-84 | frees every cell, none twice, and touches none after freeing it |
| `ScullHistory.Run` | ldd/scull/main.c:292-387 | the replies of any run of writes, reads and trims, with failures anywhere, are those of a map from positions to bytes |
| `ScullHistory.ReadsSeeTheLastWrite` | ldd/scull/main.c:292-387 | in such a history a read returns the byte of the last write at its position, provided no trim came between, and does not return nothing where one was written |
| `ScullHistory.Perform` | ldd/scull/main.c:292-387 | one operation's reply is allowed by what its users know, and the store agrees with what they know then |
| `ScullHistory.FaultAgrees` | ldd/scull/main.c:373-376 | a write that faults leaves its users sure of the bytes before the fault and of none after it in the range asked for |
| `ScullHistory.WriteAgrees` | ldd/scull/main.c:369-382 | a write does to the users' map what it does to the store |
| `ScullHistory.ReadAgrees` | ldd/scull/main.c:304-329 | a read's reply follows from the users' map wherever that has bytes |
| `ScullHistory.RoundTrip` | ldd/scull/main.c:292-387 | a buffer written by short writes and read back by short reads through the device is the same, and all bytes stored elsewhere are kept; it succeeds over stored bytes, and wherever enough allocations succeed |
| `ScullHistory.WriteAll` | ldd/scull/main.c:336-387 | the loop of short writes lays exactly its buffer over the stored bytes |
| `ScullHistory.ReadBack` | ldd/scull/main.c:292-334 | the loop of short reads returns the bytes stored |
| `ScullpDevice.Device.Follow` | ldd/scullp/main.c:151-162 | returns the n-th item, extending the list exactly up to it |
| `ScullpDevice.Device.Write` | ldd/scullp/main.c:216-268 | stores all of the data or exactly up to the end of the page; the rest of a page allocated for it reads as zeros; out of memory exactly if fewer allocations succeed than are missing; faults as in scull; no page moves; the list grows exactly up to the item |
| `ScullpDevice.Device.Read` | ldd/scullp/main.c:168-212 | returns the bytes stored, all asked for or up to the end of the file or of the page; lengthens the list exactly if the position is the size and the end of the list, by one item |
| `ScullpDevice.Device.Walk` | ldd/scullp/mmap.c:78-81 | stepping over whole items divides the page number by the table length |
| `ScullpDevice.Device.NoPage` | ldd/scullp/mmap.c:60-93 | below the size, the page read finds by division, and SIGBUS exactly where read finds a hole |
| `ScullpDevice.Device.VmaOpen` | ldd/scullp/mmap.c:33-38 | one more live mapping, counted |
| `ScullpDevice.Device.VmaClose` | ldd/scullp/mmap.c:40-45 | one live mapping less, counted |
| `ScullpDevice.Device.Trim` | ldd/scullp/main.c:482-510 | refused exactly while mappings live; otherwise frees all but the device structure, nothing twice |
| `ScullpDevice.Device.Provide` | ldd/scullp/main.c:237-250 | table and page of a slot, allocated where missing; NULL exactly if fewer allocations succeed than are missing |
| `ScullpDevice.FreshIsZero` | ldd/scullp/main.c:244-250 | around the bytes written, a page allocated for a write reads as zeros |
| `ScullpDevice.Device.MissingIs` | ldd/scullp/main.c:237-250 | what a write has to allocate that may fail: nothing for a byte stored, else a page, and a table if the item has none |
| `ScullpDevice.ReadLengthensList` | ldd/scullp/main.c:181-191 | for every page size and table length, a read at the end of a device whose size ends on its only item returns nothing and leaves two items |
| `ScullpDevice.RunWhileMapped` | ldd/scullp/main.c:482-489 | while a mapping lives, no run of operations frees or replaces any page |
| `ScullpDevice.Perform` | ldd/scullp/main.c:122-141 | one operation keeps the count of mappings, and every page if there are any |
| `SnullLists.PushConserves` | ldd/snull/snull.c:150-172 | a packet in hand put on a list its owner allows: no packet lost, shared or on two lists |
| `SnullLists.PopConserves` | ldd/snull/snull.c:174-186 | the head taken off a list was on no other and is now in hand |
| `SnullLists.PacketsArePartitioned` | ldd/snull/snull.c:98-186 | a device's packets are those in its pool, in the peer's receive queue and in hand, disjoint, none twice |
| `Snull.Pair.SetupPool` | ldd/snull/snull.c:98-115 | the pool holds as many packets as could be had |
| `Snull.Pair.Open` | ldd/snull/snull.c:202-216 | flow control is right afterwards if and only if the pool is not empty |
| `Snull.Pair.Stop` | ldd/snull/snull.c:218-224 | the queue is stopped and nothing else changes |
| `Snull.Pair.GetTxBuffer` | ldd/snull/snull.c:132-147 | the head of the pool, owned by the device; the queue stops exactly with the last one |
| `Snull.Pair.ReleaseBuffer` | ldd/snull/snull.c:150-161 | back to its owner's pool; the queue restarts exactly if the pool was empty |
| `Snull.Pair.EnqueueBuf` | ldd/snull/snull.c:163-172 | onto the peer's receive queue, conserving all lists |
| `Snull.Pair.DequeueBuf` | ldd/snull/snull.c:174-186 | NULL exactly on an empty queue, else its head, owned by the peer |
| `Snull.Pair.RegularInterrupt` | ldd/snull/snull.c:333-376 | status cleared, counters, and the head of the queue handled and given back |
| `Snull.Pair.NapiInterrupt` | ldd/snull/snull.c:381-418 | status cleared, receive interrupts off and a poll scheduled |
| `Snull.Pair.HwTx` | ldd/snull/snull.c:425-504 | the frame crosses, the receiver is interrupted if it wants to be, then the sender |
| `Snull.Pair.Tx` | ldd/snull/snull.c:509-532 | one frame is sent: the payload, followed by zeros up to 60 bytes; without NAPI it is handled at once, delivered or dropped as buffers allow, with NAPI it waits with a poll due; only the receiver changes, and flow control and all accounts are kept |
| `Snull.Pair.Poll` | ldd/snull/snull.c:287-327 | takes frames newest first, delivers exactly those that find a buffer, no more than budget and quota, asks for more exactly if frames remain, and ends even if no buffer can be had |
| `SnullAccounts.ReceptionKeepsAccounts` | ldd/snull/snull.c:253-281 | a frame's arrival keeps: every frame waiting or handled once, counters exact, in-order without NAPI, poll due with it |
| `SnullAccounts.HandlingKeepsAccounts` | ldd/snull/snull.c:294-316 | so does one turn of the polling loop |
| `SnullBooks.TransmissionSides` | ldd/snull/snull.c:481-504 | a whole transmission is one arrival at the receiver and nothing else, and keeps flow control on both sides |
| `SnullBooks.TakeKeepsFlow` | ldd/snull/snull.c:155-160 | a packet given back leaves a queue stopped exactly if its pool is empty |
| `SnullBooks.SendKeepsFlow` | ldd/snull/snull.c:138-145 | so does a packet taken |
| `SnullBooks.AccountsAreExact` | ldd/snull/snull.c:253-327 | without NAPI all frames sent are handled in order and none waits; with NAPI frames wait only with interrupts off and a poll due; received, dropped and queued add up to sent |
| `SnullLists.PacketsAddUp` | ldd/snull/snull.c:98-186 | the pool and the peer's receive queue together hold as many packets as the device owns |
| `SnullAccounts.SendingKeepsOrder` | ldd/snull/snull.c:163-172 | a frame sent leaves the frames handled and waiting in the order sent exactly if they were |
| `SnullAccounts.HandlingKeepsOrder` | ldd/snull/snull.c:294-316 | handling the newest frame keeps that order exactly if no different frame waits |
| `SnullAccounts.PollKeepsOrder` | ldd/snull/snull.c:287-327 | a poll keeps it throughout if and only if it takes no frame or all frames waiting are alike |
| `SnullRuns.SecondIsHandledFirst` | ldd/snull/snull.c:163-172 | for any two frames that differ, a run of a polled device that handles the second first |
| `SnullRuns.Run` | ldd/snull/snull.c:202-532 | over every run of opens, closes, transmissions and polls, the frames put on each receive queue are the accepted ones in order, no packet is lost, and flow control is right on every open device up to the first open with an empty pool |
| `SnullRuns.HandleEvent` | ldd/snull/snull.c:202-532 | a transmission is accepted exactly if the device is up and its pool holds a packet; flow control stays right exactly unless a device is opened with an empty pool |
| `SnullRuns.OpenWithEmptyPool` | ldd/snull/snull.c:105-110 | a device opened after its pool came out empty has a started queue that should be stopped |
| `SnullRuns.ReopenWithPacketsInFlight` | ldd/snull/snull.c:202-224 | so has a device closed and opened again while its packets are on the peer's receive queue |
| `BlockingOpen.Device.TryOpen` | ldd/scull/access.c:175-187 | admitted exactly if free, owned by uid or euid, or privileged; the first opener becomes owner |
| `BlockingOpen.Device.Release` | ldd/scull/access.c:195-207 | one open less; the waiters are woken exactly by the last |
| `BlockingOpen.Admission` | ldd/scull/access.c:175-187 | the locked section of an open takes the machine's step, and succeeds exactly if the step opens |
| `BlockingOpen.Departure` | ldd/scull/access.c:195-207 | so does the locked section of a release |
| `BlockingOpen.StepKeepsInv` | ldd/scull/access.c:171-207 | every step keeps count, admission and the truth of what unwoken waiters have seen |
| `BlockingOpen.AccessIsExclusive` | ldd/scull/access.c:162-207 | over every run the count is the number of holders, each of the owner's uid, with the owner as effective uid, or privileged; a sleeper that is not woken is none of these with the device open, or a wake-up is pending |
| `BlockingOpen.UnlockedTestIsExact` | ldd/scull/access.c:162-168 | undisturbed, the test made without the lock sends to sleep exactly those who would not be admitted |
| `BlockingOpen.NonblockingNeverWaits` | ldd/scull/access.c:178 | over every run, an open that asked not to wait is never on its way to sleep |
| `BlockingOpen.OnlySleepersStandStill` | ldd/scull/access.c:171-207 | every process has a step to take unless it is asleep and not woken |
| `BlockingOpen.OwnerIsFixedWhileOpen` | ldd/scull/access.c:184-186 | the owner changes in a run only by way of a state with nobody holding the device |
| `SingleOpen.OneHolder` | ldd/scull/access.c:52-72 | at most one holder; an open succeeds exactly if no process holds the device or is being refused |
| `SingleOpen.RefusedThoughFree` | ldd/scull/access.c:56-59 | a run after which an open is refused with nobody holding the device |
| `ShortText.ResetIsModular` | ldd/short/short.c:96-101 | resetting an index to the page base is addition modulo the page, for aligned records and for reads |
| `ShortText.PutAppends` | ldd/short/short.c:344-347 | a record is appended to the unread text exactly if it leaves a byte of the page free |
| `ShortText.TakeDropsOldest` | ldd/short/short.c:294-302 | a read takes the oldest unread text |
| `ShortText.PushAppends` | ldd/short/short.c:413-418 | a time value is appended to the pending ones exactly while fewer than 511 are pending |
| `ShortText.PopDropsOldest` | ldd/short/short.c:401-407 | the loop prints the pending times, or a full turn of the array if there are none |
| `ShortText.StampReadsBack` | ldd/short/short.c:344-346 | the record gives back seconds and microseconds, and is digits but for the point and the newline |
| `ShortText.HeaderReadsBack` | ldd/short/short.c:393 | the header gives back the number of interrupts after its fixed text, and ends in a newline |
| `ShortHalves.WholeDriverPrintsEveryStamp` | ldd/short/short.c:336-350 | the unsplit handler's text is the stamps of all interrupts in order |
| `ShortHalves.SplitDriverPrintsEveryStamp` | ldd/short/short.c:382-424 | the split driver's text without headers, with the pending stamps, is that too if and only if the loop never prints with nothing pending |
| `ShortHalves.HalvesMatchWhole` | ldd/short/short.c:352-438 | with no interrupt during a bottom half, both drivers print the same stamps, every header counts the stamps after it, and nothing stays pending unscheduled |
| `ShortHalves.InterruptsAreHandled` | ldd/short/short.c:413-438 | the interrupts accounted for are those of the run, in order |
| `ShortHalves.DriverCanMove` | ldd/short/short.c:336-438 | with room for a record and for a time, handlers and bottom half have a step to take |
| `ShortHalves.StaleStampsCanBePrinted` | ldd/short/short.c:401-407 | a run in which an interrupt during a bottom half makes the next one print a stale stamp |
| `ShortDevice.Short.Interrupt` | ldd/short/short.c:336-350 | one stamp record at the head |
| `ShortDevice.Short.Read` | ldd/short/short.c:281-304 | waits exactly if nothing is unread; else the oldest unread text: all it was asked for, all there is, or up to the page end; a fault loses nothing |
| `ShortDevice.Short.TopHalf` | ldd/short/short.c:413-438 | one more pending time, counted, and the bottom half scheduled |
| `ShortDevice.Short.BottomHalf` | ldd/short/short.c:382-411 | a header with the count, then the stamps of the lap, and nothing pending |
| `ShortDevice.BottomHalfAppends` | ldd/short/short.c:393-407 | with room in the page, that text follows the unread text |

## Left out

- Everything in `apue/` and `os-lab/`, module set-up, registration, `/proc` output, `ioctl` and `llseek`: plumbing or one-branch facts.
- `ldd/scullc`, `ldd/sculld`, `ldd/scullv`: near copies of scullp; `ldd/sbull`: its meaning rests on the block layer, which is not part of this model.
- scull and scullp operations are atomic: `quantum` and `qset` are read before the semaphore is taken, and a change in between is not modelled. Their product does not overflow.
- ScullPipeProtocol: one open pipe with `scull_p_buffer` unchanged; asynchronous notification is left out. `wait_event_interruptible` may retest and be interrupted at any time.
- ShortprintEngine: one writer at a time, as the semaphore ensures; the read side of shortprint, port signals and `udelay` are left out; that `add_timer` on a pending timer is an error is not modelled, only that it comes to that.
- ShortprintDevice.Printer.Write: the work function runs where the writer waits and before it copies; that it may also run between the copy and the start of the output is in ShortprintEngine.
- ScullDevice.Device, ScullpDevice.Device: list nodes, tables and quanta live in an explicit memory map rather than in objects, because the point is what is freed and when.
- ScullpDevice.Device.Follow: `kmalloc` does not fail there; the source dereferences the result without a test.
- ScullpDevice.Device: `order` is 0, which `scullp_mmap` insists on; page reference counts are left out.
- Snull.Pair: the lockup simulation, the transmit timeout, the test for short packets, the header rewriting and checksum, and byte counters; a frame's bytes arrive as sent.
- Snull.Pair.RegularInterrupt: gives the packet back within the handler's one step, where the source does so after dropping its lock; whole transmissions are atomic.
- SnullRuns.Run: starts with nothing sent yet, and ends at an open with an empty pool, after which the source would take a packet from an empty pool.
- BlockingOpen: the trim after a write-only open, which does not take the device semaphore; scull_u uses the same admission test with an error in place of waiting; the per-terminal clones are left out.
- ShortText: the NUL byte `sprintf` puts after a record, and headers for a million interrupts or more, which are longer than a record; the shared-interrupt handler and probing.
- ShortHalves: reading the count and clearing it are one step; runs in which the reader lets the page overrun, or 511 times are pending, are excluded, and the exact bounds are in ShortText.
- ShortDevice.Short.BottomHalf: runs undisturbed; interrupts between its records are in ShortHalves.
- Fairness: progress is stated as what is always about to happen, not that it happens.
