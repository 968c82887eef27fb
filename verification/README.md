# RaftLib, modelled

RaftLib is a stream runtime. Kernels run on threads of their own and are joined by
lock-free, bounded FIFOs that a monitor thread may resize while they are in use. This
project models the four parts its correctness rests on, and proves what they promise.

## The parts

**The shared FIFO** (`SharedFifo`, `SharedFifoInvariant`, `SharedFifoTheorems`,
`FifoCalls`, `FifoRuns`, `FifoWitnesses`, `LostInvalidation`, `FlagLoss`). A transition system in which every
load and store another thread can notice is a step of its own: the four loads of `size()`, the index store and the wrap store
of `inc` and `incBy`, the store of an item and of its signal, raising and lowering an access
flag, the three all-clear loads of the resizer. Producer, consumer, resizer and any number of
threads that ask for the size interleave in every possible way. `ProdNext`, `ConsNext`,
`ResizeNext` and `NextSize` follow the bodies of `local_push`, `local_allocate`,
`local_allocate_n`, `send`, `send_range`, `local_pop`, `local_peek`, `local_peek_range`,
`local_recycle`, `unpeek`, `deallocate`, `size`, `invalidate`, `resize`, `enterBuffer` and
`exitBuffer` of the variant for inline items that are not classes. The invariant is kept by every
action (`SharedFifoInvariant.StepKeeps`), and the theorems are read off it. `FifoCalls` says what a whole
call has done when it returns, `FifoRuns` that it does return when nothing hinders it. `FlagLoss` is a small
machine of its own for the access flags in finer steps than the large one takes.

**The FIFO as one thread sees it** (`Positions`, `Pointers`, `RingBuffers`,
`InPlacePorts`). Classes over arrays, with the pointers updated in place; each call is proved
against the sequence of elements the buffer denotes. A call that would spin is one pass of its
loop and reports that it is blocked.

**The scheduler** (`Pipeline`, `PipelineScan`, `PipelineProgress`, `PipelineIntake`, `AllPortAbandons`, `StarvedRun`,
`FifoGc`). A transition system of any number of kernels, one FIFO query at a time, that follows
`kernelRun`, `kernelHasInputData`, `kernelHasNoInputPorts`, `invalidateOutputPorts` and
`simple_run`. What a kernel's own `run` does is given by arbitrary functions of the kernel and the
number of the run: how many items it waits for on each input, how many it takes at most, how many it
emits at most, and whether it returns `stop`. `FifoGc` is the merge that frees recycled items.

**Graph construction** (`Links`, `GraphTools`, `Allocation`, `Topology`, `Chains`,
`ChainLinks`, `ChainPlans`, `ChainFlags`, `Csr`, with `OrderedSets` and `Wrappers`). Linking, breadth-first traversal,
one FIFO for every edge, the expansion of splits, continuations and joins by cloning, and the
tables for the partitioner.

## Assumptions

- Memory is sequentially consistent, and the 64-bit wrap counters do not overflow (they are `nat`).
- In `SharedFifo`, `enterBuffer` loads the flag array and stores the flag in one step, and `copyFrom`
  and `set` are one step. The flags live in the buffer that is replaced, and the code takes finer
  steps: `FlagLoss` has them, shows two runs in which mutual exclusion fails (`SwapLosesFlag`,
  `CopyLosesFlag`), and proves exactly when it does (`BreaksIffLost`, `RaiseMissesIff`).
- A thread's load of an index that only it writes is merged with the store that follows it.
- A FIFO has one producer and one consumer. In `SharedFifo` the producer has one call in progress at a
  time, and an allocate is in progress until its send or deallocate; `RingBuffers` allows any order
  of calls. One thread resizes.
- A resize never asks for less than the old capacity; the monitor always doubles it.
- `Pipeline` takes a FIFO call as atomic, as `SharedFifoTheorems` justifies it, and an
  invalidation as effective at once. `InvalidateTakesEffectIff` says when that is so. A run takes its
  items before it emits any.
- `PipelineProgress` assumes an acyclic graph whose kernels have at most one input, wait for at least one
  item in a run, emit finitely many, and where exactly the sources return `stop` after finitely many
  runs. A pop on a closed, drained input throws in the source; here the kernel is starved and stays.
- `clone` makes a new kernel with the same ports and no links, and ports have distinct names.
- Map and set iteration is in key order; where no order is visible to the caller it is arbitrary.
- `ChainPlans.Add` starts from a list of pairs as the pair operators build it, with every join under an
  open split. `ChainLinks` also assumes that the user's own kernels in the chain are different, as
  `link` would refuse a port a second time.

## Where the code and its description differ

The model follows the code in each case.

- `invalidate` can be lost: it loads the buffer pointer and stores into that buffer without a flag,
  so a resize in between discards the store (`InvalidationCanBeLost`). The port stays open as long as
  all invalidates are lost (`PortOpenIffAllLost`), and the consumer then waits for good
  (`LostInvalidationHangs`). A kernel that returns `stop` invalidates a second time in the same pass
  if it has inputs and has drained them, which can still close the port (`SecondInvalidationCloses`);
  a source invalidates once.
- `send_range` puts its signal on the first element of the batch, not on the last, and stores it even if
  the batch is empty; on a full queue this overwrites the signal of the oldest item
  (`SignalOverwrittenIff`, `EmptyRangeOverwrites`).
- `send` and `send_range` do not check for room again: after a push has used it up they push the write
  position past the read position (`RingBuffers.RingBuffer.Send`).
- An element of a peek range carries the signal of another slot, or of none, unless the range starts at
  slot 0 (`PeekedItem`).
- The number of allocated slots is kept in 32 bits, so a range of 2^32 slots or more sends fewer than it
  reserved (`PushPublishesItsArgument`, `WideRangeSendsNothing`).
- The signal copy of a resize is as long as the size of an item says, not the size of a signal. Signals
  are claimed only for items that were not in the queue during a resize.
- `recycle` on a closed queue returns silently, where `pop` and `peek` throw.
- An `all_port` kernel finishes as soon as its inputs are invalid and one of them is empty; items on the others
  are abandoned (`ItemsAbandoned`). A kernel whose runs take equally many from each input leaves
  nothing behind exactly if all inputs were sent the same number (`AllPortDrainsIff`).
- A kernel whose run pops several items starves on a closed input that holds fewer
  (`PipelineStarves`, `CompleteIffDivides`).
- A null kernel queued for an unlinked port ends the edge traversal early (`NullKernelEndsWalk`); with
  linked ports this cannot happen (`ReachableIsConnected`).
- A join takes its group size from the split it closes, so nested splits of unequal fan-out need not come
  back to one kernel (`UnequalNesting`).
- `link` stores the buffer size as soon as it has found a port, so a call that is then refused changes the size of
  a link made before (`RefusedLinkResizes`); a link keeps its size if and as long as no later call names its
  source port with another (`FifoHasAskedSize`, `LinkGetsItsBuffer`).
- `updateKernels` records kernels before the ports are looked up, so a failing `link` still records them.
- The partitioner's tables number rows by position and ends by distance from the first vertex, so a gap in
  the ids changes the graph (`FaithfulIffContiguous`, `GapChangesGraph`).

## Model

| member | source | states |
|---|---|---|
| `Positions.Measure` | raftinc/ringbufferheap_abstract.tcc:54-97 | whatever the four loads return, a size computed from indices inside the ring lies between 0 and the capacity |
| `SharedFifoTheorems.ReachableInv` | raftinc/datamanager.tcc:80-173 | in every reachable state of producer, consumer, resizer and observers the full invariant of the FIFO holds |
| `SharedFifoTheorems.FifoOrder` | raftinc/ringbufferheap.tcc:270-371 | over every interleaving, resizes included, the items removed are a prefix of the items published; a pair with an intact signal is removed as published; never more unread items than slots |
| `SharedFifoTheorems.FifoOrderWithSignals` | raftinc/ringbufferheap.tcc:270-371 | in a run without resizes and empty ranges the removed (item, signal) pairs are a prefix of the published pairs |
| `SharedFifoTheorems.ProducerStoresIntoFreeSlots` | raftinc/ringbufferheap.tcc:293-318 | no store of an item by push or into an allocated slot hits a slot that holds an unread item |
| `SharedFifoTheorems.SignalOverwrittenIff` | raftinc/ringbufferheap.tcc:88-105 | the signal store of a producer call hits an unread item if and only if an empty range is sent on a full queue |
| `SharedFifoTheorems.ConsumerReadsPublished` | raftinc/ringbufferheap.tcc:357-371 | pop and peek read the oldest published, unread item, and its signal unless a resize or an empty range has overwritten it |
| `SharedFifoTheorems.PushPublishesItsArgument` | raftinc/ringbufferheap.tcc:293-318 | push publishes exactly its own item and signal; a sent range publishes in order the items its reserved slots hold, with no signal after the first, all of them iff there are fewer than 2^32 |
| `SharedFifoTheorems.SendSignalsItsFirst` | raftinc/ringbufferheap.tcc:88-105 | the first element of what send and send_range publish carries their signal |
| `SharedFifoTheorems.OnlyConsumerRemoves` | raftinc/ringbufferheap.tcc:327-371 | in any run without a step of the consumer nothing is removed |
| `FifoWitnesses.EmptyRangeOverwrites` | raftinc/ringbufferheap.tcc:88-105 | a reachable state in which an empty range is about to overwrite the signal of the only item of a full queue |
| `FifoWitnesses.WideRangeSendsNothing` | raftinc/ringbufferheap.tcc:252-254 | a reachable state in which a reserved and written range of 2^32 slots is sent and nothing is published |
| `FifoRuns.PushCompletes` | raftinc/ringbufferheap.tcc:270-318 | from a reachable state with room, no resize pending and the consumer not between its stores, the state with exactly that item appended is reachable |
| `FifoRuns.PopCompletes` | raftinc/ringbufferheap.tcc:327-371 | from a reachable state with items, no resize pending and the producer idle, the state with exactly the head removed is reachable |
| `FifoRuns.PeekCompletes` | raftinc/ringbufferheap.tcc:381-422 | from a reachable state with items, where nothing hinders the consumer, a peek reaches its return with a reference to the head slot and its signal |
| `FifoRuns.PeekRangeCompletes` | raftinc/ringbufferheap.tcc:424-471 | the same for peek_range(n) with at least n items: a reference to n slots from the read position |
| `FifoRuns.RecycleCompletes` | raftinc/ringbufferheap.tcc:120-155 | the same for recycle(n) with at least n items: n are removed |
| `FifoRuns.AllocateCompletes` | raftinc/ringbufferheap.tcc:166-196 | an allocate that finds room, with nothing else going on, reaches its return |
| `FifoRuns.DrainedReports` | raftinc/ringbufferheap.tcc:330-356 | on a closed queue with nothing left, pop, peek and peek_range reach the report of a closed port, and recycle returns |
| `FifoRuns.TooFewReports` | raftinc/ringbufferheap.tcc:424-458 | on a closed queue with some items but fewer than n, peek_range(n) reaches the report of no more data |
| `FifoCalls.PushReturns` | raftinc/ringbufferheap.tcc:270-318 | whatever the others do, a push returns only when it has published exactly one element, its own item and signal |
| `FifoCalls.ReservationReturns` | raftinc/ringbufferheap.tcc:166-256 | whatever the others do, allocate and allocate_range return only with room for all they were asked for, and publish nothing |
| `FifoCalls.SentIsWritten` | raftinc/ringbufferheap.tcc:198-256 | over every interleaving: a producer that holds a reservation, writes through its references in any order and sends publishes, as its j-th element, what it last wrote through reference j; the signal is on the first; a range sends n modulo 2^32 elements |
| `FifoCalls.DeallocatePublishesNothing` | raftinc/ringbufferheap.tcc:47-58 | an allocate that is given back publishes nothing |
| `FifoCalls.PopReturns` | raftinc/ringbufferheap.tcc:327-371 | whatever the others do, a pop returns only when it has removed exactly one item, the oldest |
| `FifoCalls.RecycleReturns` | raftinc/ringbufferheap.tcc:120-155 | whatever the others do, recycle(n) on an open queue returns only when it has removed n items; it removes fewer only if the queue is closed and drained |
| `FifoCalls.PeekHandsOut` | raftinc/ringbufferheap.tcc:373-471 | the step in which peek or peek_range(n) returns hands out a reference to exactly the first unread item with its signal, or to the first n unread items in order |
| `FifoCalls.PeekReturns` | raftinc/ringbufferheap.tcc:373-471 | over every interleaving, peek and peek_range(n) return only with such a reference, which the others do not disturb; nothing is removed |
| `FifoCalls.ResizeReturns` | raftinc/datamanager.tcc:80-173 | a resize that is not told to exit returns only after exactly one swap to the size asked for, or on an invalid queue |
| `FifoCalls.ResizerCanExit` | raftinc/datamanager.tcc:139-148 | from every reachable state a resizer that is told to exit returns by its own steps, whatever flags are up |
| `FifoCalls.IdleFlagsDown` | raftinc/datamanager.tcc:191-214 | calls that have returned leave no access flag up, save the one of a reference that is out, so they never hold up a resize |
| `SharedFifoTheorems.PeekedItemsStay` | raftinc/ringbufferheap.tcc:373-471 | element i of an outstanding peek reference is the item i places after the head at the time of the peek, however the producer moves on, and no swap can happen meanwhile |
| `SharedFifoTheorems.ProducerSizeIsUpperBound` | raftinc/ringbufferheap_abstract.tcc:45-103 | size() called by the producer, also inside push and allocate, never returns less than the true occupancy, nor more than the capacity |
| `SharedFifoTheorems.ConsumerSizeIsLowerBound` | raftinc/ringbufferheap_abstract.tcc:45-103 | size() called by the consumer never returns more than the true occupancy |
| `SharedFifoTheorems.ObserverSizeInRange` | raftinc/ringbufferheap_abstract.tcc:45-103 | size() called by any other thread returns a value from 0 to the capacity |
| `SharedFifoTheorems.SizeExactAtRest` | raftinc/ringbufferheap_abstract.tcc:54-97 | with neither side between its two stores, the four loads give the exact occupancy |
| `SharedFifoTheorems.ProducerSizeExact` | raftinc/ringbufferheap_abstract.tcc:45-103 | a size() call of the producer, its own or one inside push or allocate, during which the consumer takes no step returns the exact occupancy, resizes in between included |
| `SharedFifoTheorems.ConsumerSizeExact` | raftinc/ringbufferheap_abstract.tcc:45-103 | the same for the consumer, in size(), pop, peek, peek_range or recycle, while the producer takes no step |
| `SharedFifoTheorems.RetryOnlyBehindALap` | raftinc/ringbufferheap_abstract.tcc:67-79 | the jump back to TOP never happens to the producer; to the consumer only if the producer was between its index store and its wrap store at the first load; to any other thread only if the writer is by now on a later lap than the loaded counter says |
| `FifoWitnesses.ObserverCanRetry` | raftinc/ringbufferheap_abstract.tcc:67-79 | a reachable state in which an observer retries although the producer rests and rested at the first load |
| `SharedFifoTheorems.ClosedPortMeansDrained` | raftinc/ringbufferheap.tcc:330-356 | a closed port is reported only when the queue is invalid and every item ever pushed has been removed, for good |
| `SharedFifoTheorems.NoMoreDataMeansTooFew` | raftinc/ringbufferheap.tcc:424-458 | peek_range(n) reports no more data only when fewer than n items remain, for good |
| `SharedFifoTheorems.StoppedForever` | raftinc/ringbufferheap_abstract.tcc:114-119 | after its first invalidation the producer publishes nothing and validity never returns |
| `SharedFifoTheorems.ResizeExclusion` | raftinc/datamanager.tcc:80-173 | with a flag raised in one step: from the third all-clear load until `resizing` is cleared, no producer call, consumer call or size() is past its notResizing check and no peek reference is out |
| `SharedFifoTheorems.BufferDenotesQueue` | raftinc/ringbufferheap_abstract.tcc:54-97 | at rest, the slots between the two positions are exactly the items published and not yet removed |
| `SharedFifoTheorems.ResizeTransparent` | raftinc/datamanager.tcc:148-173 | copy and swap leave the item sequence the buffer denotes, its length, validity and flags unchanged, reset both wrap counters and grant the new capacity |
| `FlagLoss.ShownExcludes` | raftinc/datamanager.tcc:80-173 | with load and store of a flag as separate steps: a thread whose last raise shows in the newest buffer object is never inside between the all-clear load and the clearing of `resizing` |
| `FlagLoss.BreaksIffLost` | raftinc/datamanager.tcc:80-173 | the resizer can get past its all-clear load while a thread is inside if and only if that thread's raise was lost |
| `FlagLoss.RaiseMissesIff` | raftinc/datamanager.tcc:191-198 | a raise misses the newest buffer object if and only if a set falls between its load and its store, or its store falls between copyFrom and set |
| `FlagLoss.SwapLosesFlag` | raftinc/datamanager.tcc:165-173 | a run that breaks exclusion by a swap between load and store |
| `FlagLoss.CopyLosesFlag` | raftinc/datamanager.tcc:165-173 | a run that breaks exclusion by a store between copyFrom and set |
| `SharedFifoTheorems.InvalidateTakesEffectIff` | raftinc/ringbufferheap_abstract.tcc:114-119 | a first or repeated invalidate of an open port takes effect if and only if no resize completes between its load of the buffer and its store |
| `SharedFifoTheorems.PortOpenIffAllLost` | raftinc/ringbufferheap_abstract.tcc:114-119 | in every reachable state the port is open if and only if every invalidate so far was overtaken by a swap between its load and its store |
| `SharedFifoTheorems.LostInvalidationHangs` | raftinc/ringbufferheap_abstract.tcc:114-132 | where all invalidates were lost and no other follows, the port stays open for good and no consumer call ever reports it closed |
| `LostInvalidation.InvalidationCanBeLost` | raftinc/datamanager.tcc:129-173 | a reachable state, after a doubling resize, in which the producer has stopped and the queue is still valid |
| `LostInvalidation.SecondInvalidationCloses` | src/schedule.cpp:235-239 | from such a state a second invalidation closes the port |
| `Pointers.IncTimesPasses` | src/pointer.cpp:64-82 | n calls of inc move a position past exactly n elements and keep the index in range |
| `Pointers.PassedInjective` | src/pointer.cpp:64-103 | index and wrap counter are determined by the number of elements passed |
| `Pointers.IncByIsIncs` | src/pointer.cpp:84-103 | incBy(n) equals n calls of inc, index and wrap counter alike, if and only if the index plus n stays below twice the capacity; so always for n up to the capacity |
| `Pointers.Pointer.Inc` | src/pointer.cpp:64-82 | the pointer moves to the position after it, wrap counter included |
| `Pointers.Pointer.IncBy` | src/pointer.cpp:84-103 | the pointer moves as n calls of inc would, exactly when it does not pass the end twice |
| `Pointers.Pointer.CopyOf` | src/pointer.cpp:35-44 | the index of the other pointer under the new capacity, wrap counter zero |
| `RingBuffers.WindowCopy` | raftinc/bufferdata.tcc:158-166 | items that do not wrap read the same from a slot-for-slot copy in a larger ring; signals as well if the copy reaches that far |
| `RingBuffers.Data.Existing` | raftinc/bufferdata.tcc:60-83 | a buffer over existing items starts full: read wrap 0, write wrap 1, and holds exactly those items |
| `RingBuffers.Data.CopyFrom` | raftinc/bufferdata.tcc:142-176 | into a buffer at least as large, with rpt < wpt: equal indices, wrap counters zero, same items; same signals as far as they were copied |
| `RingBuffers.RingBuffer.Size` | raftinc/ringbufferheap_abstract.tcc:54-97 | the exact number of queued elements, from the two indices and wrap counters |
| `RingBuffers.RingBuffer.Push` | raftinc/ringbufferheap.tcc:270-318 | blocks exactly when full; otherwise appends the item with its signal, or the old item of the slot with it, and takes the first spare slot; a reservation outstanding makes no difference |
| `RingBuffers.RingBuffer.Pop` | raftinc/ringbufferheap.tcc:327-371 | removes and returns the head; blocks on an empty valid queue, reports a closed port on an empty invalid one |
| `RingBuffers.RingBuffer.Peek` | raftinc/ringbufferheap.tcc:381-422 | the slot and signal of the head, with the same three outcomes as pop |
| `RingBuffers.RingBuffer.PeekRange` | raftinc/ringbufferheap.tcc:424-471 | the first n elements as a window of the ring that may wrap; otherwise blocked, closed port or no more data, each exactly when due |
| `RingBuffers.RingBuffer.PeekedItem` | raftinc/autorelease.tcc:147-161 | element i of a peek range is the i-th item of the queue, across the wrap as well; past the range there is an error; its signal is looked up with the read index added twice, so it is the element's own when the range starts at slot 0 |
| `RingBuffers.RingBuffer.Recycle` | raftinc/ringbufferheap.tcc:120-155 | drops up to range items from the head; the rest stays owed only on a valid queue |
| `RingBuffers.RingBuffer.Allocate` | raftinc/ringbufferheap.tcc:166-196 | hands out the first spare slot exactly when there is room, again if asked again; nothing else changes |
| `RingBuffers.RingBuffer.AllocateRange` | raftinc/ringbufferheap.tcc:198-256 | hands out n spare slots exactly when there is room for n and clears their signals; the count kept is n in 32 bits; no queued element changes |
| `RingBuffers.RingBuffer.WriteReserved` | raftinc/ringbufferheap.tcc:233-251 | a store through a reference to the i-th spare slot changes that slot only |
| `RingBuffers.RingBuffer.Send` | raftinc/ringbufferheap.tcc:66-80 | appends the item in the first spare slot with its signal; nothing without a preceding allocate; on a queue filled since, the write position overtakes the read position and the ring invariant is lost, exactly then |
| `RingBuffers.RingBuffer.SendRange` | raftinc/ringbufferheap.tcc:88-105 | appends the items of the counted spare slots in order, the signal on the first; an empty range on a full queue overwrites the signal of the oldest item; more than there is room for by now loses the ring invariant, exactly then |
| `RingBuffers.RingBuffer.Deallocate` | raftinc/ringbufferheap.tcc:47-58 | the reservation is forgotten, the queue unchanged |
| `RingBuffers.RingBuffer.Resize` | raftinc/datamanager.tcc:80-173 | given up when the program ends or the queue is invalid, impossible while a slot is reserved or the items wrap, fatal on a buffer over existing items, otherwise a larger buffer with the same items |
| `RingBuffers.RingBuffer.Invalidate` | raftinc/ringbufferheap_abstract.tcc:114-119 | the queue becomes invalid and keeps its elements |
| `Pipeline.NoPushAfterInvalidate` | src/schedule.cpp:46-56 | in every run, nothing is pushed into a FIFO after it has been invalidated |
| `Pipeline.DrainBeforeFinish` | src/schedule.cpp:134-241 | an any_port kernel finished without stop has every input invalid and empty, then and forever after, on any graph |
| `Pipeline.AllPortFinish` | src/schedule.cpp:168-182 | an all_port kernel finished without stop has every input invalid and some input empty |
| `PipelineScan.ScanDecides` | src/schedule.cpp:134-190 | for any number of inputs, over a whole scan: an any_port kernel enters run() if and only if a look at some input found data, and has looked at all of them otherwise; an all_port kernel if and only if the look at every input did; a kernel without inputs always |
| `PipelineScan.ScanIsShort` | src/schedule.cpp:134-190 | a scan looks at each input at most once |
| `PipelineScan.ScanFindsData` | src/schedule.cpp:134-190 | whatever the other kernels push meanwhile: a scan that sees true sizes enters run() if an any_port kernel has data on some input, or an all_port kernel on every input, when it begins; and any scan enters run() only if that is so when it ends |
| `PipelineScan.DrainedFinishes` | src/schedule.cpp:193-241 | a polling kernel with any number of inputs, all closed, finishes by its own steps: any_port if all are empty, all_port if one is |
| `PipelineScan.StopFinishes` | src/schedule.cpp:213-227 | a kernel whose run returns stop finishes by its own steps, whatever its inputs hold, and never runs, takes or pushes again |
| `PipelineIntake.AllPortDrainedIff` | src/schedule.cpp:168-182 | an all_port kernel finished without stop that has taken equally many items from each input has all inputs empty if and only if all were sent the same number of items |
| `PipelineIntake.JoinsTakeEqually` | src/schedule.cpp:168-182 | a kernel each of whose runs takes equally many items from every input has, outside run(), taken equally many in all |
| `PipelineIntake.AllPortDrainsIff` | src/schedule.cpp:213-241 | such a kernel, once finished without stop, has drained its inputs if and only if all were sent the same number of items, and then for good |
| `PipelineIntake.SingleInputDrains` | src/schedule.cpp:213-241 | a kernel with one input that finishes without stop leaves nothing behind, all_port or any_port |
| `AllPortAbandons.ItemsAbandoned` | src/schedule.cpp:168-182 | a reachable state in which an all_port kernel has finished while an input still holds an item |
| `PipelineProgress.WithinRuns` | src/schedule.cpp:213-241 | the runs a kernel makes, and what it takes and emits, never exceed bounds computed from the graph alone |
| `PipelineProgress.StepMeasure` | src/simpleschedule.cpp:169-180 | every productive action uses up exactly one unit of a non-negative measure, every polling action none |
| `PipelineProgress.WorkIsBounded` | src/simpleschedule.cpp:169-180 | the number of productive actions of any run from the start is bounded by the measure of the initial state |
| `PipelineProgress.NoDeadlock` | src/schedule.cpp:213-241 | as long as a kernel is unfinished, some kernel can do productive work by its own steps alone, or is inside a run that waits for an item of a closed and drained input |
| `PipelineProgress.TerminalIsComplete` | src/schedule.cpp:213-241 | where no kernel can work, all kernels have finished and all FIFOs are invalid and empty if and only if no kernel is starved like that |
| `PipelineProgress.OneItemRunsComplete` | src/schedule.cpp:213-241 | if no run waits for an item after its first, every state where no kernel can work is complete |
| `PipelineIntake.CompleteIffDivides` | src/schedule.cpp:213-241 | if every run takes what it waits for, a state where no kernel can work is complete if and only if every kernel was sent just the items of some number of its runs |
| `StarvedRun.PipelineStarves` | raftinc/ringbufferheap.tcc:330-356 | a pipeline that ends without completing: the sink waits for a second item that never comes |
| `PipelineProgress.CompleteIsTerminal` | src/schedule.cpp:213-241 | once all kernels have finished, no action is productive |
| `FifoGc.MinusExact` | src/schedule.cpp:272-302 | the pointers recycled and not forwarded, each once, in ascending order |
| `FifoGc.Tracker.Push` | raftinc/ringbufferheap.tcc:1194-1213 | a pushed pointer is forwarded if and only if it was peeked |
| `FifoGc.Tracker.Collect` | src/schedule.cpp:272-302 | the merge stays in bounds if and only if every forwarded pointer was recycled; then it frees exactly the recycled ones that were not forwarded, and empties all three sets |
| `GraphTools.ClosedContainsReachable` | src/graphtools.cpp:94-147 | a set that contains the sources and is closed under out-edges contains everything reachable |
| `GraphTools.EdgeBfs` | src/graphtools.cpp:94-147 | terminates on every graph, cycles included; calls the function, in order, on the linked ports of the kernels of the walk, which the first null kernel taken ends; if everything reachable is linked that is exactly once on each out-edge of each reachable kernel; with the error flag an unlinked reachable port is an error |
| `GraphTools.NullKernelEndsWalk` | src/graphtools.cpp:105-142 | a graph in which the walk ends at a null kernel and never takes a reachable, linked kernel |
| `GraphTools.VertexBfs` | src/graphtools.cpp:149-188 | calls the function exactly once on each reachable kernel, with unlinked ports as well |
| `Links.PeersDistinct` | src/mapbase.cpp:64-95 | no port is in two links |
| `Links.LinkStepKeeps` | raftinc/mapbase.hpp:81-143 | one link call, failing or not, keeps peers mutual and equally typed and the kernel sets right |
| `Links.LinkRunKeeps` | raftinc/mapbase.hpp:81-143 | the same after any sequence of link calls, failing ones included |
| `Links.MapBase.UpdateKernels` | raftinc/mapbase.hpp:203-230 | both kernels are recorded, as source or destination if they have no input or output port |
| `Links.MapBase.Join` | src/mapbase.cpp:64-95 | both peer fields are set, or the call is refused for unequal types or a port in use and nothing changes |
| `Links.MapBase.Link` | raftinc/mapbase.hpp:81-143 | the whole effect of link: port lookup, recorded kernels, buffer size, order, and when and how it fails with no peer field changed |
| `Links.SizeFollowsCalls` | raftinc/mapbase.hpp:81-143 | after any sequence of link calls, failing ones included, an output port asks for the buffer size of the last call that names it as its source |
| `Links.OrderFollowsLink` | raftinc/mapbase.hpp:139-142 | both ends of a link stay linked to each other and keep the order it was made with, over any later calls |
| `Links.RefusedLinkResizes` | raftinc/mapbase.hpp:110-139 | two calls of which the second is refused and changes the size the first asked for |
| `Links.MapBase.CheckEdges` | src/map.cpp:44-74 | succeeds if and only if every port of every recorded kernel is linked |
| `Allocation.ReachableFromSources` | src/map.cpp:44-74 | after checkEdges on an acyclic graph, every recorded kernel with a port is reachable from the recorded sources |
| `Allocation.ReachableIsConnected` | src/graphtools.cpp:138-142 | after checkEdges no null kernel is ever queued by the traversal |
| `Allocation.EveryPortServed` | src/allocate.cpp:86-112 | on an acyclic checked graph every port of every recorded kernel is at an end of an edge the traversal reaches |
| `Allocation.Allocate.Initialize` | src/allocate.cpp:57-83 | both ends of an edge get the FIFO, or, if one has a FIFO already, nothing changes |
| `Allocation.Allocate.AllocateEdge` | src/allocate.cpp:86-112 | one FIFO for both ends: over the user's buffer if there is one, else of the size the output port asks for, else of 64 slots |
| `Allocation.Allocate.Run` | src/dynalloc.cpp:64-77 | the traversal never raises a double initialization; exactly the linked output ports of reachable kernels and exactly their peers get a FIFO, both ends of an edge the same one, distinct edges distinct ones, each over the user's buffer, of the size asked for, or of 64 slots |
| `Allocation.Exe` | raftinc/map.hpp:94-130 | an open port is reported if and only if there is one; otherwise every edge gets its FIFO as above |
| `Allocation.FifoHasAskedSize` | src/allocate.cpp:86-112 | after any link calls, failing ones included, and the allocation: the FIFO of a port without a buffer of the user's has the size of the last call that names the port as its source, 64 slots if that is zero, never none; over the user's buffer it has its length |
| `Allocation.LinkGetsItsBuffer` | raftinc/mapbase.hpp:81-143 | on an acyclic checked graph both ends of a link made with a buffer size have one FIFO of exactly that size, unless a later call names the source port with another |
| `Topology.SplitLinksOnce` | src/map.cpp:445-515 | a split links every output port of every kernel exactly once |
| `Topology.JoinLinksOnce` | src/map.cpp:518-581 | a join links every input port of every destination exactly once |
| `Topology.Expansion.InlineCont` | src/map.cpp:408-442 | one destination for every kernel, in groups of the same sizes: the pair's own destination, then clones in order, each linked from its kernel |
| `Topology.Expansion.InlineSplit` | src/map.cpp:445-515 | one group for every kernel, with one destination for each of its output ports; all destinations distinct kernels, each port linked to its own |
| `Topology.Expansion.InlineJoin` | src/map.cpp:518-581 | one destination for every group, regrouped by the count of the open split; the kernels of a group are linked to the inputs of its destination in port order |
| `Chains.ChunkedExact` | src/map.cpp:556-563 | a whole number of groups' worth of joined kernels fills every new group |
| `Chains.StepLevel` | src/map.cpp:289-368 | one pair of fan-out k moves the shape one nesting level up, one level down, or leaves it |
| `Chains.StepAlike` | src/map.cpp:408-581 | the kernels placed by a pair are distinct, start with the pair's own destination, and have its ports |
| `Chains.ShapeFollowsNesting` | src/map.cpp:207-368 | after any part of any chain of fan-out k with d open splits: k^(d-1) groups of k kernels, or one group of one for d = 0; all distinct; the first is the source the next pair names |
| `Chains.BalancedChainReturns` | src/map.cpp:207-368 | when every split has been joined, exactly one kernel is left, the last destination |
| `ChainPlans.Add` | src/map.cpp:207-405 | operator+= performs such an expansion pair by pair, for any fan-outs, and returns where the chain starts and ends; a pair marked as split and join stops it with an error after the pairs before it |
| `ChainPlans.RunFollowsPlan` | src/map.cpp:207-368 | a chain of any fan-outs leads, after any part of it, to groups of exactly the planned sizes, all kernels distinct |
| `ChainPlans.UniformIsPlanned` | src/map.cpp:207-368 | a chain of one fan-out with every join under an open split has a plan, the one its nesting gives |
| `ChainPlans.UnequalNesting` | src/map.cpp:518-581 | two nested splits of fan-outs f and g and two joins leave one kernel if and only if f is at most g, because the inner join takes its group size from the split it closes |
| `ChainFlags.SplitPair` | src/map.cpp:236-257 | a pair marked as a split only: a group for every kernel and a kernel for each of its output ports; link by link, that port of the one goes to the other under the given name, and each port is linked once |
| `ChainFlags.SplitMultiplies` | src/map.cpp:445-515 | such a pair multiplies the number of kernels by the number of output ports |
| `ChainFlags.JoinPair` | src/map.cpp:518-581 | a pair marked as a join only: one kernel for every group; link by link, its q-th input port is fed by the q-th kernel of the group, and each port is linked once |
| `ChainFlags.ContPair` | src/map.cpp:408-442 | a pair marked as neither: the group sizes stay, and there is one link from each kernel to its successor under the given names |
| `ChainLinks.StagesApart` | src/map.cpp:289-380 | no kernel appears in two stages of an expansion |
| `ChainLinks.OnceInChain` | src/map.cpp:289-380 | a port that one pair links exactly once is linked exactly once by the whole chain |
| `ChainLinks.SplitOutputsLinkedOnce` | src/map.cpp:445-515 | over a whole chain, every output port of every kernel that is split is linked exactly once |
| `ChainLinks.JoinInputsLinkedOnce` | src/map.cpp:518-581 | over a whole chain, every input port of every kernel that is joined to is linked exactly once |
| `ChainLinks.PlacedFedOnce` | src/map.cpp:408-515 | over a whole chain, every kernel placed by a split or a continuation has exactly one link into it |
| `ChainLinks.ConsumedTakenOnce` | src/map.cpp:408-581 | over a whole chain, every kernel continued from, or joined on k inputs, has exactly one link out of it |
| `Csr.ArcsSymmetric` | raftinc/graph.tcc:194-203 | each arc is stored as often as its reverse |
| `Csr.RowsAreArcs` | raftinc/graph.tcc:214-235 | grouping the arcs by source loses none and repeats none |
| `Csr.FaithfulIffContiguous` | raftinc/graph.tcc:213-253 | the tables decode to exactly the multiset of added edges and back edges with weights if and only if the vertex ids have no gaps; in any case the last vtable entry is the number of entries, twice the number of edges added |
| `Csr.GapChangesGraph` | raftinc/graph.tcc:213-253 | one edge between vertices 0 and 2: the tables name the wrong vertices |
| `Csr.DecodedSymmetric` | raftinc/graph.tcc:213-253 | the decoded multigraph is symmetric |
| `Csr.Graph.AddArc` | raftinc/graph.tcc:126-160 | one more arc at the end of the list of its source; both ends are vertices |
| `Csr.Graph.AddEdge` | raftinc/graph.tcc:194-203 | the edge and its back edge are stored, so that every vertex has a list |
| `Csr.Graph.GetScotchTables` | raftinc/graph.tcc:213-253 | vtable holds the prefix sums of the degrees, etable and eweight the arcs row by row with ends counted from the first vertex |
| `InPlacePorts.SegmentsContiguous` | raftinc/port.hpp:170-188 | each segment begins where the one before it ends, the first at 0, the last ends with the array; none is empty if there are not more ports than elements |
| `InPlacePorts.SegmentsEven` | raftinc/port.hpp:170-188 | all segments but the last have as many items as fit n times into the array; the last has what is left, fewer than n more |
| `InPlacePorts.SegmentsPartition` | raftinc/port.hpp:170-188 | every position of the array belongs to exactly one port |
| `InPlacePorts.Port.AddInPlacePorts` | raftinc/port.hpp:170-203 | one port for each segment, the remainder on the last; a name in use keeps its port |
| `InPlacePorts.Port.DrainPorts` | raftinc/port.hpp:170-203 | draining the FIFOs of all ports in index order yields the array, each element once, also with more ports than elements |

## Left out

- Blocked and throughput statistics, `get_frac_write_blocked`, `force_resize`, and the rest of the monitor loop of `src/dynalloc.cpp`: nothing in the FIFO's behaviour depends on them.
- The weak hardware memory model, the double-copy pointers for machines without atomic 64-bit stores, overflow of the 64-bit wrap counters, yields, prefetch, alignment and barriers.
- The FIFO variants for inline classes and external items, beyond the tracking sets in `FifoGc`: object lifetime, `deallocate` and the count that the external `local_allocate_n` does not set.
- RingBuffers.Data.CopyFrom: signals are claimed only as far as the copied bytes reach, because the copy length is computed from the size of an item.
- RingBuffers.Data.Existing: the items are copied where the source keeps the pointer into the user's array, and one signal slot is modelled for each item where the source allocates a single one; only items are claimed.
- SharedFifoTheorems.FifoOrder: the signal of an item that is in the queue during a resize, or oldest in a full queue when an empty range is sent, is not claimed.
- SharedFifoTheorems.ResizeExclusion: holds for a flag that is raised in one step; what finer steps break is stated in `FlagLoss`, for one thread and one flag.
- What a call touches without a flag: `is_invalid`, `capacity` and `signal_peek`, and the read of `max_cap` after `exitBuffer` in `size`, can reach a buffer object that a resize has deleted meanwhile.
- InPlacePorts.Port.DrainPorts: a FIFO of capacity zero is modelled by its size, zero, and not as an object.
- GraphTools.EdgeBfs: as for `GraphTools.VertexBfs`, the overload for a vector of sources is modelled for distinct sources; a source listed twice is walked twice.
- ChainPlans.Add: does not model a join without an open split (`inline_dup_join`), whose chain walk advances only once.
- ChainPlans.Add: `joink` is modelled as recording the call of `link`; that the call succeeds is the subject of `Links`, not of the expansion.
- A kernel's run that emits before it has taken all its items.
- The operators that build a list of pairs, out-of-order markers and buffer sizes of a chain, and freeing of the pairs.
- `enableDuplication`, `MapBase::insert` and the parallel cloning of kernels: the call is commented out in `exe`.
- The pool and other schedulers, signal handlers and thread affinity.
- The Scotch calls and the use of the partition; the debug-only check for parallel edges in `__addEdge`.
- Shared memory, TCP and infinite buffers, file readers, printing, dot output, random and floating-point kernels, exception text, and the template machinery that adds ports.
