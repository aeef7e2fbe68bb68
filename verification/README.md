# Verified model of the buffering and hand-off layer

The firmware moves bytes and messages between interrupt handlers and threads through a handful of
bounded buffers: a blocking data queue, a message FIFO built on two of them, the receive and transmit
paths of the serial core, a mirror-bit ring buffer, a completion and a work queue. This project models
them and proves what they keep, over every schedule of threads, interrupts, timeouts and resets.

`dafny verify dfyconfig.toml` checks everything.

## How it is built

Most components come in two files.

* `*Model.dfy` gives the state as a datatype and one total step function over an event type. One event is one
  interrupts-off region of the source, one hardware action or one kernel action (a timeout). A run is
  any sequence of events, so a lemma about all sequences is a lemma about all interleavings of any number of
  threads. History fields (`pushed`, `popped`, `stream`, `started`, ...) record what a run did. They decide
  nothing, except that one more `pushed` or `popped` item stands for the success of a nested push or pop.
* The other file has the class with the source's fields, updated in place. Each method is one region (or one
  sequential function) and its contract equates the new state with the step function of the old one, so
  every run lemma is about the imperative code as well.

| files | source | content |
|---|---|---|
| `Common`, `Kernel` | | 16-bit truncation, `memcpy`, remainders; thread names, error codes, wait lists |
| `DataQueueModel`, `DataQueueLaws`, `DataQueueWakeups`, `DataQueueFifo`, `DataQueueDeadlock`, `DataQueue` | `rt_ext/dataqueue.c` | steps; what each call does; lost wake-ups; index and slot refinement; deadlock; class |
| `MsgFifoModel`, `MsgFifoLaws`, `MsgFifoMessages`, `MsgFifo` | `src/msg_fifo.c` | unit passing under all interleavings; the messages of overlapping calls; class refining a drop-oldest queue |
| `RingBufferModel`, `RingBuffer` | `rt_ext/ringbuffer.c` | refinement of a byte queue, bulk against single bytes, forced writes; class |
| `SerialRxModel`, `IntRxModel`, `SerialRx` | `rt_ext/serial.c`, `rt_ext/usart.c` | DMA receive FIFO with its two handlers; interrupt receive FIFO; classes |
| `DmaTxModel`, `DmaTxOverflow`, `DmaTx` | `rt_ext/serial.c` | DMA transmit hand-shake; its queue at the wrap; class |
| `CompletionModel`, `Completion`, `IntTxModel`, `IntTx` | `rt_ext/completion.c`, `rt_ext/serial.c`, `rt_ext/usart.c` | completion; interrupt transmit down to the registers; classes |
| `WorkQueueModel`, `WorkQueueLaws`, `WorkQueue` | `rt_ext/workqueue.c` | what each operation does, list discipline, waiting cancellation, wake-ups of the worker; classes |

## What is assumed of the kernel and the hardware

* An interrupts-off region is one step. Suspending a thread and putting it on a wait list happens inside one.
* `rt_thread_resume` takes a thread off its wait list and stops its timer. A timeout takes it off the list and sets its error.
* Writing the data register after reading the status register clears TC; the peripheral sets TC when the last bit has left
  and the data register is empty.
* The DMA receive channel runs around the whole FIFO buffer; in the runs of `SerialRxModel` its done handler runs after each
  wrap before a later idle handler and before the next wrap.

## What the code does that its comments or intent do not say

Each of these is proved; where the code meets the property only sometimes, so is the exact condition.

* The full test of the data queue subtracts two 16-bit indices in `int`. After `put_index` has wrapped and before `get_index`
  has, it cannot be true, so a full queue takes one item too many (`PassOverrunsExactly`). For every size, the number of pushes
  up to which every schedule delivers in order is exactly 65536 (`FifoUntilWrapExactly`). Schedules that never overrun the queue
  deliver in order for ever exactly when the size divides 65536 (`FifoAcrossWrapsExactly`).
* If pushes go on for a whole turn of the counter, an overrun queue looks empty, and pushers and poppers can sleep beside each
  other for ever. For every low-water mark, the number of pushes below which no schedule can deadlock a queue of `size` slots is
  exactly `2 * 65536 - size` (`DeadlockFreeExactly`). A queue of no slots deadlocks at once (`EmptyQueueDeadlocks`).
* The message FIFO is safe from this, because a thread that pushes holds a unit that is missing from the queues. But its
  slots jump at the wrap unless the number of units divides 65536: exactly then its units are conserved over runs of every
  length, and exactly then no two threads ever work on the same unit (`ConservedExactly`, `SameUnitTwice`).
* `rt_ringbuffer_put_force` does not keep the newest data: on overflow it needs a full buffer of source bytes and ends FULL
  with the first of them, or EMPTY if the stored data did not wrap (`PutForceCases`, `PutForceExactly`).
* DMA transmission is not always in order and exactly once. With any number of writers it is so, as long as no push overflows
  the queue, exactly when no writer starts a buffer that is not the head of the queue (`InOrderExactly`). Two writers can make
  such a start (`TwoWritersBreakTheOrder`), and so can one, if the channel finishes the previous buffer and the new one between
  the push and the check of `activated` (`LateCheckSendsTwice`); one writer whose checks are in time cannot
  (`TimelyWriterInOrder`, `LateCheckExactly`). The number of pushes up to which no schedule overflows the transmit queue is
  exactly 65536 (`TransmitPushesExactly`); the next one can make `tx_complete` report the wrong buffer (`TransmitQueueOverflows`).
* A DMA receive FIFO can be corrupted if the idle handler runs between a wrap and its done handler. The indices end as they
  would have in time exactly when `get_index` is not between `put_index` and the position of the channel (`LateDoneExactly`,
  `LateDoneAfterRun`); otherwise, in every buffer of two bytes or more, a reader can get a byte it has already read
  (`LateDoneRereads`).
* With a one-byte buffer the interrupt receive path indicates length 0 for a stored byte (`IndicationExactly`).
* A length of 2^23 or more does not survive the event word (`LengthSurvivesExactly`).
* A signal of a completion can end two waits, and can be lost. For every schedule of any threads: it ends only one exactly when
  no resumed thread finds its signal taken by another wait, and none is lost exactly when no wait that has timed out ends after
  a signal (`DeliveredExactly`, with `OneSignalTwoWaits` and `TimedOutWaitDropsSignal` as schedules).
* The work queue's worker can be left asleep beside pending work, and can take from an empty list, because the test, the
  suspension and the take are separate regions and the resume follows the insertion (`MissedWakeForgets`, `CancelledWakeBreaks`,
  `LateResumeBreaks`). That pending work always has somebody to wake the worker, and that a woken worker always has work, holds
  at every point of a run exactly when no step of the run misses the last wake-up, wakes the worker with nothing to take, or takes
  the last work from a woken worker (`TendedExactly`).

## Model

| member | source | states |
|---|---|---|
| Common.NewestStep | rt_ext/ringbuffer.c:240-269 | what the bounded queue that several components refine does: appending with drop-oldest is keeping the newest `n` of everything |
| Common.MemCopy | src/msg_fifo.c:140 | the loop behind `memcpy`: exactly the target range changes and equals the source range |
| Kernel.WithoutKeepsOrder | rt_ext/workqueue.c:206 | removing one entry of a list removes its first occurrence and leaves the others in their order |
| DataQueueModel.ApplyValid | rt_ext/dataqueue.c:65-340 | every region, timeout and reset keeps each wait list duplicate-free and equal to the set of sleeping threads, and the indices equal to the truncated totals |
| DataQueueLaws.PushLaw | rt_ext/dataqueue.c:79-141 | a push that finds the queue full fails, or sleeps last in line with its own item; any other stores its own item last and resumes the longest sleeping popper, and nobody else |
| DataQueueLaws.PopLaw | rt_ext/dataqueue.c:170-243 | a pop that finds nothing fails, or sleeps last in line; any other takes the oldest item, and resumes the longest sleeping pusher exactly when the items left are at or below the low-water mark, or wrapped indices hide them |
| DataQueueLaws.LowWaterTest | rt_ext/dataqueue.c:217 | the exact meaning of the low-water test in terms of the items stored, across the wrap |
| DataQueueLaws.RecheckLaw | rt_ext/dataqueue.c:115-119 | a thread resumed without an error goes on as a new call with its own item and timeout would |
| DataQueueLaws.ResumedPushStoresItsItem | rt_ext/dataqueue.c:121-123 | a resumed pusher that finds room stores the item it slept with |
| DataQueueLaws.FailedCallLeaves | rt_ext/dataqueue.c:118 | a thread resumed with an error leaves, and stores and takes nothing |
| DataQueueLaws.TimeoutLaw | rt_ext/dataqueue.c:99-107 | a timeout takes its thread off its list with the timeout error; items, indices and all other threads stay |
| DataQueueLaws.ResetStepLaw | rt_ext/dataqueue.c:296-308 | each turn of a reset wakes the first thread of its list with the general error |
| DataQueueLaws.WholeResetLaw | rt_ext/dataqueue.c:282-340 | after a reset whoever slept leaves its call with the general error, storing and taking nothing; the rest is unchanged |
| DataQueueLaws.StoredItemsAreGiven | rt_ext/dataqueue.c:65-141 | in every run, through all sleeps and wake-ups, what a step stores is the item its thread gave to the push it is in |
| DataQueueWakeups.StepKeepsAwake | rt_ext/dataqueue.c:79-340 | no step breaks either wake-up invariant: sleeping poppers leave no more items than resumed poppers will test for; sleeping pushers leave at least min(lwm+1, size) items and resumed pushers |
| DataQueueWakeups.NoLostWakeups | rt_ext/dataqueue.c:79-340 | both wake-up invariants after every schedule of any threads, timeouts and resets, also across index wrap |
| DataQueueWakeups.AwakeMeansNoDeadlock | rt_ext/dataqueue.c:79-243 | with less than 65536 items stored: a popper asleep with no resumed popper means nothing is stored, and then pushers asleep have a resumed pusher |
| DataQueueWakeups.NoDeadlock | rt_ext/dataqueue.c:79-243 | after every schedule that leaves less than 65536 items stored, pushers and poppers do not sleep together without a resumed thread on its way |
| DataQueueDeadlock.DeadlockNeedsALap | rt_ext/dataqueue.c:79-243 | after every schedule: a deadlock needs size 0 or 65536 stored items that look like none; a queue with slots that is not overrun is not deadlocked |
| DataQueueDeadlock.StepKeepsAge | rt_ext/dataqueue.c:80-123 | every step keeps: an overrun queue has been popped at least 65536 - size times |
| DataQueueDeadlock.EveryQueueCanDeadlock | rt_ext/dataqueue.c:80-243 | for every size and low-water mark there is a schedule of 2 * 65536 - size pushes after which a pusher and a popper sleep and nobody is on the way |
| DataQueueDeadlock.DeadlockFreeExactly | rt_ext/dataqueue.c:79-243 | for every size and low-water mark: every schedule of fewer than n pushes is free of deadlock if and only if n <= 2 * 65536 - size |
| DataQueueWakeups.EmptyQueueDeadlocks | rt_ext/dataqueue.c:36-62 | a queue of size 0, which init accepts, does deadlock |
| DataQueueWakeups.DifferenceBelowStored | rt_ext/dataqueue.c:217 | the difference the low-water test uses never exceeds the true number of items, so wrap can only cause extra wake-ups |
| DataQueueFifo.FullTestExact | rt_ext/dataqueue.c:80 | the full test is true exactly when all slots are used and put has not wrapped past get |
| DataQueueFifo.EmptyTestExact | rt_ext/dataqueue.c:171 | the empty test is true exactly when nothing is stored |
| DataQueueFifo.PassOverrunsExactly | rt_ext/dataqueue.c:80-123 | a push overruns the queue if and only if all slots are used and put has wrapped while get has not |
| DataQueueFifo.StoreKeepsFifo | rt_ext/dataqueue.c:121-123 | a store into a queue that is not full appends to the contents and keeps every live slot |
| DataQueueFifo.TakeKeepsFifo | rt_ext/dataqueue.c:212-215 | a take returns the oldest item and keeps every other live slot |
| DataQueueFifo.StepKeepsFifo | rt_ext/dataqueue.c:65-340 | every step that does not overrun the queue, before the wrap or with a size that divides 65536, keeps popped a prefix of pushed and each live slot holding its item |
| DataQueueFifo.FifoUntilWrap | rt_ext/dataqueue.c:65-253 | after every schedule with at most 65536 pushes: popped is a prefix of pushed, occupancy within size, slot i mod size holds item i |
| DataQueueFifo.FifoAcrossWraps | rt_ext/dataqueue.c:65-253 | with a size that divides 65536 the same for runs of every length that never overrun |
| DataQueueFifo.PeekIsNextPop | rt_ext/dataqueue.c:266-274 | peek fails exactly on the empty queue and otherwise shows what the next pop takes |
| DataQueueFifo.EveryQueueCanOverrun | rt_ext/dataqueue.c:80 | for every size there is a schedule of 65537 pushes after which the queue holds more items than slots |
| DataQueueFifo.FifoUntilWrapExactly | rt_ext/dataqueue.c:65-253 | for every size: every schedule of at most n pushes keeps the first-in first-out form if and only if n <= 65536 |
| DataQueueFifo.WrapLosesAnItem | rt_ext/dataqueue.c:121-123 | if the size does not divide 65536, a schedule that never overruns the queue overwrites an item at the wrap |
| DataQueueFifo.FifoAcrossWrapsExactly | rt_ext/dataqueue.c:65-253 | every schedule that never overruns the queue keeps the form if and only if the size divides 65536 |
| DataQueues.DataQueue.constructor | rt_ext/dataqueue.c:36-62 | init gives the initial state with fresh slots |
| DataQueues.DataQueue.ResumePush | rt_ext/dataqueue.c:303-308 | a resumed pusher leaves the list and carries the error |
| DataQueues.DataQueue.ResumePop | rt_ext/dataqueue.c:303-308 | a resumed popper leaves the list and carries the error |
| DataQueues.DataQueue.TryPush | rt_ext/dataqueue.c:79-141 | the region of push: outcome and whole new state |
| DataQueues.DataQueue.ContinuePush | rt_ext/dataqueue.c:115-141 | a resumed pusher either leaves with its error or tests again |
| DataQueues.DataQueue.TryPop | rt_ext/dataqueue.c:170-243 | the region of pop: outcome, item and whole new state |
| DataQueues.DataQueue.ContinuePop | rt_ext/dataqueue.c:205-243 | a resumed popper either leaves with its error or tests again |
| DataQueues.DataQueue.Peak | rt_ext/dataqueue.c:256-279 | peek, changing nothing |
| DataQueues.DataQueue.Reset | rt_ext/dataqueue.c:282-340 | both loops end, every sleeper is woken with an error, items and indices stay |
| MsgFifoModel.CommitReadyConserves | src/msg_fifo.c:143 | the unchecked push of `msg_push` always stores its unit behind the other ready ones, if the size divides 65536 or fewer than 65536 were pushed |
| MsgFifoModel.CommitFreeConserves | src/msg_fifo.c:179 | the unchecked push of `msg_pop` always stores its unit behind the other free ones, if the size divides 65536 or fewer than 65536 were pushed |
| MsgFifoModel.StepConserves | src/msg_fifo.c:111-182 | every step that leaves at most 65536 pushes on each queue, or any step if the size divides 65536, keeps free queue, ready queue and hands a partition of the units |
| MsgFifoModel.InitialConserved | src/msg_fifo.c:38-49 | `msg_init` establishes the partition |
| MsgFifoLaws.TakeFreeLaw | src/msg_fifo.c:125-129 | a push gets the unit that has been free longest, and only if there is none goes on to the ready ones |
| MsgFifoLaws.TakeReadyLaw | src/msg_fifo.c:130-138 | it then takes the oldest ready unit, or gives up; waiting threads stay |
| MsgFifoLaws.CommitReadyLaw | src/msg_fifo.c:143 | its commit stores exactly its unit and resumes the longest waiting thread |
| MsgFifoLaws.CommitFreeLaw | src/msg_fifo.c:179 | the commit of a pop stores exactly its unit |
| MsgFifoLaws.StartPopLaw | src/msg_fifo.c:159-173 | a pop takes the oldest ready unit, or fails, or waits last in line |
| MsgFifoLaws.ResumePopLaw | src/msg_fifo.c:159-173 | a resumed pop leaves with its error, or tests again with its own timeout |
| MsgFifoLaws.PopTimeoutLaw | src/msg_fifo.c:161-164 | a timeout wakes its thread with the timeout error and moves no unit |
| MsgFifoModel.ConservedOverRuns | src/msg_fifo.c:111-182 | the partition after every interleaving, timeouts of `msg_pop` included, while the indices have not wrapped or for ever if the size divides 65536 |
| MsgFifoModel.HoldersAreExclusive | src/msg_fifo.c:140-176 | two threads between pop and push never copy into or out of the same unit, nor of a queued one |
| MsgFifoModel.WrappedStore | rt_ext/dataqueue.c:121-123 | if the size does not divide 65536, the store at the wrapped index lands in the slot of a unit that is still queued |
| MsgFifoModel.SameUnitTwice | src/msg_fifo.c:125-143 | and then a schedule lets two producers copy into the same unit at once |
| MsgFifoModel.ConservedExactly | src/msg_fifo.c:24-182 | over all runs of every length units are conserved if and only if the size divides 65536, and no two threads ever hold the same unit if and only if it does |
| MsgFifoMessages.StepDelivers | src/msg_fifo.c:111-182 | under the same premise every step and every partial copy keeps: messages sent = messages taken, then those in the ready units; each consumer's unit holds the message it took |
| MsgFifoMessages.OverlapKeepsMessages | src/msg_fifo.c:111-182 | after every run of overlapping calls, under the same premise: messages leave in the order of their commits, each once, at most fifoSize wait, and what a consumer copies out is the message it took, as its producer left it |
| MsgFifos.MsgFifo.constructor | src/msg_fifo.c:24-51 | the success path of `msg_init`: all units free, with buffers of their own, no message |
| MsgFifos.MsgFifo.StockAll | src/msg_fifo.c:38-49 | the loop queues units 0 to fifoSize-1 once each |
| MsgFifos.MsgFifo.TakeFreeUnit | src/msg_fifo.c:125-129 | the first attempt fails exactly when all units are ready |
| MsgFifos.MsgFifo.TakeReadyUnit | src/msg_fifo.c:130-138 | the second attempt takes the oldest message's unit |
| MsgFifos.MsgFifo.TakeUnit | src/msg_fifo.c:125-138 | both attempts fail exactly for size 0; the oldest message is lost exactly when all units are ready |
| MsgFifos.MsgFifo.FillUnit | src/msg_fifo.c:140-141 | the copy leaves every queued message intact |
| MsgFifos.MsgFifo.DrainUnit | src/msg_fifo.c:175-178 | the copy returns the message with its stored length and leaves the queued ones intact |
| MsgFifos.MsgFifo.CommitReadyUnit | src/msg_fifo.c:143 | the unit becomes the newest ready one |
| MsgFifos.MsgFifo.CommitFreeUnit | src/msg_fifo.c:179 | the unit is free again |
| MsgFifos.MsgFifo.Push | src/msg_fifo.c:111-146 | append the message cut to the unit size, dropping the oldest exactly when all units are ready; -4 exactly for size 0; the first waiting thread is resumed |
| MsgFifos.MsgFifo.Pop | src/msg_fifo.c:149-182 | the oldest message with its length; on an empty FIFO a timeout error or, with a timeout that is not zero, a place in the wait list, and no change of the messages |
| MsgFifos.MsgFifo.ContinuePop | src/msg_fifo.c:159-182 | a resumed thread returns its error, or gets what is then the oldest message, or sleeps again if another thread was faster |
| MsgFifos.MsgFifo.TimeoutPop | src/msg_fifo.c:161-164 | a timeout changes no message and no unit |
| RingBufferModel.PutAppends | rt_ext/ringbuffer.c:63-104 | put keeps the mirror invariant and appends exactly the bytes that fit |
| RingBufferModel.GetTakes | rt_ext/ringbuffer.c:163-204 | get keeps the mirror invariant, returns the oldest bytes and leaves the rest |
| RingBufferModel.PutCharAppends | rt_ext/ringbuffer.c:210-232 | putchar appends unless there is no space |
| RingBufferModel.GetCharTakes | rt_ext/ringbuffer.c:275-297 | getchar takes the oldest byte, if any |
| RingBufferModel.PutCharForceDropsOldest | rt_ext/ringbuffer.c:240-269 | the forced byte is appended and the oldest lost exactly when full |
| RingBufferModel.PutIsIterated | rt_ext/ringbuffer.c:82-103 | put leaves the same array, indices and mirrors as putchar of its accepted bytes |
| RingBufferModel.GetIsIterated | rt_ext/ringbuffer.c:182-203 | get leaves the same ring as iterated getchar |
| RingBufferModel.ForcedBytesKeepNewest | rt_ext/ringbuffer.c:240-269 | iterated forced bytes keep exactly the newest buffer_size bytes of old contents and input |
| RingBufferModel.PutForceCases | rt_ext/ringbuffer.c:112-157 | the exact outcome of put_force in all cases, and that its inner branch is dead |
| RingBufferModel.PutForceKeepsNewest | rt_ext/ringbuffer.c:107-111 | where the doc comment of put_force holds |
| RingBufferModel.PutForceBreaks | rt_ext/ringbuffer.c:107-157 | everywhere else there are contents and input that refute it |
| RingBufferModel.PutForceExactly | rt_ext/ringbuffer.c:107-157 | the comment holds for all bytes if and only if there is no overflow, or exactly one buffer of data overwrites a wrapped ring |
| RingBufferModel.StepConservesBytes | rt_ext/ringbuffer.c:63-318 | accepted bytes equal returned bytes followed by the contents, kept by every operation but forced writes and reset |
| RingBufferModel.BytesOutArePrefix | rt_ext/ringbuffer.c:63-318 | over every run the bytes out are a prefix of the bytes in and at most buffer_size behind |
| RingBuffers.RingBuffer.constructor | rt_ext/ringbuffer.c:43-57 | init: empty ring, size aligned down to four |
| RingBuffers.RingBuffer.DataLength | rt_ext/ringbuffer.c:303-318 | the number of stored bytes |
| RingBuffers.RingBuffer.SpaceLength | rt_ext/ipc/ringbuffer.h:81 | the number of bytes that still fit |
| RingBuffers.RingBuffer.Put | rt_ext/ringbuffer.c:63-104 | put on the array: result, stored bytes and whole new state |
| RingBuffers.RingBuffer.PutForce | rt_ext/ringbuffer.c:112-157 | put_force on the array, with the source length the overflow case reads |
| RingBuffers.RingBuffer.Get | rt_ext/ringbuffer.c:163-204 | get on the array: result, copied bytes, untouched rest, whole new state |
| RingBuffers.RingBuffer.PutCharacter | rt_ext/ringbuffer.c:210-232 | putchar on the array |
| RingBuffers.RingBuffer.PutCharacterForce | rt_ext/ringbuffer.c:240-269 | putchar_force on the array drops the oldest byte when full |
| RingBuffers.RingBuffer.GetCharacter | rt_ext/ringbuffer.c:275-297 | getchar on the array |
| RingBuffers.RingBuffer.ResetRing | rt_ext/ringbuffer.c:324-332 | nothing is stored |
| SerialRxModel.PutLaw | rt_ext/serial.c:408-445 | new count is min(count+len, bufsz), or len from the full state; put advances around the buffer |
| SerialRxModel.GetLaw | rt_ext/serial.c:386-400 | a read takes its length off the count, also with get resting at bufsz or a stale mark |
| SerialRxModel.OldestLaw | rt_ext/serial.c:345-366 | the count is within bufsz and places the oldest byte behind put |
| SerialRxModel.NoOverflowExactly | rt_ext/drivers/serial.h:128 | no 16-bit index addition overflows if and only if bufsz <= 32768 |
| SerialRxModel.LengthSurvivesExactly | rt_ext/serial.c:1209 | the length in the event word survives if and only if it is below 2^23 |
| SerialRxModel.IdleKeepsAccounts | rt_ext/usart.c:193-212 | the idle handler reports exactly what was unreported |
| SerialRxModel.DoneKeepsAccounts | rt_ext/usart.c:219-236 | the done handler reports exactly what was unreported up to the wrap |
| SerialRxModel.StepKeepsReceiving | rt_ext/serial.c:386-503 | DMA bytes, handlers and reads keep put equal to last_recv_index and the buffer holding the newest bytes of the stream |
| SerialRxModel.CopiedExactly | rt_ext/serial.c:482-500 | for every state, overrun or not, which byte of the stream each returned byte is |
| SerialRxModel.ReadIsSegment | rt_ext/serial.c:482-503 | while unreported bytes have not overrun unread ones, a read returns the oldest of the last reported bytes |
| SerialRxModel.ReadsFollowTheStream | rt_ext/serial.c:482-503 | the same after every run, and the next read goes on where this one ended |
| SerialRxModel.LengthsAreAccounted | rt_ext/usart.c:201-233 | after every run the reports sum to the reported bytes, each within bufsz, put equals last_recv_index, and the next handler closes the gap to the position |
| SerialRxModel.LateDoneMiscounts | rt_ext/usart.c:201-207 | when an idle handler comes before the done handler of a wrap, its length exceeds the buffer exactly when the position is behind the last one |
| SerialRxModel.LateDoneExactly | rt_ext/usart.c:201-233 | from every sound index state, a late idle update followed by the done update ends like the done update in time if and only if get is not between put and the position |
| SerialRxModel.LateDoneAfterRun | rt_ext/usart.c:201-233 | so after every run in which a wrap is pending |
| SerialRxModel.LateDoneRereads | rt_ext/usart.c:201-233 | for every buffer of two bytes or more a run after which the late order makes the next read return a byte already read, and the order in time the next one |
| SerialRxModel.DifferenceSurvives | rt_ext/usart.c:202-207 | an unsigned difference that wrapped comes out of the signed event word as the negative difference |
| IntRxModel.ReceiveDropsOldest | rt_ext/serial.c:1136-1146 | the interrupt appends its byte and loses the oldest exactly at capacity bufsz-1 |
| IntRxModel.TakeByteTakesOldest | rt_ext/serial.c:293-308 | a read takes the oldest byte and finds nothing exactly when nothing is stored |
| IntRxModel.IntStepRefines | rt_ext/serial.c:284-1146 | interrupt and read steps keep FIFO and queue equal |
| IntRxModel.QueueAccounts | rt_ext/serial.c:1140-1146 | in every run of the drop-oldest queue each received byte is read, stored or dropped, the stored ones are the newest, and none is dropped exactly if read and stored bytes are the received ones in order |
| IntRxModel.IntFifoRefinesQueue | rt_ext/serial.c:284-1163 | under every interleaving the FIFO stores and the readers get what that queue stores and gives; equal indices mean empty, the mark means bufsz-1, the indicated length is the stored one |
| IntRxModel.SingleSlotHidesAByte | rt_ext/serial.c:1159-1160 | with bufsz 1 a stored byte is indicated as length 0 |
| IntRxModel.IndicationExactly | rt_ext/serial.c:1159-1163 | the indicated length is the stored one in every run if and only if bufsz > 1 |
| IntRxModel.QuietRead | rt_ext/serial.c:284-317 | without interrupts in between a read returns the oldest min(length, stored) bytes and leaves the rest |
| IntRxModel.BurstKeepsNewest | rt_ext/serial.c:1127-1150 | of a whole burst and what was stored, the queue keeps the newest bytes that fit |
| IntRxModel.ReadTurnsIsRun | rt_ext/serial.c:284-317 | a read with bursts between its turns returns and leaves what that run of the drop-oldest queue does, and stops early only when nothing is stored |
| SerialRx.SerialRxFifo.CalcRecvedLen | rt_ext/serial.c:345-366 | the count |
| SerialRx.SerialRxFifo.UpdateGetIndex | rt_ext/serial.c:386-400 | the get update in place |
| SerialRx.SerialRxFifo.UpdatePutIndex | rt_ext/serial.c:408-445 | the put update in place |
| SerialRx.SerialRxFifo.DmaRx | rt_ext/serial.c:482-503 | the copied bytes are the oldest stored ones, the rest of the target is untouched, the indices follow |
| SerialRx.SerialRxFifo.DmaDoneEvent | rt_ext/serial.c:1203-1231 | put update and indicated length of the RX_DMADONE case |
| SerialRx.SerialRxFifo.StoreByte | rt_ext/serial.c:1136-1146 | one turn of the receive loop on the array, as a drop-oldest append |
| SerialRx.SerialRxFifo.RxIndEvent | rt_ext/serial.c:1127-1163 | after a whole burst the newest bytes of what was stored and what came, as many as fit, and the indicated length |
| SerialRx.SerialRxFifo.FetchByte | rt_ext/serial.c:290-311 | one turn of the read loop takes the oldest byte |
| SerialRx.SerialRxFifo.IntRx | rt_ext/serial.c:284-317 | the read loop with any bytes received between its turns: what it returns and leaves |
| SerialRx.Uart.RxIdleIsr | rt_ext/usart.c:193-212 | last_recv_index becomes the position and the difference, of either sign, is applied, nothing if zero |
| SerialRx.Uart.RxDoneIsr | rt_ext/usart.c:219-236 | last_recv_index becomes 0 and the rest of the turn is reported |
| DmaTxModel.StepKeepsHandShake | rt_ext/serial.c:515-1202 | with one writer, no overrun and no late check, every step keeps the buffer under way equal to the queue head |
| DmaTxModel.WriteLaw | rt_ext/serial.c:515 | a write queues its own buffer and goes to its check, or sleeps with it last in line |
| DmaTxModel.ResumedWriteLaw | rt_ext/serial.c:515 | a writer that slept goes on as a new write with the buffer it was given |
| DmaTxModel.CheckLaw | rt_ext/serial.c:518-530 | after its check a writer has claimed the idle channel for its own buffer, or has returned |
| DmaTxModel.StepKeepsOrder | rt_ext/serial.c:507-1202 | with any number of writers, from a state in order, a step loses the order if and only if it starts a buffer that is not the queue head |
| DmaTxModel.OverrunsExactly | rt_ext/serial.c:515 | a step takes the transmit queue out of first-in first-out form if and only if it is a push that finds all slots used and put behind get |
| DmaTxModel.TxFifoExactly | rt_ext/serial.c:515-1185 | over every run of any writers the transmit queue keeps that form if and only if no push does so |
| DmaTxModel.InOrderExactly | rt_ext/serial.c:507-1202 | over every run of any number of writers without such a push: each buffer is started once, in push order, and reported, at every point of the run if and only if no step starts a buffer that is not the queue head |
| DmaTxModel.UnderWayIsHead | rt_ext/serial.c:1184-1189 | in order, the buffer under way is the head of the queue |
| DmaTxModel.TimelyWriterInOrder | rt_ext/serial.c:507-1202 | one writer whose checks are in time makes no wrong start, so all of that holds |
| DmaTxModel.LateCheckExactly | rt_ext/serial.c:518-525 | with one writer, the start after a check that claims the channel is a wrong one if and only if that check found the queue empty |
| DmaTxModel.AllSent | rt_ext/serial.c:507-1202 | when a run of any number of writers has come to rest in order, with its queue in first-in first-out form, everything pushed was started and reported, in order, and nobody sleeps |
| DmaTxOverflow.TransmitQueueOverflows | rt_ext/serial.c:515-1199 | a schedule of one writer whose 65537th push overflows the transmit queue, and the done interrupt of the buffer under way then reports the new one |
| DmaTxOverflow.TransmitPushesExactly | rt_ext/serial.c:515 | for any number of writers: every schedule of at most n pushes keeps the transmit queue in first-in first-out form if and only if n <= 65536 |
| DmaTxModel.LateCheckSendsTwice | rt_ext/serial.c:515-530 | a schedule of one writer that sends its second buffer twice |
| DmaTxModel.TwoWritersBreakTheOrder | rt_ext/serial.c:515-530 | a schedule of two writers that sends one buffer twice and the other never |
| DmaTxModel.StepKeepsChannel | rt_ext/serial.c:507-1202 | for any number of writers: at most one starter, none while a transfer is under way, and a queue that is not empty has somebody to start it |
| DmaTxModel.NeverStartedWhileBusy | rt_ext/serial.c:518-525 | after every schedule of any number of writers, a thread about to call dma_transmit is the only one and the channel is idle |
| DmaTxModel.NoStall | rt_ext/serial.c:507-1202 | after every schedule of any number of writers, inactive with nobody before its check means empty; and while the queue is not overrun, sleeping writers have a transfer or an awake writer to come |
| DmaTransmit.DmaTransmitter.constructor | rt_ext/serial.c:654-666 | opening for DMA transmit: queue of 8 with low-water mark 4, not activated |
| DmaTransmit.DmaTransmitter.BeginWrite | rt_ext/serial.c:515 | the push of a writer |
| DmaTransmit.DmaTransmitter.ResumeWrite | rt_ext/serial.c:515-516 | the push after sleeping |
| DmaTransmit.DmaTransmitter.CheckActivated | rt_ext/serial.c:518-530 | the writer claims the channel exactly when it was not activated |
| DmaTransmit.DmaTransmitter.StartTransfer | rt_ext/serial.c:525 | the claimed transfer starts |
| DmaTransmit.DmaTransmitter.DmaDoneIsr | rt_ext/serial.c:1175-1202 | the head is popped and reported, the next one started, or the channel released |
| CompletionModel.ApplyValid | rt_ext/completion.c:44-143 | every step keeps at most one sleeper and none while the flag is set |
| CompletionModel.NobodySleepsCompleted | rt_ext/completion.c:116-142 | after every schedule a set flag means an empty wait list, so the early return of done forgets nobody |
| CompletionModel.EnterLaw | rt_ext/completion.c:55-93 | a wait consumes a set flag, fails at once, or sleeps alone with its own timeout |
| CompletionModel.DoneLaw | rt_ext/completion.c:111-143 | a signal sets the flag and wakes the sleeper without an error; a second one changes nothing |
| CompletionModel.TimeoutLaw | rt_ext/completion.c:80-88 | a timeout wakes its thread with the timeout error and leaves the flag alone |
| CompletionModel.ExitLaw | rt_ext/completion.c:95-107 | a thread that wakes up clears the flag and is gone |
| CompletionModel.StepCounts | rt_ext/completion.c:44-143 | how each step moves signals, deliveries and losses; only a stolen signal counts twice |
| CompletionModel.DeliveredExactly | rt_ext/completion.c:44-143 | over every schedule of any threads: no signal is without a delivery, a loss or the flag; each has only one if and only if no resumed wait finds the flag clear; none is lost if and only if no timed-out wait ends after its signal |
| CompletionModel.SoleWaiterKeepsSignals | rt_ext/completion.c:58-59 | one waiting thread never finds its signal taken |
| CompletionModel.SoleWaiterExactly | rt_ext/completion.c:44-143 | with one waiting thread each signal is delivered once or pending if and only if no timed-out wait ends after its signal |
| CompletionModel.OneSignalTwoWaits | rt_ext/completion.c:56-102 | with two waiting threads one signal can end two waits |
| CompletionModel.TimedOutWaitDropsSignal | rt_ext/completion.c:96-102 | a schedule that loses a signal |
| Completions.CompletionObject.constructor | rt_ext/completion.c:32-41 | init |
| Completions.CompletionObject.EnterWait | rt_ext/completion.c:55-93 | wait up to sleeping or returning |
| Completions.CompletionObject.ExitWait | rt_ext/completion.c:95-107 | wait after waking |
| Completions.CompletionObject.Complete | rt_ext/completion.c:111-143 | done |
| IntTxModel.StepKeepsOk | rt_ext/serial.c:331-342 | loop, putc, wait, peripheral and interrupt keep the byte account and the promise of a TC interrupt to a waiting writer |
| IntTxModel.PutcLaw | rt_ext/usart.c:152-161 | the next byte of the caller is written if and only if the register was empty, the interrupt is enabled on either way out, only a written byte moves the loop on and only a refused one makes it wait |
| IntTxModel.TcIsrLaw | rt_ext/usart.c:261-270 | after the interrupt it is off and cleared, the flag is set and a writer that slept can go on |
| IntTxModel.WireIsPrefix | rt_ext/usart.c:152-161 | at every point of every schedule, wire and registers hold what was there before and a prefix of the data: nothing lost, repeated or reordered |
| IntTxModel.SleeperIsOwed | rt_ext/completion.c:56-93 | whenever the writer sleeps the TC interrupt is enabled and a hardware or interrupt step is due |
| IntTxModel.ReturnedIsReady | rt_ext/serial.c:342 | a finished call leaves registers and completion the next call can start from |
| IntTxModel.RunSpendsBudget | rt_ext/serial.c:331-339 | every step of every schedule uses up a finite budget |
| IntTxModel.StillMeansSent | rt_ext/usart.c:261-270 | a state in which nothing can happen is one where all data has been sent |
| IntTxModel.EveryScheduleSends | rt_ext/serial.c:320-342 | every schedule ends within ten steps a byte and a constant, returned and with exactly the data on the wire |
| IntTransmit.IntTransmitter.constructor | rt_ext/serial.c:667-680 | a call on freshly opened hardware starts from a ready state |
| IntTransmit.IntTransmitter.TestLoop | rt_ext/serial.c:331-341 | the loop ends exactly when no byte is left |
| IntTransmit.IntTransmitter.TestTxe | rt_ext/usart.c:154 | the TXE test |
| IntTransmit.IntTransmitter.WriteData | rt_ext/usart.c:159 | the data register write |
| IntTransmit.IntTransmitter.EnableInterrupt | rt_ext/usart.c:156-160 | the TC interrupt is enabled on either way out, -1 exactly if the register was full |
| IntTransmit.IntTransmitter.BeginWait | rt_ext/serial.c:335 | the writer sleeps exactly if the flag is clear |
| IntTransmit.IntTransmitter.EndWait | rt_ext/serial.c:335-336 | the writer goes back to the loop |
| IntTransmit.IntTransmitter.UartTcIsr | rt_ext/usart.c:261-270 | signal first, then disable, then clear |
| WorkQueueModel.StepKeepsListValid | rt_ext/workqueue.c:60-248 | every step keeps the pending list duplicate-free and without the current work |
| WorkQueueModel.StepConserves | rt_ext/workqueue.c:60-248 | every step keeps: times queued = times run + times cancelled + pending, for each work |
| WorkQueueModel.ListOverRuns | rt_ext/workqueue.c:60-248 | both after every schedule of any threads, so no queued work is lost or run twice |
| WorkQueueLaws.DoWorkLaw | rt_ext/workqueue.c:140-159 | a work that is not being run is last on the list afterwards, once, with the others in their order before it, whatever the worker is doing; the worker is to be resumed exactly when it runs nothing |
| WorkQueueLaws.CancelLaw | rt_ext/workqueue.c:200-209 | exactly the named work goes off the list, and is counted as cancelled if it was there |
| WorkQueueLaws.CancelSyncWaits | rt_ext/workqueue.c:219-224 | a cancel_work_sync that meets its work running is last among the waiters for that very run and can do nothing before it is released |
| WorkQueueLaws.CancelSyncLaw | rt_ext/workqueue.c:225-228 | otherwise it cancels exactly the named work |
| WorkQueueLaws.CancelAllLaw | rt_ext/workqueue.c:239-245 | cancelling all is cancelling the pending works one by one until none is left |
| WorkQueueLaws.TakeLaw | rt_ext/workqueue.c:80-84 | the worker takes the first work and runs it |
| WorkQueueLaws.RunLaw | rt_ext/workqueue.c:87-94 | after a run the worker has released every waiting thread and is back at its test |
| WorkQueueLaws.WakeLaw | rt_ext/workqueue.c:72-76 | a resume makes a sleeping worker take, and affects no other |
| WorkQueueLaws.RunsInOrder | rt_ext/workqueue.c:70-95 | left alone, the worker runs the pending works in the order of the list, each once |
| WorkQueueModel.StepKeepsWaiting | rt_ext/workqueue.c:30-229 | every step keeps the semaphore at 0 between drains and its waiters waiting for the latest run |
| WorkQueueModel.SyncCancelReturnsLate | rt_ext/workqueue.c:219-229 | after every schedule, a cancel_work_sync that waited can return only after the function of the very run it met has returned |
| WorkQueueModel.SyncCancelIsReleased | rt_ext/workqueue.c:87-94 | and in every reachable state the worker's next steps release it |
| WorkQueueModel.TendedExactly | rt_ext/workqueue.c:70-159 | pending work always has somebody to wake the worker and a worker about to take finds work, if and only if no resume or cancellation of the neglecting kinds occurs |
| WorkQueueModel.MissedWakeForgets | rt_ext/workqueue.c:72-76 | a resume between test and suspension leaves work behind a sleeping worker |
| WorkQueueModel.CancelledWakeBreaks | rt_ext/workqueue.c:80-83 | a cancellation after the wake-up makes the worker take from an empty list |
| WorkQueueModel.LateResumeBreaks | rt_ext/workqueue.c:152-157 | so does, with no cancellation at all, a resume that comes after the work was run |
| WorkQueues.SemaphoreObject.CompleteWaiters | rt_ext/workqueue.c:30-59 | the loop ends, wakes every waiter and leaves the semaphore at 0 |
| WorkQueues.WorkQueueObject.constructor | rt_ext/workqueue.c:98-122 | create |
| WorkQueues.WorkQueueObject.Look | rt_ext/workqueue.c:72 | the worker's test |
| WorkQueues.WorkQueueObject.TakeFirst | rt_ext/workqueue.c:80-84 | the worker's take |
| WorkQueues.WorkQueueObject.Clear | rt_ext/workqueue.c:88-91 | the worker clears the current work |
| WorkQueues.WorkQueueObject.Acknowledge | rt_ext/workqueue.c:94 | the worker drains the semaphore |
| WorkQueues.WorkQueueObject.Submit | rt_ext/workqueue.c:140-159 | busy exactly for the current work, else the work moves to the end of the list |
| WorkQueues.WorkQueueObject.Resume | rt_ext/workqueue.c:156 | only a sleeping worker is affected |
| WorkQueues.WorkQueueObject.Cancel | rt_ext/workqueue.c:200-209 | busy exactly for the current work, else it is off the list |
| WorkQueues.WorkQueueObject.BeginCancelSync | rt_ext/workqueue.c:219-229 | the caller sleeps exactly if the work is current |
| WorkQueues.WorkQueueObject.CancelEverything | rt_ext/workqueue.c:239-245 | the loop ends with an empty list and every pending work counted as cancelled |

## Left out

- The emptiness tests of `rt_data_queue_reset` (rt_ext/dataqueue.c:291 and 315) lie outside its interrupts-off regions; test and resume are one step here.
- `evt_notify`, `rx_indicate` and `tx_complete` appear only through the values passed to them.
- The pointer `tx_complete` gets when the pop of the done interrupt found nothing is uninitialised in the source (rt_ext/serial.c:1179-1199); such a call is not recorded.
- Calls of the message FIFO class that overlap: a sequential class runs them one after another, except that threads may sleep in `msg_pop`; overlapping calls are the runs of `MsgFifoModel` and `MsgFifoMessages`.
- The null checks after the pops of the message FIFO cannot fire: a unit is known by its number, which is never null.
- The DMA receive mode with `bufsz` 0 (rt_ext/serial.c:458-479).
- `rt_completion_done` tests the flag before its region (rt_ext/completion.c:116); test and region are one step, which is the same as seeing the flag at either place.
- The TC interrupt is one step: the peripheral is idle while TC is set and no thread runs inside the handler.
- `rt_workqueue_critical_work` has the code of `rt_workqueue_dowork`; the insertion of a work that is on another queue's list is not modelled.
- `rt_workqueue_cancel_all_work` only locks the scheduler; an interrupt handler that queues work in the middle of its loop is not modelled.
- What the worker does after it took from an empty list.
- Several writers in the interrupt transmit path: `rt_completion_wait` asserts that there is only one waiting thread.
- Allocation failures and the destroy paths.
- Hardware set-up, polling modes, open and close, termios and POSIX parts, pipes and wait queues, I2C, configuration storage and string utilities.
