# A verified model of the cxk server framework

The framework is a C++ fiber scheduler with an epoll IO manager, timers, hooked blocking calls, and the
buffers, codecs and caches built on it. This project models its hardest parts in Dafny and proves what
they promise, for all inputs, all runs and all interleavings. Where the code does not do what its own
documentation says, the code is modelled as it is, and the exact condition under which it does is proved.

## Components

**Park and wake** (`ParkWake`, `Ownership`, `OwnershipProof`, `NoLostWake`, `WakeTheorems`, `Callbacks`,
`Shutdown`, `StopRace`, `Pinning`, `Progress`, `SemaphoreRuns`). Any number of worker threads share one queue; fibers park in event slots,
semaphore lists and one-shot timers and are put back by readiness, timeout, cancellation or a notify.
This is a labelled step relation on values, because the subject is the interleaving of many threads over
several files: one label is one critical section or one thread-local stretch of code. `YieldToHold`, the
switch and the bookkeeping after it are one step, and so are the two `schedule` calls by which cancelling all
events of a descriptor, or dispatching an event on it, puts back its reader and its writer
(iomanager.cpp:264-271, 383-391). Everything else is split, in particular the decrement of the active counter
and the re-queueing of a READY fiber after it. `epoll_ctl` may succeed or fail. A fiber is scheduled by hand
when it is new, or parked with nobody left to wake it. The invariant is linear: every fiber and every callback
is a token held at no more than one place.

**Events** (`EventTable`, `EventEffects`, `KernelInterest`, `IoManagers`). The per-descriptor event bits, waiters, pending
counter and the kernel's interest set, as a class with in-place methods proved against a value model.

**Semaphores** (`FiberSemaphores`) and **timers** (`Timers`, `TimerRuns`, `TimerLaws`, `TimerManagers`). Timers live in a
set ordered on a deadline that the operations themselves change; lookups compare with the current deadlines.

**Byte array** (`Blocks`, `Buffers`, `ByteArrays`, `Fields`). A singly linked chain of fixed-size nodes with
a cursor refines a value (blocks, cursor index, position, size), which is compared with one flat sequence.
The growth formula and the read loop are kept as they stand; a null dereference is an explicit outcome.

**Codecs** (`Bits`, `Varints`, `Streams`, `Rock`, `RockCodec`, `WebSocket`, `WsSessions`, `WireLayouts`). Variable-length and
zigzag integers, Rock messages and WebSocket frames (sections 5.2 to 5.5 of RFC 6455), over a transport
that moves any positive part of what is asked, or fails.

**Caches** (`LruLists`, `LruEviction`, `LruCaches`, `HashLruCaches`). A map to list nodes refines a recency-ordered list of
pairs; the sharded cache routes every key to one of several.

## Where the code departs from its documentation

- `addCapacity` does not round up (bytearray.cpp:535): it leaves room exactly under `Blocks.Room`. A Rock
  frame whose payload is longer than one block is therefore a crash unless its length is a multiple of 4096.
- A Rock payload of exactly 4096 bytes that ends in an empty string crashes the receiver: reading the length of
  the string leaves the cursor null, and the read of its 0 bytes follows it (bytearray.cpp:343, 403). A
  response with three one-byte integers, a result string of 4076 bytes and no body is one
  (`RockCodec.CrashingFrame`); no shorter payload crashes, whatever its bytes (`Rock.ShortNeverCrashes`).
- `read` keeps the remaining capacity of the first node (bytearray.cpp:415-422): `Blocks.ReadSafe` is the
  exact condition for the right result. Reading 0 bytes at the capacity follows a null pointer.
- `clear` leaves the size as it is (bytearray.cpp:348-360; the header says 0): `Buffers.ClearSound`.
- The dispatch loop triggers every registered event, ready or not (iomanager.cpp:381-391): kernel and table
  stay in agreement exactly when everything registered was ready. After any other dispatch the descriptor is
  never registered again: `addEvent` issues an ADD that the kernel refuses, and no call ends that
  (`KernelInterest.JamLasts`). An error or hang-up changes the first event of the batch, not the one at hand
  (iomanager.cpp:357), so on its own it wakes a descriptor only in that place.
- `IOManager::stopping` reads timers, events and queue one after the other, and each worker reads them on its
  own (iomanager.cpp:295-304, 315-320). Something registered from outside before `stop` can be left behind;
  with two workers or more so can the event, timer or sleep of a fiber that is picked up again after each
  worker has ended its idle fiber. `StopRace.StopsCleanIff` is the exact condition.
- `Stream::writeFixSize` on memory keeps the result of a transfer unsigned (stream.cpp:39-40), so a failed
  transfer is not recognised: the offset moves back and bytes are sent again, or it leaves the buffer. A
  call that succeeds has sent its data if and only if no transfer failed (`Streams.Stream.WriteFixSize`). On a
  closed connection the transfer returns -1 without touching the buffer (socket_stream.cpp:41-42), and the
  loop does not end.
- A WebSocket fragment without payload ends the connection, on both sides. A client masks the message it
  sends in place, so that the same message cannot be sent twice (`WebSocket.ResendIsOriginalIff`).
- `writeStringVint` writes a fixed 64-bit length, not a variable one (bytearray.cpp:204-207).
- `LruCache::get` returns the value converted to a truth value (lru_cache.h:72); the model returns the hit.
- The `HashLruCache` constructor assigns its own parameter instead of the member `m_elasticity`
  (lru_cache.h:207-213), which stays unset; the buckets do get their elasticity, and the model has no such
  member.

## Model

| member | source | states |
|---|---|---|
| `WakeTheorems.OneWakeUp` | cxk/scheduler.cpp:86-127 | in every state of every run a fiber or callback is in at most one queue entry, event slot, waiter list, timer, expired batch or worker's hand |
| `WakeTheorems.NoDoubleRun` | cxk/scheduler.cpp:117-127 | no fiber is executed by two threads at once, and the fiber a thread executes is in EXEC |
| `WakeTheorems.FiberAssertionsHold` | cxk/fiber.cpp:93-130 | the state assertions of `reset` and `swapIn` cannot fail: a picked fiber is not executing, the spare callback fiber is INIT and the idle fiber INIT, HOLD or TERM at the loop head |
| `WakeTheorems.WakeUpNotLost` | cxk/hook.cpp:115-206 | a pending wake-up stays pending, wherever it moves, until a step uses it up |
| `WakeTheorems.InvStep` | cxk/scheduler.cpp:69-166 | every step of every worker, task, outside thread and idle fiber keeps linear ownership and the worker states |
| `OwnershipProof.InvLoop` | cxk/scheduler.cpp:81-166 | the steps of the worker loop keep the invariant, with the decrement before the re-queueing of a READY fiber |
| `OwnershipProof.InvArm` | cxk/hook.cpp:115-206 | handing out a wake-up for oneself (event, sleep timer, semaphore, `switchTo`) keeps the invariant |
| `OwnershipProof.InvApi` | cxk/iomanager.cpp:119-275 | add, delete and cancel of events and timers, notify and schedule keep the invariant |
| `OwnershipProof.InvIdle` | cxk/iomanager.cpp:307-400 | collecting timers, dispatching events and deciding to stop keep the invariant |
| `OwnershipProof.SkipDeadNever` | cxk/scheduler.cpp:117-118 | a picked fiber has never ended already, so the branch that throws one away is dead |
| `Pinning.PinRespected` | cxk/scheduler.cpp:86-110 | over every run: a task submitted for a thread is, until it is started, in a queue entry with that pin or in the hand of that thread and nowhere else, and only that thread starts it |
| `Pinning.PinnedCallback` | cxk/scheduler.cpp:86-146 | over every run: a callback submitted for a thread still waits for it, or was started by that thread |
| `Pinning.PinsComeFromCallers` | cxk/scheduler.h:46-57 | over every run: a pinned entry was submitted with that pin by a caller; woken and re-queued fibers have none |
| `Pinning.ScanMissesNothing` | cxk/scheduler.cpp:86-110 | a worker that finds an entry without a pin, or pinned to itself, whose fiber is not in EXEC neither enters its idle fiber nor leaves, and takes the first such entry |
| `Pinning.ScanTakesOwn` | cxk/scheduler.cpp:86-110 | what a worker takes has no pin or its own, is not a fiber in EXEC, and leaves the rest of the queue in order |
| `Pinning.QueueStep` | cxk/scheduler.h:46-75 | first in, first out: every step takes at most the entry picked and adds only at the back |
| `Progress.NeverStuck` | cxk/scheduler.cpp:81-166 | in every state of every run each worker that has not left has a step of its own; with a task in hand it can start it |
| `Progress.ParkedFibers` | cxk/fiber.cpp:93-130 | over every run: a fiber waiting in a slot, a waiter list, a timer or a batch is in HOLD, or still runs, has handed out its wake-up and yields next |
| `Progress.SleeperQueued` | cxk/hook.cpp:169-206 | over every run: once the callback of a sleep timer is started its worker can only put an entry at the end of the queue that resumes the sleeper |
| `SemaphoreRuns.SemaphoreRefined` | cxk/mutex.cpp:50-88 | over every run of the scheduler each semaphore has the permits and waiters to which the calls made on it lead |
| `SemaphoreRuns.NotifyResumesFirst` | cxk/mutex.cpp:79-88 | `notify` puts the fiber that has waited longest at the end of the queue, for any worker |
| `Callbacks.CallbackExactlyOnce` | cxk/scheduler.cpp:128-146 | a submitted callback is held at one place, was started exactly once, or was dropped, and these exclude each other |
| `Shutdown.CountersExact` | cxk/scheduler.cpp:100-164 | the active counter is the number of threads inside a picked task, the idle counter that of threads inside the idle fiber |
| `Shutdown.NoTaskLost` | cxk/scheduler.cpp:81-184 | when the last worker has left `run` only pinned entries are queued, no fiber is in EXEC, and every callback was started exactly once, dropped, or waits in a slot, timer or pinned entry |
| `OwnershipProof.InvWakeParked` | cxk/scheduler.h:46-57 | scheduling by hand a parked fiber that no slot, list, timer or queue entry holds keeps the invariant |
| `StopRace.StopsCleanIff` | cxk/iomanager.cpp:295-320 | for n workers, when nothing comes from outside after `stop`: no run leaves a timer or an event behind if and only if nothing is ever registered, or n = 1 and nothing is registered from outside the pool |
| `StopRace.LeftFromOutside` | cxk/iomanager.cpp:295-304 | for every number of workers and every way to register from outside there is a run that leaves it behind |
| `StopRace.LeftByTask` | cxk/scheduler.cpp:117-166 | with two workers or more, for every way in which a task registers there is a run that leaves it behind, without anything from outside |
| `StopRace.SoloLeavesNothing` | cxk/iomanager.cpp:295-304 | with one worker, and timers and events registered only by its tasks, queue, timers and slots are empty when it has left |
| `EventTable.Conservation` | cxk/iomanager.cpp:119-275 | over every run, per waiter: adds = still registered + scheduled + deleted; the pending counter is the number of registered bits |
| `EventTable.ValidStep` | cxk/iomanager.cpp:119-392 | every call keeps bits, waiters, counter and history in agreement |
| `EventTable.Grown` | cxk/iomanager.cpp:119-130 | growing the context table keeps the old contexts, adds empty ones, and always covers the descriptor |
| `EventEffects.AddEffect` | cxk/iomanager.cpp:119-166 | succeeds exactly when the event is free, the call is allowed and the kernel knows the descriptor just when the other event is registered; then the waiter is in the slot of its event and nothing else has changed |
| `EventEffects.CancelEffect` | cxk/iomanager.cpp:207-236 | succeeds exactly when the event is registered; then exactly its waiter is scheduled, none is deleted, its slot is empty, the other is kept, the counter is one lower and the kernel watches the rest; otherwise nothing changes |
| `EventEffects.DelEffect` | cxk/iomanager.cpp:169-201 | the same, but the waiter is deleted and nobody is scheduled |
| `EventEffects.CancelAllEffect` | cxk/iomanager.cpp:239-275 | reader and writer are scheduled in this order, both slots are empty and the kernel forgets the descriptor; otherwise nothing changes |
| `EventEffects.RegistrationLasts` | cxk/iomanager.cpp:119-391 | a registration lasts until a call on its descriptor ends it, which schedules its waiter unless it is `delEvent` |
| `EventEffects.NobodyForgotten` | cxk/iomanager.cpp:119-275 | over every run without `delEvent` nothing is deleted: per waiter, adds = still registered + scheduled |
| `KernelInterest.IssuedIsLegal` | cxk/iomanager.cpp:138-233 | while table and kernel agree, the ADD, MOD or DEL issued is the legal one |
| `KernelInterest.DispatchAgreesIff` | cxk/iomanager.cpp:373-391 | a dispatch keeps the agreement if and only if everything registered was ready |
| `KernelInterest.PartialDispatchJams` | cxk/iomanager.cpp:373-391 | after any other dispatch the descriptor is jammed: nothing is registered on it and the kernel still watches it |
| `KernelInterest.JamLasts` | cxk/iomanager.cpp:138-151 | on a jammed descriptor every `addEvent` fails, and it is jammed after every further call |
| `KernelInterest.KernelAgreesIff` | cxk/iomanager.cpp:119-391 | over every run the kernel watches exactly the registered bits if and only if every dispatch found everything registered ready; otherwise some descriptor is jammed |
| `KernelInterest.KernelAgreement` | cxk/iomanager.cpp:119-391 | over every run whose dispatches were covering, the next operation issued is legal |
| `IoManagers.ErrorWakesIffFirst` | cxk/iomanager.cpp:355-372 | an event that reports only an error wakes its descriptor if and only if it is the first of the batch |
| `IoManagers.HandledValid` | cxk/iomanager.cpp:346-392 | the dispatch loop keeps conservation after any number of events |
| `IoManagers.EventWakes` | cxk/iomanager.cpp:355-391 | an event at any place of the batch wakes its descriptor if and only if it reports input with a reader registered, or output with a writer registered, or is the first and reports an error with anything registered; then exactly reader and writer are scheduled, and the kernel keeps the registered bits not reported; otherwise nothing changes |
| `IoManagers.BatchWakes` | cxk/iomanager.cpp:346-392 | for a batch that names each descriptor once, with the kernel in agreement: scheduled are exactly the waiters of the waking events, in the order of the batch; the descriptors woken are empty and all others untouched |
| `IoManagers.IoManager.AddEvent` | cxk/iomanager.cpp:119-166 | the in-place method is the value model's add: it aborts exactly when the event is registered, and on success stores exactly the waiter in its slot |
| `IoManagers.IoManager.DelEvent` | cxk/iomanager.cpp:169-201 | on success appends exactly the waiter to those deleted, schedules nobody, empties its slot, keeps the other and lowers the counter; otherwise changes nothing |
| `IoManagers.IoManager.CancelEvent` | cxk/iomanager.cpp:207-236 | on success appends exactly the waiter to those scheduled, deletes nobody, empties its slot, keeps the other and lowers the counter; otherwise changes nothing |
| `IoManagers.IoManager.CancelAll` | cxk/iomanager.cpp:239-275 | on success schedules reader and writer, empties both slots and the kernel's registration; otherwise changes nothing |
| `IoManagers.IoManager.TriggerEvent` | cxk/iomanager.cpp:38-50 | clears the bit and empties the slot into the scheduler |
| `IoManagers.IoManager.DispatchOne` | cxk/iomanager.cpp:373-391 | the in-place body of the loop is the value model's dispatch and edits no other event of the batch |
| `IoManagers.IoManager.DispatchLoop` | cxk/iomanager.cpp:346-392 | the loop over the ready events, with the edit of the first event, is the fold of single dispatches, and wakes exactly the waiters that `BatchWakes` names |
| `FiberSemaphores.Conservation` | cxk/mutex.cpp:50-88 | over every run: permits + grants = initial + notifies, a free permit means nobody waits, fibers resume in arrival order, and grants = min(requests, permits) |
| `FiberSemaphores.NoOvertaking` | cxk/mutex.cpp:50-75 | while a fiber waits, `tryWait` and `wait` take no permit |
| `FiberSemaphores.BalanceLaw` | cxk/mutex.cpp:50-88 | over every run the permits are the positive part, and the number of waiters the negative part, of initial plus notifies less waits and successful tries |
| `FiberSemaphores.FiberSemaphore.TryWait` | cxk/mutex.cpp:50-60 | takes a permit exactly when there is one, and changes nothing else |
| `FiberSemaphores.FiberSemaphore.Wait` | cxk/mutex.cpp:64-75 | takes a permit, or joins the end of the waiters exactly when there is none |
| `FiberSemaphores.FiberSemaphore.Notify` | cxk/mutex.cpp:79-88 | schedules and removes the first waiter, or adds a permit when nobody waits |
| `Timers.LookupSucceeds` | cxk/timer.cpp:29-77 | the lookup in the set finds exactly the timers whose callback is there, although deadlines change |
| `Timers.FindFinds` | cxk/timer.cpp:7-15 | in a set sorted by the current deadlines, lookup finds exactly the elements |
| `Timers.ValidCancel` | cxk/timer.cpp:29-38 | cancelling keeps the set in order and clears the callback |
| `Timers.ValidRefresh` | cxk/timer.cpp:40-51 | refreshing keeps the set in order |
| `Timers.ValidReset` | cxk/timer.cpp:54-77 | resetting keeps the set in order |
| `Timers.ExpiredExactly` | cxk/timer.cpp:150-162 | the search key splits the set exactly at now, whatever its address |
| `Timers.HandedOutExactly` | cxk/timer.cpp:136-179 | without a rollback exactly the timers with deadline at or before now are handed out, in deadline order; after a rollback all |
| `Timers.ExpiredEffect` | cxk/timer.cpp:166-179 | recurring timers are due one period after now and back in the set, one-shot ones lose their callback, no other timer is touched |
| `TimerRuns.DeliveredAtMostOnce` | cxk/timer.cpp:29-179 | over every run: in the set exactly when the callback is there; a one-shot timer is handed out at most once and never once cancelled |
| `TimerRuns.DeadForGood` | cxk/timer.cpp:29-77 | a cancelled or spent timer stays dead and nothing is handed out for it again |
| `TimerRuns.NoLostWakeUp` | cxk/timer.cpp:118-194 | with a clock that never goes back, whenever a timer is due before the deadline last seen, a front notification has been sent since |
| `TimerRuns.WaitIsExact` | cxk/timer.cpp:118-131 | the wait returned ends exactly at the first moment some timer is due; no limit only if no timer is alive |
| `TimerLaws.DueExactly` | cxk/timer.cpp:136-179 | over every run and any clock: a check hands out a timer if and only if it is in the set and its period has passed since it was last added, refreshed, reset from now or handed out; or the clock has gone back by more than 3600000 ms since the last check, or at all from below that |
| `TimerLaws.DeadlineLaw` | cxk/timer.cpp:18-77 | over every run: a live timer is due one period after its period began, whatever adds, refreshes, resets and expiries made them; a reset that keeps the start changes only the period |
| `TimerLaws.FirstExpiry` | cxk/timer.cpp:18-21 | a timer added at T with period d and left alone is handed out by a check exactly when it is made at T + d or later, unless the clock has stepped back |
| `TimerLaws.CallbackLaw` | cxk/timer.cpp:18-38 | over every run a live timer has the callback and kind it was added with |
| `Timers.FrontIff` | cxk/timer.cpp:182-194 | a timer is at the front if and only if all others are due later, or at the same time with a higher address |
| `TimerManagers.TimerManager.AddTimer` | cxk/timer.cpp:96-103 | the timer is due at now + ms with its callback, joins the set, leaves all others alone, and the notification is sent exactly when it is first and none is pending |
| `TimerManagers.TimerManager.Add` | cxk/timer.cpp:182-194 | inserts in order and notifies once when the timer is first |
| `TimerManagers.TimerManager.Cancel` | cxk/timer.cpp:29-38 | takes a live timer out and clears its callback, leaving all others; false exactly when it is dead |
| `TimerManagers.TimerManager.Refresh` | cxk/timer.cpp:40-51 | a live timer is due one period after now; a dead one changes nothing |
| `TimerManagers.TimerManager.Reset` | cxk/timer.cpp:54-77 | a live timer gets the new period, counted from now or from where its old period began; notifies when it becomes first |
| `TimerManagers.TimerManager.GetNextTimer` | cxk/timer.cpp:118-131 | clears the notification mark and returns the wait |
| `TimerManagers.TimerManager.ListExpiredCb` | cxk/timer.cpp:136-179 | hands out the callbacks of the taken timers in order; recurring ones are due one period after now, one-shot ones lose their callback, all others are untouched |
| `Blocks.GrowthIsEnoughIff` | cxk/bytearray.cpp:524-554 | the growth formula leaves room for n bytes if and only if they fit already, or the shortfall modulo the block size is 0 or exceeds the old free space |
| `Blocks.GrowthIsLeast` | cxk/bytearray.h:340-341 | where it leaves room it adds no more blocks than needed |
| `Blocks.ReadExactIff` | cxk/bytearray.cpp:397-424 | the read loop returns the flat slice for all contents if and only if it starts on a block boundary or takes at most twice the bytes left in the first block |
| `Blocks.TakeFar` | cxk/bytearray.cpp:415-422 | otherwise concrete contents for which it returns something else or runs behind the last block |
| `Blocks.PutIsSplice` | cxk/bytearray.cpp:362-395 | the write loop overwrites the flat view at the position, across any number of blocks, and leaves the cursor on the block of the new position |
| `Blocks.PutFits` | cxk/bytearray.cpp:362-395 | it succeeds if and only if the data fits behind the cursor |
| `Blocks.SyncedCursor` | cxk/bytearray.cpp:458-476 | the cursor in place is block position / base, and null exactly at capacity |
| `Buffers.WriteSucceedsIff` | cxk/bytearray.cpp:362-395 | a write succeeds if and only if the growth formula left room |
| `Buffers.WriteOverwrites` | cxk/bytearray.cpp:362-395 | a write splices the stored bytes at the position, extends the size, and keeps the cursor in place |
| `Buffers.ReadGives` | cxk/bytearray.cpp:397-424 | in the safe range a read returns the next bytes and moves behind them |
| `Buffers.ReadOne` | cxk/bytearray.cpp:222-226 | one byte is always in the safe range; at the end it throws |
| `Buffers.ReadNothingFaultsIff` | cxk/bytearray.cpp:402-403 | reading 0 bytes follows the null cursor exactly at capacity |
| `Buffers.SetPosSyncs` | cxk/bytearray.cpp:458-476 | moving the position puts the cursor on its block, wherever it was |
| `Buffers.ClearSound` | cxk/bytearray.cpp:348-360 | after `clear` the size is backed by blocks iff it was at most one block, and 0 iff it was 0 |
| `Buffers.TilesAreSlice` | cxk/bytearray.cpp:585-614 | the iovecs concatenate to exactly the requested range of the flat view |
| `Buffers.ScatterIsSplice` | cxk/bytearray.cpp:654-683 | data received through the iovecs, whole or partial, overwrites the flat view at the position |
| `Buffers.ReadTilesAreReadable` | cxk/bytearray.cpp:585-614 | the read list is the next readable bytes, at most as many as asked |
| `Buffers.WriteTilesIff` | cxk/bytearray.cpp:654-683 | the write list exists if and only if the growth formula left room |
| `Buffers.ReceivedWrote` | cxk/stream/socket_stream.cpp:28-38 | receiving through the write list and moving the position is writing the received bytes |
| `ByteArrays.ByteArray.AddCapacity` | cxk/bytearray.cpp:524-554 | appends the computed number of nodes to the chain and repairs a null cursor |
| `ByteArrays.ByteArray.Write` | cxk/bytearray.cpp:362-395 | the linked form refines the value form, including the null dereference |
| `ByteArrays.ByteArray.ReadBytes` | cxk/bytearray.cpp:397-424 | the linked form refines the value form, including `out_of_range` and the null dereference |
| `ByteArrays.ByteArray.SetPosition` | cxk/bytearray.cpp:458-476 | walks the chain to the node of the position, or throws |
| `ByteArrays.ByteArray.Clear` | cxk/bytearray.cpp:348-360 | keeps the first node only and leaves the size |
| `ByteArrays.ByteArray.GetReadBuffers` | cxk/bytearray.cpp:585-614 | returns the pieces of storage of the read list |
| `ByteArrays.ByteArray.GetWriteBuffers` | cxk/bytearray.cpp:654-683 | grows and returns the pieces of storage of the write list |
| `Varints.VarintRoundTrip` | cxk/bytearray.cpp:146-173 | reading back any value of any width, with anything behind it, gives the value and uses exactly its bytes |
| `Varints.DecodeMeaning` | cxk/bytearray.cpp:273-303 | on every input the read loop takes the bytes up to the first clear top bit, at most the group count, and returns their value cut to the width |
| `Varints.EncodeFits` | cxk/bytearray.cpp:146-173 | 32-bit values take 1 to 5 bytes, 64-bit values 1 to 10 |
| `Varints.ZigzagRoundTrip` | cxk/bytearray.cpp:116-138 | the shift-and-xor decoder undoes the arithmetic encoder over the whole signed range under wrap-around |
| `Varints.ZigzagOnto` | cxk/bytearray.cpp:116-138 | the encoder undoes the decoder, so the mapping is a bijection |
| `Varints.ZigzagMeaning` | cxk/bytearray.cpp:116-130 | non-negative numbers go to even codes, negative ones to odd codes, the least included |
| `Fields.ReadUintDecodes` | cxk/bytearray.cpp:273-303 | in every buffer with its cursor in place, across blocks, reading decodes the readable bytes and moves behind those used |
| `Fields.FixedRoundTrip` | cxk/bytearray.cpp:66-114 | fixed-width integers survive the round trip |
| `Fields.SwapStoresBig` | cxk/endian.h:12-31 | storing the swapped integer puts the most significant byte first |
| `Fields.SwapLoadsBig` | cxk/endian.h:12-31 | swapping a loaded integer reads the most significant byte first |
| `Fields.WriteUint` | cxk/bytearray.cpp:146-173 | the bit loop stays inside its temporary array and writes the encoding |
| `Fields.ReadUint` | cxk/bytearray.cpp:273-303 | the loop over single reads is the value form |
| `Fields.WriteString` | cxk/bytearray.cpp:204-207 | writes a fixed 64-bit length and the bytes |
| `Fields.ReadString` | cxk/bytearray.cpp:340-345 | the two reads are the value form |
| `Streams.Stream.ReadFixSize` | cxk/stream.cpp:5-18 | for every split: all bytes in order, or no positive result; over a transport that does not fail exactly when enough bytes come |
| `Streams.Stream.WriteFixSize` | cxk/stream.cpp:35-48 | for every split and every finite number of failed transfers: a call that succeeds sent exactly its data if and only if no transfer failed, and otherwise more; it leaves its buffer only after a failed one, and does not end exactly on a closed connection |
| `Streams.DeliveredIff` | cxk/stream.cpp:35-48 | what callers conclude: exactly the data went out if and only if the number of failures is unchanged |
| `Streams.Stream.ReadInto` | cxk/stream/socket_stream.cpp:28-38 | scatters what arrives behind the position; faults exactly when there is no room |
| `Streams.Stream.ReadFixInto` | cxk/stream.cpp:21-31 | for every split the bytes are written at the position; faults exactly when the growth formula leaves no room |
| `Streams.Stream.WriteFrom` | cxk/stream/socket_stream.cpp:46-56 | for any length asked: sends a prefix of the readable bytes and moves behind exactly it, or changes nothing |
| `Streams.Stream.WriteFixFrom` | cxk/stream.cpp:50-60 | for every split and any length asked the readable bytes go out in order; a positive result means all of it and no failed transfer; more than is readable ends as an error after sending that |
| `Rock.PayloadRoundTrip` | cxk/rock/rock_protocol.cpp:197-304 | a payload held in one block, whatever follows it there: the message comes back, except that the parser crashes if and only if the block is full, nothing follows and the last string is empty |
| `Rock.PayloadIsPlain` | cxk/rock/rock_protocol.cpp:236-257 | whatever the bytes in one block, parsing the byte array is parsing the plain bytes, with the null cursor of a full block as the only difference |
| `Rock.ShortNeverCrashes` | cxk/rock/rock_protocol.cpp:236-257 | a payload shorter than its block never crashes the parser, whatever its bytes |
| `RockCodec.ToByteArray` | cxk/protocol.cpp:8-78 | the fields of the message are stored in order; succeeds for every payload of at most one block |
| `RockCodec.SerializeTo` | cxk/rock/rock_protocol.cpp:273-304 | on success exactly the frame went out if and only if no transfer failed; over a transport that does not fail every uncompressed message is sent; crashes only after a failed transfer, hangs exactly on a closed connection |
| `RockCodec.ParseFrom` | cxk/rock/rock_protocol.cpp:197-269 | over a transport that does not fail the result is the verdict on the incoming bytes: rejected, parsed as plain bytes up to one block, a crash for a longer one that is no multiple of a block; over any other that verdict or a rejection; it takes exactly the frame |
| `RockCodec.FrameRoundTrip` | cxk/rock/rock_protocol.cpp:197-304 | the verdict on the frame of a message of at most one block is that message, whatever follows, or a crash if and only if the payload fills the block and ends in an empty string |
| `RockCodec.CrashingFrame` | cxk/bytearray.cpp:340-345 | a family of responses whose frames crash the receiver |
| `RockCodec.OnlyFullBlocksCrash` | cxk/rock/rock_protocol.cpp:197-269 | for any incoming bytes, a crash verdict means a length of exactly one block, or longer and no multiple of it |
| `WireLayouts.HeaderLayout` | cxk/rock/rock_protocol.cpp:192-194 | the eight bytes of a header: 0xab, 0xcd, version 1, flag 0, and the length, most significant byte first |
| `WireLayouts.BigOrder` | cxk/endian.h:12-31 | what two and four bytes stand for, the most significant first, in numbers |
| `WireLayouts.LengthLayout` | cxk/bytearray.cpp:204-207 | the eight bytes in front of a string stand for its length |
| `WireLayouts.PayloadLayout` | cxk/protocol.cpp:22-103 | the bytes of every message: type 1, 2 or 3, its integers in the order of the fields, each string behind eight bytes of length |
| `WireLayouts.RejectedUnless` | cxk/rock/rock_protocol.cpp:197-257 | on any input nothing is accepted without magic, version, a length under 64 MiB, the whole payload and a known type |
| `RockCodec.GetMessage` | cxk/rock/rock_protocol.cpp:236-257 | the in-place parser is the value form, exceptions caught |
| `RockCodec.SendAndReceive` | cxk/rock/rock_protocol.cpp:197-304 | for every uncompressed message and every split on both sides, `parseFrom` rebuilds the message and leaves exactly what follows the frame |
| `WebSocket.MessageRoundTrip` | cxk/http/ws_session.cpp:121-282 | for every list of non-empty fragments under the limit, any masks, any ping and pong heads between them: the concatenated payload, the first data opcode, exactly the rest left, one pong per ping |
| `WebSocket.EmptyFragmentCloses` | cxk/http/ws_session.cpp:185-189 | a fragment without payload ends the connection |
| `WebSocket.SizeCheck` | cxk/http/ws_session.cpp:170-189 | the unsigned size check and the read after it let through exactly the non-zero lengths under the limit, although the sum may wrap around |
| `WebSocket.HeadRoundTrip` | cxk/http/ws_session.h:31-38 | the packed head and its two bytes determine each other |
| `WireLayouts.FrameStart` | cxk/http/ws_session.cpp:218-254 | the first bytes of a frame as section 5.2 of RFC 6455 has them: final bit, opcode, mask bit, 7-bit length or 126 and 127 with 2 and 8 bytes of length |
| `WireLayouts.FrameLayout` | cxk/http/ws_session.cpp:257-274 | the rest of a frame: the mask and the payload, each byte combined with the mask byte of its place modulo 4 |
| `WireLayouts.ControlLayout` | cxk/http/ws_session.cpp:285-308 | the two bytes of a ping and a pong: final, opcode 9 or 10, no mask, no payload |
| `WireLayouts.TakenIff` | cxk/http/ws_session.cpp:142-189 | on any input a data frame is taken if and only if it is masked or read by a client, not empty, keeps the message under 32 MiB and is there in full; otherwise the connection ends |
| `WireLayouts.TakenBytes` | cxk/http/ws_session.cpp:185-198 | the payload taken, byte by byte, with the mask removed |
| `WebSocket.MaskTwice` | cxk/http/ws_session.cpp:192-196 | unmasking undoes masking |
| `WebSocket.ResendIsOriginalIff` | cxk/http/ws_session.cpp:257-269 | the payload masked in place is the original one if and only if the mask bytes used were zero |
| `WsSessions.SendMessage` | cxk/http/ws_session.cpp:218-282 | on success the fragment went out as its frame if and only if no transfer failed; over a transport that does not fail it succeeds exactly for non-empty fragments; a failure closes the stream |
| `WsSessions.RecvMessage` | cxk/http/ws_session.cpp:121-215 | for every split the receive loop gives what the receive function gives, and exactly one pong per ping went out if and only if no transfer failed; over a transport that does not fail there is no message only if that function gives none |
| `WsSessions.ReceiveFrame` | cxk/http/ws_session.cpp:142-198 | reads one frame exactly when it is acceptable |
| `WsSessions.SendControl` | cxk/http/ws_session.cpp:285-308 | on success the ping or pong head went out if and only if no transfer failed; a failure closes the stream |
| `WsSessions.SendAndReceive` | cxk/http/ws_session.cpp:121-308 | the round trip through the in-place code on both sides: fragments, pings and pongs sent one by one are received as one message, with one pong per ping and exactly the rest left |
| `LruLists.RecencyOrder` | cxk/ds/lru_cache.h:45-92 | over every run: keys distinct, every value the last one set, the order exactly most recently used first |
| `LruLists.SizeBound` | cxk/ds/lru_cache.h:169-186 | with a limit the size is at most max(limit, limit + elasticity - 1) |
| `LruLists.PruneKeepsMostRecent` | cxk/ds/lru_cache.h:169-186 | a prune keeps exactly the most recently used entries and evicts the least recent first |
| `LruLists.Conservation` | cxk/ds/lru_cache.h:45-110 | over every run, per key: inserted = present + pruned + deleted + cleared |
| `LruEviction.NewKeyEvictsIff` | cxk/ds/lru_cache.h:169-186 | setting a new key evicts if and only if there is a limit, the new size exceeds it and has reached limit plus elasticity; then the size drops to the limit |
| `LruEviction.NothingEvictedIff` | cxk/ds/lru_cache.h:45-186 | over every run: nothing was evicted if and only if there were never too many live keys, and then the cache holds exactly the keys set and not deleted or cleared since |
| `LruEviction.StillHit` | cxk/ds/lru_cache.h:60-73 | while fewer than limit plus elasticity keys are live, a key set and not deleted or cleared since is hit, with the value last set |
| `LruEviction.HitsWereSet` | cxk/ds/lru_cache.h:45-110 | over every run only keys set and not deleted or cleared since are hit |
| `LruEviction.JustSetIsHit` | cxk/ds/lru_cache.h:45-57 | a key just set is hit, and first, whatever the limits |
| `LruCaches.LruCache.Set` | cxk/ds/lru_cache.h:45-57 | map and list stay in bijection and follow the recency list; the key is there; the size is cut to the limit exactly when a new key reaches limit plus elasticity; the callback sees what was pruned, in order |
| `LruCaches.LruCache.Get` | cxk/ds/lru_cache.h:60-73 | hits exactly the present keys and returns the last value set; a key set and not deleted or cleared since is hit while there were never too many |
| `LruCaches.LruCache.Del` | cxk/ds/lru_cache.h:76-87 | removes the key from both |
| `LruCaches.LruCache.Clear` | cxk/ds/lru_cache.h:105-110 | empties both |
| `LruCaches.LruCache.Prune` | cxk/ds/lru_cache.h:169-186 | prunes exactly when there is a limit, the size exceeds it and has reached limit plus elasticity; keeps the front of the list and calls the callback from the back |
| `LruCaches.AgreeErase` | cxk/ds/lru_cache.h:76-87 | taking a node out of both keeps the bijection |
| `HashLruCaches.HashLruCache.constructor` | cxk/ds/lru_cache.h:207-219 | every bucket gets its part of the limits, rounded up, and every key a bucket |
| `HashLruCaches.HashLruCache.Set` | cxk/ds/lru_cache.h:227-229 | only the key's bucket takes part; every key lives only in its bucket; the key is there |
| `HashLruCaches.HashLruCache.Get` | cxk/ds/lru_cache.h:231-233 | a hit returns the last value set for the key in the whole run; a key set and not deleted or cleared since is hit unless its bucket once had too many |
| `HashLruCaches.HashLruCache.Del` | cxk/ds/lru_cache.h:239-241 | removes the key from its bucket |
| `HashLruCaches.HashLruCache.Clear` | cxk/ds/lru_cache.h:266-270 | every bucket takes part |
| `HashLruCaches.HashLruCache.Size` | cxk/ds/lru_cache.h:247-253 | the sum of the bucket sizes is the number of distinct live keys |
| `HashLruCaches.RoundedCapacity` | cxk/ds/lru_cache.h:210-213 | rounding per bucket gives at least the capacity asked for and less than it plus the bucket count |
| `HashLruCaches.RouteLastSet` | cxk/ds/lru_cache.h:231-233 | the bucket of a key sees the same last value for it as the whole cache |
| `HashLruCaches.RouteSetKeys` | cxk/ds/lru_cache.h:227-241 | the bucket of a key has seen it set, deleted and cleared exactly as the whole cache has |

## Left out

- The scheduler protocol is modelled on values, not on objects: many threads interleave on shared state, so a step relation takes the place of methods.
- Several schedulers at once: all workers, fibers and waiters belong to one; `SchedulerSwitcher` is `switchTo` to the same scheduler.
- `tickle`, the wake-up pipe and `epoll_wait` timeouts: a worker may take any enabled step at any time, so waking up in time is not a matter of this model.
- The body of `do_io` between its park points (the retried system call, `errno`): task code is arbitrary; only its registration, timer and cancellation steps appear. `connect_with_timeout` follows the same steps.
- Concurrent growth of the descriptor table: it is grown inside one step.
- Timer deadlines and clocks are unbounded; wrap-around at 2^64 milliseconds is not modelled. Conditional timers are timers whose callback checks its condition first. `listExpiredCb` is one step although its first emptiness check is under another lock.
- The gzip path of Rock messages, `RockStream::request`, and what `parseFrom` does with compressed payloads.
- RockCodec.ParseFrom: payloads of several blocks (lengths that are multiples of 4096) are received exactly, but what their fields parse to is only given by the block-level read functions.
- Streams.Stream.WriteFixSize: endless failures of a connected transport, with which the loop need not end, are not modelled.
- WebSocket handshake, CLOSE frames and the payload of control frames: the receive loop skips the head of any other opcode, and so does the model.
- WsSessions.SendMessage: the returned size is not cut to 32 bits.
- Positional reads, file input and output, floating-point fields, `writeStringWithoutLength` and the little-endian mode of the byte array; a block size of 0.
- `setMaxSize`, `setElasticity`, the status counters and the mutexes of the caches; the size limits are fixed for a run. `std::ceil` on doubles is exact division rounded up.
- HTTP, URI and configuration code, sockets, TLS, load balancing, logging, databases and modules.
