# Model of the xpp runtime

This project models the asynchronous runtime of libx++ (`libx++/xpp`): the protocols that carry tasks and wakes
between threads, the promise trees that run on them, and the containers under them.

The concurrent parts share one shape. A state has the fields of the source's object plus, for every thread inside a
call, the access it makes next. `Apply` is one step: one atomic access, one plain access between two atomic ones, or
one section under a lock. `Run` takes any list of steps of any number of threads, so a lemma about `Run` holds for
every interleaving. An event that cannot happen in a state leaves it alone. History fields record what happened and
are read by no step. Beside the state machines stand classes with the source's fields, whose methods are its
accesses, each proved to make exactly that step. The calls `push`, `pop`, `steal`, `register_waker`, `wake`,
`poll_read` and `poll_write`, `run_local_task`, `grab_global` and `try_steal` are also whole methods, in which the
other threads run between the accesses as arguments of the call say. The class beside the lock-order machine is the
checker alone; `PromiseDrive` has no class.

- `WorkStealingQueue.dfy`: the work-stealing ring, as a refinement of one sequential deque.
- `AtomicWaker.dfy`, `Adapter.dfy`: the two-bit waker cell and the promise node that double-checks around it.
- `Promise.dfy`, `PromiseDrive.dfy`: what `then` builds, what driving it means, and no lost wake in a whole tree.
- `LockOrder.dfy`: the ordered-lock checker and the deadlock freedom it buys.
- `Arc.dfy`: the lifetime protocol of strong and weak handles.
- `AsyncMutex.dfy`: the cooperative FIFO mutex with its linked list.
- `ScheduledIo.dfy`: the readiness cell of a descriptor.
- `CurrentThread.dfy`, `MultiThread.dfy`: the two executors.
- `Vec.dfy`, `VecBuffer.dfy`: the growable vector, as a sequence and as slots of raw memory.
- `Utf8.dfy`, `XString.dfy`: well-formed UTF-8 (section 4 of RFC 3629) and the string that keeps it.
- `Wrappers.dfy`: the optional value.

`dafny verify dfyconfig.toml` checks everything.

## Where the code differs from what one would expect

Each of these is a lemma with a concrete run, or an exact condition.

- A null from `steal` does not mean that nothing was there. A call returns null exactly if head is not above the tail
  it loaded when it looks, or tail has moved past that by its CAS, or the weak CAS fails spuriously
  (`WorkStealing.StealCallExact`). An item is present then, at the look exactly if the loaded tail is current and the
  owner is popping the one item there is, and at the CAS exactly if it failed spuriously or those who moved tail left
  something (`WorkStealing.NullStealExact`). Runs: `WorkStealing.NullStealOfPresentItem` (the owner is popping),
  `WorkStealing.NullStealAlone` (spurious, with nobody else about) and `WorkStealing.NullStealAfterLostRace`.
- A second `close_fd` sets the readiness bits without waking: a waker stored after the first close and a clear is
  stranded (`ScheduledIo.StrandedExactly`, `ScheduledIo.SecondCloseStrands`).
- The multi-thread executor can lose a wake. A run keeps an entry for every task that was woken since its last poll
  began and has not completed, at every point, if and only if no step claims the last entry of a task that is being
  polled and was woken since that poll began (`MultiThread.WakesKeptExactly`, `MultiThread.KeptStep`; the run
  `MultiThread.DroppedWake`). With one worker it never happens (`MultiThread.OneWorkerKeepsWakes`), and the
  current-thread executor keeps such a wake (`CurrentThread.WokenTaskIsKept`).
- `String::shrink_to_fit` is documented to shrink to fit, but on a non-empty string it ends with twice the length,
  because the exact fit has no room for the NUL; it grows a buffer that was smaller (`XStrings.ShrinkDoubles`).
- A poll of an adapter can fire a waker from inside the poll: its own, when its registration finds a wake in flight or
  is joined by one; and, when its second look finds the flag set and nobody holds the cell, the one in the cell, which
  is its own exactly if the registration took the cell (`Adapters.PollFiresExactly`, `Adapters.PollWillFire`). Runs: it
  may fire its own waker and return true (`Adapters.PollWakesItself`), or find the flag and fire nothing
  (`Adapters.PollMayNotWakeItself`).

## Model

| member | source | states |
|---|---|---|
| `WorkStealing.Linearizable` | libx++/xpp/runtime/queue.h:43-96 | After any interleaving of the owner's pushes and pops with any number of thieves, the calls in the order they take effect are a legal history of one sequential deque ending in the present items, and the owner's answers are that history's |
| `WorkStealing.HandedOutOnce` | libx++/xpp/runtime/queue.h:43-96 | What was pushed is what was handed out, once each, plus what is still present |
| `WorkStealing.StolenItemIsOldest` | libx++/xpp/runtime/queue.h:85-95 | If a thief's CAS will succeed, the item it read earlier is the oldest present item now, also after the owner went round the ring, and the step removes just that item |
| `WorkStealing.BetweenOwnerCalls` | libx++/xpp/runtime/queue.h:43-79 | Between owner calls tail <= head <= tail + N, and the empty test is exact |
| `WorkStealing.RefusalsAreExact` | libx++/xpp/runtime/queue.h:45-78 | A refused push takes effect when N items are present, a null pop when none is, and a lost race puts head back on tail |
| `WorkStealing.NullStealExact` | libx++/xpp/runtime/queue.h:85-95 | Which accesses end a steal with null, if and only if, and for each if and only if when an item is present at that instant |
| `WorkStealing.StealCallExact` | libx++/xpp/runtime/queue.h:85-96 | A whole steal, others running between its accesses, returns null exactly if head is not above the loaded tail at its look, or tail has moved by its CAS, or the CAS fails spuriously; otherwise it takes the oldest item |
| `WorkStealing.NullStealOfPresentItem` | libx++/xpp/runtime/queue.h:86-89 | A run in which a steal is turned away although an item is there: the owner is popping it |
| `WorkStealing.NullStealAlone` | libx++/xpp/runtime/queue.h:91-95 | A run in which a steal returns null with two items present and nobody else in a call |
| `WorkStealing.NullStealAfterLostRace` | libx++/xpp/runtime/queue.h:91-95 | A run in which a steal loses its CAS to another thief and returns null with an item left |
| `WorkStealing.ReplayConserves` | libx++/xpp/runtime/queue.h:43-96 | Every legal deque history conserves items |
| `WorkStealing.ItemsStep` | libx++/xpp/runtime/queue.h:43-96 | The present items after any access are those before it with at most one deque operation performed |
| `WorkStealing.RunInv` | libx++/xpp/runtime/queue.h:43-96 | The ring invariant in every reachable state: bounds, owner's locals, and that a thief whose tail is current holds a present item |
| `WorkStealing.ThievesLeaveOwner` | libx++/xpp/runtime/queue.h:85-95 | However many steals run, head, slots and the owner's answers stay and tail never decreases |
| `WorkStealing.WorkStealingQueue.Push` | libx++/xpp/runtime/queue.h:43-50 | With thieves running between its accesses, push returns exactly what the linearized history says |
| `WorkStealing.WorkStealingQueue.Pop` | libx++/xpp/runtime/queue.h:56-79 | With thieves running between its accesses, pop returns exactly what the linearized history says, also when it loses the race for the last item |
| `WorkStealing.WorkStealingQueue.Steal` | libx++/xpp/runtime/queue.h:85-96 | With all others running between its accesses, a steal adds to the history just the item it returns, and returns null exactly as stated for the whole call |
| `WorkStealing.WorkStealingQueue.OwnerBody` | libx++/xpp/runtime/queue.h:43-79 | Each access of push and pop, in place, is the owner's step |
| `WorkStealing.WorkStealingQueue.ThiefAccess` | libx++/xpp/runtime/queue.h:85-95 | Each access of steal, in place, is the thief's step |
| `AtomicWakers.NoLostWake` | libx++/xpp/promise_node.h:494-533 | Once a wake lands after a registration took the cell, that waker has been fired since, or a thread still inside a call is bound to fire it |
| `AtomicWakers.WakeLands` | libx++/xpp/promise_node.h:522-533 | Every wake lands, and gets the cell exactly if that was free |
| `AtomicWakers.CallsProgress` | libx++/xpp/promise_node.h:494-533 | Every call ends: an access of its own brings its end nearer, at most three for a registration and two for a wake that has the cell, and nobody puts it off |
| `AtomicWakers.CellIsExclusive` | libx++/xpp/promise_node.h:478-533 | While the cell is written nobody reads it, and at most one waker holds it |
| `AtomicWakers.NothingDroppedSilently` | libx++/xpp/promise_node.h:507-514 | With one registering thread the silent-drop branch is unreachable |
| `AtomicWakers.RefusedRegistrationFires` | libx++/xpp/promise_node.h:494-511 | A registration either stores its waker or, with a wake in flight, fires it |
| `AtomicWakers.AtomicWaker.RegisterCas` | libx++/xpp/promise_node.h:494-514 | The opening compare_exchange and its three branches are the registration step |
| `AtomicWakers.AtomicWaker.RegisterAccess` | libx++/xpp/promise_node.h:498-511 | The later accesses of register_waker are the registrar's steps |
| `AtomicWakers.AtomicWaker.WakeFetchOr` | libx++/xpp/promise_node.h:522-533 | The fetch_or of wake is its step |
| `AtomicWakers.AtomicWaker.WakeAccess` | libx++/xpp/promise_node.h:525-529 | Firing and releasing are the holder's steps |
| `AtomicWakers.AtomicWaker.RegisterWaker` | libx++/xpp/promise_node.h:494-514 | The whole call with wakers running in between: on return the cell has the waker, exactly if it was free, or the waker was fired during the call |
| `AtomicWakers.AtomicWaker.WakeCall` | libx++/xpp/promise_node.h:522-533 | The whole call with others running in between: it takes the cell exactly if that was free, and has then fired the waker that was in it |
| `Adapters.NoLostWake` | libx++/xpp/promise_node.h:563-586 | Until the next poll after one that returned false, the cell holds its waker; once resolve has finished, or had been called and has made four accesses since, in any interleaving, that waker has been fired since the poll began |
| `Adapters.ResolveEnds` | libx++/xpp/promise_node.h:581-586 | A resolve that has been called ends by the fourth of its own accesses, whatever the poller does |
| `Adapters.PollEnds` | libx++/xpp/promise_node.h:563-573 | A poll ends by the eighth of its own accesses, whatever the resolver does |
| `Adapters.ResolveWakesAndDelivers` | libx++/xpp/promise_node.h:563-586 | From a poll that returned false, a resolve run to its end has fired that waker, the value is there, and the next poll returns true at once |
| `Adapters.ReadyHasValue` | libx++/xpp/promise_node.h:563-579 | After a poll that returned true, take finds the flag set, and the value unless it was taken before |
| `Adapters.ValueIsFinal` | libx++/xpp/promise_node.h:575-586 | Only a take of a resolved node changes a stored value, and it leaves a moved-from one for good |
| `Adapters.TakenIsResolved` | libx++/xpp/promise_node.h:575-586 | The value there is the one of the first resolve |
| `Adapters.PollFiresExactly` | libx++/xpp/promise_node.h:563-573 | In every run, exactly when a step of a poll fires a waker, and whose |
| `Adapters.PollWillFire` | libx++/xpp/promise_node.h:494-573 | The guards that lead there: a wake in flight or joining the registration; the flag at the second look and a free cell |
| `Adapters.PollWakesItself` | libx++/xpp/promise_node.h:565-573 | A run in which a poll fires its own waker and returns true |
| `Adapters.PollMayNotWakeItself` | libx++/xpp/promise_node.h:565-573 | A run in which the second look finds the flag and the poll fires nothing |
| `Adapters.AdapterPromiseNode.Poll` | libx++/xpp/promise_node.h:563-564 | The first look at the flag |
| `Adapters.AdapterPromiseNode.PollAccess` | libx++/xpp/promise_node.h:565-573 | Registration, second look and self-wake, access by access on the real cell, each one nearer to the end of the poll |
| `Adapters.AdapterPromiseNode.Resolve` | libx++/xpp/promise_node.h:581-583 | Between the calls of the one resolving thread: refused exactly when the flag is set, as the assertion does |
| `Adapters.AdapterPromiseNode.ResolveAccess` | libx++/xpp/promise_node.h:584-585 | Setting the flag and waking, access by access, each one nearer to the end of resolve |
| `Adapters.AdapterPromiseNode.Take` | libx++/xpp/promise_node.h:575-579 | Succeeds exactly when resolved, hands out what is stored and leaves a moved-from value |
| `PromiseDrive.DrivingIsEvaluation` | libx++/xpp/promise.h:329-397 | However polls and resolves interleave, once a poll returns true take succeeds on what the leaves store, and value and continuation calls (each once, in order) are those of direct evaluation |
| `PromiseDrive.FinishedNeedsNoMore` | libx++/xpp/promise.h:329-345 | A poll returns true only on resolved leaves: what take then gives does not depend on how the others will be resolved |
| `PromiseDrive.AdvanceNeedsNoMore` | libx++/xpp/promise.h:331-336 | Nor does the tree and the calls a chain node goes on with |
| `PromiseDrive.PollReturns` | libx++/xpp/promise.h:329-340 | Every poll of a tree with an outcome returns, whatever the resolvers do, within ten steps for each chain step and ten more |
| `PromiseDrive.DriveIsBounded` | libx++/xpp/promise.h:329-397 | The converse: if direct evaluation has an outcome, every run makes at most its chain steps and a beginning of its calls, and a finished one exactly its steps |
| `PromiseDrive.ResolvedTreeFinishes` | libx++/xpp/promise.h:329-340 | If direct evaluation has an outcome and every leaf it meets is resolved, an undisturbed poll returns true |
| `PromiseDrive.BlockedLeafWakes` | libx++/xpp/promise.h:329-340 | Until the next poll after one that returned false, one adapter leaf blocks the tree and holds that poll's waker, which has been fired once that leaf's resolve has finished or, having been called, has made four accesses |
| `PromiseDrive.LeafResolveEnds` | libx++/xpp/promise_node.h:581-586 | A resolve of a leaf that has been called ends by the fourth of its own accesses, whatever else goes on |
| `PromiseDrive.LeafResolveBegins` | libx++/xpp/promise.h:207-211 | After resolve on a leaf the leaf stores the value it is resolved with |
| `PromiseDrive.TakenLeafHasValue` | libx++/xpp/promise.h:332-345 | Whenever the tree is taken, at a chain advance or at the end, the leaf that is read is resolved with its value |
| `Promises.ThenIsAssociative` | libx++/xpp/promise.h:347-397 | then is associative: same value, same continuation calls in the same order |
| `Promises.ThenOnResolved` | libx++/xpp/promise.h:358-364 | then on a resolved promise is one call of the continuation and then what that returns |
| `Promises.TransformIsThenResolved` | libx++/xpp/promise.h:351-364 | A value-returning then means the promise-returning then that returns a resolved promise |
| `Promises.MeaningIsUnique` | libx++/xpp/promise.h:347-397 | A promise has at most one outcome |
| `Promises.AdvanceKeeps` | libx++/xpp/promise.h:331-336 | A Step1 chain node that turns to Step2 makes exactly the first calls of direct evaluation and leaves the rest |
| `Promises.AdvanceSpends` | libx++/xpp/promise.h:331-336 | A chain node turning to Step2 is one step of direct evaluation: the rest has one step fewer and no new leaves |
| `Promises.TakeIsDefined` | libx++/xpp/promise.h:342-345 | take fails exactly on trees with a Step1 chain node on the path, and otherwise is direct evaluation |
| `Promises.TakeReads` | libx++/xpp/promise_node.h:373-378 | take reads no leaf but the one the poll asked |
| `Promises.AdvanceReads` | libx++/xpp/promise.h:331-336 | Nor does a chain node that goes on |
| `Promises.ChainPromiseNode.Poll` | libx++/xpp/promise.h:329-340 | A poll in place changes the node exactly in Step1 with a ready outer promise, and the calls made plus what is left keep the node's meaning |
| `Promises.ChainPromiseNode.Take` | libx++/xpp/promise.h:342-345 | Refused in Step1; otherwise the node's meaning |
| `LockOrder.WaitingIsNotDeadlock` | libx++/xpp/sys/mutex.cpp:70-144 | In every run without a panic, whoever waits is at the start of a finite chain of waits whose last thread can step now |
| `LockOrder.NoWaitCycle` | libx++/xpp/sys/mutex.cpp:70-144 | In such a run no threads wait for each other in a circle |
| `LockOrder.LockTakes` | libx++/xpp/sys/mutex.cpp:70-126 | lock makes the caller owner of a free lock above all it holds, waits for a taken one, and panics exactly if the lock is not above all held ones or the stack is full |
| `LockOrder.TryLockTakes` | libx++/xpp/sys/mutex.cpp:128-137 | try_lock takes a free lock, panics afterwards exactly if that breaks the order, and touches nothing when the lock is taken |
| `LockOrder.UnlockFrees` | libx++/xpp/sys/mutex.cpp:139-144 | unlock frees the lock at once and panics exactly if it was not the innermost one |
| `LockOrder.WaiterTakes` | libx++/xpp/sys/mutex.cpp:121-126 | A waiting thread gets its lock as soon as that is free |
| `LockOrder.ProceedMoves` | libx++/xpp/sys/mutex.cpp:121-144 | That step exists and changes the thread; unlocking the innermost lock passes the checker |
| `LockOrder.StacksAscend` | libx++/xpp/sys/mutex.cpp:70-102 | Every held stack is strictly ascending and at most 32 deep |
| `LockOrder.CheckExact` | libx++/xpp/sys/mutex.cpp:70-93 | On an ascending stack on_lock accepts exactly the ids above all held ones |
| `LockOrder.WaitsAscend` | libx++/xpp/sys/mutex.cpp:70-93 | Along a wait-for edge between two waiting threads the awaited id grows |
| `LockOrder.ThreadState.OnLock` | libx++/xpp/sys/mutex.cpp:70-93 | The loop and the two tests decide as stated and push only on success |
| `LockOrder.ThreadState.OnUnlock` | libx++/xpp/sys/mutex.cpp:95-102 | Pops exactly when the lock is the innermost one |
| `Arcs.CountsAreHandles` | libx++/xpp/arc.h:188-210 | strong is the number of Arcs; weak is the number of ArcWeaks plus one until the last strong drop gives that one back |
| `Arcs.NoDoubleNoStray` | libx++/xpp/arc.h:188-210 | The value is destroyed at most once and not while an Arc lives, the block is freed at most once, after that and not while a handle lives, and no count is touched after the free |
| `Arcs.NothingLeaks` | libx++/xpp/arc.h:188-210 | With no handle left and every call finished, the value has been destroyed and the block freed |
| `Arcs.CopyOutlivesOriginal` | libx++/xpp/arc.h:231-271 | A copy counts: dropping the original leaves the copy, the counts and the value alone |
| `Arcs.WeakKeepsBlock` | libx++/xpp/arc.h:478-481 | A downgraded handle counts and keeps the block, and dropping the Arc starts the destruction of the value exactly if it was the last |
| `Arcs.WeakCopyOutlivesOriginal` | libx++/xpp/arc.h:483-507 | A weak copy counts: dropping the original leaves it and the block alone |
| `Arcs.MoveHandsOver` | libx++/xpp/arc.h:238-240 | A move hands the handle over and changes no count |
| `Arcs.UpgradeGives` | libx++/xpp/arc.h:522-536 | An undisturbed upgrade of a weak handle whose value lives gives an Arc |
| `Arcs.EverythingEnds` | libx++/xpp/arc.h:188-210 | From every reachable state, finishing the calls and dropping all handles destroys the value once and frees the block once |
| `Arcs.DropEnds` | libx++/xpp/arc.h:188-210 | A drop that has begun ends by the third of its remaining accesses |
| `Arcs.UpgradeIsSafe` | libx++/xpp/arc.h:522-536 | No step revives a dead value: new Arcs appear only while the value lives, and a zero strong count stays zero |
| `Arcs.UpgradeAnswers` | libx++/xpp/arc.h:522-536 | An access of the CAS loop ends an upgrade exactly on a successful exchange or when no Arc is left, with a new Arc in the first case and none in the second |
| `Arcs.UpgradeLoadAnswers` | libx++/xpp/arc.h:522-526 | An upgrade ends at its load, empty-handed, exactly when no Arc is left |
| `Arcs.ArcInner.Clone` | libx++/xpp/arc.h:231-236 | The copy constructor: one strong count and one handle more |
| `Arcs.ArcInner.Move` | libx++/xpp/arc.h:238-240 | The move constructor touches no count |
| `Arcs.ArcInner.DecStrong` | libx++/xpp/arc.h:200-202 | The fetch_sub of a strong drop: one handle less, and the last one goes on to destroy the value |
| `Arcs.ArcInner.CloneWeak` | libx++/xpp/arc.h:478-485 | Downgrade and weak copy |
| `Arcs.ArcInner.DecWeak` | libx++/xpp/arc.h:188-194 | The fetch_sub of a weak drop |
| `Arcs.ArcInner.UpgradeLoad` | libx++/xpp/arc.h:522-526 | The load of upgrade |
| `Arcs.ArcInner.Access` | libx++/xpp/arc.h:188-210 | The later steps of drops, and the CAS loop of upgrade |
| `AsyncMutex.OneGuard` | libx++/xpp/sync/mutex.h:161-212 | At most one guard exists, held, in a ready promise or being handed over, and m_locked holds exactly while one does |
| `AsyncMutex.GrantsAreFifo` | libx++/xpp/sync/mutex.h:170-208 | Requests that had to queue are granted exactly in queueing order |
| `AsyncMutex.NoBarging` | libx++/xpp/sync/mutex.h:161-195 | lock or try_lock gets the mutex at once only when nobody waits |
| `AsyncMutex.RequestsAreServed` | libx++/xpp/sync/mutex.h:161-195 | On a free mutex lock and try_lock make the only guard and raise the flag; on a taken one lock queues at the end and try_lock changes nothing |
| `AsyncMutex.LastGuardFrees` | libx++/xpp/sync/mutex.h:197-212 | Destroying the guard with nobody waiting frees the mutex |
| `AsyncMutex.QueuedIsServed` | libx++/xpp/sync/mutex.h:197-212 | Every queued request gets its guard: k unlocks serve the k-th, with those behind it still in order |
| `AsyncMutex.HandOver` | libx++/xpp/sync/mutex.h:197-208 | Destroying a guard hands the mutex to the first waiter; it is never free in between |
| `AsyncMutex.Mutex.Lock` | libx++/xpp/sync/mutex.h:161-184 | In place, on the linked list: ready means the caller has the guard in its promise and the flag is up; otherwise the FIFO has the request at its end |
| `AsyncMutex.Mutex.TryLock` | libx++/xpp/sync/mutex.h:186-195 | Succeeds exactly when the flag is down, and then the caller has the guard and the flag is up |
| `AsyncMutex.Mutex.Unlock` | libx++/xpp/sync/mutex.h:197-212 | In place, on the linked list: the first waiter comes off, or the flag goes down |
| `AsyncMutex.Mutex.Resolve` | libx++/xpp/sync/mutex.h:206-206 | The guard goes into the waiter's promise |
| `AsyncMutex.MutexGuard.Release` | libx++/xpp/sync/mutex.h:128-154 | A full guard unlocks its mutex once and is empty afterwards; an empty one does nothing |
| `AsyncMutex.MutexGuard.MoveFrom` | libx++/xpp/sync/mutex.h:117-124 | The old guard is released, the source ends empty and its guard moves over; onto itself nothing happens |
| `ScheduledIo.NoStrandedWaker` | libx++/xpp/runtime/scheduled_io.h:101-197 | If no bit is cleared after close: whenever a bit is set, no setter is between setting it and waking, and the mutex is free, the slot is empty |
| `ScheduledIo.StrandedExactly` | libx++/xpp/runtime/scheduled_io.h:144-159 | A step breaks this exactly when it is a repeated close that meets a clear bit and an unattended waker |
| `ScheduledIo.SecondCloseStrands` | libx++/xpp/runtime/scheduled_io.h:144-159 | Such a run |
| `ScheduledIo.EveryWakerHasOneFate` | libx++/xpp/runtime/scheduled_io.h:101-197 | In every run each stored waker was fired, replaced, withdrawn by a ready poll, or is still stored: exactly one of these |
| `ScheduledIo.DeliversOne` | libx++/xpp/runtime/scheduled_io.h:173-197 | An event for one direction sets its bit and fires and clears its waker, and touches nothing else |
| `ScheduledIo.DeliversBoth` | libx++/xpp/runtime/scheduled_io.h:173-197 | An event for both serves read, then write |
| `ScheduledIo.CloseServesBoth` | libx++/xpp/runtime/scheduled_io.h:144-159 | The first close sets both bits and fires both wakers |
| `ScheduledIo.MutexIsReleased` | libx++/xpp/runtime/scheduled_io.h:105-112 | Whoever has the mutex gives it back with its next access |
| `ScheduledIo.Cell.Poll` | libx++/xpp/runtime/scheduled_io.h:101-104 | The lock-free look |
| `ScheduledIo.Cell.PollStore` | libx++/xpp/runtime/scheduled_io.h:105-106 | Storing the waker under the mutex |
| `ScheduledIo.Cell.PollAgain` | libx++/xpp/runtime/scheduled_io.h:107-112 | The second look, with the waker taken back when ready |
| `ScheduledIo.Cell.PollReady` | libx++/xpp/runtime/scheduled_io.h:101-128 | The whole poll with others running in between: true exactly if the bit is set on return; false leaves this waker in the slot; true after a first look that failed leaves the slot empty |
| `ScheduledIo.Cell.CloseFd` | libx++/xpp/runtime/scheduled_io.h:144-159 | Only the first close goes on to wake |
| `ScheduledIo.Cell.OnEvent` | libx++/xpp/runtime/scheduled_io.h:187-197 | The deliveries a mask asks for |
| `ScheduledIo.Cell.SetReady` | libx++/xpp/runtime/scheduled_io.h:190-194 | The fetch_or, without the mutex |
| `ScheduledIo.Cell.WakeWaiter` | libx++/xpp/runtime/scheduled_io.h:173-183 | Firing and clearing the slot under the mutex |
| `ScheduledIo.Cell.Return` | libx++/xpp/runtime/scheduled_io.h:187-197 | A delivery ends when nothing of it is left to do |
| `ScheduledIo.Cell.ClearBit` | libx++/xpp/runtime/scheduled_io.h:131-138 | Clearing a readiness bit |
| `CurrentThread.NeverSleepsOnWork` | libx++/xpp/runtime/scheduler.h:151-165 | Parked with a non-empty queue, whenever it was filled, a wake is pending or a scheduler is between push and wake; parked with the main future woken, its callback is pending |
| `CurrentThread.SchedulerReachesParked` | libx++/xpp/runtime/current_thread_scheduler.cpp:46-64 | A scheduler on its way to a parked loop finds the loop and wakes it |
| `CurrentThread.ScheduledTaskIsPolled` | libx++/xpp/runtime/scheduler.h:151-165 | A task scheduled while the loop waits is at the end of the queue two steps of the driver later, and polled by the end of that queue |
| `CurrentThread.PostedMainIsPolled` | libx++/xpp/runtime/scheduler.h:158-162 | The main future's waker ends the wait: with an empty queue the future is polled next |
| `CurrentThread.BeforeMain` | libx++/xpp/runtime/scheduler.h:152-158 | block_on binds the loop, drains the queue, and polls the main future |
| `CurrentThread.AfterMain` | libx++/xpp/runtime/scheduler.h:158-164 | A ready main future ends block_on and unbinds the loop; otherwise the loop works on if there is work or a wake, and only otherwise waits |
| `CurrentThread.WokenTaskIsKept` | libx++/xpp/runtime/scheduler.h:108-130 | A task woken since its last poll began, also during that poll, is completed, queued or being claimed |
| `CurrentThread.ClaimFailsOnlyOnCompleted` | libx++/xpp/runtime/scheduler.h:108-117 | The claim never meets a running task |
| `CurrentThread.TurnDoes` | libx++/xpp/runtime/scheduler.h:108-130 | One turn takes the first entry off the queue, polls it exactly if it is pending, leaves it as that poll says, and touches no other task |
| `CurrentThread.QueuedTaskIsPolled` | libx++/xpp/runtime/scheduler.h:156-157 | A pending queued task is polled when its turn comes at the latest |
| `CurrentThread.CurrentThreadHandle.PushTask` | libx++/xpp/runtime/current_thread_scheduler.cpp:28-30 | The push of a schedule |
| `CurrentThread.CurrentThreadHandle.Wake` | libx++/xpp/runtime/current_thread_scheduler.cpp:54-57 | The load of the loop pointer, then the wake |
| `CurrentThread.CurrentThreadHandle.PostFired` | libx++/xpp/runtime/scheduler.h:153-154 | The main future's waker |
| `CurrentThread.CurrentThreadHandle.Drive` | libx++/xpp/runtime/scheduler.h:151-165 | The drive loop, step by step |
| `CurrentThread.CurrentThreadHandle.ClaimTask` | libx++/xpp/runtime/scheduler.h:108-117 | The claim of run_local_task |
| `CurrentThread.CurrentThreadHandle.EndTask` | libx++/xpp/runtime/scheduler.h:120-129 | The end of a poll |
| `CurrentThread.CurrentThreadHandle.RunLocalTask` | libx++/xpp/runtime/scheduler.h:108-130 | The whole call with others scheduling during the poll: the task is polled exactly if pending, and if woken meanwhile it has completed or is queued |
| `MultiThread.EntriesConserved` | libx++/xpp/runtime/multi_thread_scheduler.cpp:46-158 | In every run every scheduled entry is in the global queue, in one local queue, in one worker's hand, or was taken for a claim: overflow, grab with put-back and steal lose and copy none |
| `MultiThread.OnePoller` | libx++/xpp/runtime/multi_thread_scheduler.cpp:58-86 | A polled task is Running and has one poller |
| `MultiThread.CompletedIsFinal` | libx++/xpp/runtime/multi_thread_scheduler.cpp:58-86 | A completed task stays completed and is never polled again |
| `MultiThread.WakeIsThere` | libx++/xpp/runtime/multi_thread_scheduler.cpp:114-123 | A wake by any thread puts its entry at the end of the global queue and the task is owed a poll |
| `MultiThread.ScheduleIsThere` | libx++/xpp/runtime/multi_thread_scheduler.cpp:104-108 | A schedule puts its entry at the end of the local queue, or of the global one exactly if that is full |
| `MultiThread.NewestIsPolled` | libx++/xpp/runtime/multi_thread_scheduler.cpp:47-86 | An idle worker runs the newest entry of its queue: polled exactly if pending, and left as the poll says |
| `MultiThread.StolenIsPolled` | libx++/xpp/runtime/multi_thread_scheduler.cpp:56-69 | An idle worker that steals runs the victim's oldest entry |
| `MultiThread.ClaimDropsExactly` | libx++/xpp/runtime/multi_thread_scheduler.cpp:59-69 | A claim throws an uncompleted task's entry away exactly when another worker is polling that task |
| `MultiThread.KeptStep` | libx++/xpp/runtime/multi_thread_scheduler.cpp:46-138 | From a state in which every woken uncompleted task has an entry, a step leaves one that has not exactly if it claims the last entry of a task being polled and woken since that poll began |
| `MultiThread.WakesKeptExactly` | libx++/xpp/runtime/multi_thread_scheduler.cpp:46-138 | A run keeps such an entry at every point if and only if none of its steps is of that kind |
| `MultiThread.OneWorkerKeepsWakes` | libx++/xpp/runtime/multi_thread_scheduler.cpp:46-138 | With one worker every run does |
| `MultiThread.DroppedWake` | libx++/xpp/runtime/multi_thread_scheduler.cpp:59-86 | A run whose last claim is such a step and which ends with the woken task pending and no entry for it anywhere |
| `MultiThread.PutBackRestores` | libx++/xpp/runtime/multi_thread_scheduler.cpp:131-134 | An entry the full local queue refuses goes back to the front: both queues are as before |
| `MultiThread.GrabAllMoves` | libx++/xpp/runtime/multi_thread_scheduler.cpp:125-138 | The steps of an undisturbed grab move exactly the first min(batch, available, room) entries, in order |
| `MultiThread.GrabIsItsSteps` | libx++/xpp/runtime/multi_thread_scheduler.cpp:125-138 | From taking the lock on, an undisturbed grab moves exactly those entries and keeps an entry popped before it |
| `MultiThread.VictimsAreTheOthers` | libx++/xpp/runtime/multi_thread_scheduler.cpp:150-158 | try_steal visits every other worker exactly once and never itself, in ring order from its successor on |
| `MultiThread.QuietRoundIsThorough` | libx++/xpp/runtime/multi_thread_scheduler.cpp:150-158 | When nobody else moves and no ring refuses, a round that finds nothing means that all others are empty |
| `MultiThread.RunInv` | libx++/xpp/runtime/multi_thread_scheduler.cpp:46-138 | In every run local queues fit, the lock is held exactly by the grabbing worker, and a task is Running exactly while one worker polls it |
| `MultiThread.MultiThreadHandle.PushGlobal` | libx++/xpp/runtime/multi_thread_scheduler.cpp:121-123 | The entry goes to the end of the global queue |
| `MultiThread.MultiThreadHandle.Schedule` | libx++/xpp/runtime/multi_thread_scheduler.cpp:104-108 | The local queue takes it without any lock, or the global one exactly when that is full |
| `MultiThread.MultiThreadHandle.GrabGlobal` | libx++/xpp/runtime/multi_thread_scheduler.cpp:125-138 | With others running in between: the first n global entries move in order behind the local ones, thieves take only from the front, and it stops at the limit, at an empty global queue or at a full local one |
| `MultiThread.MultiThreadHandle.LockQueue` | libx++/xpp/runtime/multi_thread_scheduler.cpp:126-127 | Taking the lock |
| `MultiThread.MultiThreadHandle.TakeFront` | libx++/xpp/runtime/multi_thread_scheduler.cpp:128-130 | The loop test and the pop of the front |
| `MultiThread.MultiThreadHandle.PutLocal` | libx++/xpp/runtime/multi_thread_scheduler.cpp:131-135 | The push to the local queue, or the put-back exactly when that is full |
| `MultiThread.MultiThreadHandle.StealOne` | libx++/xpp/runtime/multi_thread_scheduler.cpp:154-155 | The victim's oldest entry comes into the thief's hand; null exactly if there is none or the ring refuses |
| `MultiThread.MultiThreadHandle.TrySteal` | libx++/xpp/runtime/multi_thread_scheduler.cpp:150-158 | With others running before each visit: null only after every other worker was empty, or its ring refused, at its visit; otherwise the entry is the oldest of the worker visited last, and nothing else is touched |
| `MultiThread.MultiThreadHandle.Claim` | libx++/xpp/runtime/multi_thread_scheduler.cpp:58-69 | The compare-exchange: succeeds exactly on pending tasks |
| `MultiThread.MultiThreadHandle.EndPoll` | libx++/xpp/runtime/multi_thread_scheduler.cpp:75-85 | The store that ends a poll |
| `Vecs.ElementsConserved` | libx++/xpp/vec.h:258-543 | Over every run of all operations each element ever constructed is in the vector, was handed out or was destroyed: exactly one of these, once |
| `Vecs.AmortizedGrowth` | libx++/xpp/vec.h:577-589 | Any run of pushes and inserts with any removals relocates fewer than twice the elements it adds, and relocated + 4 equals the capacity once allocated |
| `Vecs.GrowthIsPaidFor` | libx++/xpp/vec.h:577-589 | Over every run without a shrink the contents fit, relocated + 4 <= capacity, and beyond the first block the capacity is below twice the largest demand |
| `Vecs.InsertThenRemove` | libx++/xpp/vec.h:390-434 | remove undoes insert and hands the element out |
| `Vecs.InsertRemoveAt` | libx++/xpp/vec.h:390-434 | Element by element, insert and remove move the later elements by one and no others |
| `Vecs.SwapRemoveAt` | libx++/xpp/vec.h:450-462 | Element by element, swap_remove puts the last one into the slot of the one handed out and touches no other |
| `Vecs.EndsAt` | libx++/xpp/vec.h:258-312 | Element by element, push, extend and resize keep what is there and add behind it; pop hands out the last |
| `Vecs.DroppedAt` | libx++/xpp/vec.h:319-342 | clear destroys all, last first; truncate those past the new length, first to last |
| `Vecs.RetainSorts` | libx++/xpp/vec.h:529-543 | retain leaves exactly the accepted elements and destroys exactly the others |
| `Vecs.RoomAt` | libx++/xpp/vec.h:351-374 | reserve makes the room asked for, shrink_to_fit the exact fit unless the allocation fails, and neither touches the elements |
| `Vecs.DrainAt` | libx++/xpp/vec.h:477-486 | The drained vector hands out everything in order and keeps its buffer |
| `Vecs.FilterOfConcat` | libx++/xpp/vec.h:529-543 | retain treats a vector part by part, so order is kept |
| `Vecs.FilterKeeps` | libx++/xpp/vec.h:529-543 | retain keeps the accepted elements and no others |
| `Vecs.NextBlock` | libx++/xpp/vec.h:577-580 | The first block holds four; a full buffer doubles |
| `VecBuffers.Relocate` | libx++/xpp/vec.h:601-606 | Constructs only into raw slots, destroys every moved object, changes nothing else |
| `VecBuffers.ShiftRight` | libx++/xpp/vec.h:631-637 | From back to front no value is overwritten and the gap is raw |
| `VecBuffers.ShiftLeft` | libx++/xpp/vec.h:648-654 | The gap closes and the tail is raw |
| `VecBuffers.DestroyBack` | libx++/xpp/vec.h:616-620 | All elements are destroyed once each, in reverse order |
| `VecBuffers.Compact` | libx++/xpp/vec.h:529-543 | The retain loop keeps accepted values in order and destroys refused ones in order |
| `VecBuffers.Vec.EnsureCapacity` | libx++/xpp/vec.h:577-589 | The growth loop ends with the stated capacity and moves every element |
| `VecBuffers.Vec.Push` | libx++/xpp/vec.h:269-273 | Appends the element; slots [0,len) are full and the rest raw afterwards |
| `VecBuffers.Vec.Pop` | libx++/xpp/vec.h:286-292 | Hands out the last element and leaves its slot raw; nothing exactly when empty |
| `VecBuffers.Vec.Extend` | libx++/xpp/vec.h:305-312 | Appends copies of the elements in order, constructing only into raw slots |
| `VecBuffers.Vec.Clear` | libx++/xpp/vec.h:319-322 | Destroys every element once, last first, and keeps the buffer |
| `VecBuffers.Vec.Drop` | libx++/xpp/vec.h:122-125 | Destroys every element once, last first; no slot holds an object afterwards |
| `VecBuffers.Vec.Truncate` | libx++/xpp/vec.h:336-342 | Keeps the first elements and destroys the others once each, in order |
| `VecBuffers.Vec.Reserve` | libx++/xpp/vec.h:351-353 | Room for the extra elements, contents unchanged |
| `VecBuffers.Vec.ShrinkToFit` | libx++/xpp/vec.h:360-374 | The exact fit with the same elements, no buffer when empty, no change when the allocation fails |
| `VecBuffers.Vec.Insert` | libx++/xpp/vec.h:401-409 | The element goes in at the index and all later ones move up by one |
| `VecBuffers.Vec.Remove` | libx++/xpp/vec.h:425-434 | The element at the index is handed out and all later ones move down by one |
| `VecBuffers.Vec.SwapRemove` | libx++/xpp/vec.h:450-462 | The element at the index is handed out and the last one takes its place |
| `VecBuffers.Vec.Append` | libx++/xpp/vec.h:477-486 | All elements of the other vector move over in order; it stays allocated and empty |
| `VecBuffers.Vec.Resize` | libx++/xpp/vec.h:504-514 | Destroys the elements past the new length, or appends copies up to it |
| `VecBuffers.Vec.Retain` | libx++/xpp/vec.h:529-543 | Keeps exactly the accepted elements in order and destroys the refused ones in order |
| `VecBuffers.Vec.Clone` | libx++/xpp/vec.h:169-177 | An independent vector with equal elements |
| `Utf8.Concat` | libx++/xpp/string.cpp:88-107 | Appending to a well-formed text keeps it well-formed exactly when the appended bytes are |
| `Utf8.WellFormedIsEncoded` | libx++/xpp/string.cpp:27-44 | Well-formed bytes are the encoding (section 3 of RFC 3629) of the characters they decode to |
| `Utf8.EncodedIsWellFormed` | libx++/xpp/string.cpp:27-44 | The encoding of any characters is well-formed and decodes to them |
| `Utf8.CutExactly` | libx++/xpp/string.cpp:124-132 | Truncating a well-formed text leaves one exactly when the cut is at an end or before a non-continuation byte |
| `Utf8.CutIsWellFormed` | libx++/xpp/string.cpp:128-130 | At such a cut both parts are well-formed |
| `Utf8.OccurrenceIsOnBoundaries` | libx++/xpp/string.cpp:149-175 | Where a well-formed needle occurs, both its ends are legal places to cut |
| `Utf8.ValidPrefixIsLongest` | libx++/xpp/string.cpp:41-45 | The validated prefix is the longest well-formed one, and is everything exactly for well-formed bytes |
| `XStrings.TryAppendedIsWellFormed` | libx++/xpp/string.cpp:109-118 | A checked append succeeds exactly on well-formed bytes; a failure changes nothing and reports the longest good prefix |
| `XStrings.ShrinkDoubles` | libx++/xpp/string.cpp:139-142 | Shrinking a non-empty string ends with twice its length; the buffer grows exactly if it was smaller than that |
| `XStrings.FindImpl` | libx++/xpp/string.cpp:149-165 | The scan returns the first occurrence, and none exactly when there is none |
| `XStrings.String.Find` | libx++/xpp/string.cpp:172-175 | The first occurrence; for a well-formed needle both its ends are legal truncate points |
| `XStrings.String.From` | libx++/xpp/string.cpp:41-50 | A string is made exactly from well-formed bytes, with that text |
| `XStrings.String.Append` | libx++/xpp/string.cpp:88-107 | The text grows by the bytes and stays well-formed and NUL-terminated |
| `XStrings.String.TryAppend` | libx++/xpp/string.cpp:109-118 | The checked append in place; a failure leaves every byte alone |
| `XStrings.String.Truncate` | libx++/xpp/string.cpp:124-132 | The prefix, well-formed and NUL-terminated, in the same buffer |
| `XStrings.String.Clear` | libx++/xpp/string.cpp:120-122 | The empty text |
| `XStrings.String.Reserve` | libx++/xpp/string.cpp:134-137 | Room for the extra bytes and the NUL, same text |
| `XStrings.String.ShrinkToFit` | libx++/xpp/string.cpp:139-142 | Same text, with exactly the capacity stated above |
| `XStrings.String.EnsureNul` | libx++/xpp/string.cpp:223-229 | The byte after the text is NUL, in a larger buffer exactly when it was full |

## Left out

- Weak memory: atomics and fences are sequentially consistent steps, so the chosen memory orders are not examined.
- Index wrap-around: ring indices are unbounded integers, which is right while fewer than 2^32 items were pushed; the source's `t < h` tests assume the same. The mask of a power-of-two ring is written as the remainder.
- The slot read of a thief that loses its CAS is a plain read beside a write in the source; the model gives it one definite value.
- Spin locks and mutex sections are one step each; waiting for a lock is not a step.
- Detached tasks, deletion of tasks and join nodes: task numbers stand for tasks and handles stay alive. A Detached mark is overwritten by the claim, so deletion exactly once is not a property of the code.
- MultiThread.EntriesConserved: takes each local queue as the deque that WorkStealing.Linearizable shows it to be; a steal that comes back null on a present item changes nothing and is an argument of MultiThread.MultiThreadHandle.StealOne. A worker's schedule is taken to run on that worker's own thread, which the code does not check.
- Parking, unparking, ticks and shutdown of the multi-thread workers: the periodic grab is a free choice of the worker. drive_parking is the drive loop without a run queue and is not modelled separately.
- The event loop, memory allocation, memmem, the task group and the UTF-8 validator are libx C code that is not part of this model. The loop is assumed to keep a wake or a posted callback that arrives while nobody waits; an allocation that would panic succeeds; the library search for long needles is assumed to find what the scan finds; the validator is assumed to return the longest well-formed prefix.
- Promises.ChainPromiseNode.Poll: the node is an object updated in place, but the nodes below it are values, and dispatch through the virtual poll and take is a match. PromiseDrive drives the same nodes access by access as values, and reads a leaf without marking its value as moved. Continuations are total functions on integers, coroutines and void are not separate, and evaluation is stated with a bound on nested promises, which Promises.FuelIsEnough shows to be immaterial.
- Adapters.AdapterPromiseNode.Resolve: a resolver is used up by its one call, so two resolving threads at once are not modelled, and nor is the node without a value.
- Arcs: whole calls composed from the accesses, converting constructors between element types, assignment by swap, and reads of the counts for debugging.
- AsyncMutex: cancelling a promise that still waits in the queue, and condition variables.
- LockOrder: re-acquisition after a condition variable wait, and builds without the checker.
- VecBuffers: the memcpy and memmove paths for trivially copyable elements, size_t overflow in the growth loop, self-aliasing calls, and predicates of retain that change elements.
- XStrings.String.Append: the panic on bytes that are not UTF-8 is its precondition; appending a string to itself, and the unchecked constructors, which trust their caller, are left out.
- Sockets, timers, configuration, the command line and the other containers, which would only add easy members.
