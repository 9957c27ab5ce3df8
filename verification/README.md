# NonblockingIO: the thread pool and the connection hand-off

This project models the two concurrent components of the server and proves what they promise over
every run.

- **The thread pool** (`thread_pool.cpp`, `thread_pool.h`). `TaskRing` is the ring buffer and its
  refinement to a FIFO sequence. `ThreadPool` is the class with its fields updated in place.
  `PoolMachine` is the step machine: callers of `submit`, the threads in `thread_routine`, the caller of
  `create` and the caller of `shutdown_interval`, with a lock owner and a program counter for each.
  `PoolInvariant` holds its inductive invariant, `PoolTheorems` and `PoolProgress` what follows from it, and
  `PoolShutdown` says which threads a shutdown waits for, `PoolReplies` what the callers of `submit`, `create`
  and `shutdown_interval` get.
- **The singleton** (`instance`, `shutdown`): `Singleton`.
- **The worker pool** (`tcp_worker_pool.cpp`, `tcp_worker_pool.h`). `TcpWorkerPool` has the classes;
  `WorkerMachine`, `WorkerInvariant` and `WorkerTheorems` treat `worker_routine`, the hand-off queue, the
  availability counter and the timeouts computed from it; `WorkerFaults` the division by zero.
- **The server** (`tcp_server.cpp`, `tcp_server.h`). `TcpServer` has the accept callback;
  `ServerMachine` composes the two pools with the accepting thread and the clients, and `ServerInvariant`,
  `ServerTheorems`, `ServerProgress`, `ServerDelivery`, `ServerPickup` and `ServerStall` follow a connection through
  all three; `ServerBatch` ties the accepts of a server run to the callback.

`Runs` defines runs of a step machine once for all four machines; `Tally` sums over program counters.

A machine's `Step` gives the next state for an action, or `None` where the process blocks. A step is
one access to shared memory, one call on a mutex or condition variable, or one assignment block under a
lock; memory is sequentially consistent. `Reachable` means reached by some sequence of steps from the
initial state, for any number of callers, threads and workers. The condition variable is that of
POSIX.1-2017, System Interfaces, section 3 (`pthread_cond_signal`, `pthread_cond_wait`): a signal wakes
at least one waiter if there is one, possibly several, and waiters may wake spuriously.

Assumptions: calls that lock, unlock, signal, broadcast and join succeed (failures of `pthread_create` are
modelled); `create`, `startup` and, per object, `shutdown_interval` are called once (the last is a
theorem of `Singleton`); no `submit` overlaps the unlocked assignments at the start of `create`;
1 <= CPU_CORE <= MAX_THREADS; `accept` returns a descriptor that is not open. `PoolProgress` also assumes
that submitted tasks terminate. The server's own task does not while its client is silent: it starts with a
blocking `read` (tcp_worker_pool.cpp:326, with `set_fd_non_block` commented out at 218-223), so the server
machine has a step for the return of that read, which waits for the client to be heard, and it assumes only that
`send` does not block.

What the code does, where a reader may expect otherwise:

- `submit` tests for a full queue before it tests for shutdown, so a full pool that has been shut down
  answers `THREADPOOL_QUEUE_FULL` (`PoolTheorems.ShutdownRefuses`). Before `create` it compares 0 with 0 and answers
  the same, so that a caller can be told full while the queue that has just been made is empty
  (`PoolReplies.FullBeforeCreate`); `PoolReplies.RepliesAreRight` says that this is the only way.
- Both shutdown modes abandon the queued tasks (`PoolTheorems.ShutdownFreezes`).
- The join loop and the test of `free_resource` can pass while a created thread has not registered yet
  (`PoolTheorems.JoinCanMissAThread`). The loop goes by index, so what decides is the thread created last: every
  run joins all of them if and only if that one has registered (`PoolShutdown.JoinsAllExactly`). If the thread that
  was missed takes its first step in time, `free_resource` fails (`PoolTheorems.FreeCanFail`), which
  `shutdown_interval` ignores.
- As the task's `read` blocks, as many silent clients as there are pool threads stop the hand-off of every
  connection that comes after them (`ServerStall.StallIsReached`); `ServerDelivery.DeliveredExactly` says which
  connections get through.
- The divisor in `worker_routine` can be zero. It is exactly when no worker was between the decrement and
  the increment as `startup` stored the counter, and all of them are at the read; in that case the last
  worker to enter divides by zero if its next three steps are not interleaved
  (`WorkerTheorems.DivisorIsZeroExactly`, `LastInFaults`, `FaultIsReached`). After the store a division by zero can
  still come if and only if nobody was there at the store and every worker's thread was created
  (`WorkerFaults.FaultExactly`). If some worker was there, the counter stays too high by their number, which is
  how a timeout of twice the workers comes about.
- The bounds of the coercion in the constructor of `tcp_worker_pool` make it a maximum
  (`WorkerTheorems.WorkerNumIsMaximum`).
- The return statement of `instance` reads `m_threadpool_` once more, outside the lock, so with a concurrent
  shutdown it can return null (`Singleton.InstanceCanReturnNull`): exactly if the last change between the caller's
  test and that read was the store of `nullptr` (`Singleton.NullExactlyIfCleared`).

## Model

| member | source | states |
|---|---|---|
| Basics.CoerceInIsClamp | thread_pool.h:18 | with ordered bounds the macro gives the point of the interval nearest to the value |
| TaskRing.NewRingIsEmpty | thread_pool.cpp:43-49 | for every requested size the created ring is valid and empty, and its size is the point of [1024, 65535] nearest to the request |
| TaskRing.PlaceIsRemainder | thread_pool.cpp:118-122 | the places of the window, and so `tail_`, are the remainders of `curr_` plus the offset by `queue_size_` |
| TaskRing.NotFullIsAddressable | thread_pool.cpp:109-122 | whenever the full test passes, also before `create`, and whenever a task is seen, the divisor is nonzero and the indices are in bounds |
| TaskRing.EnqueueAppends | thread_pool.cpp:118-123 | storing at `tail_` keeps the ring invariant and appends to the FIFO contents, across wrap-around and for every size |
| TaskRing.DequeueRemovesHead | thread_pool.cpp:212-219 | taking at `curr_` keeps the invariant (vacated slots are null) and removes exactly the oldest task |
| ThreadPool.ThreadPool.Create | thread_pool.cpp:40-73 | the queue is empty, both sizes are the nearest to the requested ones within their bounds; exactly the threads before the first failed creation exist; -1 if and only if one failed |
| ThreadPool.ThreadPool.Submit | thread_pool.cpp:98-138 | full if and only if as many tasks are queued as there are slots, shutdown if and only if not full and the flag is up; otherwise 0 and the task with its arguments is appended; in the other cases nothing changes |
| ThreadPool.ThreadPool.TakeTask | thread_pool.cpp:212-219 | returns the oldest task and leaves the rest in order |
| ThreadPool.ThreadPool.RaiseShutdown | thread_pool.cpp:147-154 | raises the flag once, in either mode, and leaves the queue alone |
| PoolInvariant.StepKeeps | thread_pool.cpp:98-226 | every step of every process keeps the invariant: one lock owner, exact counters, shutdown phases, attended queue, FIFO history, joined prefix |
| PoolTheorems.NoLostWakeup | thread_pool.cpp:118-127 | while a thread sleeps unsignalled, `work_count` is at most the threads awake and heading for the queue plus signals about to be sent |
| PoolTheorems.NeverAllAsleep | thread_pool.cpp:192-221 | all created threads asleep and no signal pending means an empty queue |
| PoolTheorems.ExactlyOnceFifo | thread_pool.cpp:107-124 | dequeued tasks are a prefix of the accepted ones, and accepted = completed + in a thread's hands + queued, as multisets |
| PoolTheorems.NoUndefinedBehaviour | thread_pool.cpp:212-222 | no index out of range, zero divisor or join of an uncreated thread; the branch that keeps the lock is not taken; a null function has been called if and only if a completed task had one, and then somebody submitted it |
| PoolTheorems.MutualExclusion | thread_pool.cpp:103-136 | no two processes are inside the critical sections at once |
| PoolTheorems.ThreadAccounting | thread_pool.cpp:182-183 | both counters equal the number of threads they count and stay within [0, 1024]; create returned 0 exactly if every thread was created |
| PoolTheorems.FreeTestIsExact | thread_pool.cpp:228-231 | `started_num_ > 0` fails exactly when no thread is between its start and exit steps |
| PoolTheorems.FreesExactly | thread_pool.cpp:228-235 | the step of `free_resource` ends the shutdown with the pool freed if and only if no thread is between its start and exit steps, and changes nothing else |
| PoolTheorems.JoinCoversRegistered | thread_pool.cpp:162-167 | at loop exit the registered threads are exactly those below the index, and all have exited, although the bound grew during the loop |
| PoolTheorems.JoinCoversCreated | thread_pool.cpp:162-167 | no created thread is left if and only if all had registered at the last test of the bound |
| PoolTheorems.JoinCanMissAThread | thread_pool.cpp:162-173 | for every number of cores, a run frees the pool with a created thread still to take the lock |
| PoolTheorems.FreeCanFail | thread_pool.cpp:162-173 | and another ends the shutdown with nothing freed, as the created thread that was not joined has counted itself as started |
| PoolShutdown.RegisteredAreFreed | thread_pool.cpp:162-173 | if all created threads, or just the last one, registered before the join loop ended, every run that comes to `free_resource` has joined all of them, finds `started_num_ == 0` and frees the pool |
| PoolShutdown.JoinsAllExactly | thread_pool.cpp:162-168 | with some thread created, at any moment from the return of `create` to the end of the join loop: every completed shutdown joins all created threads if and only if the last one created has registered |
| PoolTheorems.NobodySleepsAfterBroadcast | thread_pool.cpp:153-157 | after the broadcast no thread waits, ever again |
| PoolTheorems.ShutdownFreezes | thread_pool.cpp:153-154 | once the flag is set nothing enters or leaves the ring, in either mode, over every continuation |
| PoolTheorems.ShutdownRefuses | thread_pool.cpp:107-117 | every later submit is refused: full if the ring was full at the flag, else shutdown |
| PoolTheorems.ShutdownFinishesOnlyHeld | thread_pool.cpp:197-222 | what is completed after the flag was already in a thread's hands |
| PoolReplies.SubmitAnswers | thread_pool.cpp:107-124 | in every reachable state the tests answer full if and only if the ring is full, shutdown if and only if it is not and the flag is up, and otherwise the task goes to the end of the queue |
| PoolReplies.RepliesAreRight | thread_pool.cpp:107-137 | nobody is answered shutdown while the flag is down; while a caller told full holds the lock the ring is full, if and only if `create` has not come after its test |
| PoolReplies.FullBeforeCreate | thread_pool.cpp:107-112 | a reachable state with a caller told full and an empty queue of 2048 slots |
| PoolReplies.CallAddsItsTask | thread_pool.cpp:98-138 | over every run of all processes, a call that returned 0 has added exactly the task it was called with, function and arguments, and one that returned anything else nothing |
| PoolReplies.CreateSettles | thread_pool.cpp:40-49 | both sizes are the nearest to the requested ones within their bounds, and callers, flag and history stay as they are |
| PoolReplies.CreateCanFailAnywhere | thread_pool.cpp:54-66 | for every number of cores and each of the threads, a run in which its creation fails: create returns -1 with exactly the threads before it |
| PoolReplies.ModeIsTheOneAskedFor | thread_pool.cpp:152-154 | over every run, once the flag is up the mode is the one of the call |
| PoolReplies.SpuriousWakeIsHarmless | thread_pool.cpp:192-195 | a spurious wakeup on an empty queue leads back to the same state |
| PoolProgress.OwedDecreases | thread_pool.cpp:140-226 | one measure falls with every step other than a new call or a spurious wakeup |
| PoolProgress.OwedStepsAreBounded | thread_pool.cpp:140-226 | in every run such steps are no more than the measure plus a fixed number per call and per spurious wakeup |
| PoolProgress.StuckIsAtRest | thread_pool.cpp:140-226 | no deadlock: if no such step can be taken, everybody has returned, exited or sleeps |
| PoolProgress.RestIsReached | thread_pool.cpp:140-226 | from every reachable state such a state is reached |
| PoolProgress.EveryTaskCompletes | thread_pool.cpp:188-224 | over every run without a shutdown, with further submits and spurious wakeups: the owed steps are bounded by those, and when none is left every accepted task is completed and the queue empty |
| PoolProgress.ShutdownIsBounded | thread_pool.cpp:153-168 | after the broadcast the pool takes boundedly many steps, whatever submits are still made |
| PoolProgress.ShutdownCompletes | thread_pool.cpp:153-168 | whatever submits are under way: when the pool has no step left and no submitter has the lock, the join loop is over, every created thread has exited, and only queued tasks are uncompleted |
| Singleton.OneInstance | thread_pool.cpp:75-84 | as long as no object has ever been shut down, at most one is constructed and every caller gets it |
| Singleton.UndisturbedCallsAgree | thread_pool.cpp:75-84 | over every run, after any number of earlier shutdowns: callers of `instance` that no store of `nullptr` comes in between all get the current object |
| Singleton.NullExactlyIfCleared | thread_pool.cpp:83 | the result is null if and only if the last change of `m_threadpool_` since the caller's last passing test or construction was the store of `nullptr`; otherwise it is the object constructed last |
| Singleton.ClosedOnce | thread_pool.cpp:86-96 | `shutdown_interval` is called at most once per object, on the live current one, so its already-shut-down branch is unreachable |
| Singleton.ShutdownClosesAll | thread_pool.cpp:86-96 | over every run, when a call of `shutdown` has returned, every object constructed before the call has been shut down and deleted |
| Singleton.ShutdownAlone | thread_pool.cpp:86-96 | undisturbed, it has shut down and deleted just the object that was current, the pointer is null and the mutex as before |
| Singleton.InstanceAlone | thread_pool.cpp:75-84 | undisturbed, `instance` gives the current object, or a new one if and only if there was none |
| Singleton.SomebodyCanStep | thread_pool.cpp:75-96 | no deadlock: as long as somebody is in a call, whoever has the mutex can go on, or everybody if it is free |
| Singleton.CallsEnd | thread_pool.cpp:75-96 | in every run the calls take no more than six steps for each `instance` and seven for each `shutdown` |
| Singleton.OneAlive | thread_pool.cpp:75-96 | at most one object has not been shut down, and it is the current one |
| Singleton.InstanceCanReturnNull | thread_pool.cpp:83 | a run in which a shutdown between the test and the return read makes `instance` return null |
| TcpWorkerPool.TcpWorkerPool.constructor | tcp_worker_pool.cpp:182-197 | every slot holds a worker of its own, not started, with an empty map and the minimal poll timeout |
| TcpWorkerPool.TcpWorkerPool.Startup | tcp_worker_pool.cpp:199-211 | every worker is started, the counter is the number of workers, and the thread pool is created empty, with a thread for each core up to the first that fails |
| TcpWorkerPool.TcpWorkerPool.SetPollTimeout | tcp_worker_pool.h:102-109 | every worker gets the larger of the request and the minimum, and nothing else changes |
| TcpWorkerPool.TcpWorkerPool.TakeConnection | tcp_worker_pool.cpp:132-145 | the oldest connection moves from the queue to the worker's map, where an existing entry for its descriptor stays; nothing happens on an empty queue |
| WorkerInvariant.StepKeeps | tcp_worker_pool.cpp:109-171 | every step of startup, the workers and the pushing tasks keeps lock, queue, counter, timing and ownership invariants |
| WorkerTheorems.AvailabilityCounter | tcp_worker_pool.cpp:156-167 | the counter is (worker_num_ + d after the store, else 0) minus the workers in the window, d being their number at the store |
| WorkerTheorems.DivisorIsZeroExactly | tcp_worker_pool.cpp:163 | the divisor read is zero if and only if the store has happened, d = 0 and all workers are in the window |
| WorkerTheorems.FaultNeedsEmptyStore | tcp_worker_pool.cpp:199-207 | a division by zero happens only in runs with d = 0 |
| WorkerTheorems.LastInFaults | tcp_worker_pool.cpp:156-163 | with d = 0 the last worker to enter the window divides by zero if its next three steps are not interleaved |
| WorkerTheorems.FaultIsReached | tcp_worker_pool.cpp:199-207 | for every number of workers some run divides by zero |
| WorkerFaults.FaultExactly | tcp_worker_pool.cpp:156-163 | once the counter is stored, a division by zero can follow if and only if d = 0 and every worker's thread was created |
| WorkerFaults.MissingWorkerPreventsFault | tcp_worker_pool.cpp:199-207 | for every number of workers a run with d = 0 and a worker whose creation failed, after which no division by zero can come |
| WorkerTheorems.TimeoutBounds | tcp_worker_pool.cpp:159-166 | every timeout is within [1, 2 worker_num_ - 1], below worker_num_ when d = 0 (or 1), and below worker_num_ + d in general, in spite of separate reads |
| WorkerTheorems.LongestTimeoutIsReached | tcp_worker_pool.cpp:159-166 | for every number of workers some run computes the timeout 2 worker_num_ - 1 |
| WorkerTheorems.TimeoutFollowsRead | tcp_worker_pool.cpp:160-165 | a timeout is the value read, or what is left of worker_num_ divided by it, and 1 where that is 0 |
| WorkerTheorems.UninterruptedTimeout | tcp_worker_pool.cpp:159-165 | with k > 0 available at both reads the wait is k exactly when k is more than half of the workers, or 1 |
| WorkerTheorems.RemainderTruncates | tcp_worker_pool.cpp:163 | the remainder completes the truncated quotient, for operands of either sign |
| WorkerTheorems.DoubleCheckedDequeue | tcp_worker_pool.cpp:130-145 | `front` and `pop` never meet an empty queue, and pops are a prefix of pushes |
| WorkerTheorems.WorkerEmptiesQueue | tcp_worker_pool.cpp:129-168 | in every run that never finds the queue empty, a worker takes at most nine steps per connection popped, and nine more; so a worker that keeps running empties it |
| WorkerTheorems.UniqueOwner | tcp_worker_pool.cpp:137-144 | with distinct descriptors pushed, `insert` meets no existing key and no two workers share a connection |
| WorkerTheorems.OwnersKeepTheirs | tcp_worker_pool.cpp:142 | over every run, no entry of a worker's map is overwritten or lost |
| WorkerTheorems.WorkerNumIsMaximum | tcp_worker_pool.cpp:182-184 | worker_num_ is the maximum of cores and request; it exceeds 12 a core exactly when the request does |
| TcpServer.HandlesUpToTheFatal | tcp_server.cpp:53-77 | closed form of a batch: it stops at the first event that is fatal at what is counted by then, and aborts if and only if there is one; it admits the connections offered before that, in order, up to the room below the bound |
| TcpServer.AdmitsUpToTheBound | tcp_server.cpp:53-77 | what is admitted is a prefix of what is offered, and unless the batch is aborted as long as the room below the bound allows |
| TcpServer.AbortsExactly | tcp_server.cpp:71-76 | a batch aborts if and only if some event has an error flag and could not be accepted at what is counted by then |
| TcpServer.TcpServer.Admit | tcp_server.cpp:66-67 | submitting and counting one connection queues it, with its result unread, and keeps the bound |
| TcpServer.TcpServer.OnEvents | tcp_server.cpp:52-78 | while pool threads take tasks between the events, the admitted connections are queued in order and counted, although the result of `submit` is ignored |
| ServerInvariant.NeverFull | tcp_server.cpp:55-67 | at the test of every submit the ring holds fewer tasks than its size |
| ServerInvariant.StepKeeps | tcp_server.cpp:43-78 | every step of the composed server keeps its invariant, which includes that the part of each pool is reachable in that pool's own machine |
| ServerTheorems.SizedAsRequested | tcp_worker_pool.cpp:182-209 | a server has as many workers as the larger of its cores and the 16 bits of the request, and once `create` has succeeded one pool thread a core |
| ServerTheorems.NoConnectionDropped | tcp_server.cpp:55-67 | no submit of a server run is refused, and at most 2048 connections are accepted |
| ServerBatch.AcceptsAsHandled | tcp_server.cpp:55-67 | at its poll the server accepts a connection if and only if the callback would admit it as the next event |
| ServerBatch.BatchIsTakenIn | tcp_server.cpp:52-78 | from every reachable state at the poll and for every batch of events with fresh descriptors, a run takes in exactly what the callback admits, in order, and counts it |
| ServerBatch.EveryCountIsReached | tcp_server.cpp:55-67 | on every number of cores every number of connections up to 2048 is reached |
| ServerTheorems.Conservation | tcp_worker_pool.cpp:213-217 | each accepted connection is in exactly one of: in flight, ring, undelivered task, event_storage_, a worker's map; their number is connected_num_, plus one only between accept and increment |
| ServerTheorems.UniqueOwnership | tcp_worker_pool.cpp:137-144 | in every server run no descriptor is in two workers' maps, `insert` never meets an existing key, and every entry is a connection that arrived |
| ServerTheorems.QuiescenceCompletesHandOff | tcp_worker_pool.cpp:130-152 | when the pool threads sleep and event_storage_ is empty, a connection that arrived is owned by exactly one worker if and only if it is not still being submitted |
| ServerProgress.OwedStepsAreBounded | thread_pool.cpp:188-224 | in every run, with any accepts, wakeups and worker steps, the steps of the pipeline are no more than one measure over all three components plus a fixed number per accept and spurious wakeup |
| ServerProgress.StuckIsFinished | thread_pool.cpp:188-224 | no deadlock across the two locks: with no pipeline step left both are free, no submit is under way, and a pool thread that does not sleep waits for its client |
| ServerProgress.StuckIsReached | thread_pool.cpp:188-224 | from every reachable state such a state is reached without another accept |
| ServerDelivery.HeldBack | tcp_worker_pool.cpp:326-349 | in every reachable state a connection that is silent, or has as many silent ones ahead of it as there are pool threads, is neither in event_storage_ nor with a worker |
| ServerDelivery.DeliveredExactly | tcp_worker_pool.cpp:326-354 | with no pipeline step left, a connection is in event_storage_ or with a worker if and only if it was heard and fewer silent ones arrived before it than pool threads were created |
| ServerDelivery.EveryConnectionIsDelivered | tcp_worker_pool.cpp:326-354 | over every run: the pipeline's steps are bounded, and then the connections delivered are exactly those; so with fewer silent clients than threads every other connection is delivered |
| ServerPickup.RunningWorkerCanStep | tcp_worker_pool.cpp:129-145 | a created worker that has not divided by zero can step, unless another process holds locker_, and then that one can |
| ServerPickup.WorkerEmptiesStorage | tcp_worker_pool.cpp:129-168 | in every server run that never finds event_storage_ empty a worker takes at most nine steps, and nine for each of the 2048 connections not popped yet |
| ServerPickup.OwnedExactlyInTheEnd | tcp_worker_pool.cpp:130-152 | with no pipeline step left and event_storage_ empty, a connection is in exactly one worker's map if and only if it was heard and fewer silent ones arrived before it than pool threads were created |
| ServerStall.StallIsReached | tcp_worker_pool.cpp:326 | for every number of cores, a run comes to rest with a connection undelivered whose client has sent its request |

## Left out

- The loops of `thread_routine`, `worker_routine`, the join loop of `shutdown_interval` and the accept poll loop run concurrently with other threads, so they are step machines and not methods with loops.
- ServerDelivery.EveryConnectionIsDelivered: takes the delivery as far as event_storage_; from there ServerPickup.WorkerEmptiesStorage speaks of a worker that keeps running, since one that divides by zero stops.
- PoolMachine.Step: a task's run is one step in the pool's own machine; in the server machine it is the return of the read and the lock, push and unlock of the hand-off block, without what is read and sent.
- Sockets, epoll, the bytes of `read` and `send`, and `close`: `accept` yields a fresh positive descriptor and `poll_event` does nothing to the shared state; the arrival of events and of a client's first bytes are inputs.
- HTTP responses, message formatting and `client_info::host`: a connection is its descriptor and port.
- `error_map`, `httpcode_map`: constant tables whose singletons repeat `thread_pool::instance`.
- CPU affinity, thread names and debug output have no effect on the protocol.
- Destruction of the pool and of its mutex, and data races in the C++ memory model.
- `handle_epollin`, `handle_disconnect` and `handle_error` change no shared state (the second has an empty body), so descriptors never leave a worker's map.
- The unused condition variable of `tcp_worker_pool` (`worker_cond`) and the `nonblocking` argument of its `submit`.
