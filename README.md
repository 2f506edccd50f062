# ConcurrentQueue bookkeeping, verified

YACReader's `ConcurrentQueue` (common/concurrent_queue.h) is a worker-pool job
dispatcher. Producers call `enqueue`. A fixed set of worker threads run `nextJob`: they
dequeue jobs and finalize them once they have run. `cancelPending` discards the jobs
no worker has picked up yet. `waitAll` blocks until the live-job counter `jobsLeft`
reaches zero. The destructor calls `joinAll`, which raises the `bailout` shutdown flag.

This project models the object's state: the FIFO `_queue`, the counter `jobsLeft` and
the flag `bailout`. Every lock-protected critical section is one atomic step of a
sequential state machine:

- `queue_spec.dfy`, module `QueueSpec`: the state machine over values. A `State`
  holds the object's three fields. It also holds bookkeeping about threads that sit
  between two of their critical sections:
  - producers that have counted their job but not pushed it yet;
  - workers running a job they dequeued;
  - jobs that `cancelPending` swapped out and has not finalized yet.
  Finally it holds the history of pushed and removed jobs. `Inv` is the exact
  accounting: `jobsLeft` equals the queue length plus those three counts. It implies
  the invariant documented on the counter, `jobsLeft >= _queue.size()`. A `Step` is
  one critical section. `Next` and `Run` execute steps and traces of steps, and the
  lemmas prove properties over every trace.
- `concurrent_queue.dfy`, module `YACReader`: the class `ConcurrentQueue` with the
  three fields as real fields and the bookkeeping as ghost fields. The methods that
  are one critical section, or two run back to back, are proved to take the matching
  step of the state machine (`Abs() == QueueSpec.…(old(Abs()))`). `Enqueue` and
  `CancelPending` check the invariant between their two halves. Three methods are
  different:
  - `FinalizeJobs` is the raw counter update that `FinishJob` and `CancelPending`
    share. It states only its effect on `jobsLeft`; its callers adjust the
    bookkeeping and restore the invariant.
  - `NextJob` runs the worker loop alone. It is specified by its overall effect, not
    by one step.
  - `WaitAll` changes nothing; it says whether the call may return.
  `CancelThenRun` is a small client of the class.

Facts about the code that the model keeps:
- `enqueue` does not check that a job is non-empty. An empty `std::function` would
  only fail when a worker calls it.
- The constructor accepts a thread count of zero. The model only records the thread
  count, and it allows a worker step in any state whatever that count is. This
  admits more behaviours than a zero-thread object has.
- `enqueue` raises the counter before it pushes the job.

## Model

| member | source | states |
|---|---|---|
| QueueSpec.InvCoversQueue | common/concurrent_queue.h:77 | the accounting invariant implies the documented `jobsLeft >= _queue.size()`; the surplus is exactly the jobs being pushed, running, or cancelled but not finalized |
| QueueSpec.InitialState | common/concurrent_queue.h:17-24 | a new object has an empty queue, `jobsLeft == 0` and `bailout == false`, satisfies the invariant, and `waitAll` on it returns |
| QueueSpec.BumpJobsLeft | common/concurrent_queue.h:33-36 | enqueue's first half raises the counter by one and leaves the queue and flag alone; the invariant, and so `jobsLeft >= _queue.size()`, holds between the two halves |
| QueueSpec.PushJob | common/concurrent_queue.h:38-41 | enqueue's second half appends the job at the back and keeps the counter; the invariant is preserved |
| QueueSpec.EnqueueEffect | common/concurrent_queue.h:31-44 | a whole enqueue appends the job, raises `jobsLeft` by exactly one, keeps the flag and preserves the invariant |
| QueueSpec.TakeJob | common/concurrent_queue.h:89-106 | a worker dequeues exactly when the flag is clear and the queue is non-empty; it then returns the front job and leaves the rest in order; the counter never changes; the flag alone makes it exit; otherwise it waits with the state unchanged |
| QueueSpec.FinalizeJobs | common/concurrent_queue.h:113-127 | requires the two asserts (`count > 0`, `jobsLeft >= count`); lowers the counter by exactly `count`; signals waiters exactly when the counter becomes 0 |
| QueueSpec.FinishJob | common/concurrent_queue.h:108-109 | a worker's `finalizeJobs(1)` after its job: counter down by one, invariant preserved, notification exactly at 0 |
| QueueSpec.SwapQueue | common/concurrent_queue.h:50-56 | the swap leaves an empty queue, hands back the old contents, keeps the counter, and preserves the invariant between the two halves of `cancelPending` |
| QueueSpec.FinalizeCancelled | common/concurrent_queue.h:58-60 | finalizing swapped-out jobs lowers the counter by their number and preserves the invariant |
| QueueSpec.CancelPending | common/concurrent_queue.h:48-62 | returns the number of queued jobs, which is the number submitted minus the number already removed; empties the queue; lowers `jobsLeft` by exactly that number; the removed jobs go to the history as cancelled, not started |
| QueueSpec.CancelPendingOnEmptyQueue | common/concurrent_queue.h:58-61 | on an empty queue `cancelPending` returns 0 and leaves the state unchanged |
| QueueSpec.JoinAll | common/concurrent_queue.h:131-139 | the flag is set afterwards and nothing else changes; when it was already set the state is unchanged |
| QueueSpec.JoinAllIdempotent | common/concurrent_queue.h:134-136 | a second `joinAll` is a no-op |
| QueueSpec.WaitAllMeansIdle | common/concurrent_queue.h:64-72 | when `waitAll` may return (`jobsLeft == 0`), nothing is queued, running, half-enqueued or half-cancelled; every pushed job was removed once; and finished plus cancelled equals submitted |
| QueueSpec.FinalizeAssertsHold | common/concurrent_queue.h:115-120 | neither caller of `finalizeJobs` can make its asserts fail in a state satisfying the invariant |
| QueueSpec.Next | common/concurrent_queue.h:77 | every critical section, taken when a thread can be at it, preserves the invariant and never clears the flag |
| QueueSpec.Run | common/concurrent_queue.h:77 | every trace of critical sections preserves the invariant |
| QueueSpec.CounterCoversQueueAlways | common/concurrent_queue.h:77 | `jobsLeft >= _queue.size()` holds in every state reachable from construction |
| QueueSpec.RunExtendsHistory | common/concurrent_queue.h:129-139 | along any trace `bailout` is never reset, and the history of pushed and removed jobs only grows |
| QueueSpec.CancelledJobsNeverRun | common/concurrent_queue.h:46-62 | after a cancel, every job removed later is a job pushed later, taken in push order, so a cancelled job is never dequeued |
| QueueSpec.ShutdownStopsDequeues | common/concurrent_queue.h:92-101 | once `bailout` is set, no worker dequeues again on any trace |
| QueueSpec.ShutdownLeavesQueue | common/concurrent_queue.h:92-94 | after shutdown a worker step with jobs queued exits and changes nothing (shutdown does not drain) |
| QueueSpec.ShutdownBlocksWaitAll | common/concurrent_queue.h:64-72 | jobs queued at shutdown stay counted: without a cancel the queue never shrinks and `waitAll` can never return |
| YACReader.ConcurrentQueue.constructor | common/concurrent_queue.h:17-24 | the new object has an empty queue, `jobsLeft == 0`, `bailout == false`, empty bookkeeping, the given thread count, and satisfies the invariant |
| YACReader.ConcurrentQueue.BumpJobsLeft | common/concurrent_queue.h:33-36 | performs `QueueSpec.BumpJobsLeft` on the fields |
| YACReader.ConcurrentQueue.PushJob | common/concurrent_queue.h:38-41 | performs `QueueSpec.PushJob` on the fields |
| YACReader.ConcurrentQueue.Enqueue | common/concurrent_queue.h:31-44 | runs both halves and checks `jobsLeft >= _queue.size()` between them; the queue gains the job at the back, the counter goes up by one, the flag is kept |
| YACReader.ConcurrentQueue.TakeJob | common/concurrent_queue.h:89-106 | performs `QueueSpec.TakeJob` on the fields and returns its outcome |
| YACReader.ConcurrentQueue.FinalizeJobs | common/concurrent_queue.h:113-127 | under the two asserts, lowers `jobsLeft` by `count` and reports whether it reached 0 |
| YACReader.ConcurrentQueue.FinishJob | common/concurrent_queue.h:108-109 | performs `QueueSpec.FinishJob` by calling `FinalizeJobs(1)` |
| YACReader.ConcurrentQueue.NextJob | common/concurrent_queue.h:84-111 | the worker loop run alone: with the flag clear it runs the whole queue in FIFO order, leaves it empty and lowers the counter by its length; with the flag set it exits at once and the whole state, bookkeeping included, is unchanged; pending pushes and cancelled-but-unfinalized jobs are never touched |
| YACReader.ConcurrentQueue.SwapQueue | common/concurrent_queue.h:50-56 | performs `QueueSpec.SwapQueue` on the fields |
| YACReader.ConcurrentQueue.CancelPending | common/concurrent_queue.h:48-62 | swaps, checks the invariant, and calls `FinalizeJobs` only for a non-empty batch; performs `QueueSpec.CancelPending`: returns the old queue length, leaves the queue empty, lowers the counter by the result |
| YACReader.ConcurrentQueue.WaitAll | common/concurrent_queue.h:64-72 | the call may return exactly when `jobsLeft == 0`; it then finds the queue empty and every submitted job either finished or cancelled |
| YACReader.ConcurrentQueue.JoinAll | common/concurrent_queue.h:129-148 | performs `QueueSpec.JoinAll`: sets `bailout`, and a second call changes nothing |

## Left out

- Threads, `std::mutex`, `std::condition_variable`, `notify_one` and `notify_all`, and
  blocking are not modelled. Each critical section is one atomic step. `waitAll` is the
  guard under which it may return. The notification that `finalizeJobs` would send is
  its boolean result.
- Thread creation in the constructor (common/concurrent_queue.h:21-23) and the join loop
  of `joinAll` (common/concurrent_queue.h:141-147) are not modelled, for the same reason.
  The thread count is only recorded. The destructor (common/concurrent_queue.h:26-29)
  only calls `joinAll`.
- Running a job (common/concurrent_queue.h:108) is not modelled. A job is opaque code, and
  the code does not contain the exceptions it throws. In the model a dequeue and its
  `finalizeJobs(1)` are separate steps with nothing in between.
- Lost and spurious wake-ups are not modelled, because they are interleaving questions.
  An `enqueue` racing with `joinAll` is only modelled as one order or the other.
- QueueSpec.Enabled: a finalize after a swap may take any positive number up to the
  total of swapped-out jobs not yet finalized. It need not match one particular
  cancel's batch. This admits more traces than the code allows, so the trace lemmas
  are stronger for it, not weaker.
- YACReader.ConcurrentQueue.NextJob: the C++ loop blocks when the queue is empty. The
  model returns at that point instead, and reports that it would wait.
- `jobsLeft` is a `size_t` in the code and a `nat` here. A wrap-around after 2^64
  pending jobs is not modelled.
- common/folder.cpp is not part of this model. It is a plain data record with no
  behaviour of the dispatcher.
