/** YACReader::ConcurrentQueue as a class whose methods are the critical sections of the
    C++ object, each proved to perform the matching step of the QueueSpec state machine.
    The object's fields are real; the bookkeeping about threads between two critical
    sections and the job history are ghost fields. */
module YACReader {
  import QueueSpec

  class ConcurrentQueue<Job> {
    /** Number of worker threads the constructor spawns. */
    const threadCount: nat

    var queue: seq<Job>
    var jobsLeft: nat
    var bailout: bool

    ghost var pendingPushes: nat
    ghost var running: nat
    ghost var detached: nat
    ghost var submitted: seq<Job>
    ghost var claimed: seq<Job>
    ghost var started: nat
    ghost var finished: nat
    ghost var cancelled: nat

    /** The object and its bookkeeping as a state of the specification. */
    ghost function Abs(): QueueSpec.State<Job>
      reads this
    {
      QueueSpec.State(queue, jobsLeft, bailout, pendingPushes, running, detached,
                      submitted, claimed, started, finished, cancelled)
    }

    ghost predicate Valid()
      reads this
    {
      QueueSpec.Inv(Abs())
    }

    constructor (threadCount: nat)
      ensures Valid() && this.threadCount == threadCount
      ensures queue == [] && jobsLeft == 0 && !bailout
      ensures pendingPushes == 0 && running == 0 && detached == 0
      ensures submitted == [] && claimed == []
      ensures started == 0 && finished == 0 && cancelled == 0
    {
      this.threadCount := threadCount;
      queue, jobsLeft, bailout := [], 0, false;
      pendingPushes, running, detached := 0, 0, 0;
      submitted, claimed := [], [];
      started, finished, cancelled := 0, 0, 0;
    }

    /** First critical section of enqueue, under the counter's mutex. */
    method BumpJobsLeft()
      requires Valid()
      modifies this
      ensures Valid() && Abs() == QueueSpec.BumpJobsLeft(old(Abs()))
      ensures jobsLeft >= |queue|
    {
      jobsLeft := jobsLeft + 1;
      pendingPushes := pendingPushes + 1;
    }

    /** Second critical section of enqueue, under the queue's mutex. */
    method PushJob(job: Job)
      requires Valid() && pendingPushes > 0
      modifies this
      ensures Valid() && Abs() == QueueSpec.PushJob(old(Abs()), job)
      ensures jobsLeft >= |queue|
    {
      queue := queue + [job];
      pendingPushes := pendingPushes - 1;
      submitted := submitted + [job];
    }

    /** Submit a job: count it, then make it visible to the workers. */
    method Enqueue(job: Job)
      requires Valid()
      modifies this
      ensures Valid() && Abs() == QueueSpec.Enqueue(old(Abs()), job)
      ensures queue == old(queue) + [job] && jobsLeft == old(jobsLeft) + 1
      ensures bailout == old(bailout)
    {
      BumpJobsLeft();
      assert jobsLeft >= |queue|;
      PushJob(job);
    }

    /** The critical section of a worker's loop. */
    method TakeJob() returns (outcome: QueueSpec.WorkerOutcome<Job>)
      requires Valid()
      modifies this
      ensures Valid() && (Abs(), outcome) == QueueSpec.TakeJob(old(Abs()))
      ensures jobsLeft >= |queue|
    {
      if bailout {
        return QueueSpec.Exit;
      }
      if |queue| == 0 {
        return QueueSpec.Wait;
      }
      var job := queue[0];
      queue := queue[1..];
      running, started := running + 1, started + 1;
      claimed := claimed + [job];
      outcome := QueueSpec.Took(job);
    }

    /** finalizeJobs(count). The two requires are the asserts of the C++ method; the
        caller keeps the bookkeeping in step. */
    method FinalizeJobs(count: nat) returns (notify: bool)
      requires count > 0
      requires jobsLeft >= count
      modifies this`jobsLeft
      ensures jobsLeft == old(jobsLeft) - count
      ensures notify <==> jobsLeft == 0
    {
      jobsLeft := jobsLeft - count;
      var remainingJobs := jobsLeft;
      notify := remainingJobs == 0;
    }

    /** A worker has run its dequeued job and finalizes it. */
    method FinishJob() returns (notify: bool)
      requires Valid() && running > 0
      modifies this
      ensures Valid() && (Abs(), notify) == QueueSpec.FinishJob(old(Abs()))
      ensures jobsLeft >= |queue|
    {
      running, finished := running - 1, finished + 1;
      notify := FinalizeJobs(1);
    }

    /** The worker loop, run by one thread while no other thread acts: dequeue and
        finalize jobs until the loop would wait for work or leaves on shutdown. Each
        job's execution between the two steps is not modelled. */
    method NextJob() returns (ran: seq<Job>, exited: bool)
      requires Valid()
      modifies this
      ensures Valid()
      ensures exited == bailout == old(bailout)
      ensures ran == if exited then [] else old(queue)
      ensures queue == if exited then old(queue) else []
      ensures jobsLeft == old(jobsLeft) - |ran|
      ensures claimed == old(claimed) + ran && submitted == old(submitted)
      ensures finished == old(finished) + |ran| && running == old(running)
      ensures started == old(started) + |ran| && cancelled == old(cancelled)
      ensures pendingPushes == old(pendingPushes) && detached == old(detached)
      ensures exited ==> Abs() == old(Abs())
    {
      ran := [];
      while true
        invariant Valid()
        invariant bailout == old(bailout)
        invariant ran + queue == old(queue)
        invariant old(bailout) ==> ran == []
        invariant jobsLeft == old(jobsLeft) - |ran|
        invariant claimed == old(claimed) + ran && submitted == old(submitted)
        invariant finished == old(finished) + |ran| && running == old(running)
        invariant started == old(started) + |ran| && cancelled == old(cancelled)
        invariant pendingPushes == old(pendingPushes) && detached == old(detached)
        decreases |queue|
      {
        var outcome := TakeJob();
        match outcome
        case Exit =>
          return ran, true;
        case Wait =>
          return ran, false;
        case Took(job) =>
          ran := ran + [job];
          var _ := FinishJob();
      }
    }

    /** cancelPending's critical section: exchange the queue for an empty one. */
    method SwapQueue() returns (oldQueue: seq<Job>)
      requires Valid()
      modifies this
      ensures Valid() && (Abs(), oldQueue) == QueueSpec.SwapQueue(old(Abs()))
      ensures jobsLeft >= |queue|
    {
      oldQueue := queue;
      queue := [];
      detached := detached + |oldQueue|;
      claimed := claimed + oldQueue;
      cancelled := cancelled + |oldQueue|;
    }

    /** Drop every job no worker has picked up yet; returns how many were dropped. */
    method CancelPending() returns (size: nat)
      requires Valid()
      modifies this
      ensures Valid() && (Abs(), size) == QueueSpec.CancelPending(old(Abs()))
      ensures size == |old(queue)| && queue == []
      ensures jobsLeft == old(jobsLeft) - size
    {
      var oldQueue := SwapQueue();
      assert jobsLeft >= |queue|;
      size := |oldQueue|;
      if size != 0 {
        detached := detached - size;
        var _ := FinalizeJobs(size);
      }
    }

    /** waitAll's guard: whether the call may return now, either at once or after
        waiting. When it may, everything submitted so far has finished or was cancelled. */
    method WaitAll() returns (mayReturn: bool)
      requires Valid()
      ensures mayReturn <==> jobsLeft == 0
      ensures mayReturn ==> queue == [] && claimed == submitted
      ensures mayReturn ==> |submitted| == finished + cancelled
    {
      mayReturn := jobsLeft == 0;
      if mayReturn {
        QueueSpec.WaitAllMeansIdle(Abs());
      }
    }

    /** joinAll's critical section: raise the shutdown flag once. */
    method JoinAll()
      requires Valid()
      modifies this`bailout
      ensures Valid() && Abs() == QueueSpec.JoinAll(old(Abs()))
      ensures bailout && queue == old(queue) && jobsLeft == old(jobsLeft)
    {
      if bailout {
        return;
      }
      bailout := true;
    }
  }

  /** A client: two jobs are submitted and cancelled before any worker runs, a third is
      submitted and run by a worker, and waitAll may then return. */
  method CancelThenRun()
  {
    var pool := new ConcurrentQueue<int>(2);
    pool.Enqueue(1);
    pool.Enqueue(2);
    var dropped := pool.CancelPending();
    assert dropped == 2;
    pool.Enqueue(3);
    var ran, exited := pool.NextJob();
    assert ran == [3] && !exited;
    var done := pool.WaitAll();
    assert done && pool.finished == 1 && pool.cancelled == 2;
    pool.JoinAll();
    ran, exited := pool.NextJob();
    assert exited && ran == [];
  }
}
