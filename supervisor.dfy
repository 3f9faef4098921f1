/**
 * The supervisor's job loop in `Pool::new` (src/pool.rs:178-185) and the
 * `JobHandle` completion guard (src/pool.rs:92-115). The shared
 * `AtomicBool` panic flag is a boolean; the value the supervisor reads after
 * a job is part of the job's description.
 */
module Supervisor {
  import opened Wrappers
  import opened Channels

  /** `Result<(), ()>` on the completion channel. */
  datatype JobResult = Ok | Err

  /**
   * A job, described by whether the shared panic flag is set when the
   * supervisor reads it after running the job (src/pool.rs:180).
   */
  datatype Job = Job(panics: bool)

  /**
   * How many jobs the supervisor runs from the job channel: up to the
   * teardown message `None` or the channel's end, and including the first
   * job that panics.
   */
  function JobsRun(jobs: seq<Option<Job>>): (n: nat)
    ensures n <= |jobs|
    ensures forall i :: 0 <= i < n ==> jobs[i].Some?
    ensures forall i :: 0 <= i < n - 1 ==> !jobs[i].value.panics
    ensures n < |jobs| ==> jobs[n].None? || (0 < n && jobs[n - 1].value.panics)
    decreases |jobs|
  {
    if jobs == [] || jobs[0].None? then 0
    else if jobs[0].value.panics then 1
    else 1 + JobsRun(jobs[1..])
  }

  /**
   * The supervisor thread's loop (src/pool.rs:178-185): receive a job, run
   * it, report `Err` on the completion channel if the panic flag is set
   * and `Ok` otherwise, and stop after the first `Err`. When the loop
   * ends, the `PanicHandler` guard reports `Ok`: the supervisor thread
   * itself is not panicking. `jobs` are the job messages the supervisor
   * will receive, in order; `stoppedOnPanic` says whether it left the loop
   * on a failed job, before taking the next message.
   */
  method SupervisorLoop(jobs: seq<Option<Job>>) returns (finished: seq<JobResult>, stoppedOnPanic: bool)
    ensures stoppedOnPanic <==> 0 < JobsRun(jobs) && jobs[JobsRun(jobs) - 1].value.panics
    ensures |finished| == JobsRun(jobs) + 1
    ensures forall i :: 0 <= i < JobsRun(jobs) ==> (finished[i] == Err <==> jobs[i].value.panics)
    ensures finished[JobsRun(jobs)] == Ok
    ensures forall i :: 0 <= i < |finished| && finished[i] == Err ==> i == JobsRun(jobs) - 1
  {
    var panicked := false;
    finished := [];
    var k := 0;
    while k < |jobs| && jobs[k].Some?
      invariant k <= |jobs| && |finished| == k && !panicked
      invariant forall i :: 0 <= i < k ==> jobs[i].Some? && !jobs[i].value.panics && finished[i] == Ok
      invariant JobsRun(jobs) == k + JobsRun(jobs[k..])
    {
      var job := jobs[k].value;
      assert jobs[k..][0] == jobs[k] && jobs[k..][1..] == jobs[k + 1..];
      k := k + 1;
      if job.panics {
        panicked := true;
      }
      var jobPanicked := panicked;
      finished := finished + [if jobPanicked then Err else Ok];
      if jobPanicked {
        break;
      }
    }
    finished := finished + [Ok];
    stoppedOnPanic := panicked;
  }

  /** A pool: its worker count, the sending end of its job channel and the receiving end of its completion channel. */
  class Pool {
    const nThreads: nat
    const jobQueue: Sender<Option<Job>>
    const jobFinished: Receiver<JobResult>

    constructor (nThreads: nat, jobQueue: Sender<Option<Job>>, jobFinished: Receiver<JobResult>)
      ensures this.nThreads == nThreads && this.jobQueue == jobQueue && this.jobFinished == jobFinished
    {
      this.nThreads := nThreads;
      this.jobQueue := jobQueue;
      this.jobFinished := jobFinished;
    }

    /**
     * `Pool::drop` (src/pool.rs:117-121): send the teardown message `None`
     * to the supervisor, then receive its final completion. The send fails
     * when the supervisor has already dropped its end of the job channel,
     * that is after it stopped on a failed job; then nothing is received.
     */
    method Drop() returns (r: WaitOutcome)
      modifies jobQueue, jobFinished
      ensures jobQueue.sent == if old(jobQueue.connected) then old(jobQueue.sent) + [None] else old(jobQueue.sent)
      ensures jobQueue.connected == old(jobQueue.connected)
      ensures !old(jobQueue.connected) ==> r == SendFailed && jobFinished.pending == old(jobFinished.pending)
      ensures old(jobQueue.connected) ==>
        r == Received(old(jobFinished.pending)) && jobFinished.pending == Consumed(old(jobFinished.pending))
    {
      var ok := jobQueue.Send(None);
      if !ok {
        return SendFailed;
      }
      r := Received(jobFinished.pending);
      var m := jobFinished.Recv();
    }
  }

  /**
   * What `recv().unwrap().unwrap()` on the completion channel comes to, and
   * `SendFailed` for a `send(..).unwrap()` on a channel whose receiver is gone.
   */
  datatype WaitOutcome = Completed | JobPanicked | Disconnected | SendFailed

  /** The outcome of receiving the first of `pending`: never a failed send. */
  function Received(pending: seq<JobResult>): (r: WaitOutcome)
    ensures r != SendFailed
    ensures r == Disconnected <==> pending == []
    ensures r == JobPanicked <==> pending != [] && pending[0] == Err
  {
    if pending == [] then Disconnected
    else if pending[0] == Err then JobPanicked
    else Completed
  }
  /** The channel after one receive. */
  function Consumed<T>(pending: seq<T>): seq<T>
  {
    if pending == [] then [] else pending[1..]
  }

  /** The completion guard returned by `execute`. */
  class JobHandle {
    const pool: Pool
    var wait: bool

    /** `JobHandle { pool: self, wait: true, .. }` at the end of `execute` (src/pool.rs:461-465). */
    constructor (pool: Pool)
      ensures this.pool == pool && wait
    {
      this.pool := pool;
      wait := true;
    }

    /**
     * `JobHandle::wait` (src/pool.rs:103-106): clear `wait`, receive one
     * completion, and fail on `Err` or on a closed channel. The handle is
     * dropped afterwards, which receives nothing more.
     */
    method Wait() returns (r: WaitOutcome)
      modifies this, pool.jobFinished
      ensures !wait
      ensures r == Received(old(pool.jobFinished.pending))
      ensures pool.jobFinished.pending == Consumed(old(pool.jobFinished.pending))
    {
      wait := false;
      r := Received(pool.jobFinished.pending);
      var m := pool.jobFinished.Recv();
      var late := Drop();
    }

    /**
     * `JobHandle::drop` (src/pool.rs:110-114): receive a completion only if
     * it is still owed. Returns `None` when nothing was received.
     */
    method Drop() returns (r: Option<WaitOutcome>)
      modifies pool.jobFinished
      ensures old(wait) ==> r == Some(Received(old(pool.jobFinished.pending)))
      ensures old(wait) ==> pool.jobFinished.pending == Consumed(old(pool.jobFinished.pending))
      ensures !old(wait) ==> r == None && pool.jobFinished.pending == old(pool.jobFinished.pending)
    {
      if wait {
        r := Some(Received(pool.jobFinished.pending));
        var m := pool.jobFinished.Recv();
      } else {
        r := None;
      }
    }
  }

  /**
   * A handle's life ends either in an explicit `wait` or in a drop at the
   * end of its scope; either way exactly one completion is consumed, and
   * its outcome is reported.
   */
  method Release(h: JobHandle, explicitWait: bool) returns (r: WaitOutcome)
    requires h.wait
    modifies h, h.pool.jobFinished
    ensures r == Received(old(h.pool.jobFinished.pending))
    ensures h.pool.jobFinished.pending == Consumed(old(h.pool.jobFinished.pending))
  {
    if explicitWait {
      r := h.Wait();
    } else {
      var d := h.Drop();
      r := d.value;
    }
  }

  /**
   * Failure propagation for one job on a fresh pool (`execute` at
   * src/pool.rs:459, then `wait` and `Pool::drop`). The supervisor runs the
   * job to the end before the caller waits; if it stopped on the failed
   * job, it has dropped its end of the job channel. Waiting on the handle
   * fails exactly when the supervisor read the panic flag set after the job. Dropping the pool afterwards
   * receives the supervisor's final report, which is a success; after a
   * failed job its teardown send fails instead, and that report stays
   * unread.
   */
  method RunOneJob(nThreads: nat, job: Job) returns (r: WaitOutcome, teardown: WaitOutcome, unread: nat)
    ensures r == (if job.panics then JobPanicked else Completed)
    ensures teardown == (if job.panics then SendFailed else Completed)
    ensures unread == (if job.panics then 1 else 0)
  {
    var queue := new Sender<Option<Job>>();
    var submitted := queue.Send(Some(job));
    assert JobsRun(queue.sent + [None]) == 1 by {
      assert (queue.sent + [None])[1..] == [None];
    }
    var finished, stoppedOnPanic := SupervisorLoop(queue.sent + [None]);
    if stoppedOnPanic {
      queue.Disconnect();
    }
    var channel := new Receiver(finished);
    var pool := new Pool(nThreads, queue, channel);
    var h := new JobHandle(pool);
    r := Release(h, true);
    teardown := pool.Drop();
    unread := |channel.pending|;
  }
}
