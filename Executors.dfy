/**
 * `Executors::Executor`: the elastic pool that runs every published job.
 * One shared FIFO holds (function, message) pairs; `exec` pushes one pair
 * and, when the backlog then exceeds `maxQueueSize`, adds a worker and
 * doubles the threshold. Worker threads are objects whose thread bodies are
 * not modelled beyond the retry loop of `stop`.
 */
module Executors {

  import opened Messages
  import opened Callables
  import opened Queues

  /** One entry of the shared job queue: `std::pair<function, Message_ptr>`. */
  datatype Task = Task(func: Fn, arg: Message)

  /** The job `Worker::stop` pushes to wake its thread: a no-op on `noneMsg`. */
  const Poison: Task := Task(NoOp, NoneMsg)

  function Pow2(n: nat): (r: nat)
    ensures r >= 1
  {
    if n == 0 then 1 else 2 * Pow2(n - 1)
  }

  /** The executor's bookkeeping as a value: backlog, worker count, threshold, switch. */
  datatype Pool = Pool(queue: seq<Task>, workers: nat, maxQueueSize: int, doExec: bool)

  /** The pool as the constructor leaves it: one worker, threshold 2, running. */
  const InitialPool: Pool := Pool([], 1, 2, true)

  /** The invariant of the growth rule: the threshold is 2 to the number of workers. */
  predicate PoolValid(p: Pool) {
    p.workers >= 1 && p.maxQueueSize == Pow2(p.workers)
  }

  /** One `exec` of task `t`, as a function of the pool. */
  function ExecStep(p: Pool, t: Task): Pool {
    if !p.doExec then p
    else if |p.queue + [t]| > p.maxQueueSize then Pool(p.queue + [t], p.workers + 1, p.maxQueueSize * 2, true)
    else p.(queue := p.queue + [t])
  }

  /** A series of `exec` calls, with no job taken from the queue in between. */
  function ExecAll(p: Pool, ts: seq<Task>): Pool {
    if ts == [] then p else ExecStep(ExecAll(p, ts[..|ts| - 1]), ts[|ts| - 1])
  }

  /** The constructor's pool satisfies the growth invariant with an empty backlog. */
  lemma InitialPoolValid()
    ensures PoolValid(InitialPool) && |InitialPool.queue| <= InitialPool.maxQueueSize
  {
    assert Pow2(1) == 2;
  }

  /**
   * One `exec` keeps the growth invariant, never lowers the worker count
   * or the threshold, adds at most one worker, and keeps the backlog within
   * the threshold when it was within it before.
   */
  lemma ExecStepValid(p: Pool, t: Task)
    requires PoolValid(p)
    ensures var q := ExecStep(p, t);
            PoolValid(q) && p.workers <= q.workers <= p.workers + 1 &&
            p.maxQueueSize <= q.maxQueueSize &&
            (|p.queue| <= p.maxQueueSize ==> |q.queue| <= q.maxQueueSize)
  {
    var q := ExecStep(p, t);
    if p.doExec && |p.queue + [t]| > p.maxQueueSize {
      assert q.maxQueueSize == Pow2(p.workers + 1);
    }
  }

  /**
   * While running, a series of `exec` calls appends its jobs at the tail in
   * call order; once stopped, it changes nothing at all.
   */
  lemma {:induction false} ExecAllQueue(p: Pool, ts: seq<Task>)
    ensures p.doExec ==> ExecAll(p, ts).queue == p.queue + ts && ExecAll(p, ts).doExec
    ensures !p.doExec ==> ExecAll(p, ts) == p
  {
    if ts != [] {
      var front := ts[..|ts| - 1];
      ExecAllQueue(p, front);
      assert front + [ts[|ts| - 1]] == ts;
    }
  }

  /**
   * Over any series of `exec` calls the growth invariant holds, workers and
   * threshold never decrease, at most one worker is added per call, and a
   * backlog within the threshold stays within it.
   */
  lemma {:induction false} ExecAllValid(p: Pool, ts: seq<Task>)
    requires PoolValid(p)
    ensures var q := ExecAll(p, ts);
            PoolValid(q) && p.workers <= q.workers <= p.workers + |ts| &&
            p.maxQueueSize <= q.maxQueueSize &&
            (|p.queue| <= p.maxQueueSize ==> |q.queue| <= q.maxQueueSize)
  {
    if ts != [] {
      ExecAllValid(p, ts[..|ts| - 1]);
      ExecStepValid(ExecAll(p, ts[..|ts| - 1]), ts[|ts| - 1]);
    }
  }

  /** The delay `Worker::stop` sleeps in its `i`-th pass: 1 ms, doubled while at most 512. */
  function Backoff(i: nat): nat {
    if i == 0 then 1
    else
      var t := Backoff(i - 1);
      if t <= 512 then 2 * t else t
  }

  /** The retry delay is 2^i ms up to the tenth pass and 1024 ms from then on. */
  lemma {:induction false} BackoffCapped(i: nat)
    ensures Backoff(i) == Pow2(if i <= 10 then i else 10)
    ensures 1 <= Backoff(i) <= 1024
  {
    if i > 0 {
      BackoffCapped(i - 1);
      if i <= 10 {
        Pow2Le(i - 1, 9);
        assert Pow2(9) == 512;
      } else {
        assert Pow2(10) == 1024;
      }
    }
  }

  lemma {:induction false} Pow2Le(m: nat, n: nat)
    requires m <= n
    ensures Pow2(m) <= Pow2(n)
  {
    if m < n {
      Pow2Le(m, n - 1);
    }
  }

  /** `n` wake-up jobs in a row. */
  function Poisons(n: nat): (r: seq<Task>)
    ensures |r| == n
  {
    if n == 0 then [] else Poisons(n - 1) + [Poison]
  }

  /** Every wake-up job is the no-op on `noneMsg`. */
  lemma {:induction false} PoisonsSpec(n: nat)
    ensures forall i :: 0 <= i < n ==> Poisons(n)[i] == Poison
  {
    if n > 0 {
      PoisonsSpec(n - 1);
    }
  }

  /** An executor worker; its thread body is outside the model. */
  class Worker {
    var doLoop: bool

    constructor ()
      ensures doLoop
    {
      doLoop := true;
    }

    /** `stopWorker`: asks the thread to leave its loop. */
    method StopWorker()
      modifies this
      ensures !doLoop
    {
      doLoop := false;
    }

    /**
     * `stop`: clears `doLoop`, then, while the thread has not finished,
     * pushes a no-op job to wake it and sleeps, doubling the delay while it
     * is at most 512 ms. `rounds` is how many passes run before the thread
     * reports `done`; the delays slept are returned.
     */
    method Stop(jobQueue: Queue<Task>, rounds: nat) returns (delays: seq<nat>)
      modifies this, jobQueue
      ensures !doLoop
      ensures jobQueue.items == old(jobQueue.items) + Poisons(rounds)
      ensures |delays| == rounds && forall i :: 0 <= i < rounds ==> delays[i] == Backoff(i) <= 1024
    {
      doLoop := false;
      var timeout := 1;
      delays := [];
      for i := 0 to rounds
        invariant !doLoop && timeout == Backoff(i)
        invariant jobQueue.items == old(jobQueue.items) + Poisons(i)
        invariant |delays| == i && forall k :: 0 <= k < i ==> delays[k] == Backoff(k) <= 1024
      {
        jobQueue.Push(Poison);
        assert (old(jobQueue.items) + Poisons(i)) + [Poison] == old(jobQueue.items) + Poisons(i + 1);
        BackoffCapped(i);
        delays := delays + [timeout];
        if timeout <= 512 {
          timeout := timeout * 2;
        }
      }
    }
  }

  class Executor {
    /** The shared `jobQueue` of the namespace. */
    const jobQueue: Queue<Task>
    var workers: seq<Worker>
    var maxQueueSize: int
    var doExec: bool

    /** The bookkeeping as a `Pool` value. */
    function State(): Pool
      reads this, jobQueue
    {
      Pool(jobQueue.items, |workers|, maxQueueSize, doExec)
    }

    ghost predicate Valid()
      reads this, jobQueue
    {
      PoolValid(State())
    }

    /** The defaulted constructor: one worker, threshold 2, running, on an empty queue. */
    constructor (jobQueue: Queue<Task>)
      requires jobQueue.items == []
      ensures this.jobQueue == jobQueue && State() == InitialPool && Valid()
      ensures |workers| == 1 && fresh(workers[0]) && workers[0].doLoop
    {
      this.jobQueue := jobQueue;
      var w := new Worker();
      workers := [w];
      maxQueueSize := 2;
      doExec := true;
      new;
      InitialPoolValid();
    }

    /** `exec(func, arg)`. */
    method Exec(func: Fn, arg: Message)
      requires Valid()
      modifies this, jobQueue
      ensures State() == ExecStep(old(State()), Task(func, arg)) && Valid()
      ensures workers[..|old(workers)|] == old(workers)
      ensures |workers| > |old(workers)| ==> fresh(workers[|workers| - 1]) && workers[|workers| - 1].doLoop
    {
      ExecStepValid(State(), Task(func, arg));
      if doExec {
        jobQueue.Push(Task(func, arg));
        var size := |jobQueue.items|;
        if size > maxQueueSize {
          var w := new Worker();
          workers := workers + [w];
          maxQueueSize := maxQueueSize * 2;
        }
      }
    }

    /** `exec(func)`: the function, wrapped to ignore its argument, paired with `noneMsg`. */
    method ExecThunk(func: Fn)
      requires Valid()
      modifies this, jobQueue
      ensures State() == ExecStep(old(State()), Task(DropArg(func), NoneMsg)) && Valid()
      ensures workers[..|old(workers)|] == old(workers)
      ensures |workers| > |old(workers)| ==> fresh(workers[|workers| - 1]) && workers[|workers| - 1].doLoop
    {
      ExecStepValid(State(), Task(DropArg(func), NoneMsg));
      if doExec {
        jobQueue.Push(Task(DropArg(func), NoneMsg));
        var size := |jobQueue.items|;
        if size > maxQueueSize {
          var w := new Worker();
          workers := workers + [w];
          maxQueueSize := maxQueueSize * 2;
        }
      }
    }

    /** `stopExecutor`: no further job is accepted and every worker is asked to stop. */
    method StopExecutor()
      modifies this, workers
      ensures !doExec && workers == old(workers) && maxQueueSize == old(maxQueueSize)
      ensures forall w :: w in workers ==> !w.doLoop
    {
      doExec := false;
      for i := 0 to |workers|
        invariant !doExec && workers == old(workers) && maxQueueSize == old(maxQueueSize)
        invariant forall k :: 0 <= k < i ==> !workers[k].doLoop
      {
        workers[i].StopWorker();
      }
    }
  }
}
