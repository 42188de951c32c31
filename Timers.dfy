/**
 * `Timers::Timer`: a restartable one-shot timer on top of the scheduler.
 * `jobId` holds the scheduler job of the running timer, 0 meaning "not
 * running"; the delay and the callback are fixed at construction.
 */
module Timers {

  import opened Callables
  import opened Schedulers

  /** The table after `stop` of a timer holding `jobId`: its job is removed unless the id is 0. */
  function Stopped(jobs: map<JobId, Job>, jobId: JobId): map<JobId, Job> {
    if jobId != 0 then jobs - {jobId} else jobs
  }

  /** The table after `start`: `stop`, then a one-shot job of `msec` from `now` under id `next`. */
  function Started(jobs: map<JobId, Job>, jobId: JobId, next: JobId, msec: int, func: Fn, now: int): map<JobId, Job> {
    Stopped(jobs, jobId)[next := Job(func, now + msec, msec, 1)]
  }

  /**
   * `stop` on a running timer removes exactly its job; on a stopped one
   * (id 0) it leaves the table as it is, even when the table holds a job 0.
   */
  lemma StoppedSpec(jobs: map<JobId, Job>, jobId: JobId)
    ensures jobId != 0 ==> jobId !in Stopped(jobs, jobId) && Stopped(jobs, jobId).Keys == jobs.Keys - {jobId}
    ensures jobId == 0 ==> Stopped(jobs, jobId) == jobs
    ensures forall id :: id in Stopped(jobs, jobId) ==> id in jobs && Stopped(jobs, jobId)[id] == jobs[id]
  {
  }

  /**
   * Restarting a running timer (its id, handed out earlier, is not 0)
   * leaves exactly one job of the timer in the table: the previous one is
   * cancelled, the new one is due `msec` after `now`, and every other job is untouched. A later
   * `stop` then brings the table back to what it was without the timer.
   */
  lemma RestartKeepsOneJob(jobs: map<JobId, Job>, jobId: JobId, next: JobId, msec: int, func: Fn, now: int)
    requires forall id :: id in jobs ==> id < next
    requires 0 < jobId < next
    ensures var r := Started(jobs, jobId, next, msec, func, now);
            jobId !in r && next in r && r[next] == Job(func, now + msec, msec, 1) &&
            r.Keys == jobs.Keys - {jobId} + {next} &&
            (forall id :: id in jobs && id != jobId ==> r[id] == jobs[id])
    ensures Stopped(Started(jobs, jobId, next, msec, func, now), next) == jobs - {jobId}
  {
    var s := Stopped(jobs, jobId);
    assert next !in s;
    assert s.Keys == jobs.Keys - {jobId};
    assert s[next := Job(func, now + msec, msec, 1)] - {next} == s;
  }

  /**
   * The scheduler hands out id 0 first. A timer started on it stores 0 and
   * so looks stopped: `stop` leaves job 0 in the table, and a restart adds
   * a second job beside it, so the callback runs twice.
   */
  lemma ZeroIdLeaks(jobs: map<JobId, Job>, msec: int, func: Fn, now: int, later: int)
    requires jobs == map[]
    ensures var r := Started(jobs, 0, 0, msec, func, now);
            Stopped(r, 0) == r && 0 in r &&
            var again := Started(r, 0, 1, msec, func, later);
            again.Keys == {0, 1} && again[0].func == func && again[1].func == func
  {
    var r := Started(jobs, 0, 0, msec, func, now);
    var again := Started(r, 0, 1, msec, func, later);
    assert again.Keys == {0, 1} by {
      assert r.Keys == {0};
    }
  }

  class Timer {
    /** The scheduler job of the running timer; 0 when not running. */
    var jobId: JobId
    const msec: int
    const func: Fn

    /** A new timer is not running. */
    constructor (msec: int, func: Fn)
      ensures jobId == 0 && this.msec == msec && this.func == func
    {
      jobId := 0;
      this.msec := msec;
      this.func := func;
    }

    /** `stop`: cancels the job when the timer holds a non-zero id, then holds 0. */
    method Stop(sched: Scheduler)
      modifies this, sched
      ensures jobId == 0
      ensures sched.jobs == Stopped(old(sched.jobs), old(jobId))
      ensures sched.nextJobId == old(sched.nextJobId) && sched.doLoop == old(sched.doLoop)
      ensures old(sched.Valid()) ==> sched.Valid()
    {
      if jobId != 0 {
        sched.RemoveJob(jobId);
        jobId := 0;
      }
    }

    /** `start`: `stop`, then a one-shot job of `msec` from `now`, whose id the timer keeps. */
    method Start(sched: Scheduler, now: int)
      requires sched.Valid()
      modifies this, sched
      ensures jobId == old(sched.nextJobId) && sched.nextJobId == jobId + 1
      ensures sched.jobs == Started(old(sched.jobs), old(jobId), old(sched.nextJobId), msec, func, now)
      ensures sched.Valid() && sched.doLoop == old(sched.doLoop)
    {
      Stop(sched);
      jobId := sched.OnceIn(now, msec, func);
    }
  }
}
