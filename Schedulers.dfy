/**
 * `Schedulers`: the table of timed jobs keyed by id, the id counter, one
 * pass of the scheduler thread's loop, and the worker whose queue receives
 * fired jobs. Times are integer milliseconds; the clock reading is a
 * parameter.
 */
module Schedulers {

  import opened Options
  import opened Callables
  import opened Queues

  type JobId = nat

  /** `RepeatTimesMax`, the remaining count of a repeating job: `ULONG_MAX`. */
  const REPEAT_TIMES_MAX: nat := 0xFFFF_FFFF_FFFF_FFFF

  /** A table entry: (func, due time, interval, remaining fire count). */
  datatype Job = Job(func: Fn, due: int, interval: int, remaining: nat)

  /** A wake-up time; `Never` is `time_point::max()`. */
  datatype WakeTime = Never | At(time: int)

  /** A job the scan fires at `now`. */
  predicate IsDue(j: Job, now: int) {
    j.remaining > 0 && j.due <= now
  }

  /** A fired job that is not removed: one interval later than its OLD due time. */
  function Advanced(j: Job): Job
    requires j.remaining > 0
  {
    Job(j.func, j.due + j.interval, j.interval, j.remaining - 1)
  }

  /** The smallest id of a non-empty set. */
  ghost function MinId(s: set<JobId>): (m: JobId)
    requires s != {}
    ensures m in s && forall x :: x in s ==> m <= x
    decreases s
  {
    var x :| x in s;
    if s == {x} then
      assert forall z :: z in s ==> z == x;
      x
    else
      var y := MinId(s - {x});
      assert forall z :: z in s ==> z == x || z in s - {x};
      if x < y then x else y
  }

  /** The ids of a set in ascending order: the iteration order of `std::map`. */
  ghost function SortedIds(s: set<JobId>): seq<JobId>
    decreases s
  {
    if s == {} then []
    else
      var m := MinId(s);
      [m] + SortedIds(s - {m})
  }

  /** `SortedIds` lists every id of the set exactly once, in strictly ascending order. */
  lemma {:induction false} SortedIdsCorrect(s: set<JobId>)
    ensures forall x :: x in SortedIds(s) <==> x in s
    ensures forall i, j :: 0 <= i < j < |SortedIds(s)| ==> SortedIds(s)[i] < SortedIds(s)[j]
    decreases s
  {
    if s != {} {
      var m := MinId(s);
      SortedIdsCorrect(s - {m});
      var r := SortedIds(s);
      assert r == [m] + SortedIds(s - {m});
      forall i, j | 0 <= i < j < |r| ensures r[i] < r[j] {
        if i == 0 {
          assert r[j] in SortedIds(s - {m});
        } else {
          assert r[i] == SortedIds(s - {m})[i - 1];
        }
      }
    }
  }

  /** The ids among `ids` whose jobs are due, in the order of `ids`. */
  function DueIds(jobs: map<JobId, Job>, ids: seq<JobId>, now: int): seq<JobId> {
    if ids == [] then []
    else
      var id := ids[|ids| - 1];
      DueIds(jobs, ids[..|ids| - 1], now) + if id in jobs && IsDue(jobs[id], now) then [id] else []
  }

  /** `DueIds` keeps exactly the due ids, and keeps an ascending list ascending. */
  lemma {:induction false} DueIdsCorrect(jobs: map<JobId, Job>, ids: seq<JobId>, now: int)
    ensures forall x :: x in DueIds(jobs, ids, now) <==> x in ids && x in jobs && IsDue(jobs[x], now)
    ensures (forall i, j :: 0 <= i < j < |ids| ==> ids[i] < ids[j]) ==>
              forall i, j :: 0 <= i < j < |DueIds(jobs, ids, now)| ==> DueIds(jobs, ids, now)[i] < DueIds(jobs, ids, now)[j]
  {
    if ids != [] {
      var front, id := ids[..|ids| - 1], ids[|ids| - 1];
      DueIdsCorrect(jobs, front, now);
      var r := DueIds(jobs, front, now);
      assert ids == front + [id];
      assert forall x :: x in ids <==> x in front || x == id;
      if forall i, j :: 0 <= i < j < |ids| ==> ids[i] < ids[j] {
        assert forall k :: 0 <= k < |r| ==> r[k] in front;
        assert forall k :: 0 <= k < |front| ==> front[k] < id;
        assert forall k :: 0 <= k < |r| ==> r[k] < id;
      }
    }
  }

  /** The ids one scan at `now` fires, in ascending order. */
  ghost function FiredIds(jobs: map<JobId, Job>, now: int): (r: seq<JobId>)
    ensures forall x :: x in r <==> x in jobs && IsDue(jobs[x], now)
    ensures forall i, j :: 0 <= i < j < |r| ==> r[i] < r[j]
  {
    SortedIdsCorrect(jobs.Keys);
    DueIdsCorrect(jobs, SortedIds(jobs.Keys), now);
    DueIds(jobs, SortedIds(jobs.Keys), now)
  }

  /** The functions of the jobs listed, in order. */
  function Funcs(jobs: map<JobId, Job>, ids: seq<JobId>): seq<Fn> {
    if ids == [] then []
    else
      var id := ids[|ids| - 1];
      Funcs(jobs, ids[..|ids| - 1]) + if id in jobs then [jobs[id].func] else []
  }

  /** A job once the scan has visited it (before erasures); `running` is `doLoop`. */
  function Scanned(j: Job, running: bool, now: int): Job {
    if running && IsDue(j, now) && j.remaining > 1 then Advanced(j) else j
  }

  /** Whether the scan erases the job: it fires with one fire left. */
  predicate Erased(j: Job, running: bool, now: int) {
    running && IsDue(j, now) && j.remaining == 1
  }

  lemma DueIdsSnoc(jobs: map<JobId, Job>, ids: seq<JobId>, id: JobId, now: int)
    ensures DueIds(jobs, ids + [id], now) ==
            DueIds(jobs, ids, now) + if id in jobs && IsDue(jobs[id], now) then [id] else []
  {
    assert (ids + [id])[..|ids|] == ids;
  }

  lemma FuncsSnoc(jobs: map<JobId, Job>, ids: seq<JobId>, id: JobId)
    requires id in jobs
    ensures Funcs(jobs, ids + [id]) == Funcs(jobs, ids) + [jobs[id].func]
  {
    assert (ids + [id])[..|ids|] == ids;
  }

  /** Every id of the ascending list is in the set and does not occur before its own position. */
  lemma SortedIdsDistinct(s: set<JobId>)
    ensures var ids := SortedIds(s);
            forall k :: 0 <= k < |ids| ==> ids[k] in s && ids[k] !in ids[..k]
  {
    SortedIdsCorrect(s);
  }

  /**
   * The table once the scan has visited the ids `ids` (before erasures):
   * each visited job that fired with fires to spare has moved on.
   */
  function ScanPrefix(jobs: map<JobId, Job>, ids: seq<JobId>, running: bool, now: int): map<JobId, Job> {
    if ids == [] then jobs
    else
      var id := ids[|ids| - 1];
      var m := ScanPrefix(jobs, ids[..|ids| - 1], running, now);
      if id in jobs then m[id := Scanned(jobs[id], running, now)] else m
  }

  lemma ScanPrefixSnoc(jobs: map<JobId, Job>, ids: seq<JobId>, id: JobId, running: bool, now: int)
    requires id in jobs
    ensures ScanPrefix(jobs, ids + [id], running, now) == ScanPrefix(jobs, ids, running, now)[id := Scanned(jobs[id], running, now)]
  {
    assert (ids + [id])[..|ids|] == ids;
  }

  /** The functions the scan pushes while visiting `ids`, in visiting order. */
  function ScanPushed(jobs: map<JobId, Job>, ids: seq<JobId>, running: bool, now: int): seq<Fn> {
    if ids == [] then []
    else
      var id := ids[|ids| - 1];
      ScanPushed(jobs, ids[..|ids| - 1], running, now) + if running && id in jobs && IsDue(jobs[id], now) then [jobs[id].func] else []
  }

  /** While the scheduler runs, the functions pushed are those of the due ids, in order. */
  lemma {:induction false} ScanPushedIsFuncs(jobs: map<JobId, Job>, ids: seq<JobId>, running: bool, now: int)
    ensures ScanPushed(jobs, ids, running, now) == if running then Funcs(jobs, DueIds(jobs, ids, now)) else []
  {
    if ids != [] {
      var front, id := ids[..|ids| - 1], ids[|ids| - 1];
      ScanPushedIsFuncs(jobs, front, running, now);
      if running && id in jobs && IsDue(jobs[id], now) {
        assert DueIds(jobs, ids, now) == DueIds(jobs, front, now) + [id];
        FuncsSnoc(jobs, DueIds(jobs, front, now), id);
      } else if running {
        assert DueIds(jobs, ids, now) == DueIds(jobs, front, now);
      }
    }
  }

  /** What visiting one more id, not visited before, adds to each of the scan's results. */
  lemma VisitStep(jobs: map<JobId, Job>, ids: seq<JobId>, id: JobId, running: bool, now: int)
    requires id in jobs && id !in ids
    ensures var m := ScanPrefix(jobs, ids, running, now);
            id in m && m[id] == jobs[id] &&
            ScanPrefix(jobs, ids + [id], running, now) == m[id := Scanned(jobs[id], running, now)]
    ensures ErasedIds(jobs, ids + [id], running, now) ==
            ErasedIds(jobs, ids, running, now) + if Erased(jobs[id], running, now) then [id] else []
    ensures ScanPushed(jobs, ids + [id], running, now) ==
            ScanPushed(jobs, ids, running, now) + if running && IsDue(jobs[id], now) then [jobs[id].func] else []
  {
    assert (ids + [id])[..|ids|] == ids;
    ScanPrefixAt(jobs, ids, running, now);
  }

  /** The visited ids the scan records in `jobsToRemove`, in visiting order. */
  function ErasedIds(jobs: map<JobId, Job>, ids: seq<JobId>, running: bool, now: int): seq<JobId> {
    if ids == [] then []
    else
      var id := ids[|ids| - 1];
      ErasedIds(jobs, ids[..|ids| - 1], running, now) + if id in jobs && Erased(jobs[id], running, now) then [id] else []
  }

  lemma {:induction false} ScanPrefixAt(jobs: map<JobId, Job>, ids: seq<JobId>, running: bool, now: int)
    ensures ScanPrefix(jobs, ids, running, now).Keys == jobs.Keys
    ensures forall id :: id in jobs ==>
              ScanPrefix(jobs, ids, running, now)[id] == if id in ids then Scanned(jobs[id], running, now) else jobs[id]
  {
    if ids != [] {
      ScanPrefixAt(jobs, ids[..|ids| - 1], running, now);
      assert forall x :: x in ids <==> x in ids[..|ids| - 1] || x == ids[|ids| - 1];
    }
  }

  lemma {:induction false} ErasedIdsAt(jobs: map<JobId, Job>, ids: seq<JobId>, running: bool, now: int)
    ensures forall id :: id in ErasedIds(jobs, ids, running, now) <==> id in ids && id in jobs && Erased(jobs[id], running, now)
  {
    if ids != [] {
      ErasedIdsAt(jobs, ids[..|ids| - 1], running, now);
      assert forall x :: x in ids <==> x in ids[..|ids| - 1] || x == ids[|ids| - 1];
    }
  }

  /** Visiting every id and then erasing the recorded ones yields `AfterScan`. */
  lemma ScanComplete(jobs: map<JobId, Job>, running: bool, now: int)
    ensures var ids := SortedIds(jobs.Keys);
            var erased := ErasedIds(jobs, ids, running, now);
            ScanPrefix(jobs, ids, running, now) - (set x | x in erased) ==
              if running then AfterScan(jobs, now) else jobs
  {
    var ids := SortedIds(jobs.Keys);
    SortedIdsCorrect(jobs.Keys);
    ScanPrefixAt(jobs, ids, running, now);
    ErasedIdsAt(jobs, ids, running, now);
  }

  /** The table after one scan at `now`; a scan never adds an entry. */
  function AfterScan(jobs: map<JobId, Job>, now: int): (r: map<JobId, Job>)
    ensures r.Keys <= jobs.Keys
  {
    map id | id in jobs && !(IsDue(jobs[id], now) && jobs[id].remaining == 1) ::
      if IsDue(jobs[id], now) then Advanced(jobs[id]) else jobs[id]
  }

  /**
   * What one scan does to one job: it is erased exactly when due with one
   * fire left; a job that is not due is untouched; a fired job keeps its
   * function and interval, loses one fire and is due one interval after its
   * old due time (not one interval after `now`).
   */
  lemma ScanEffect(jobs: map<JobId, Job>, now: int, id: JobId)
    requires id in jobs
    ensures var j, r := jobs[id], AfterScan(jobs, now);
            (id !in r <==> IsDue(j, now) && j.remaining == 1) &&
            (id in r && !IsDue(j, now) ==> r[id] == j) &&
            (id in r && IsDue(j, now) ==>
               r[id] == Job(j.func, j.due + j.interval, j.interval, j.remaining - 1))
  {
  }

  /** The table after one scan at each of the clock readings `times`, in order. */
  function ScanSeries(jobs: map<JobId, Job>, times: seq<int>): map<JobId, Job> {
    if times == [] then jobs else AfterScan(ScanSeries(jobs, times[..|times| - 1]), times[|times| - 1])
  }

  /** How many of the scans at `times` fire job `id`. */
  function FiresOf(jobs: map<JobId, Job>, id: JobId, times: seq<int>): nat {
    if times == [] then 0
    else
      var before := ScanSeries(jobs, times[..|times| - 1]);
      FiresOf(jobs, id, times[..|times| - 1]) + if id in before && IsDue(before[id], times[|times| - 1]) then 1 else 0
  }

  /**
   * Over any series of scans, a job still in the table has the function and
   * interval it was given, has lost one fire per scan that fired it, and is
   * due exactly that many whole intervals after its original due time: the
   * schedule keeps its phase however late the scans come.
   */
  lemma {:induction false} PhaseKept(jobs: map<JobId, Job>, times: seq<int>, id: JobId)
    requires id in ScanSeries(jobs, times)
    ensures id in jobs
    ensures var j, k, n := jobs[id], ScanSeries(jobs, times)[id], FiresOf(jobs, id, times);
            k.func == j.func && k.interval == j.interval &&
            k.remaining + n == j.remaining && k.due == j.due + n * j.interval
  {
    if times != [] {
      var front, now := times[..|times| - 1], times[|times| - 1];
      var before := ScanSeries(jobs, front);
      assert ScanSeries(jobs, times) == AfterScan(before, now);
      assert id in before;
      PhaseKept(jobs, front, id);
      ScanEffect(before, now, id);
      var m := FiresOf(jobs, id, front);
      if IsDue(before[id], now) {
        assert FiresOf(jobs, id, times) == m + 1;
        OneMoreInterval(jobs[id].due, m, jobs[id].interval);
      } else {
        assert FiresOf(jobs, id, times) == m;
      }
    }
  }

  lemma OneMoreInterval(due: int, m: nat, interval: int)
    ensures due + m * interval + interval == due + (m + 1) * interval
  {
  }

  /**
   * A repeating job that has fallen `n` intervals behind catches up one
   * interval per scan: `n` scans at the same reading each fire it once.
   */
  lemma {:induction false} CatchUp(jobs: map<JobId, Job>, id: JobId, now: int, n: nat)
    requires id in jobs && jobs[id].interval >= 0 && jobs[id].remaining > n
    requires jobs[id].due + (n - 1) * jobs[id].interval <= now
    ensures var times := seq(n, _ => now);
            id in ScanSeries(jobs, times) && FiresOf(jobs, id, times) == n
  {
    if n > 0 {
      var times := seq(n, _ => now);
      var front := times[..n - 1];
      assert front == seq(n - 1, _ => now);
      assert jobs[id].due + (n - 2) * jobs[id].interval <= now;
      CatchUp(jobs, id, now, n - 1);
      PhaseKept(jobs, front, id);
      var before := ScanSeries(jobs, front);
      assert before[id].due == jobs[id].due + (n - 1) * jobs[id].interval;
      assert IsDue(before[id], now);
    }
  }

  /**
   * The scheduler's `Worker`: a thread that pulls functions from its queue
   * with a 100 ms timed get and calls them. The thread is not modelled;
   * `RunOnce` is one pass of its loop.
   */
  class Worker {
    var doLoop: bool
    const jobQueue: Queue<Fn>

    constructor ()
      ensures doLoop && fresh(jobQueue)
      ensures jobQueue.items == [] && jobQueue.emptyElem == Null
    {
      doLoop := true;
      jobQueue := new Queue<Fn>(Null);
    }

    /**
     * One pass of `run`: a timed get, then a call unless the get timed out
     * (it yields the null function) or the loop was stopped. Returns the
     * function called, if any, and (as ghosts) the item the get took, how
     * many waits it used and whether it timed out.
     */
    method RunOnce(wakeups: seq<Wakeup<Fn>>)
      returns (called: Option<Fn>, ghost got: Fn, ghost used: nat, ghost timedOut: bool)
      requires jobQueue.emptyElem == Null
      modifies jobQueue
      ensures used <= |wakeups|
      ensures (if timedOut then [] else [got]) + jobQueue.items == old(jobQueue.items) + Arrived(wakeups[..used])
      ensures called == (if doLoop && !timedOut && got != Null then Some(got) else None)
      ensures called != Some(Null)
      ensures called.Some? ==> doLoop
      ensures old(jobQueue.items) != [] ==>
                jobQueue.items == old(jobQueue.items)[1..] &&
                called == (if doLoop && old(jobQueue.items)[0] != Null then Some(old(jobQueue.items)[0]) else None)
      ensures old(jobQueue.items) == [] && Arrived(wakeups) == [] ==>
                called == None && jobQueue.items == []
    {
      var func;
      func, used, timedOut := jobQueue.GetFor(wakeups);
      got := func;
      assert wakeups[..0] == [] && Arrived(wakeups[..0]) == [];
      if old(jobQueue.items) != [] {
        assert [func] + jobQueue.items == old(jobQueue.items);
      }
      if old(jobQueue.items) == [] && Arrived(wakeups) == [] {
        ArrivedPrefixEmpty(wakeups, used);
      }
      called := if doLoop && func != Null then Some(func) else None;
    }
  }

  /** Nothing arrives in a prefix of waits in which nothing arrives at all. */
  lemma {:induction false} ArrivedPrefixEmpty<T>(ws: seq<Wakeup<T>>, n: nat)
    requires n <= |ws| && Arrived(ws) == []
    ensures Arrived(ws[..n]) == []
    decreases |ws|
  {
    if n < |ws| {
      assert ws[..|ws| - 1][..n] == ws[..n];
      ArrivedPrefixEmpty(ws[..|ws| - 1], n);
    } else {
      assert ws[..n] == ws;
    }
  }

  class Scheduler {
    /** `jobs`: id -> (func, due, interval, remaining). */
    var jobs: map<JobId, Job>
    /** `NextJobId`, the id the next `onceIn`/`repeatEvery` returns. */
    var nextJobId: JobId
    var doLoop: bool
    const worker: Worker

    /** Every id in the table was handed out already. */
    ghost predicate Valid()
      reads this
    {
      forall id :: id in jobs ==> id < nextJobId
    }

    constructor ()
      ensures Valid() && jobs == map[] && nextJobId == 0 && doLoop
      ensures fresh(worker) && fresh(worker.jobQueue)
      ensures worker.jobQueue.items == [] && worker.jobQueue.emptyElem == Null
    {
      jobs := map[];
      nextJobId := 0;
      doLoop := true;
      worker := new Worker();
    }

    /** `onceIn(msec, func)` called at time `now`: a job that fires once. */
    method OnceIn(now: int, msec: int, func: Fn) returns (id: JobId)
      requires Valid()
      modifies this
      ensures Valid() && doLoop == old(doLoop)
      ensures id == old(nextJobId) && nextJobId == id + 1 && id !in old(jobs)
      ensures jobs == old(jobs)[id := Job(func, now + msec, msec, 1)]
    {
      id := nextJobId;
      nextJobId := nextJobId + 1;
      jobs := jobs[id := Job(func, now + msec, msec, 1)];
    }

    /** `repeatEvery(msec, func)` called at time `now`: a job that fires every `msec`. */
    method RepeatEvery(now: int, msec: int, func: Fn) returns (id: JobId)
      requires Valid()
      modifies this
      ensures Valid() && doLoop == old(doLoop)
      ensures id == old(nextJobId) && nextJobId == id + 1 && id !in old(jobs)
      ensures jobs == old(jobs)[id := Job(func, now + msec, msec, REPEAT_TIMES_MAX)]
    {
      id := nextJobId;
      nextJobId := nextJobId + 1;
      jobs := jobs[id := Job(func, now + msec, msec, REPEAT_TIMES_MAX)];
    }

    /** `removeJob`: erases that id; an unknown id changes nothing. */
    method RemoveJob(id: JobId)
      modifies this
      ensures jobs == old(jobs) - {id}
      ensures id !in old(jobs) ==> jobs == old(jobs)
      ensures nextJobId == old(nextJobId) && doLoop == old(doLoop)
      ensures old(Valid()) ==> Valid()
    {
      if id in jobs {
        jobs := jobs - {id};
      }
    }

    /**
     * The first half of one pass of `run`: the time to sleep until, the
     * earliest due time among jobs that still have fires left.
     */
    method NextTimeout() returns (wake: WakeTime)
      ensures wake == Never <==> forall id :: id in jobs ==> jobs[id].remaining == 0
      ensures wake.At? ==> exists id :: id in jobs && jobs[id].remaining > 0 && jobs[id].due == wake.time
      ensures wake.At? ==> forall id :: id in jobs && jobs[id].remaining > 0 ==> wake.time <= jobs[id].due
    {
      wake := Never;
      var pending := jobs.Keys;
      while pending != {}
        invariant pending <= jobs.Keys
        invariant wake == Never <==> forall id :: id in jobs && id !in pending ==> jobs[id].remaining == 0
        invariant wake.At? ==> exists id :: id in jobs && id !in pending && jobs[id].remaining > 0 && jobs[id].due == wake.time
        invariant wake.At? ==> forall id :: id in jobs && id !in pending && jobs[id].remaining > 0 ==> wake.time <= jobs[id].due
        decreases pending
      {
        var id :| id in pending;
        var job := jobs[id];
        if job.remaining > 0 && (wake.Never? || job.due < wake.time) {
          wake := At(job.due);
        }
        pending := pending - {id};
      }
    }

    /**
     * The second half of one pass of `run`, after the wait, with the clock
     * reading `now`: in ascending id order, every due job is pushed to the
     * worker's queue; a job with one fire left is then erased, any other is
     * moved one interval on from its old due time.
     */
    method FireDue(now: int)
      requires Valid()
      modifies this, worker.jobQueue
      ensures Valid() && nextJobId == old(nextJobId) && doLoop == old(doLoop)
      ensures doLoop ==> jobs == AfterScan(old(jobs), now)
      ensures doLoop ==> worker.jobQueue.items == old(worker.jobQueue.items) + Funcs(old(jobs), FiredIds(old(jobs), now))
      ensures !doLoop ==> jobs == old(jobs) && worker.jobQueue.items == old(worker.jobQueue.items)
    {
      ghost var J := jobs;
      var ids := SortedKeys();
      SortedIdsDistinct(J.Keys);
      var jobsToRemove := VisitAll(ids, now);
      ScanPushedIsFuncs(J, ids, doLoop, now);
      ScanComplete(J, doLoop, now);
      EraseJobs(jobsToRemove);
    }

    /**
     * The visiting loop of a scan: every due job's function is pushed in
     * ascending id order, jobs with fires to spare move on, and the ids of
     * jobs that fired their last time are returned for erasure.
     */
    method VisitAll(ids: seq<JobId>, now: int) returns (jobsToRemove: seq<JobId>)
      requires forall k :: 0 <= k < |ids| ==> ids[k] in jobs && ids[k] !in ids[..k]
      modifies this, worker.jobQueue
      ensures nextJobId == old(nextJobId) && doLoop == old(doLoop)
      ensures jobs == ScanPrefix(old(jobs), ids, doLoop, now)
      ensures jobsToRemove == ErasedIds(old(jobs), ids, doLoop, now)
      ensures worker.jobQueue.items == old(worker.jobQueue.items) + ScanPushed(old(jobs), ids, doLoop, now)
    {
      ghost var J := jobs;
      jobsToRemove := [];
      for i := 0 to |ids|
        invariant doLoop == old(doLoop) && nextJobId == old(nextJobId)
        invariant jobs == ScanPrefix(J, ids[..i], doLoop, now)
        invariant jobsToRemove == ErasedIds(J, ids[..i], doLoop, now)
        invariant worker.jobQueue.items == old(worker.jobQueue.items) + ScanPushed(J, ids[..i], doLoop, now)
      {
        var id := ids[i];
        assert ids[..i + 1] == ids[..i] + [id];
        VisitStep(J, ids[..i], id, doLoop, now);
        var erase := Visit(id, now);
        if erase {
          jobsToRemove := jobsToRemove + [id];
        }
      }
      assert ids[..|ids|] == ids;
    }

    /**
     * The body of the visiting loop for one id: a due job's function is
     * pushed; the result says whether the job fired its last time and is
     * to be erased, otherwise a fired job moves one interval on.
     */
    method Visit(id: JobId, now: int) returns (erase: bool)
      requires id in jobs
      modifies this, worker.jobQueue
      ensures nextJobId == old(nextJobId) && doLoop == old(doLoop)
      ensures jobs == old(jobs)[id := Scanned(old(jobs)[id], doLoop, now)]
      ensures erase == Erased(old(jobs)[id], doLoop, now)
      ensures worker.jobQueue.items ==
                old(worker.jobQueue.items) + if doLoop && IsDue(old(jobs)[id], now) then [old(jobs)[id].func] else []
    {
      var job := jobs[id];
      erase := false;
      if doLoop && job.remaining > 0 && job.due <= now {
        worker.jobQueue.Push(job.func);
        if job.remaining == 1 {
          erase := true;
        } else {
          jobs := jobs[id := Advanced(job)];
        }
      }
    }

    /** The erasing loop at the end of a scan: every listed id leaves the table. */
    method EraseJobs(ids: seq<JobId>)
      modifies this
      ensures jobs == old(jobs) - (set x | x in ids)
      ensures nextJobId == old(nextJobId) && doLoop == old(doLoop)
    {
      for k := 0 to |ids|
        invariant nextJobId == old(nextJobId) && doLoop == old(doLoop)
        invariant jobs == old(jobs) - (set x | x in ids[..k])
      {
        jobs := jobs - {ids[k]};
      }
      assert ids[..|ids|] == ids;
    }

    /** The ids of the table in ascending order, as iterating the `std::map` visits them. */
    method SortedKeys() returns (ids: seq<JobId>)
      ensures ids == SortedIds(jobs.Keys)
    {
      ids := [];
      var pending := jobs.Keys;
      while pending != {}
        invariant pending <= jobs.Keys
        invariant SortedIds(jobs.Keys) == ids + SortedIds(pending)
        decreases pending
      {
        var id :| id in pending && forall x :: x in pending ==> id <= x;
        ghost var m := MinId(pending);
        assert id <= m && m <= id;
        ghost var rest := SortedIds(pending - {id});
        assert SortedIds(pending) == [id] + rest;
        ids := ids + [id];
        pending := pending - {id};
      }
    }

    /** One pass of the loop of `run`: the wake time, then the scan at `now`. */
    method Scan(now: int) returns (wake: WakeTime)
      requires Valid()
      modifies this, worker.jobQueue
      ensures Valid() && nextJobId == old(nextJobId) && doLoop == old(doLoop)
      ensures wake == Never <==> forall id :: id in old(jobs) ==> old(jobs)[id].remaining == 0
      ensures wake.At? ==> exists id :: id in old(jobs) && old(jobs)[id].remaining > 0 && old(jobs)[id].due == wake.time
      ensures wake.At? ==> forall id :: id in old(jobs) && old(jobs)[id].remaining > 0 ==> wake.time <= old(jobs)[id].due
      ensures doLoop ==> jobs == AfterScan(old(jobs), now)
      ensures doLoop ==> worker.jobQueue.items == old(worker.jobQueue.items) + Funcs(old(jobs), FiredIds(old(jobs), now))
      ensures !doLoop ==> jobs == old(jobs) && worker.jobQueue.items == old(worker.jobQueue.items)
    {
      wake := NextTimeout();
      FireDue(now);
    }
  }
}
