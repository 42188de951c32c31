/**
 * The per-actor bookkeeping of `Actors::Message`, `Actors::Scheduler` and
 * `Actors::Timer`: what an actor subscribed and scheduled, so that its
 * destructors can cancel it. Every callback the actor hands to the runtime
 * is wrapped to take the actor's mutex first (`Locked`).
 */
module Actors {

  import Messages
  import Callables
  import Executors
  import Dispatchers
  import Schedulers
  import StateMachines
  import Timers

  type Subscription = (Messages.MessageType, Callables.Fn)

  /** No two subscriptions share a message type. */
  predicate DistinctTypes(subs: seq<Subscription>) {
    forall i, j :: 0 <= i < j < |subs| ==> subs[i].0 != subs[j].0
  }

  /** The dispatcher lists once `unsubscribe(type, func)` has run for each of `subs` in turn. */
  function UnsubscribeEach(lists: seq<seq<Callables.Fn>>, subs: seq<Subscription>): (r: seq<seq<Callables.Fn>>)
    ensures |r| == |lists|
  {
    if subs == [] then lists
    else
      var prev := UnsubscribeEach(lists, subs[..|subs| - 1]);
      var (t, f) := subs[|subs| - 1];
      if t as int < |prev| then prev[t as int := Dispatchers.Unsubscribed(prev[t as int], f)] else prev
  }

  /**
   * The destructor empties the dispatcher list of every type the actor
   * subscribed to: its own locking wrapper goes, and so does every other
   * actor's subscription to that type. Every other list is left as it was.
   */
  lemma {:induction false} UnsubscribeEachSpec(lists: seq<seq<Callables.Fn>>, subs: seq<Subscription>)
    ensures forall k :: 0 <= k < |subs| && subs[k].0 as int < |lists| ==>
              UnsubscribeEach(lists, subs)[subs[k].0 as int] == []
    ensures forall i :: 0 <= i < |lists| && (forall k :: 0 <= k < |subs| ==> subs[k].0 as int != i) ==>
              UnsubscribeEach(lists, subs)[i] == lists[i]
  {
    if subs != [] {
      var front := subs[..|subs| - 1];
      UnsubscribeEachSpec(lists, front);
      assert forall k :: 0 <= k < |front| ==> front[k] == subs[k];
      var prev := UnsubscribeEach(lists, front);
      var (t, f) := subs[|subs| - 1];
      if t as int < |prev| {
        Dispatchers.UnsubscribeEmpties(prev[t as int], f);
      }
    }
  }

  /**
   * An actor's `publish`, while the executor runs: the jobs of the
   * dispatcher's subscribers come first, then one job per state machine
   * listed for the type, all carrying the same message.
   */
  lemma PublishOrder(p: Executors.Pool, fs: seq<Callables.Fn>, sms: seq<StateMachines.StateMachine>, msg: Messages.Message)
    requires p.doExec
    ensures Executors.ExecAll(Executors.ExecAll(p, Dispatchers.Tasks(fs, msg)), StateMachines.MachineTasks(sms, msg)).queue ==
            p.queue + Dispatchers.Tasks(fs, msg) + StateMachines.MachineTasks(sms, msg)
  {
    var q := Executors.ExecAll(p, Dispatchers.Tasks(fs, msg));
    Executors.ExecAllQueue(p, Dispatchers.Tasks(fs, msg));
    Executors.ExecAllQueue(q, StateMachines.MachineTasks(sms, msg));
  }

  /** `Actors::Message`: the subscriptions of one actor. */
  class Message {
    /** `subscriptions`: (type, user function) pairs, in subscription order. */
    var subscriptions: seq<Subscription>
    /** The actor's mutex, shared by every wrapper it registers. */
    const mutex: nat

    /** At most one subscription per type, each to a type that can be subscribed to. */
    ghost predicate Valid()
      reads this
    {
      DistinctTypes(subscriptions) &&
      forall i :: 0 <= i < |subscriptions| ==> Messages.IsUserType(subscriptions[i].0)
    }

    constructor (mutex: nat)
      ensures Valid() && subscriptions == [] && this.mutex == mutex
    {
      subscriptions := [];
      this.mutex := mutex;
    }

    /**
     * `subscribe`: asserts that the actor has no subscription of type `t`,
     * records `(t, func)` and registers one wrapper that takes the actor's
     * mutex before calling `func`.
     */
    method Subscribe(t: Messages.MessageType, func: Callables.Fn, dispatcher: Dispatchers.Dispatcher)
      requires Valid() && dispatcher.Valid() && Messages.IsUserType(t)
      requires forall i :: 0 <= i < |subscriptions| ==> subscriptions[i].0 != t
      modifies this, dispatcher.funcLists
      ensures Valid() && dispatcher.Valid()
      ensures subscriptions == old(subscriptions) + [(t, func)]
      ensures dispatcher.funcLists[t as int] == old(dispatcher.funcLists[t as int]) + [Callables.Locked(mutex, func)]
      ensures forall i :: 0 <= i < dispatcher.funcLists.Length && i != t as int ==>
                dispatcher.funcLists[i] == old(dispatcher.funcLists[i])
    {
      subscriptions := subscriptions + [(t, func)];
      dispatcher.Subscribe(t, Callables.Locked(mutex, func));
    }

    /**
     * The destructor: one dispatcher `unsubscribe` per recorded subscription,
     * passing the user function (not the wrapper).
     */
    method Destroy(dispatcher: Dispatchers.Dispatcher)
      requires Valid() && dispatcher.Valid()
      modifies dispatcher.funcLists
      ensures dispatcher.Valid()
      ensures dispatcher.funcLists[..] == UnsubscribeEach(old(dispatcher.funcLists[..]), subscriptions)
      ensures forall k :: 0 <= k < |subscriptions| ==> dispatcher.funcLists[subscriptions[k].0 as int] == []
    {
      for i := 0 to |subscriptions|
        invariant dispatcher.Valid()
        invariant dispatcher.funcLists[..] == UnsubscribeEach(old(dispatcher.funcLists[..]), subscriptions[..i])
      {
        var (t, f) := subscriptions[i];
        assert subscriptions[..i + 1][..i] == subscriptions[..i];
        dispatcher.Unsubscribe(t, f);
      }
      assert subscriptions[..|subscriptions|] == subscriptions;
      UnsubscribeEachSpec(old(dispatcher.funcLists[..]), subscriptions);
    }

    /** `publish`: the same message goes to the dispatcher first, then to the state-machine dispatcher. */
    method Publish(msg: Messages.Message, dispatcher: Dispatchers.Dispatcher, smd: StateMachines.SMDispatcher,
                   executor: Executors.Executor)
      requires dispatcher.Valid() && executor.Valid() && msg.msgType != Messages.NO_OF_MSG_TYPES
      modifies executor, executor.jobQueue
      ensures executor.Valid()
      ensures executor.State() ==
                Executors.ExecAll(
                  Executors.ExecAll(old(executor.State()), Dispatchers.Tasks(dispatcher.funcLists[msg.msgType as int], msg)),
                  StateMachines.MachineTasks(StateMachines.Listed(smd.stateMachinesMap, msg.msgType), msg))
    {
      dispatcher.Publish(msg, executor);
      smd.Publish(msg, executor);
    }
  }

  /** The table once `removeJob` has been called for each of `ids` in turn. */
  function RemoveEach(jobs: map<Schedulers.JobId, Schedulers.Job>, ids: seq<Schedulers.JobId>): map<Schedulers.JobId, Schedulers.Job> {
    if ids == [] then jobs else RemoveEach(jobs, ids[..|ids| - 1]) - {ids[|ids| - 1]}
  }

  /**
   * Removing a series of ids leaves exactly the jobs whose id is not in the
   * series, unchanged; ids no longer in the table (one-shot jobs that have
   * fired, ids removed before) change nothing.
   */
  lemma {:induction false} RemoveEachSpec(jobs: map<Schedulers.JobId, Schedulers.Job>, ids: seq<Schedulers.JobId>)
    ensures forall id :: id in RemoveEach(jobs, ids) <==> id in jobs && id !in ids
    ensures forall id :: id in RemoveEach(jobs, ids) ==> RemoveEach(jobs, ids)[id] == jobs[id]
    ensures (forall k :: 0 <= k < |ids| ==> ids[k] !in jobs) ==> RemoveEach(jobs, ids) == jobs
  {
    if ids != [] {
      var front := ids[..|ids| - 1];
      RemoveEachSpec(jobs, front);
      assert ids == front + [ids[|ids| - 1]];
    }
  }

  /** `Actors::Scheduler`: the ids of the jobs one actor scheduled. */
  class Scheduler {
    /** `scheduledJobs`: the ids returned to this actor, in order. */
    var scheduledJobs: seq<Schedulers.JobId>
    /** The actor's mutex, taken by every scheduled callback before it runs. */
    const mutex: nat

    constructor (mutex: nat)
      ensures scheduledJobs == [] && this.mutex == mutex
    {
      scheduledJobs := [];
      this.mutex := mutex;
    }

    /** `once`: a one-shot job of the wrapped function; its id is recorded and returned. */
    method Once(sched: Schedulers.Scheduler, now: int, msec: int, func: Callables.Fn) returns (id: Schedulers.JobId)
      requires sched.Valid()
      modifies this, sched
      ensures sched.Valid() && sched.doLoop == old(sched.doLoop)
      ensures id == old(sched.nextJobId) && sched.nextJobId == id + 1
      ensures sched.jobs == old(sched.jobs)[id := Schedulers.Job(Callables.Locked(mutex, func), now + msec, msec, 1)]
      ensures scheduledJobs == old(scheduledJobs) + [id]
    {
      id := sched.OnceIn(now, msec, Callables.Locked(mutex, func));
      scheduledJobs := scheduledJobs + [id];
    }

    /** `repeat`: a repeating job of the wrapped function; its id is recorded and returned. */
    method Repeat(sched: Schedulers.Scheduler, now: int, msec: int, func: Callables.Fn) returns (id: Schedulers.JobId)
      requires sched.Valid()
      modifies this, sched
      ensures sched.Valid() && sched.doLoop == old(sched.doLoop)
      ensures id == old(sched.nextJobId) && sched.nextJobId == id + 1
      ensures sched.jobs == old(sched.jobs)[id := Schedulers.Job(Callables.Locked(mutex, func), now + msec, msec, Schedulers.REPEAT_TIMES_MAX)]
      ensures scheduledJobs == old(scheduledJobs) + [id]
    {
      id := sched.RepeatEvery(now, msec, Callables.Locked(mutex, func));
      scheduledJobs := scheduledJobs + [id];
    }

    /** `remove`: cancels the job and forgets every occurrence of its id. */
    method Remove(sched: Schedulers.Scheduler, id: Schedulers.JobId)
      modifies this, sched
      ensures sched.jobs == old(sched.jobs) - {id}
      ensures sched.nextJobId == old(sched.nextJobId) && sched.doLoop == old(sched.doLoop)
      ensures old(sched.Valid()) ==> sched.Valid()
      ensures scheduledJobs == StateMachines.Without(old(scheduledJobs), id)
    {
      sched.RemoveJob(id);
      scheduledJobs := StateMachines.Without(scheduledJobs, id);
    }

    /** The destructor: `removeJob` for every recorded id, in order. */
    method Destroy(sched: Schedulers.Scheduler)
      modifies sched
      ensures sched.jobs == RemoveEach(old(sched.jobs), scheduledJobs)
      ensures sched.nextJobId == old(sched.nextJobId) && sched.doLoop == old(sched.doLoop)
      ensures old(sched.Valid()) ==> sched.Valid()
    {
      for i := 0 to |scheduledJobs|
        invariant sched.jobs == RemoveEach(old(sched.jobs), scheduledJobs[..i])
        invariant sched.nextJobId == old(sched.nextJobId) && sched.doLoop == old(sched.doLoop)
        invariant old(sched.Valid()) ==> sched.Valid()
      {
        assert scheduledJobs[..i + 1][..i] == scheduledJobs[..i];
        sched.RemoveJob(scheduledJobs[i]);
      }
      assert scheduledJobs[..|scheduledJobs|] == scheduledJobs;
    }
  }

  /** `Actors::Timer`: makes timers whose callback takes the actor's mutex. */
  class Timer {
    const mutex: nat

    constructor (mutex: nat)
      ensures this.mutex == mutex
    {
      this.mutex := mutex;
    }

    /** `getInstance`: a new, not running timer of `msec` whose callback is the wrapped `func`. */
    method GetInstance(msec: int, func: Callables.Fn) returns (t: Timers.Timer)
      ensures fresh(t) && t.jobId == 0 && t.msec == msec && t.func == Callables.Locked(mutex, func)
    {
      t := new Timers.Timer(msec, Callables.Locked(mutex, func));
    }
  }
}
