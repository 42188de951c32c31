/**
 * `Dispatchers::Dispatcher`: one list of subscribed functions per message
 * type. `publish` hands every function subscribed to the message's type,
 * with the message, to the executor. `unsubscribe` compares the pointers
 * `target<std::function<void(Message_ptr)>>()` yields, which are null for
 * every stored function, so it cannot tell any two functions apart.
 */
module Dispatchers {

  import opened Options
  import opened Messages
  import opened Callables
  import opened Executors

  /**
   * What `remove_if` leaves of `fs` when `unsubscribe` is called with `f`:
   * the entries whose `Target` pointer differs from `f`'s, in order.
   */
  function Unsubscribed(fs: seq<Fn>, f: Fn): seq<Fn> {
    if fs == [] then []
    else Unsubscribed(fs[..|fs| - 1], f) + if Target(fs[|fs| - 1]) == Target(f) then [] else [fs[|fs| - 1]]
  }

  /**
   * Since every pointer compared is null, `unsubscribe` with any callable
   * removes every function subscribed to that type, whoever subscribed it.
   */
  lemma {:induction false} UnsubscribeEmpties(fs: seq<Fn>, f: Fn)
    ensures Unsubscribed(fs, f) == []
  {
    if fs != [] {
      UnsubscribeEmpties(fs[..|fs| - 1], f);
    }
  }

  /** The jobs `publish` hands to the executor: each function with the message, in list order. */
  function Tasks(fs: seq<Fn>, msg: Message): seq<Task>
  {
    seq(|fs|, i requires 0 <= i < |fs| => Task(fs[i], msg))
  }

  class Dispatcher {
    /** `funcLists[type]`: the functions subscribed to each message type, NONE to NO_OF_MSG_TYPES - 1. */
    const funcLists: array<seq<Fn>>

    /** One list per type below NO_OF_MSG_TYPES; nothing can be subscribed to NONE. */
    ghost predicate Valid()
      reads this, funcLists
    {
      funcLists.Length == NO_OF_MSG_TYPES as int && funcLists[NONE as int] == []
    }

    constructor ()
      ensures Valid() && fresh(funcLists)
      ensures forall i :: 0 <= i < funcLists.Length ==> funcLists[i] == []
    {
      funcLists := new seq<Fn>[NO_OF_MSG_TYPES as int](_ => []);
    }

    /** `subscribe`: appends at the end of that type's list; no other list changes. */
    method Subscribe(t: MessageType, f: Fn)
      requires Valid() && IsUserType(t)
      modifies funcLists
      ensures Valid()
      ensures funcLists[t as int] == old(funcLists[t as int]) + [f]
      ensures forall i :: 0 <= i < funcLists.Length && i != t as int ==> funcLists[i] == old(funcLists[i])
    {
      funcLists[t as int] := funcLists[t as int] + [f];
    }

    /**
     * `unsubscribe`: removes from that type's list every entry whose target
     * pointer equals `f`'s, which empties the list; no other list changes.
     */
    method Unsubscribe(t: MessageType, f: Fn)
      requires Valid() && IsUserType(t)
      modifies funcLists
      ensures Valid()
      ensures funcLists[t as int] == Unsubscribed(old(funcLists[t as int]), f) == []
      ensures forall i :: 0 <= i < funcLists.Length && i != t as int ==> funcLists[i] == old(funcLists[i])
    {
      UnsubscribeEmpties(funcLists[t as int], f);
      funcLists[t as int] := Unsubscribed(funcLists[t as int], f);
    }

    /**
     * `publish`: one executor job per function subscribed to the message's
     * type, in list order, each carrying the same message. No list changes.
     */
    method Publish(msg: Message, executor: Executor)
      requires Valid() && executor.Valid() && msg.msgType != NO_OF_MSG_TYPES
      modifies executor, executor.jobQueue
      ensures executor.Valid()
      ensures executor.State() == ExecAll(old(executor.State()), Tasks(funcLists[msg.msgType as int], msg))
    {
      var fs := funcLists[msg.msgType as int];
      for i := 0 to |fs|
        invariant executor.Valid()
        invariant executor.State() == ExecAll(old(executor.State()), Tasks(fs[..i], msg))
      {
        assert Tasks(fs[..i + 1], msg)[..i] == Tasks(fs[..i], msg);
        executor.Exec(fs[i], msg);
      }
      assert fs[..|fs|] == fs;
    }

    /** The destructor: every list is emptied. */
    method Clear()
      requires Valid()
      modifies funcLists
      ensures Valid() && forall i :: 0 <= i < funcLists.Length ==> funcLists[i] == []
    {
      for i := 0 to funcLists.Length
        invariant funcLists[NONE as int] == []
        invariant forall k :: 0 <= k < i ==> funcLists[k] == []
      {
        funcLists[i] := [];
      }
    }
  }

  /**
   * Publishing a message, while the executor runs, appends exactly one job
   * per subscribed function at the tail of its queue, in list order, all
   * carrying that message; a stopped executor receives nothing; a NONE
   * message has no subscribers.
   */
  lemma PublishEffect(p: Pool, fs: seq<Fn>, msg: Message)
    ensures p.doExec ==> ExecAll(p, Tasks(fs, msg)).queue == p.queue + Tasks(fs, msg)
    ensures !p.doExec ==> ExecAll(p, Tasks(fs, msg)) == p
    ensures fs == [] ==> ExecAll(p, Tasks(fs, msg)) == p
  {
    ExecAllQueue(p, Tasks(fs, msg));
  }
}
