/**
 * `Queues::Queue<T>`: the mutex-guarded FIFO every worker pulls from. The
 * `std::queue` member is the sequence `items`, front first. Blocking waits
 * become preconditions; what other threads push while a timed wait is in
 * progress is an input.
 */
module Queues {

  /**
   * What happens during one `wait_for` of a timed `get`: the items other
   * threads push meanwhile, and whether the wait returned `timeout`.
   */
  datatype Wakeup<T> = Wakeup(pushed: seq<T>, timedOut: bool)

  /** `std::cv_status`. */
  datatype Status = NoTimeout | Timeout

  /** All items pushed during the given waits, in order. */
  function Arrived<T>(ws: seq<Wakeup<T>>): seq<T> {
    if ws == [] then [] else Arrived(ws[..|ws| - 1]) + ws[|ws| - 1].pushed
  }

  class Queue<T> {
    /** The sentinel a timed `get` returns when it times out. */
    const emptyElem: T
    var items: seq<T>

    constructor (emptyElem: T)
      ensures this.emptyElem == emptyElem && items == []
    {
      this.emptyElem := emptyElem;
      items := [];
    }

    /** `push`: appends at the back. */
    method Push(item: T)
      modifies this
      ensures items == old(items) + [item]
    {
      items := items + [item];
    }

    /** Blocking `get`: the wait for an item is the precondition. */
    method Get() returns (elem: T)
      requires items != []
      modifies this
      ensures [elem] + items == old(items)
    {
      elem := items[0];
      items := items[1..];
    }

    /**
     * Timed `get(msec)`. The loop waits while the queue is empty and no
     * wait has timed out; `wakeups[i]` says what happened during the i-th
     * wait. Once `wakeups` is used up, the next wait runs out its time.
     * `used` waits took place and `timedOut` is the final status.
     */
    method GetFor(wakeups: seq<Wakeup<T>>) returns (elem: T, ghost used: nat, ghost timedOut: bool)
      modifies this
      ensures used <= |wakeups|
      ensures old(items) != [] ==> used == 0 && !timedOut
      ensures timedOut ==> elem == emptyElem
      ensures (if timedOut then [] else [elem]) + items == old(items) + Arrived(wakeups[..used])
    {
      var i := 0;
      var status := NoTimeout;
      while items == [] && status == NoTimeout
        invariant 0 <= i <= |wakeups|
        invariant items == old(items) + Arrived(wakeups[..i])
        invariant old(items) != [] ==> i == 0 && status == NoTimeout
        decreases |wakeups| - i, if status == Timeout then 0 else 1
      {
        if i < |wakeups| {
          assert wakeups[..i + 1][..i] == wakeups[..i];
          items := items + wakeups[i].pushed;
          status := if wakeups[i].timedOut then Timeout else NoTimeout;
          i := i + 1;
        } else {
          status := Timeout;
        }
      }
      used, timedOut := i, status == Timeout;
      elem := emptyElem;
      if status == NoTimeout {
        elem := items[0];
        items := items[1..];
      }
    }

    /** `size`: reads the queue and changes nothing. */
    method Size() returns (n: nat)
      ensures n == |items|
    {
      n := |items|;
    }

    /** `empty`: reads the queue and changes nothing. */
    method Empty() returns (b: bool)
      ensures b <==> items == []
    {
      b := |items| == 0;
    }
  }

  /** One step of a single-threaded client of the queue. */
  datatype Op<T> = PushOp(item: T) | GetOp

  /** The items a trace of operations pushes, in order. */
  function Pushed<T>(ops: seq<Op<T>>): seq<T> {
    if ops == [] then []
    else (if ops[0].PushOp? then [ops[0].item] else []) + Pushed(ops[1..])
  }

  /**
   * Runs `ops` against a queue holding `items`, one call at a time, taking
   * each step's new contents from the method contracts above: a `PushOp`
   * is `Push` (`items + [item]`), and a `GetOp` is `GetFor` with no
   * concurrent pushes (`Arrived` empty), which removes and yields the front
   * of a non-empty queue and times out, yielding nothing and changing
   * nothing, on an empty one. Returns what the gets yielded and what is
   * left in the queue.
   */
  function Run<T>(items: seq<T>, ops: seq<Op<T>>): (seq<T>, seq<T>)
    decreases ops
  {
    if ops == [] then ([], items)
    else if ops[0].PushOp? then Run(items + [ops[0].item], ops[1..])
    else if items == [] then Run(items, ops[1..])
    else var (out, left) := Run(items[1..], ops[1..]); ([items[0]] + out, left)
  }

  /**
   * FIFO: whatever the interleaving of pushes and gets, the items taken
   * out followed by the items left are exactly the items that were there,
   * followed by those pushed, in push order. Nothing is lost, duplicated
   * or reordered.
   */
  lemma {:induction false} FifoOrder<T>(items: seq<T>, ops: seq<Op<T>>)
    ensures Run(items, ops).0 + Run(items, ops).1 == items + Pushed(ops)
    decreases ops
  {
    if ops == [] {
    } else if ops[0].PushOp? {
      var x := ops[0].item;
      FifoOrder(items + [x], ops[1..]);
      assert Run(items, ops) == Run(items + [x], ops[1..]);
      assert Pushed(ops) == [x] + Pushed(ops[1..]);
      assert (items + [x]) + Pushed(ops[1..]) == items + ([x] + Pushed(ops[1..]));
    } else if items == [] {
      FifoOrder(items, ops[1..]);
      assert Run(items, ops) == Run(items, ops[1..]);
      assert Pushed(ops) == Pushed(ops[1..]);
    } else {
      var r := Run(items[1..], ops[1..]);
      FifoOrder(items[1..], ops[1..]);
      assert Run(items, ops) == ([items[0]] + r.0, r.1);
      assert Pushed(ops) == Pushed(ops[1..]);
      calc {
        ([items[0]] + r.0) + r.1;
        [items[0]] + (r.0 + r.1);
        [items[0]] + (items[1..] + Pushed(ops[1..]));
        items + Pushed(ops);
      }
    }
  }
}
