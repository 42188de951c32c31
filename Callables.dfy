/**
 * The `std::function` values the runtime stores, queues and calls. User
 * code is opaque; the lambdas the library builds around it are spelled out
 * so that contracts can say which wrapper was registered.
 */
module Callables {

  import opened Options

  datatype Fn =
      /** An empty `std::function` (built from `nullptr`). */
    | Null
      /** A callable supplied by user code, told apart by `id`. */
    | User(id: nat)
      /** `[](...){ }` */
    | NoOp
      /** `[=](...){ std::unique_lock lock(mutex); body(...); }`: takes the
          actor's mutex, then runs `body`. */
    | Locked(mutex: nat, body: Fn)
      /** `[func](const Message_ptr &) { func(); }`: ignores the message. */
    | DropArg(body: Fn)
      /** `[stateMachine](msg){ stateMachine->update(msg); }` */
    | MachineUpdate(machine: nat)
      /** `[timer]() { timer->update(); }` for timer transition `trans`
          of state number `state` of machine `machine`. */
    | TimerTransUpdate(machine: nat, state: nat, trans: nat)

  /**
   * The pointer `f.target<std::function<void(Message_ptr)>>()` yields
   * (None is null). It is non-null only when the object `f` stores is
   * itself a `std::function<void(Message_ptr)>`, and no such object ever is:
   * building a `std::function` from another of the same type copies the
   * other's stored object, and an empty function stores nothing. So the
   * pointer is null for every value, user callables included.
   */
  function Target(f: Fn): Option<nat> {
    None
  }
}
