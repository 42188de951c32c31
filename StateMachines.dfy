/**
 * `StateMachines`: a machine is an immutable list of states, each with a
 * list of transitions, plus the mutable `currState` and `jobIds` (the
 * scheduler jobs of the armed timer transitions). `SMDispatcher` maps a
 * message type to the machines that have a transition on it.
 *
 * User actions are opaque `Fn` values; running one is recorded by
 * returning it, in call order. `try_lock` outcomes are boolean inputs.
 */
module StateMachines {

  import opened Messages
  import opened Callables
  import opened Executors
  import opened Schedulers

  /** `UNDEFINED_STATE`: a transition that does not change the state. */
  const UNDEFINED_STATE: int := -1

  datatype Transition =
      /** `MessageTrans`: fires when a message of `msgType` is delivered in its state. */
    | MessageTrans(msgType: MessageType, nextState: int, action: Fn)
      /** `TimerTrans`: armed as a one-shot scheduler job of `timeout` ms on entry to its state. */
    | TimerTrans(timeout: int, nextState: int, action: Fn)

  datatype State = State(stateId: int, transitions: seq<Transition>)

  // The constructors of the two transition classes. The `long` and the
  // `Timeout` overloads of `TimerTrans` build the same value.

  /** `MessageTrans(msgType, nextState)`: the action does nothing. */
  function MessageTo(t: MessageType, nextState: int): Transition {
    MessageTrans(t, nextState, NoOp)
  }

  /** `MessageTrans(msgType, func)`: the state does not change. */
  function MessageDo(t: MessageType, action: Fn): Transition {
    MessageTrans(t, UNDEFINED_STATE, action)
  }

  /** `MessageTrans(msgType, nextState, func)`. */
  function MessageToDo(t: MessageType, nextState: int, action: Fn): Transition {
    MessageTrans(t, nextState, action)
  }

  /** `TimerTrans(timeout, nextState)`: the action does nothing. */
  function TimerTo(timeout: int, nextState: int): Transition {
    TimerTrans(timeout, nextState, NoOp)
  }

  /** `TimerTrans(timeout, func)`: the state does not change. */
  function TimerDo(timeout: int, action: Fn): Transition {
    TimerTrans(timeout, UNDEFINED_STATE, action)
  }

  /** `TimerTrans(timeout, nextState, func)`. */
  function TimerToDo(timeout: int, nextState: int, action: Fn): Transition {
    TimerTrans(timeout, nextState, action)
  }

  /**
   * A transition built without a next state carries `UNDEFINED_STATE`; one
   * built without an action gets the no-op action; the other arguments are
   * kept as given.
   */
  lemma ConstructorDefaults(t: MessageType, timeout: int, next: int, f: Fn)
    ensures MessageTo(t, next).nextState == next && MessageTo(t, next).action == NoOp
    ensures MessageDo(t, f).nextState == UNDEFINED_STATE && MessageDo(t, f).action == f
    ensures MessageToDo(t, next, f) == MessageTrans(t, next, f)
    ensures TimerTo(timeout, next).nextState == next && TimerTo(timeout, next).action == NoOp
    ensures TimerDo(timeout, f).nextState == UNDEFINED_STATE && TimerDo(timeout, f).action == f
    ensures TimerToDo(timeout, next, f) == TimerTrans(timeout, next, f)
    ensures MessageTo(t, next).msgType == t && MessageDo(t, f).msgType == t
    ensures TimerTo(timeout, next).timeout == timeout && TimerDo(timeout, f).timeout == timeout
  {
  }

  // ---------------------------------------------------------------------
  // Arming timers

  /** A timer transition to arm: number `trans` of state number `state`. */
  datatype Arm = Arm(state: nat, trans: nat, timeout: int)

  /** `a` comes before `b` in the order `setCurrState` visits transitions. */
  predicate Before(a: Arm, b: Arm) {
    a.state < b.state || (a.state == b.state && a.trans < b.trans)
  }

  /** The timer transitions among the first `m` of state number `i`, if that state's id is `s`. */
  function StateArms(states: seq<State>, i: nat, m: nat, s: int): seq<Arm>
    requires i < |states| && m <= |states[i].transitions|
  {
    if m == 0 || states[i].stateId != s then []
    else
      StateArms(states, i, m - 1, s) +
        match states[i].transitions[m - 1]
        case TimerTrans(timeout, _, _) => [Arm(i, m - 1, timeout)]
        case MessageTrans(_, _, _) => []
  }

  /** The timer transitions of the first `n` states whose id is `s`, in visiting order. */
  function ArmsUpTo(states: seq<State>, n: nat, s: int): seq<Arm>
    requires n <= |states|
  {
    if n == 0 then [] else ArmsUpTo(states, n - 1, s) + StateArms(states, n - 1, |states[n - 1].transitions|, s)
  }

  /** What `setCurrState(s)` arms: every timer transition of every state whose id is `s`. */
  function Arms(states: seq<State>, s: int): seq<Arm> {
    ArmsUpTo(states, |states|, s)
  }

  /** Whether `a` names a timer transition, with its timeout, of a state whose id is `s`. */
  predicate IsArmOf(states: seq<State>, s: int, a: Arm) {
    a.state < |states| && states[a.state].stateId == s &&
    a.trans < |states[a.state].transitions| &&
    states[a.state].transitions[a.trans].TimerTrans? &&
    states[a.state].transitions[a.trans].timeout == a.timeout
  }

  lemma {:induction false} StateArmsSpec(states: seq<State>, i: nat, m: nat, s: int)
    requires i < |states| && m <= |states[i].transitions|
    ensures forall a :: a in StateArms(states, i, m, s) <==> IsArmOf(states, s, a) && a.state == i && a.trans < m
    ensures forall x, y :: 0 <= x < y < |StateArms(states, i, m, s)| ==>
              Before(StateArms(states, i, m, s)[x], StateArms(states, i, m, s)[y])
  {
    if m > 0 && states[i].stateId == s {
      StateArmsSpec(states, i, m - 1, s);
    }
  }

  lemma {:induction false} ArmsUpToSpec(states: seq<State>, n: nat, s: int)
    requires n <= |states|
    ensures forall a :: a in ArmsUpTo(states, n, s) <==> IsArmOf(states, s, a) && a.state < n
    ensures forall x, y :: 0 <= x < y < |ArmsUpTo(states, n, s)| ==>
              Before(ArmsUpTo(states, n, s)[x], ArmsUpTo(states, n, s)[y])
  {
    if n > 0 {
      ArmsUpToSpec(states, n - 1, s);
      var m := |states[n - 1].transitions|;
      StateArmsSpec(states, n - 1, m, s);
      var a, b := ArmsUpTo(states, n - 1, s), StateArms(states, n - 1, m, s);
      assert forall x :: 0 <= x < |a| ==> a[x] in a;
      assert forall y :: 0 <= y < |b| ==> b[y] in b;
    }
  }

  /**
   * `setCurrState(s)` arms exactly the timer transitions of the states
   * whose id is `s` (never a message transition), each once, in the order
   * states and transitions are listed.
   */
  lemma ArmsSpec(states: seq<State>, s: int)
    ensures forall a :: a in Arms(states, s) <==> IsArmOf(states, s, a)
    ensures forall x, y :: 0 <= x < y < |Arms(states, s)| ==> Before(Arms(states, s)[x], Arms(states, s)[y])
  {
    ArmsUpToSpec(states, |states|, s);
  }

  /** The one-shot job that arms `a` at time `now` for the machine `ident`. */
  function ArmJob(ident: nat, a: Arm, now: int): Job {
    Job(TimerTransUpdate(ident, a.state, a.trans), now + a.timeout, a.timeout, 1)
  }

  /** The table once `onceIn` has been called for each of `arms` in turn, the first getting id `next`. */
  function ArmAll(jobs: map<JobId, Job>, next: nat, ident: nat, arms: seq<Arm>, now: int): map<JobId, Job> {
    if arms == [] then jobs
    else ArmAll(jobs, next, ident, arms[..|arms| - 1], now)[next + |arms| - 1 := ArmJob(ident, arms[|arms| - 1], now)]
  }

  /** The ids `next`, `next + 1`, ... handed out to `n` calls in a row. */
  function IdsFrom(next: nat, n: nat): seq<JobId>
  {
    seq(n, k requires 0 <= k < n => next + k)
  }

  /** The ids handed out to `n` calls in a row are exactly the range `next ..< next + n`. */
  lemma IdsFromRange(next: nat, n: nat)
    ensures forall id :: id in IdsFrom(next, n) <==> next <= id < next + n
  {
    forall id | next <= id < next + n
      ensures id in IdsFrom(next, n)
    {
      assert IdsFrom(next, n)[id - next] == id;
    }
  }

  /**
   * Arming a list of transitions gives id `next + k` to the `k`-th, as a
   * one-shot job of its timeout from `now`; every other id keeps its job.
   */
  lemma {:induction false} ArmAllAt(jobs: map<JobId, Job>, next: nat, ident: nat, arms: seq<Arm>, now: int)
    ensures var r := ArmAll(jobs, next, ident, arms, now);
            (forall id :: id in r <==> id in jobs || next <= id < next + |arms|) &&
            (forall k :: 0 <= k < |arms| ==> r[next + k] == ArmJob(ident, arms[k], now)) &&
            (forall id :: id in jobs && !(next <= id < next + |arms|) ==> r[id] == jobs[id])
  {
    if arms != [] {
      var front := arms[..|arms| - 1];
      ArmAllAt(jobs, next, ident, front, now);
      assert forall k :: 0 <= k < |front| ==> arms[k] == front[k];
    }
  }

  lemma {:induction false} ArmAllConcat(jobs: map<JobId, Job>, next: nat, ident: nat, a: seq<Arm>, b: seq<Arm>, now: int)
    ensures ArmAll(jobs, next, ident, a + b, now) == ArmAll(ArmAll(jobs, next, ident, a, now), next + |a|, ident, b, now)
    decreases |b|
  {
    if b == [] {
      assert a + b == a;
    } else {
      assert (a + b)[..|a + b| - 1] == a + b[..|b| - 1];
      ArmAllConcat(jobs, next, ident, a, b[..|b| - 1], now);
    }
  }

  /** Arming one more transition: the next id gets its job and is appended to the recorded ids. */
  lemma ArmStep(jobs: map<JobId, Job>, next: nat, ident: nat, a: seq<Arm>, arm: Arm, now: int, ids: seq<JobId>)
    ensures ArmAll(jobs, next, ident, a + [arm], now) == ArmAll(jobs, next, ident, a, now)[next + |a| := ArmJob(ident, arm, now)]
    ensures (ids + IdsFrom(next, |a|)) + [next + |a|] == ids + IdsFrom(next, |a + [arm]|)
  {
    assert (a + [arm])[..|a|] == a;
    assert IdsFrom(next, |a| + 1) == IdsFrom(next, |a|) + [next + |a|];
  }

  /** What a machine's timer bookkeeping touches: the scheduler table, its id counter and `jobIds`. */
  datatype Timers = Timers(jobs: map<JobId, Job>, nextJobId: nat, jobIds: seq<JobId>)

  /**
   * The effect of `setCurrState(s)`: every id in `jobIds` is removed from
   * the table, then one one-shot job per timer transition of the states
   * whose id is `s` is added under fresh ids, which become `jobIds`.
   */
  function Rearm(t: Timers, ident: nat, states: seq<State>, s: int, now: int): Timers {
    var arms := Arms(states, s);
    Timers(ArmAll(t.jobs - (set x | x in t.jobIds), t.nextJobId, ident, arms, now), t.nextJobId + |arms|, IdsFrom(t.nextJobId, |arms|))
  }

  /** The effect of `setCurrState` called with each of `moves` in turn. */
  function RearmAll(t: Timers, ident: nat, states: seq<State>, moves: seq<int>, now: int): Timers {
    if moves == [] then t else Rearm(RearmAll(t, ident, states, moves[..|moves| - 1], now), ident, states, moves[|moves| - 1], now)
  }

  /**
   * The ids in the table after `setCurrState(s)`: none of the previously
   * armed ids, and exactly the ids neither disarmed nor new plus the new ones.
   */
  lemma RearmKeys(t: Timers, ident: nat, states: seq<State>, s: int, now: int)
    requires forall k :: 0 <= k < |t.jobIds| ==> t.jobIds[k] < t.nextJobId
    ensures var r := Rearm(t, ident, states, s, now);
            (forall id :: id in t.jobIds ==> id !in r.jobs) &&
            (forall id :: id in r.jobs <==> (id in t.jobs && id !in t.jobIds) || id in r.jobIds)
  {
    var arms := Arms(states, s);
    var base := t.jobs - (set x | x in t.jobIds);
    ArmAllAt(base, t.nextJobId, ident, arms, now);
    IdsFromRange(t.nextJobId, |arms|);
    assert forall id :: id in base <==> id in t.jobs && id !in t.jobIds;
  }

  /**
   * After `setCurrState(s)` the machine's jobs are exactly the new ones:
   * none of the previously armed ids is left in the table, the table holds
   * exactly the ids neither disarmed nor new plus the new ones, each new id
   * holds the one-shot job of its transition, and the other ids keep their
   * jobs.
   */
  lemma RearmEffect(t: Timers, ident: nat, states: seq<State>, s: int, now: int)
    requires forall id :: id in t.jobs ==> id < t.nextJobId
    requires forall k :: 0 <= k < |t.jobIds| ==> t.jobIds[k] < t.nextJobId
    ensures var r, arms := Rearm(t, ident, states, s, now), Arms(states, s);
            (forall id :: id in t.jobIds ==> id !in r.jobs) &&
            (forall id :: id in r.jobs <==> (id in t.jobs && id !in t.jobIds) || id in r.jobIds) &&
            |r.jobIds| == |arms| &&
            (forall k :: 0 <= k < |arms| ==> r.jobIds[k] in r.jobs && r.jobs[r.jobIds[k]] == ArmJob(ident, arms[k], now)) &&
            (forall id :: id in t.jobs && id !in t.jobIds ==> id in r.jobs && r.jobs[id] == t.jobs[id]) &&
            (forall id :: id in r.jobs ==> id < r.nextJobId)
  {
    RearmKeys(t, ident, states, s, now);
    RearmJobs(t, ident, Arms(states, s), now);
  }

  /** The jobs `Rearm` leaves in the table, for the transitions `arms` it arms. */
  lemma RearmJobs(t: Timers, ident: nat, arms: seq<Arm>, now: int)
    requires forall id :: id in t.jobs ==> id < t.nextJobId
    ensures var base := t.jobs - (set x | x in t.jobIds);
            var jobs, ids := ArmAll(base, t.nextJobId, ident, arms, now), IdsFrom(t.nextJobId, |arms|);
            |ids| == |arms| &&
            (forall k :: 0 <= k < |arms| ==> ids[k] in jobs && jobs[ids[k]] == ArmJob(ident, arms[k], now)) &&
            (forall id :: id in t.jobs && id !in t.jobIds ==> id in jobs && jobs[id] == t.jobs[id]) &&
            (forall id :: id in jobs ==> id < t.nextJobId + |arms|)
  {
    var base := t.jobs - (set x | x in t.jobIds);
    ArmAllAt(base, t.nextJobId, ident, arms, now);
  }

  // ---------------------------------------------------------------------
  // Delivering a message

  /** The outcome so far of delivering one message: the state, the actions run, the `setCurrState` calls. */
  datatype Delivery = Delivery(cur: int, actions: seq<Fn>, moves: seq<int>)

  /** `MessageTrans::update` when `tr` matches: run the action, then move unless the next state is undefined. */
  function Take(tr: Transition, d: Delivery): Delivery
    requires tr.MessageTrans?
  {
    if tr.nextState != UNDEFINED_STATE then Delivery(tr.nextState, d.actions + [tr.action], d.moves + [tr.nextState])
    else d.(actions := d.actions + [tr.action])
  }

  /**
   * `State::update`: every message transition of the matching type fires,
   * in declaration order; the state is not checked again between them.
   */
  function StateDeliver(trans: seq<Transition>, msg: Message, d: Delivery): Delivery {
    if trans == [] then d
    else
      var e := StateDeliver(trans[..|trans| - 1], msg, d);
      var tr := trans[|trans| - 1];
      if tr.MessageTrans? && tr.msgType == msg.msgType then Take(tr, e) else e
  }

  /**
   * The loop of `StateMachine::update`: each state, in list order, handles
   * the message if its id equals `currState` as it stands at that moment.
   */
  function MachineDeliver(states: seq<State>, msg: Message, d: Delivery): Delivery {
    if states == [] then d
    else
      var e := MachineDeliver(states[..|states| - 1], msg, d);
      var st := states[|states| - 1];
      if e.cur == st.stateId then StateDeliver(st.transitions, msg, e) else e
  }

  /**
   * Delivery only appends to the actions and the moves, and the state it
   * ends in is the last move (or the state it started in).
   */
  lemma {:induction false} StateDeliverShape(trans: seq<Transition>, msg: Message, d: Delivery)
    ensures var e := StateDeliver(trans, msg, d);
            |d.actions| <= |e.actions| && e.actions[..|d.actions|] == d.actions &&
            |d.moves| <= |e.moves| && e.moves[..|d.moves|] == d.moves &&
            e.cur == if |e.moves| == |d.moves| then d.cur else e.moves[|e.moves| - 1]
  {
    if trans != [] {
      StateDeliverShape(trans[..|trans| - 1], msg, d);
      var e := StateDeliver(trans[..|trans| - 1], msg, d);
      var tr := trans[|trans| - 1];
      if tr.MessageTrans? && tr.msgType == msg.msgType {
        assert (e.actions + [tr.action])[..|d.actions|] == e.actions[..|d.actions|];
        assert (e.moves + [tr.nextState])[..|d.moves|] == e.moves[..|d.moves|];
      }
    }
  }

  /** Message gating: when no state has the current id, a message changes nothing and runs nothing. */
  lemma {:induction false} NoMatchingState(states: seq<State>, msg: Message, d: Delivery)
    requires forall i :: 0 <= i < |states| ==> states[i].stateId != d.cur
    ensures MachineDeliver(states, msg, d) == d
  {
    if states != [] {
      NoMatchingState(states[..|states| - 1], msg, d);
    }
  }

  /** A state without a transition on the message's type does nothing. */
  lemma {:induction false} NoMatchingTransition(trans: seq<Transition>, msg: Message, d: Delivery)
    requires forall j :: 0 <= j < |trans| ==> !(trans[j].MessageTrans? && trans[j].msgType == msg.msgType)
    ensures StateDeliver(trans, msg, d) == d
  {
    if trans != [] {
      NoMatchingTransition(trans[..|trans| - 1], msg, d);
    }
  }

  // ---------------------------------------------------------------------
  // SMDispatcher bookkeeping as values

  /** The message types of the message transitions among the first `m` of `trans`, in order. */
  function TransTypes(trans: seq<Transition>, m: nat): seq<MessageType>
    requires m <= |trans|
  {
    if m == 0 then []
    else
      TransTypes(trans, m - 1) +
        match trans[m - 1]
        case MessageTrans(t, _, _) => [t]
        case TimerTrans(_, _, _) => []
  }

  /** The message types of all message transitions of the first `n` states, in visiting order. */
  function TypesUpTo(states: seq<State>, n: nat): seq<MessageType>
    requires n <= |states|
  {
    if n == 0 then [] else TypesUpTo(states, n - 1) + TransTypes(states[n - 1].transitions, |states[n - 1].transitions|)
  }

  /** The message types of all message transitions of `states`, in the order `registerSM` visits them. */
  function MessageTypes(states: seq<State>): seq<MessageType> {
    TypesUpTo(states, |states|)
  }

  /** The list the table holds for `t`, empty when `t` has no entry. */
  function Listed<T>(m: map<MessageType, seq<T>>, t: MessageType): seq<T> {
    if t in m then m[t] else []
  }

  /** The table once `x` has been appended to the list of each of `types` in turn. */
  function Registered<T>(m: map<MessageType, seq<T>>, x: T, types: seq<MessageType>): map<MessageType, seq<T>> {
    if types == [] then m
    else
      var r := Registered(m, x, types[..|types| - 1]);
      var t := types[|types| - 1];
      r[t := Listed(r, t) + [x]]
  }

  /** Registering one more type appends `x` to that type's list. */
  lemma RegisteredSnoc<T>(m: map<MessageType, seq<T>>, x: T, types: seq<MessageType>, t: MessageType)
    ensures var r := Registered(m, x, types);
            Registered(m, x, types + [t]) == r[t := Listed(r, t) + [x]]
  {
    assert (types + [t])[..|types|] == types;
  }

  lemma {:induction false} RegisteredConcat<T>(m: map<MessageType, seq<T>>, x: T, a: seq<MessageType>, b: seq<MessageType>)
    ensures Registered(m, x, a + b) == Registered(Registered(m, x, a), x, b)
    decreases |b|
  {
    if b == [] {
      assert a + b == a;
    } else {
      assert (a + b)[..|a + b| - 1] == a + b[..|b| - 1];
      RegisteredConcat(m, x, a, b[..|b| - 1]);
    }
  }

  /** The table once `registerSM` has visited the first `n` states, one state's transitions at a time. */
  function RegisteredStates<T>(m: map<MessageType, seq<T>>, x: T, states: seq<State>, n: nat): map<MessageType, seq<T>>
    requires n <= |states|
  {
    if n == 0 then m
    else Registered(RegisteredStates(m, x, states, n - 1), x, TransTypes(states[n - 1].transitions, |states[n - 1].transitions|))
  }

  /** Visiting the states one by one registers the message types of all of them, in visiting order. */
  lemma {:induction false} RegisteredStatesAll<T>(m: map<MessageType, seq<T>>, x: T, states: seq<State>, n: nat)
    requires n <= |states|
    ensures RegisteredStates(m, x, states, n) == Registered(m, x, TypesUpTo(states, n))
  {
    if n > 0 {
      var a, b := TypesUpTo(states, n - 1), TransTypes(states[n - 1].transitions, |states[n - 1].transitions|);
      var r := RegisteredStates(m, x, states, n - 1);
      assert TypesUpTo(states, n) == a + b;
      assert RegisteredStates(m, x, states, n) == Registered(r, x, b);
      RegisteredStatesAll(m, x, states, n - 1);
      RegisteredConcat(m, x, a, b);
      assert r == Registered(m, x, a);
    }
  }

  /** Registering creates a list for each listed type and keeps every existing one. */
  lemma {:induction false} RegisteredKeys<T>(m: map<MessageType, seq<T>>, x: T, types: seq<MessageType>)
    ensures forall t :: t in Registered(m, x, types) <==> t in m || t in types
  {
    if types != [] {
      RegisteredKeys(m, x, types[..|types| - 1]);
      assert types == types[..|types| - 1] + [types[|types| - 1]];
    }
  }

  /** How often `t` occurs in `types`. */
  function Count(types: seq<MessageType>, t: MessageType): nat {
    if types == [] then 0 else Count(types[..|types| - 1], t) + if types[|types| - 1] == t then 1 else 0
  }

  /** `n` copies of `x`. */
  function Copies<T>(x: T, n: nat): (r: seq<T>)
    ensures |r| == n
  {
    if n == 0 then [] else Copies(x, n - 1) + [x]
  }

  /**
   * Registering only appends: the list of each type is what it held before
   * followed by one copy of `x` per occurrence of the type among `types`
   * (so duplicates arise), and nothing else.
   */
  lemma {:induction false} RegisteredLists<T>(m: map<MessageType, seq<T>>, x: T, types: seq<MessageType>, t: MessageType)
    ensures Listed(Registered(m, x, types), t) == Listed(m, t) + Copies(x, Count(types, t))
  {
    if types == [] {
      assert Listed(m, t) + [] == Listed(m, t);
    } else {
      var front, last := types[..|types| - 1], types[|types| - 1];
      RegisteredLists(m, x, front, t);
      assert types == front + [last];
      RegisteredSnoc(m, x, front, last);
      var r := Registered(m, x, front);
      AppendListed(r, x, last, t, Listed(m, t), Count(front, t));
      assert Count(types, t) == Count(front, t) + if last == t then 1 else 0;
    }
  }

  /** Appending `x` to the list of `last` adds one copy to that list only. */
  lemma AppendListed<T>(r: map<MessageType, seq<T>>, x: T, last: MessageType, t: MessageType, before: seq<T>, c: nat)
    requires Listed(r, t) == before + Copies(x, c)
    ensures Listed(r[last := Listed(r, last) + [x]], t) == before + Copies(x, c + if last == t then 1 else 0)
  {
    if last == t {
      assert (before + Copies(x, c)) + [x] == before + Copies(x, c + 1);
    }
  }

  /** What `remove_if(sm == x)` leaves of a list: every other entry, in order. */
  function Without<T(==)>(xs: seq<T>, x: T): seq<T> {
    if xs == [] then [] else Without(xs[..|xs| - 1], x) + if xs[|xs| - 1] == x then [] else [xs[|xs| - 1]]
  }

  /** Removal drops every occurrence of `x` and keeps every other entry as often as before. */
  lemma {:induction false} WithoutCount<T>(xs: seq<T>, x: T)
    ensures forall y :: multiset(Without(xs, x))[y] == if y == x then 0 else multiset(xs)[y]
  {
    if xs != [] {
      var front, last := xs[..|xs| - 1], xs[|xs| - 1];
      WithoutCount(front, x);
      assert xs == front + [last];
    }
  }

  /** The table once `x` has been removed from every list. */
  function Unregistered<T(==)>(m: map<MessageType, seq<T>>, x: T): map<MessageType, seq<T>> {
    map t | t in m :: Without(m[t], x)
  }

  /** The executor jobs `SMDispatcher::publish` submits: one `update` call per listed machine, in order. */
  function MachineTasks(sms: seq<StateMachine>, msg: Message): seq<Task>
  {
    seq(|sms|, i requires 0 <= i < |sms| => Task(MachineUpdate(sms[i].ident), msg))
  }

  /** Unregistering removes `x` from every list and keeps every other entry as often as before. */
  lemma UnregisteredSpec<T>(m: map<MessageType, seq<T>>, x: T)
    ensures Unregistered(m, x).Keys == m.Keys
    ensures forall t, y :: t in m ==> multiset(Unregistered(m, x)[t])[y] == if y == x then 0 else multiset(m[t])[y]
  {
    forall t | t in m
      ensures forall y :: multiset(Unregistered(m, x)[t])[y] == if y == x then 0 else multiset(m[t])[y]
    {
      WithoutCount(m[t], x);
    }
  }

  // ---------------------------------------------------------------------
  // Scenarios

  /** The states of the example door machine: `enum States {DOOR_OPENED, DOOR_CLOSED}`. */
  const DOOR_OPENED: int := 0
  const DOOR_CLOSED: int := 1

  /**
   * The example door machine: a closed door opens on OPEN_DOOR; an open
   * door closes on CLOSE_DOOR, or by itself after 1000 ms.
   */
  function DoorStates(open: Fn, close: Fn, autoClose: Fn): seq<State> {
    [State(DOOR_CLOSED, [MessageToDo(OPEN_DOOR, DOOR_OPENED, open)]),
     State(DOOR_OPENED, [MessageToDo(CLOSE_DOOR, DOOR_CLOSED, close), TimerToDo(1000, DOOR_CLOSED, autoClose)])]
  }

  /** Delivery through a machine of two states, unfolded. */
  lemma MachineDeliverPair(a: State, b: State, msg: Message, d: Delivery)
    ensures var e := if d.cur == a.stateId then StateDeliver(a.transitions, msg, d) else d;
            MachineDeliver([a, b], msg, d) == if e.cur == b.stateId then StateDeliver(b.transitions, msg, e) else e
  {
    assert [a, b][..1] == [a];
    assert [a][..0] == [];
    assert MachineDeliver([a], msg, d) == if d.cur == a.stateId then StateDeliver(a.transitions, msg, d) else d by {
      assert MachineDeliver([], msg, d) == d;
    }
  }

  /** Delivery through a state of one or two transitions, unfolded. */
  lemma StateDeliverShort(trans: seq<Transition>, msg: Message, d: Delivery)
    requires 1 <= |trans| <= 2
    ensures var e := if trans[0].MessageTrans? && trans[0].msgType == msg.msgType then Take(trans[0], d) else d;
            StateDeliver(trans, msg, d) ==
              if |trans| == 1 then e
              else if trans[1].MessageTrans? && trans[1].msgType == msg.msgType then Take(trans[1], e) else e
  {
    assert trans[..1] == [trans[0]];
    assert trans[..1][..0] == [];
    if |trans| == 2 {
      assert trans[..2][..1] == [trans[0]];
    }
  }

  /**
   * Entering the closed state arms nothing and entering the open state arms
   * the auto-close timer; OPEN_DOOR opens a closed door and is ignored by an
   * open one; CLOSE_DOOR closes an open door.
   */
  lemma DoorScenario(open: Fn, close: Fn, autoClose: Fn, body: nat)
    ensures var door := DoorStates(open, close, autoClose);
            Arms(door, DOOR_CLOSED) == [] && Arms(door, DOOR_OPENED) == [Arm(1, 1, 1000)]
    ensures var door := DoorStates(open, close, autoClose);
            MachineDeliver(door, Message(OPEN_DOOR, body), Delivery(DOOR_CLOSED, [], [])) == Delivery(DOOR_OPENED, [open], [DOOR_OPENED]) &&
            MachineDeliver(door, Message(OPEN_DOOR, body), Delivery(DOOR_OPENED, [], [])) == Delivery(DOOR_OPENED, [], []) &&
            MachineDeliver(door, Message(CLOSE_DOOR, body), Delivery(DOOR_OPENED, [], [])) == Delivery(DOOR_CLOSED, [close], [DOOR_CLOSED])
  {
    var door := DoorStates(open, close, autoClose);
    var isClosed, isOpen := door[0], door[1];
    assert door == [isClosed, isOpen];
    assert StateArms(door, 0, 1, DOOR_OPENED) == [] by {
      assert StateArms(door, 0, 0, DOOR_OPENED) == [];
    }
    assert StateArms(door, 1, 2, DOOR_OPENED) == [Arm(1, 1, 1000)] by {
      assert StateArms(door, 1, 1, DOOR_OPENED) == [] by {
        assert StateArms(door, 1, 0, DOOR_OPENED) == [];
      }
    }
    assert ArmsUpTo(door, 1, DOOR_OPENED) == [];
    assert ArmsUpTo(door, 1, DOOR_CLOSED) == [] by {
      assert StateArms(door, 0, 1, DOOR_CLOSED) == [] by {
        assert StateArms(door, 0, 0, DOOR_CLOSED) == [];
      }
    }
    assert StateArms(door, 1, 2, DOOR_CLOSED) == [];
    var openMsg, closeMsg := Message(OPEN_DOOR, body), Message(CLOSE_DOOR, body);
    MachineDeliverPair(isClosed, isOpen, openMsg, Delivery(DOOR_CLOSED, [], []));
    StateDeliverShort(isClosed.transitions, openMsg, Delivery(DOOR_CLOSED, [], []));
    assert StateDeliver(isClosed.transitions, openMsg, Delivery(DOOR_CLOSED, [], [])) == Delivery(DOOR_OPENED, [open], [DOOR_OPENED]);
    StateDeliverShort(isOpen.transitions, openMsg, Delivery(DOOR_OPENED, [open], [DOOR_OPENED]));
    MachineDeliverPair(isClosed, isOpen, openMsg, Delivery(DOOR_OPENED, [], []));
    StateDeliverShort(isOpen.transitions, openMsg, Delivery(DOOR_OPENED, [], []));
    MachineDeliverPair(isClosed, isOpen, closeMsg, Delivery(DOOR_OPENED, [], []));
    StateDeliverShort(isOpen.transitions, closeMsg, Delivery(DOOR_OPENED, [], []));
  }

  /** Two states on the same message type, listed in the order they are entered. */
  function ChainStates(t: MessageType, first: Fn, second: Fn): seq<State> {
    [State(0, [MessageToDo(t, 1, first)]), State(1, [MessageToDo(t, 2, second)])]
  }

  /**
   * One message cascades: the first state moves to state 1, and because
   * `currState` is re-read for the next state of the list, state 1 handles
   * the same message too. With the states listed the other way round, only
   * the first transition fires.
   */
  lemma CascadeScenario(t: MessageType, first: Fn, second: Fn, body: nat)
    ensures MachineDeliver(ChainStates(t, first, second), Message(t, body), Delivery(0, [], [])) ==
            Delivery(2, [first, second], [1, 2])
    ensures var reversed := [ChainStates(t, first, second)[1], ChainStates(t, first, second)[0]];
            MachineDeliver(reversed, Message(t, body), Delivery(0, [], [])) == Delivery(1, [first], [1])
  {
    var chain := ChainStates(t, first, second);
    var s0, s1 := chain[0], chain[1];
    var msg := Message(t, body);
    assert chain == [s0, s1];
    MachineDeliverPair(s0, s1, msg, Delivery(0, [], []));
    StateDeliverShort(s0.transitions, msg, Delivery(0, [], []));
    StateDeliverShort(s1.transitions, msg, Delivery(1, [first], [1]));
    MachineDeliverPair(s1, s0, msg, Delivery(0, [], []));
    StateDeliverShort(s0.transitions, msg, Delivery(0, [], []));
  }

  /** One state with a self-transition on `t` and a timer to state 1. */
  function SelfLoopStates(t: MessageType, action: Fn, timeout: int, onTimeout: Fn): seq<State> {
    [State(0, [MessageToDo(t, 0, action), TimerToDo(timeout, 1, onTimeout)])]
  }

  /** The self-transition fires its action and calls `setCurrState(0)`, which arms the one timer. */
  lemma SelfLoopDelivery(t: MessageType, action: Fn, timeout: int, onTimeout: Fn, body: nat)
    ensures var states := SelfLoopStates(t, action, timeout, onTimeout);
            MachineDeliver(states, Message(t, body), Delivery(0, [], [])) == Delivery(0, [action], [0]) &&
            Arms(states, 0) == [Arm(0, 1, timeout)]
  {
    var states := SelfLoopStates(t, action, timeout, onTimeout);
    var msg := Message(t, body);
    StateDeliverShort(states[0].transitions, msg, Delivery(0, [], []));
    assert states[..0] == [];
    assert MachineDeliver(states[..0], msg, Delivery(0, [], [])) == Delivery(0, [], []);
    assert StateArms(states, 0, 2, 0) == [Arm(0, 1, timeout)] by {
      assert StateArms(states, 0, 1, 0) == [] by {
        assert StateArms(states, 0, 0, 0) == [];
      }
    }
    assert ArmsUpTo(states, 0, 0) == [];
  }

  /**
   * A transition back to the current state still goes through
   * `setCurrState`: the armed timer job is removed and a new one, due a
   * full timeout after `now`, is armed under a new id.
   */
  lemma SelfTransitionRestartsTimer(t: MessageType, action: Fn, timeout: int, onTimeout: Fn, body: nat,
                                    timers: Timers, ident: nat, now: int)
    requires forall id :: id in timers.jobs ==> id < timers.nextJobId
    requires forall k :: 0 <= k < |timers.jobIds| ==> timers.jobIds[k] < timers.nextJobId
    ensures var states := SelfLoopStates(t, action, timeout, onTimeout);
            var d := MachineDeliver(states, Message(t, body), Delivery(0, [], []));
            var r := RearmAll(timers, ident, states, d.moves, now);
            d == Delivery(0, [action], [0]) &&
            r.jobIds == [timers.nextJobId] && timers.nextJobId in r.jobs &&
            r.jobs[timers.nextJobId] == Job(TimerTransUpdate(ident, 0, 1), now + timeout, timeout, 1) &&
            forall id :: id in timers.jobIds ==> id !in r.jobs
  {
    var states := SelfLoopStates(t, action, timeout, onTimeout);
    SelfLoopDelivery(t, action, timeout, onTimeout, body);
    var moves: seq<int> := [0];
    assert moves[..0] == [];
    var r := Rearm(timers, ident, states, 0, now);
    assert RearmAll(timers, ident, states, moves, now) == r by {
      assert RearmAll(timers, ident, states, [], now) == timers;
    }
    RearmEffect(timers, ident, states, 0, now);
    assert r.jobIds == [timers.nextJobId];
  }

  class StateMachine {
    /** The address `this`, as the lambdas that capture the machine carry it. */
    const ident: nat
    /** The owning actor's mutex, taken around every action. */
    const actorMutex: nat
    const states: seq<State>
    var currState: int
    var jobIds: seq<JobId>

    /** The machine's timer bookkeeping together with the scheduler's table. */
    function TimersOf(sched: Scheduler): Timers
      reads this, sched
    {
      Timers(sched.jobs, sched.nextJobId, jobIds)
    }

    /** Every armed id was handed out by the scheduler already. */
    ghost predicate IdsIssued(sched: Scheduler)
      reads this, sched
    {
      forall k :: 0 <= k < |jobIds| ==> jobIds[k] < sched.nextJobId
    }

    /**
     * The constructor: `jobIds` starts empty, the initial state is entered
     * through `setCurrState` (arming its timers), and the machine is
     * registered with the `SMDispatcher`.
     */
    constructor (ident: nat, actorMutex: nat, initialState: int, states: seq<State>,
                 sched: Scheduler, smd: SMDispatcher, now: int)
      requires sched.Valid()
      modifies sched, smd
      ensures this.ident == ident && this.actorMutex == actorMutex && this.states == states
      ensures currState == initialState && sched.Valid() && sched.doLoop == old(sched.doLoop) && IdsIssued(sched)
      ensures TimersOf(sched) == Rearm(Timers(old(sched.jobs), old(sched.nextJobId), []), ident, states, initialState, now)
      ensures smd.stateMachinesMap == Registered(old(smd.stateMachinesMap), this, MessageTypes(states))
    {
      this.ident := ident;
      this.actorMutex := actorMutex;
      this.states := states;
      currState := initialState;
      jobIds := [];
      new;
      SetCurrState(initialState, sched, now);
      smd.RegisterSM(this);
      RegisteredStatesAll(old(smd.stateMachinesMap), this, states, |states|);
    }

    /**
     * `setCurrState(s)`: removes every armed job from the scheduler and
     * clears `jobIds`, sets `currState`, then arms one one-shot job per
     * timer transition of each state whose id is `s`, recording the ids.
     */
    method SetCurrState(s: int, sched: Scheduler, now: int)
      requires sched.Valid()
      modifies this, sched
      ensures sched.Valid() && sched.doLoop == old(sched.doLoop) && IdsIssued(sched)
      ensures currState == s
      ensures TimersOf(sched) == Rearm(old(TimersOf(sched)), ident, states, s, now)
    {
      Disarm(sched);
      currState := s;
      ArmStates(sched, now);
    }

    /** The first loop of `setCurrState`: every armed job is removed and `jobIds` is cleared. */
    method Disarm(sched: Scheduler)
      requires sched.Valid()
      modifies this, sched
      ensures sched.Valid() && sched.doLoop == old(sched.doLoop) && sched.nextJobId == old(sched.nextJobId)
      ensures sched.jobs == old(sched.jobs) - (set x | x in old(jobIds))
      ensures jobIds == [] && currState == old(currState)
    {
      ghost var ids := jobIds;
      for k := 0 to |jobIds|
        invariant sched.Valid() && sched.doLoop == old(sched.doLoop) && sched.nextJobId == old(sched.nextJobId)
        invariant jobIds == ids && currState == old(currState)
        invariant sched.jobs == old(sched.jobs) - (set x | x in jobIds[..k])
      {
        sched.RemoveJob(jobIds[k]);
      }
      assert jobIds[..|jobIds|] == ids;
      jobIds := [];
    }

    /** The second loop of `setCurrState`: the timer transitions of every state whose id is `currState` are armed. */
    method ArmStates(sched: Scheduler, now: int)
      requires sched.Valid() && jobIds == []
      modifies this, sched
      ensures sched.Valid() && sched.doLoop == old(sched.doLoop) && currState == old(currState)
      ensures var arms := Arms(states, currState);
              sched.jobs == ArmAll(old(sched.jobs), old(sched.nextJobId), ident, arms, now) &&
              sched.nextJobId == old(sched.nextJobId) + |arms| &&
              jobIds == IdsFrom(old(sched.nextJobId), |arms|)
    {
      ghost var N := sched.nextJobId;
      for i := 0 to |states|
        invariant sched.Valid() && sched.doLoop == old(sched.doLoop) && currState == old(currState)
        invariant sched.jobs == ArmAll(old(sched.jobs), N, ident, ArmsUpTo(states, i, currState), now)
        invariant sched.nextJobId == N + |ArmsUpTo(states, i, currState)|
        invariant jobIds == IdsFrom(N, |ArmsUpTo(states, i, currState)|)
      {
        ghost var a := ArmsUpTo(states, i, currState);
        ghost var b := StateArms(states, i, |states[i].transitions|, currState);
        ArmAllConcat(old(sched.jobs), N, ident, a, b, now);
        assert IdsFrom(N, |a|) + IdsFrom(N + |a|, |b|) == IdsFrom(N, |a| + |b|);
        if states[i].stateId == currState {
          ArmState(i, sched, now);
        }
      }
    }

    /** The inner loop of `setCurrState` for state number `i`, whose id is the current state. */
    method ArmState(i: nat, sched: Scheduler, now: int)
      requires i < |states| && states[i].stateId == currState && sched.Valid()
      modifies this, sched
      ensures sched.Valid() && sched.doLoop == old(sched.doLoop) && currState == old(currState)
      ensures var arms := StateArms(states, i, |states[i].transitions|, currState);
              sched.jobs == ArmAll(old(sched.jobs), old(sched.nextJobId), ident, arms, now) &&
              sched.nextJobId == old(sched.nextJobId) + |arms| &&
              jobIds == old(jobIds) + IdsFrom(old(sched.nextJobId), |arms|)
    {
      ghost var N := sched.nextJobId;
      for j := 0 to |states[i].transitions|
        invariant sched.Valid() && sched.doLoop == old(sched.doLoop) && currState == old(currState)
        invariant sched.jobs == ArmAll(old(sched.jobs), N, ident, StateArms(states, i, j, currState), now)
        invariant sched.nextJobId == N + |StateArms(states, i, j, currState)|
        invariant jobIds == old(jobIds) + IdsFrom(N, |StateArms(states, i, j, currState)|)
      {
        ArmTransition(i, j, sched, now, old(sched.jobs), N, old(jobIds));
      }
    }

    /** One pass of the inner loop of `setCurrState`: transition `j` of state `i` is armed if it is a timer. */
    method ArmTransition(i: nat, j: nat, sched: Scheduler, now: int,
                         ghost base: map<JobId, Job>, ghost N: nat, ghost ids: seq<JobId>)
      requires i < |states| && j < |states[i].transitions| && states[i].stateId == currState && sched.Valid()
      requires sched.jobs == ArmAll(base, N, ident, StateArms(states, i, j, currState), now)
      requires sched.nextJobId == N + |StateArms(states, i, j, currState)|
      requires jobIds == ids + IdsFrom(N, |StateArms(states, i, j, currState)|)
      modifies this, sched
      ensures sched.Valid() && sched.doLoop == old(sched.doLoop) && currState == old(currState)
      ensures sched.jobs == ArmAll(base, N, ident, StateArms(states, i, j + 1, currState), now)
      ensures sched.nextJobId == N + |StateArms(states, i, j + 1, currState)|
      ensures jobIds == ids + IdsFrom(N, |StateArms(states, i, j + 1, currState)|)
    {
      var tr := states[i].transitions[j];
      ghost var a := StateArms(states, i, j, currState);
      if tr.TimerTrans? {
        ArmStep(base, N, ident, a, Arm(i, j, tr.timeout), now, ids);
        var id := sched.OnceIn(now, tr.timeout, TimerTransUpdate(ident, i, j));
        jobIds := jobIds + [id];
        assert StateArms(states, i, j + 1, currState) == a + [Arm(i, j, tr.timeout)];
      } else {
        assert StateArms(states, i, j + 1, currState) == a;
      }
    }

    /**
     * `MessageTrans::update` for transition `tr`: its action runs (under the
     * actor mutex), then, unless its next state is undefined, the machine
     * moves there through `setCurrState`, even when that is the current
     * state, which re-arms the timers.
     */
    method TakeTransition(tr: Transition, sched: Scheduler, now: int) returns (action: Fn)
      requires tr.MessageTrans? && sched.Valid()
      modifies this, sched
      ensures sched.Valid() && sched.doLoop == old(sched.doLoop)
      ensures action == tr.action
      ensures tr.nextState != UNDEFINED_STATE ==>
                currState == tr.nextState && TimersOf(sched) == Rearm(old(TimersOf(sched)), ident, states, tr.nextState, now)
      ensures tr.nextState == UNDEFINED_STATE ==> currState == old(currState) && TimersOf(sched) == old(TimersOf(sched))
    {
      action := tr.action;
      if tr.nextState != UNDEFINED_STATE {
        SetCurrState(tr.nextState, sched, now);
      }
    }

    /**
     * `State::update` for state number `i`: every message transition of the
     * message's type fires, in declaration order. `calledIn`/`movesIn` are
     * what the delivery did before this state; `T` is the bookkeeping when
     * the delivery started.
     */
    method StateUpdate(i: nat, msg: Message, sched: Scheduler, now: int, calledIn: seq<Fn>,
                       ghost movesIn: seq<int>, ghost T: Timers)
        returns (called: seq<Fn>, ghost moves: seq<int>)
      requires i < |states| && sched.Valid()
      requires TimersOf(sched) == RearmAll(T, ident, states, movesIn, now)
      modifies this, sched
      ensures sched.Valid() && sched.doLoop == old(sched.doLoop)
      ensures Delivery(currState, called, moves) == StateDeliver(states[i].transitions, msg, Delivery(old(currState), calledIn, movesIn))
      ensures TimersOf(sched) == RearmAll(T, ident, states, moves, now)
    {
      var trans := states[i].transitions;
      called, moves := calledIn, movesIn;
      for j := 0 to |trans|
        invariant sched.Valid() && sched.doLoop == old(sched.doLoop)
        invariant Delivery(currState, called, moves) == StateDeliver(trans[..j], msg, Delivery(old(currState), calledIn, movesIn))
        invariant TimersOf(sched) == RearmAll(T, ident, states, moves, now)
      {
        assert trans[..j + 1][..j] == trans[..j];
        if trans[j].MessageTrans? && trans[j].msgType == msg.msgType {
          var action := TakeTransition(trans[j], sched, now);
          called := called + [action];
          if trans[j].nextState != UNDEFINED_STATE {
            assert (moves + [trans[j].nextState])[..|moves|] == moves;
            moves := moves + [trans[j].nextState];
          }
        }
      }
      assert trans[..|trans|] == trans;
    }

    /**
     * `update(msg)`: if `try_lock` on the machine mutex fails (`locked` is
     * false) the message is dropped. Otherwise each state, in list order,
     * handles it when its id equals `currState` as it stands at that point,
     * so a move made by an earlier state can let a later state handle the
     * same message. The actions run are returned in order.
     */
    method Update(msg: Message, locked: bool, sched: Scheduler, now: int) returns (called: seq<Fn>)
      requires sched.Valid()
      modifies this, sched
      ensures sched.Valid() && sched.doLoop == old(sched.doLoop)
      ensures !locked ==> called == [] && currState == old(currState) && TimersOf(sched) == old(TimersOf(sched))
      ensures locked ==>
                var d := MachineDeliver(states, msg, Delivery(old(currState), [], []));
                currState == d.cur && called == d.actions &&
                TimersOf(sched) == RearmAll(old(TimersOf(sched)), ident, states, d.moves, now)
    {
      called := [];
      if locked {
        ghost var T := TimersOf(sched);
        ghost var moves: seq<int> := [];
        for i := 0 to |states|
          invariant sched.Valid() && sched.doLoop == old(sched.doLoop)
          invariant MachineDeliver(states[..i], msg, Delivery(old(currState), [], [])) == Delivery(currState, called, moves)
          invariant TimersOf(sched) == RearmAll(T, ident, states, moves, now)
        {
          assert states[..i + 1][..i] == states[..i];
          if currState == states[i].stateId {
            called, moves := StateUpdate(i, msg, sched, now, called, moves, T);
          }
        }
        assert states[..|states|] == states;
      }
    }

    /**
     * `TimerTrans::update` for transition `j` of state number `i`: if
     * `try_lock` on the machine mutex fails nothing happens; otherwise the
     * action runs and, unless the next state is undefined, the machine moves
     * there. The current state is not consulted.
     */
    method FireTimer(i: nat, j: nat, locked: bool, sched: Scheduler, now: int) returns (called: seq<Fn>)
      requires i < |states| && j < |states[i].transitions| && states[i].transitions[j].TimerTrans?
      requires sched.Valid()
      modifies this, sched
      ensures sched.Valid() && sched.doLoop == old(sched.doLoop)
      ensures var tr := states[i].transitions[j];
              if locked && tr.nextState != UNDEFINED_STATE then
                called == [tr.action] && currState == tr.nextState &&
                TimersOf(sched) == Rearm(old(TimersOf(sched)), ident, states, tr.nextState, now)
              else
                called == (if locked then [tr.action] else []) &&
                currState == old(currState) && TimersOf(sched) == old(TimersOf(sched))
    {
      called := [];
      if locked {
        var tr := states[i].transitions[j];
        called := [tr.action];
        if tr.nextState != UNDEFINED_STATE {
          SetCurrState(tr.nextState, sched, now);
        }
      }
    }

    /** The destructor: unregisters the machine, then removes every id in `jobIds` from the scheduler. */
    method Destroy(sched: Scheduler, smd: SMDispatcher)
      requires sched.Valid()
      modifies sched, smd
      ensures smd.stateMachinesMap == Unregistered(old(smd.stateMachinesMap), this)
      ensures sched.jobs == old(sched.jobs) - (set x | x in jobIds)
      ensures sched.Valid() && sched.nextJobId == old(sched.nextJobId) && sched.doLoop == old(sched.doLoop)
    {
      smd.UnregisterSM(this);
      for k := 0 to |jobIds|
        invariant smd.stateMachinesMap == Unregistered(old(smd.stateMachinesMap), this)
        invariant sched.Valid() && sched.nextJobId == old(sched.nextJobId) && sched.doLoop == old(sched.doLoop)
        invariant sched.jobs == old(sched.jobs) - (set x | x in jobIds[..k])
      {
        sched.RemoveJob(jobIds[k]);
      }
      assert jobIds[..|jobIds|] == jobIds;
    }
  }

  class SMDispatcher {
    /** `stateMachinesMap`: message type -> the machines to notify, duplicates included. */
    var stateMachinesMap: map<MessageType, seq<StateMachine>>

    constructor ()
      ensures stateMachinesMap == map[]
    {
      stateMachinesMap := map[];
    }

    /**
     * `registerSM`: for every message transition of every state, in order,
     * the machine is appended to the list of that transition's type.
     */
    method RegisterSM(sm: StateMachine)
      modifies this
      ensures stateMachinesMap == RegisteredStates(old(stateMachinesMap), sm, sm.states, |sm.states|)
    {
      var states := sm.states;
      for i := 0 to |states|
        invariant stateMachinesMap == RegisteredStates(old(stateMachinesMap), sm, states, i)
      {
        RegisterTransitions(sm, states[i].transitions);
      }
    }

    /** The inner loop of `registerSM` over the transitions of one state. */
    method RegisterTransitions(sm: StateMachine, trans: seq<Transition>)
      modifies this
      ensures stateMachinesMap == Registered(old(stateMachinesMap), sm, TransTypes(trans, |trans|))
    {
      for j := 0 to |trans|
        invariant stateMachinesMap == Registered(old(stateMachinesMap), sm, TransTypes(trans, j))
      {
        if trans[j].MessageTrans? {
          var t := trans[j].msgType;
          RegisteredSnoc(old(stateMachinesMap), sm, TransTypes(trans, j), t);
          var list: seq<StateMachine> := [];
          if t in stateMachinesMap {
            list := stateMachinesMap[t];
          }
          stateMachinesMap := stateMachinesMap[t := list + [sm]];
          assert TransTypes(trans, j + 1) == TransTypes(trans, j) + [t];
        } else {
          assert TransTypes(trans, j + 1) == TransTypes(trans, j);
        }
      }
    }

    /** `unregisterSM`: every occurrence of the machine leaves every list. */
    method UnregisterSM(sm: StateMachine)
      modifies this
      ensures stateMachinesMap == Unregistered(old(stateMachinesMap), sm)
    {
      var pending := stateMachinesMap.Keys;
      while pending != {}
        invariant pending <= stateMachinesMap.Keys == old(stateMachinesMap).Keys
        invariant forall t :: t in stateMachinesMap ==>
                    stateMachinesMap[t] == if t in pending then old(stateMachinesMap)[t] else Without(old(stateMachinesMap)[t], sm)
        decreases pending
      {
        var t :| t in pending;
        stateMachinesMap := stateMachinesMap[t := Without(stateMachinesMap[t], sm)];
        pending := pending - {t};
      }
      assert stateMachinesMap.Keys == Unregistered(old(stateMachinesMap), sm).Keys;
      assert forall t :: t in stateMachinesMap ==> stateMachinesMap[t] == Unregistered(old(stateMachinesMap), sm)[t];
    }

    /** `publish`: one executor job per entry of the list for the message's type, in list order. */
    method Publish(msg: Message, executor: Executor)
      requires executor.Valid()
      modifies executor, executor.jobQueue
      ensures executor.Valid()
      ensures executor.State() == ExecAll(old(executor.State()), MachineTasks(Listed(stateMachinesMap, msg.msgType), msg))
    {
      if msg.msgType in stateMachinesMap {
        var sms := stateMachinesMap[msg.msgType];
        for i := 0 to |sms|
          invariant executor.Valid()
          invariant executor.State() == ExecAll(old(executor.State()), MachineTasks(sms[..i], msg))
        {
          assert MachineTasks(sms[..i + 1], msg)[..i] == MachineTasks(sms[..i], msg);
          executor.Exec(MachineUpdate(sms[i].ident), msg);
        }
        assert sms[..|sms|] == sms;
      }
    }
  }
}
