# CPP_Actors runtime bookkeeping in Dafny

This project models the sequential bookkeeping of `lib_actors`, the runtime
under the CPP_Actors actor library, and proves properties of it. The model
covers these parts:

- **Queue:** the mutex-guarded FIFO that every worker pulls from (`Queue.h`).
- **Job scheduler:** the table of timed jobs, the global job-id counter and
  one pass of the scheduler thread's loop (`Scheduler.h`).
- **Executor:** the elastic pool behind every publish. It has a shared job
  queue, a worker list and a doubling backlog threshold (`Executor.h`).
- **Dispatcher:** one list of subscribed callables per message type, with
  subscribe, unsubscribe and publish (`Dispatcher.h`).
- **State-machine engine:** states and transitions, `setCurrState`,
  message delivery, timer transitions and the `SMDispatcher` table
  (`StateMachine.h`).
- **Restartable timer:** `Timer.h`.
- **Per-actor bookkeeping:** the subscriptions and scheduled jobs an actor
  records so that its destructors can cancel them (`Actor.h`).
- **Deferred free list:** `Memory.h`.

## How the model is built

One Dafny module per header. Every object the source updates in place is a
`class` whose fields the methods reassign, and every method is proved
against a specification function on values:

- `Queues`: the `std::queue` is a `seq`.
- `Schedulers`: the `std::map` is a Dafny `map`. The map's ascending
  iteration order is `SortedIds`. One scan is `AfterScan` plus the
  functions it pushes, `Funcs(FiredIds)`.
- `Executors`: the executor's state is the value `Pool`. A run of `exec`
  calls is `ExecAll`.
- `StateMachines`: one `setCurrState` is `Rearm`. One delivery is
  `MachineDeliver`/`StateDeliver`. Registration is `Registered`.

The `getInstance` singletons are objects passed to the methods that use
them. Other parts of the runtime become inputs or preconditions:

- The clock is an integer `now`.
- A `try_lock` outcome is a boolean input.
- A blocking wait becomes a precondition that an item is there.
- What other threads push while a timed wait is in progress is an input.

Callables are the values of `Callables.Fn`:

- User code is an opaque `User(id)`.
- `Target` is the pointer `target<std::function<void(Message_ptr)>>()`
  yields, and it is null for every value. A `std::function` never stores
  another `std::function` of its own type: copying one copies the object it
  stores. So `unsubscribe` compares null with null, and it empties the
  type's list whatever function it is given. The destructor of an actor
  therefore removes every subscriber of each type the actor subscribed to,
  other actors' subscribers included.
- The lambdas the library builds (the actor's locking wrapper, the
  argument-dropping wrapper, the state-machine and timer-transition
  callbacks, the no-op) are spelled out, so contracts can say which wrapper
  was registered. Running a user action is recorded by returning it.

Some facts about the code that the model keeps:

- `publish` pushes straight into the shared executor. There is no
  dispatcher worker pool keyed by message kind.
- A subscription carries no id, and an actor has no deletion flag.
- `freeMarkedMem` frees the marked objects whenever it is called.
- An executor worker is stopped by repeated no-op jobs with a capped
  back-off.

## Model

| member | source | states |
|---|---|---|
| Queues.Queue.constructor | cpp_actors/lib_actors/Queue.h:37 | a new queue is empty and keeps the given sentinel `emptyElem` |
| Queues.Queue.Push | cpp_actors/lib_actors/Queue.h:68-72 | the item is appended at the back; nothing else changes |
| Queues.Queue.Get | cpp_actors/lib_actors/Queue.h:42-49 | on a non-empty queue, the returned element followed by the new contents is exactly the old contents (the front is removed and returned) |
| Queues.Queue.GetFor | cpp_actors/lib_actors/Queue.h:51-62 | on a non-empty queue no wait happens and it behaves as `get`; a timeout returns `emptyElem`; otherwise the front of the old contents plus everything pushed during the waits is taken |
| Queues.Queue.Size | cpp_actors/lib_actors/Queue.h:74-77 | returns the number of queued items and modifies nothing |
| Queues.Queue.Empty | cpp_actors/lib_actors/Queue.h:79-82 | true exactly when the queue holds no item (so exactly when the size is 0); modifies nothing |
| Queues.FifoOrder | cpp_actors/lib_actors/Queue.h:42-72 | for any interleaving of pushes and timed gets, the items taken followed by the items left equal the initial items followed by the pushed items in push order: nothing is lost, duplicated or reordered |
| Schedulers.SortedIdsCorrect | cpp_actors/lib_actors/Scheduler.h:102 | the map's iteration order lists every id of the table exactly once, in strictly ascending order |
| Schedulers.DueIdsCorrect | cpp_actors/lib_actors/Scheduler.h:102-110 | the ids selected for firing are exactly those with fires left and due time at or before `now`, and an ascending id list stays ascending |
| Schedulers.FiredIds | cpp_actors/lib_actors/Scheduler.h:102-110 | one scan fires exactly the due jobs with fires left, each once, in ascending id order |
| Schedulers.ScanPushedIsFuncs | cpp_actors/lib_actors/Scheduler.h:109-110 | while `doLoop` holds, the functions pushed are those of the due ids in visiting order; once stopped, nothing is pushed |
| Schedulers.ScanComplete | cpp_actors/lib_actors/Scheduler.h:100-118 | visiting every id in map order and then erasing the recorded ids yields `AfterScan` while running, and the unchanged table once stopped |
| Schedulers.AfterScan | cpp_actors/lib_actors/Scheduler.h:109-118 | a scan never adds an entry to the table |
| Schedulers.ScanEffect | cpp_actors/lib_actors/Scheduler.h:109-118 | `AfterScan` read back job by job, the step `PhaseKept` builds on: a job is erased exactly when due with one fire left; a job that is not due is untouched; any other fired job keeps function and interval, loses one fire and moves one interval from its old due time |
| Schedulers.PhaseKept | cpp_actors/lib_actors/Scheduler.h:111-114 | over any series of scans, a job still present has its original function and interval, has lost one fire per scan that fired it, and is due that many whole intervals after its original due time |
| Schedulers.CatchUp | cpp_actors/lib_actors/Scheduler.h:109-114 | a repeating job `n` intervals behind is fired once per scan by `n` scans at the same clock reading |
| Schedulers.Worker.constructor | cpp_actors/lib_actors/Scheduler.h:46-48 | the worker starts looping, on an empty queue whose sentinel is the null function |
| Schedulers.Worker.RunOnce | cpp_actors/lib_actors/Scheduler.h:50-57 | one pass of `run`: the timed get takes the first of the old items followed by those pushed during the waits, or nothing on a timeout, and the rest stay queued in order; the function called is exactly that item when the loop is on, the get did not time out and the item is not null; with a non-empty queue it is the front item, and when nothing arrives nothing is called |
| Schedulers.Scheduler.constructor | cpp_actors/lib_actors/Scheduler.h:76-82 | the table starts empty, ids start at 0, the loop is running, and the worker's queue is empty |
| Schedulers.Scheduler.OnceIn | cpp_actors/lib_actors/Scheduler.h:142-148 | returns the current id counter and increments it (so the id is new), and stores (func, now+msec, msec, 1) under it |
| Schedulers.Scheduler.RepeatEvery | cpp_actors/lib_actors/Scheduler.h:154-160 | the same as `onceIn`, with the remaining count `ULONG_MAX` |
| Schedulers.Scheduler.RemoveJob | cpp_actors/lib_actors/Scheduler.h:166-172 | erases only the given id; an unknown or already removed id leaves the table unchanged |
| Schedulers.Scheduler.NextTimeout | cpp_actors/lib_actors/Scheduler.h:90-96 | the wake time is never (`time_point::max()`) exactly when no job has fires left, and otherwise is the due time of such a job and no later than any other such job's |
| Schedulers.Scheduler.FireDue | cpp_actors/lib_actors/Scheduler.h:100-118 | while running, the table becomes `AfterScan(old, now)` and the worker queue gains the functions of the fired ids in ascending id order; once stopped, neither changes |
| Schedulers.Scheduler.VisitAll | cpp_actors/lib_actors/Scheduler.h:102-116 | the visiting loop leaves the table, the `jobsToRemove` list and the worker queue as `ScanPrefix`, `ErasedIds` and `ScanPushed` of the visited ids |
| Schedulers.Scheduler.Visit | cpp_actors/lib_actors/Scheduler.h:103-115 | one visit pushes a due job's function, reports erasure exactly for a last fire, and otherwise moves a fired job on |
| Schedulers.Scheduler.EraseJobs | cpp_actors/lib_actors/Scheduler.h:117-118 | every listed id leaves the table |
| Schedulers.Scheduler.SortedKeys | cpp_actors/lib_actors/Scheduler.h:102 | returns the table's ids in ascending order and modifies nothing |
| Schedulers.Scheduler.Scan | cpp_actors/lib_actors/Scheduler.h:84-119 | one pass of `run`: the wake time is `Never` exactly when no job has fires left, and otherwise the earliest due time among the jobs with fires left, attained by one of them; then the scan at `now` as in `FireDue` |
| Executors.InitialPoolValid | cpp_actors/lib_actors/Executor.h:76-77 | the initial pool (one worker, threshold 2) satisfies threshold = 2^workers, with an empty backlog |
| Executors.ExecStepValid | cpp_actors/lib_actors/Executor.h:96-105 | one `exec` keeps threshold = 2^workers, never lowers workers or threshold, adds at most one worker, and keeps a backlog within the threshold within it |
| Executors.ExecAllQueue | cpp_actors/lib_actors/Executor.h:96-116 | while running, a series of `exec` calls appends its jobs at the tail in call order; once stopped, it changes nothing |
| Executors.ExecAllValid | cpp_actors/lib_actors/Executor.h:96-105 | over any series of `exec` calls the growth invariant holds, workers and threshold never decrease, and the backlog stays within the threshold |
| Executors.BackoffCapped | cpp_actors/lib_actors/Executor.h:54-60 | the `i`-th retry delay of `Worker::stop` is 2^i ms up to the tenth pass and 1024 ms afterwards, so it never exceeds 1024 ms |
| Executors.Poisons | cpp_actors/lib_actors/Executor.h:55-56 | one wake-up job per pass of the retry loop |
| Executors.PoisonsSpec | cpp_actors/lib_actors/Executor.h:56 | every wake-up job is the no-op paired with `noneMsg` |
| Executors.Worker.constructor | cpp_actors/lib_actors/Executor.h:40 | a new worker is looping |
| Executors.Worker.StopWorker | cpp_actors/lib_actors/Executor.h:69 | the worker is asked to leave its loop |
| Executors.Worker.Stop | cpp_actors/lib_actors/Executor.h:52-63 | clears `doLoop`, pushes one no-op job per pass at the tail of the shared queue, and sleeps the capped doubling delays |
| Executors.Executor.constructor | cpp_actors/lib_actors/Executor.h:76-80 | the executor starts with exactly one fresh, looping worker, threshold 2, running |
| Executors.Executor.Exec | cpp_actors/lib_actors/Executor.h:96-105 | the new state is `ExecStep` of the old (append while running, grow past the threshold, nothing when stopped); old workers are kept, and a new worker is fresh and looping |
| Executors.Executor.ExecThunk | cpp_actors/lib_actors/Executor.h:107-116 | the same as `exec`, with the function wrapped to ignore its argument and paired with `noneMsg` |
| Executors.Executor.StopExecutor | cpp_actors/lib_actors/Executor.h:118-123 | `doExec` is cleared and every worker is asked to stop; the worker list and the threshold are unchanged |
| Dispatchers.UnsubscribeEmpties | cpp_actors/lib_actors/Dispatcher.h:60-64 | `unsubscribe` with any callable leaves that type's list empty, because every `target` pointer compared is null |
| Dispatchers.Dispatcher.constructor | cpp_actors/lib_actors/Dispatcher.h:39-41 | one empty list per message type |
| Dispatchers.Dispatcher.Subscribe | cpp_actors/lib_actors/Dispatcher.h:54-58 | for a type other than NONE and NO_OF_MSG_TYPES, the callable is appended at the end of that type's list; no other list changes |
| Dispatchers.Dispatcher.Unsubscribe | cpp_actors/lib_actors/Dispatcher.h:60-64 | that type's list becomes what `remove_if` leaves when it compares `target` pointers, which is the empty list; no other list changes |
| Dispatchers.Dispatcher.Publish | cpp_actors/lib_actors/Dispatcher.h:66-70 | the executor receives one `exec` per subscribed function of the message's type, in list order; no list changes |
| Dispatchers.Dispatcher.Clear | cpp_actors/lib_actors/Dispatcher.h:42-46 | the destructor leaves every list empty |
| Dispatchers.PublishEffect | cpp_actors/lib_actors/Dispatcher.h:66-70 | while the executor runs, publish appends exactly one job per subscriber at the queue's tail, in list order; a stopped executor or an empty list receives nothing |
| StateMachines.ConstructorDefaults | cpp_actors/lib_actors/StateMachine.h:105-127 | a transition built without a next state carries `UNDEFINED_STATE` (-1), one built without an action gets the no-op, and the other arguments are kept |
| StateMachines.StateArmsSpec | cpp_actors/lib_actors/StateMachine.h:228-235 | within a state whose id matches, exactly its timer transitions are armed, in declaration order |
| StateMachines.ArmsUpToSpec | cpp_actors/lib_actors/StateMachine.h:226-236 | over the first `n` states, exactly the timer transitions of states with the matching id are armed, in visiting order |
| StateMachines.ArmsSpec | cpp_actors/lib_actors/StateMachine.h:226-236 | `setCurrState(s)` arms exactly the timer transitions of the states whose id is `s`, never a message transition, each once, in list order |
| StateMachines.IdsFromRange | cpp_actors/lib_actors/StateMachine.h:232 | the ids `n` calls to `onceIn` in a row return are exactly the `n` ids from the counter on, and no other |
| StateMachines.ArmAllAt | cpp_actors/lib_actors/StateMachine.h:232 | arming gives the `k`-th transition id `next + k` with its one-shot job from `now`; every other id keeps its job |
| StateMachines.ArmAllConcat | cpp_actors/lib_actors/StateMachine.h:226-236 | arming two lists in a row equals arming their concatenation |
| StateMachines.RearmEffect | cpp_actors/lib_actors/StateMachine.h:220-237 | after `setCurrState`, no previously armed id is left in the table; the table holds exactly the ids neither disarmed nor new plus the new ids; each new id holds its transition's job, other jobs are untouched, and every id in the table was issued |
| StateMachines.StateDeliverShape | cpp_actors/lib_actors/StateMachine.h:167-175 | delivery only appends actions and moves, and the state it ends in is the last move |
| StateMachines.NoMatchingState | cpp_actors/lib_actors/StateMachine.h:241-244 | when no state has the current id, a message runs nothing and changes nothing |
| StateMachines.NoMatchingTransition | cpp_actors/lib_actors/StateMachine.h:167-175 | a state without a transition on the message's type does nothing |
| StateMachines.RegisteredConcat | cpp_actors/lib_actors/StateMachine.h:263-275 | registering two type lists in a row equals registering their concatenation |
| StateMachines.RegisteredStatesAll | cpp_actors/lib_actors/StateMachine.h:263-275 | registering state by state registers the message types of all states, in visiting order |
| StateMachines.RegisteredKeys | cpp_actors/lib_actors/StateMachine.h:268-272 | registration creates a list for each listed type and keeps every existing one |
| StateMachines.RegisteredLists | cpp_actors/lib_actors/StateMachine.h:263-275 | each type's list becomes its old list followed by one copy of the machine per message transition of that type (duplicates arise) |
| StateMachines.WithoutCount | cpp_actors/lib_actors/StateMachine.h:255 | `remove_if(sm == x)` drops every occurrence of `x` and keeps every other entry as often as before |
| StateMachines.UnregisteredSpec | cpp_actors/lib_actors/StateMachine.h:252-258 | unregistering keeps every type's entry, removes the machine from every list, and keeps every other machine as often as before |
| StateMachines.DoorScenario | cpp_actors/example_statemachine/SMachine.h:32-40 | in the door example, entering CLOSED arms nothing and entering OPENED arms the 1000 ms auto-close; OPEN_DOOR opens a closed door and is ignored by an open one; CLOSE_DOOR closes an open door |
| StateMachines.CascadeScenario | cpp_actors/lib_actors/StateMachine.h:239-248 | because `currState` is re-read for each listed state, one message can fire a transition in a state and then in a later-listed state it moved to; listed the other way round, only the first fires |
| StateMachines.SelfLoopDelivery | cpp_actors/lib_actors/StateMachine.h:286-291 | a self-transition runs its action and still calls `setCurrState` with the current state |
| StateMachines.SelfTransitionRestartsTimer | cpp_actors/lib_actors/StateMachine.h:286-291 | a self-transition removes the armed timer jobs and arms a new one, due a full timeout after `now`, under a new id |
| StateMachines.StateMachine.constructor | cpp_actors/lib_actors/StateMachine.h:189-199 | `jobIds` starts empty, the initial state is entered through `setCurrState`, and the machine is registered once per message transition of its states |
| StateMachines.StateMachine.SetCurrState | cpp_actors/lib_actors/StateMachine.h:220-237 | the new state is set, and the table, counter and `jobIds` become `Rearm` of the old ones: every armed id removed, one new job per timer transition of the new state |
| StateMachines.StateMachine.Disarm | cpp_actors/lib_actors/StateMachine.h:222-224 | every id in `jobIds` is removed from the table and the list is cleared |
| StateMachines.StateMachine.ArmStates | cpp_actors/lib_actors/StateMachine.h:226-236 | the timer transitions of the current state are armed in order under consecutive new ids, which become `jobIds` |
| StateMachines.StateMachine.ArmState | cpp_actors/lib_actors/StateMachine.h:228-235 | one matching state's timer transitions are armed in order, their ids appended to `jobIds` |
| StateMachines.StateMachine.ArmTransition | cpp_actors/lib_actors/StateMachine.h:230-233 | a timer transition gets one `onceIn` job whose id is appended; a message transition arms nothing |
| StateMachines.StateMachine.TakeTransition | cpp_actors/lib_actors/StateMachine.h:286-291 | the action runs; a defined next state is entered through `setCurrState`, even when it is the current state; an undefined one changes neither the state nor the jobs |
| StateMachines.StateMachine.StateUpdate | cpp_actors/lib_actors/StateMachine.h:167-175 | every message transition of the message's type fires, in declaration order, as `StateDeliver` says |
| StateMachines.StateMachine.Update | cpp_actors/lib_actors/StateMachine.h:239-248 | a failed `try_lock` drops the message; otherwise the delivery is `MachineDeliver`, re-reading `currState` for each state, and the timers are re-armed once per move |
| StateMachines.StateMachine.FireTimer | cpp_actors/lib_actors/StateMachine.h:293-301 | a failed `try_lock` does nothing; otherwise the action runs and a defined next state is entered through `setCurrState` |
| StateMachines.StateMachine.Destroy | cpp_actors/lib_actors/StateMachine.h:204-211 | the machine is unregistered from every list and every armed job is removed |
| StateMachines.SMDispatcher.constructor | cpp_actors/lib_actors/StateMachine.h:53-55 | the table starts empty |
| StateMachines.SMDispatcher.RegisterSM | cpp_actors/lib_actors/StateMachine.h:260-277 | for each state's message transitions in turn, the machine is appended to the list of the transition's type |
| StateMachines.SMDispatcher.RegisterTransitions | cpp_actors/lib_actors/StateMachine.h:265-274 | the machine is appended to the list of each message transition's type, in order |
| StateMachines.SMDispatcher.UnregisterSM | cpp_actors/lib_actors/StateMachine.h:252-258 | every occurrence of the machine leaves every list; the types are kept |
| StateMachines.SMDispatcher.Publish | cpp_actors/lib_actors/StateMachine.h:279-284 | one executor job per list entry for the message's type, in list order; nothing for a type without an entry |
| Timers.StoppedSpec | cpp_actors/lib_actors/Timer.h:41-46 | `stop` on a running timer removes exactly its job; with id 0 it leaves the table as it is |
| Timers.RestartKeepsOneJob | cpp_actors/lib_actors/Timer.h:48-51 | restarting a running timer leaves exactly one job of it, due `msec` after `now`, with every other job untouched; a later `stop` restores the table without the timer |
| Timers.ZeroIdLeaks | cpp_actors/lib_actors/Timer.h:41-51 | on a fresh scheduler the first timer gets id 0, looks stopped, survives `stop`, and a restart schedules a second job beside it |
| Timers.Timer.constructor | cpp_actors/lib_actors/Timer.h:37 | a new timer is not running (id 0) and keeps its delay and callback |
| Timers.Timer.Stop | cpp_actors/lib_actors/Timer.h:41-46 | a non-zero id's job is cancelled; the id becomes 0 |
| Timers.Timer.Start | cpp_actors/lib_actors/Timer.h:48-51 | `stop`, then a one-shot job of `msec` whose new id the timer keeps |
| Actors.UnsubscribeEachSpec | cpp_actors/lib_actors/Actor.h:61-65 | after the destructor's `unsubscribe` calls, each subscribed type's list is empty (the actor's wrapper and every other subscriber gone), and every other list is unchanged |
| Actors.PublishOrder | cpp_actors/lib_actors/Actor.h:78-82 | an actor's publish queues the dispatcher's subscriber jobs first, then the state-machine jobs, all with the same message |
| Actors.RemoveEachSpec | cpp_actors/lib_actors/Actor.h:102-106 | removing a series of ids leaves exactly the other jobs, unchanged; ids no longer in the table change nothing |
| Actors.Message.constructor | cpp_actors/lib_actors/Actor.h:60 | no subscriptions yet |
| Actors.Message.Subscribe | cpp_actors/lib_actors/Actor.h:67-76 | with no subscription of that type yet, exactly one (type, func) pair is recorded and exactly one wrapper that takes the actor's mutex is registered |
| Actors.Message.Destroy | cpp_actors/lib_actors/Actor.h:61-65 | one dispatcher `unsubscribe` per recorded subscription, passing the user function; every subscribed type's list ends empty |
| Actors.Message.Publish | cpp_actors/lib_actors/Actor.h:78-82 | the same message goes to the dispatcher first, then to the state-machine dispatcher |
| Actors.Scheduler.constructor | cpp_actors/lib_actors/Actor.h:101 | no scheduled jobs yet |
| Actors.Scheduler.Once | cpp_actors/lib_actors/Actor.h:108-126 | a one-shot job of the locking wrapper; its id is appended to `scheduledJobs` and returned |
| Actors.Scheduler.Repeat | cpp_actors/lib_actors/Actor.h:128-146 | a repeating job of the locking wrapper; its id is appended and returned |
| Actors.Scheduler.Remove | cpp_actors/lib_actors/Actor.h:148-152 | the job is cancelled and every occurrence of its id leaves `scheduledJobs` |
| Actors.Scheduler.Destroy | cpp_actors/lib_actors/Actor.h:102-106 | `removeJob` for every recorded id, in order, including one-shots that already fired |
| Actors.Timer.constructor | cpp_actors/lib_actors/Actor.h:162 | the timer factory keeps the actor's mutex |
| Actors.Timer.GetInstance | cpp_actors/lib_actors/Actor.h:165-170 | a new timer, not running, whose callback takes the actor's mutex before the user function |
| Memory.FlushSpec | cpp_actors/lib_actors/Memory.h:47-52 | after `freeMarkedMem` no recorded pointer is live, every other live pointer is, the record is empty, and the releases follow the record's order and multiplicities |
| Memory.FlushTwice | cpp_actors/lib_actors/Memory.h:47-52 | a second `freeMarkedMem` right after the first changes nothing |
| Memory.FreeDefers | cpp_actors/lib_actors/Memory.h:42-45 | `freeMem` releases nothing and appends exactly one entry to the record |
| Memory.DoubleDelete | cpp_actors/lib_actors/Memory.h:42-52 | nothing removes duplicates: a pointer freed twice before a flush is released twice |
| Memory.MemoryHandler.constructor | cpp_actors/lib_actors/Memory.h:35 | nothing is recorded |
| Memory.MemoryHandler.AllocMem | cpp_actors/lib_actors/Memory.h:38-40 | returns what `malloc` returned; a non-null result becomes live |
| Memory.MemoryHandler.FreeMem | cpp_actors/lib_actors/Memory.h:42-45 | the pointer is recorded; nothing is released |
| Memory.MemoryHandler.FreeMarkedMem | cpp_actors/lib_actors/Memory.h:47-52 | every recorded pointer is released in record order and the record is cleared |
| Memory.MemoryHandler.Destroy | cpp_actors/lib_actors/Memory.h:36 | the destructor flushes the record |
| Memory.Memory.constructor | cpp_actors/lib_actors/Memory.h:57 | the operators share the one handler |
| Memory.Memory.OperatorNew | cpp_actors/lib_actors/Memory.h:59 | `new` routes to `allocMem` |
| Memory.Memory.OperatorNewArray | cpp_actors/lib_actors/Memory.h:60 | `new[]` routes to `allocMem` |
| Memory.Memory.OperatorDelete | cpp_actors/lib_actors/Memory.h:61 | `delete` routes to `freeMem`, so memory is only recorded |
| Memory.Memory.OperatorDeleteArray | cpp_actors/lib_actors/Memory.h:62 | `delete[]` routes to `freeMem` |
| Memory.Memory.FreeMarkedMem | cpp_actors/lib_actors/Memory.h:63 | flushes the shared handler |

## Left out

- Threads, `join`, `sleep_for`, condition-variable waits and every mutex. Blocking waits become preconditions, `try_lock` results are inputs, and the lock an actor's wrappers take is recorded in the `Locked` value but not modelled as a lock.
- The clock. `steady_clock::now()` is the parameter `now`, and time is integer milliseconds, so `time_point` overflow is not modelled.
- Schedulers.Scheduler.OnceIn: job ids are unbounded, so the 64-bit wrap-around of `NextJobId` after `ULONG_MAX` ids is not modelled. `NextJobId` is a namespace-level static in the source; here it is a field of the one scheduler object.
- Schedulers.Scheduler.FireDue: the `noWorkers > 0` test is left out, because it is 1 for the whole life of the scheduler and only becomes 0 in its destructor, after the thread has been joined.
- The scheduler's destructor and `stop`, and the bodies of the worker threads beyond one pass (`Schedulers.Worker.RunOnce`) and the retry loop of `Executors.Worker.Stop`.
- Executors.Executor.Exec: `maxQueueSize` is an `int` compared with a `size_t`; its overflow after 30 doublings is not modelled.
- The executor's destructor, which prints, stops and deletes the workers. `printf` is I/O.
- Executors.Executor.constructor: the shared `jobQueue` is declared without a sentinel; it is modelled as a queue created empty, since the executor only uses the blocking `get`.
- Dispatchers.Dispatcher.Publish: a message of type NO_OF_MSG_TYPES indexes one past the end of `funcLists` in the source (undefined behaviour); the model requires a type below it.
- Dispatchers.Dispatcher.Subscribe and Dispatchers.Dispatcher.Unsubscribe: the C++ `assert` on the type is a precondition.
- Actors.Message.Subscribe: the C++ `assert` that the actor has no subscription of the type is a precondition.
- StateMachines.SMDispatcher.RegisterSM: the null-pointer check is not modelled, since a Dafny object reference is never null.
- StateMachines.StateMachine.Destroy: the blocking lock of `smMutex` in the destructor is not modelled. Deleting the owned states and transitions is left out, since the model's states are values.
- StateMachines.StateMachine.Update and StateMachines.StateMachine.FireTimer: user actions are recorded in call order rather than run, so an action that itself publishes or changes state is not modelled.
- `State::setStateMachine` and the `VarArg` type tags with their `dynamic_cast`s, since the datatype `Transition` carries the kind and the back-pointer is the machine itself.
- Memory.MemoryHandler.AllocMem: the address `malloc` returns is an input: 0 for failure, otherwise an address that must not already be live. `free` is modelled as the log `released` plus removal from the live set.
- The rxcpp `stream` of `Actors::Message`, which is a foreign library, and `Actors::Logger` together with `Logger.h`, which are output formatting.
- The composite `Actors::Actor`. It only passes one mutex to its four bases, and the model gives each base that mutex as a value.
- `lib_messages/Message.h` and `MessageTypes.h` are reduced to `Messages.MessageType`, numbered from NONE = 0 to NO_OF_MSG_TYPES = 14, and `Messages.Message`. The unresolved merge-conflict markers in `MessageTypes.h` list the same enumerators on both sides.
- `Timer.h` and `Actor.h` name the id type `Schedulers::JobId`, which `Scheduler.h` declares as `JobId_t`; the model uses the one type `Schedulers.JobId`.
- The example actors are not part of this model, apart from the door topology of `SMachine.h` used in `StateMachines.DoorScenario`.
