# Bounded-concurrency task queue

A model of the `Queue` class of a small Express server (server.js:8-44). The
class runs asynchronous tasks with at most `concurrency` of them running at
once. `add(task)` wraps the task, puts the wrapper at the tail of `queue`, and
returns a promise. `_next()` starts the oldest waiting wrapper whenever
`running < concurrency`. When a wrapper's task returns or throws, the wrapper
settles the task's promise, decrements `running`, and calls `_next()` again.

The model has two modules.

- `Scheduling` (scheduling.dfy) describes the protocol as a state machine on
  values. It has a `State` datatype, the transitions `Init`, `Admit`
  (`_next`), `AddTask` (`add`) and `Finish` (the wrapper's
  `try`/`catch`/`finally`), and `Run` over sequences of events. The
  invariant `Inv` and the predicate `WorkConserving` hold in every reachable
  state. The lemmas prove the bound, FIFO admission, conservation of tasks,
  settle-once, isolation of failures and draining.
- `Server` (server.dfy) holds the class `Queue`. Its real fields are
  `concurrency`, `queue`, `running` and `promises`. Its ghost fields are the
  running ids `active` and the starting order `admitted`. Each of its methods
  `Add`, `Next` and `Complete` is proved to perform exactly the matching
  transition of `Scheduling`. Everything proved about the transitions
  therefore holds of the object.

Tasks are identified by their submission index. The promise `add` returns is
the entry with that index in `promises`. A task's body is not modelled. What it
returned or threw arrives as the argument of the completion event
`Complete(id, r)`. That event can only concern a running task, because the
body runs only after `_next` has started its wrapper (server.js:20, 42).

The constructor (server.js:9-13) stores any limit and never fails. With a
limit of zero or below `_next` never starts anything, and every added task
stays queued with its promise pending (`NothingStartsWithoutCapacity`). The
bound the code keeps is `running <= max(concurrency, 0)` (`Capacity` in the
model).

## Model

| member | source | states |
|---|---|---|
| `Scheduling.Init` | server.js:9-13 | a new queue stores the limit unchecked, has nothing waiting, nothing running and no promises, and satisfies the invariant |
| `Scheduling.Admit` | server.js:35-43 | an admission attempt keeps the invariant, including `running <= max(concurrency, 0)`, extends the starting order by at most one task and touches no promise |
| `Scheduling.AdmitGate` | server.js:36-38 | an admission attempt leaves the state unchanged exactly when `running >= concurrency` or the queue is empty |
| `Scheduling.AdmitTakesOldest` | server.js:40-41 | when the gate is open, admission removes exactly the head of the queue, keeps the rest in order, raises `running` by one, and every task left waiting was submitted after the one started |
| `Scheduling.AddTask` | server.js:16-32 | adding a task keeps the invariant and work conservation, appends one pending promise for it, leaves every earlier promise unchanged and keeps the earlier starting order as a prefix |
| `Scheduling.AddAppendsAtTail` | server.js:18-30 | the new task either waits at the tail behind all earlier ones, with `running` unchanged, or nothing was waiting and it starts at once |
| `Scheduling.AddMany` | server.js:16-32 | a burst of `n` additions keeps the invariant and work conservation and creates `n` promises |
| `Scheduling.AddManyFillsFreeSlots` | server.js:30-41 | a burst of `n` additions starts `min(n, free slots)` tasks and queues the rest, so with limit `c` and `c + k` tasks on an idle queue `c` run and `k` wait |
| `Scheduling.Finish` | server.js:19-27 | a completion, whether the task returned or threw, keeps the invariant and work conservation, settles that task's promise with its result, leaves every other promise alone and takes the task out of the running set |
| `Scheduling.FinishFreesOneSlot` | server.js:24-26 | a completion lowers `running` by exactly one when nothing waits, and otherwise hands the freed slot straight to the head of the queue |
| `Scheduling.SettleOnce` | server.js:19-23 | a running task's promise is pending; completion resolves it with the returned value or rejects it with the thrown error; afterwards no further completion of that task is possible |
| `Scheduling.FailureIsIsolated` | server.js:22-26 | a task that throws leaves the queue, the running count, the running set and the starting order exactly as a task that returns would; only its own promise differs |
| `Scheduling.Run` | server.js:16-43 | after any possible sequence of additions and completions the invariant and work conservation hold, the limit is unchanged, no promise disappears, a settled promise never changes, and the starting order only grows |
| `Scheduling.ExactlyOnePlace` | server.js:18-41 | every submitted task is in exactly one place, waiting, running or completed, and its promise is settled exactly when it has completed |
| `Scheduling.StartsInSubmissionOrder` | server.js:18-40 | in every reachable state, a task that has started was preceded by every task submitted before it, and the `i`-th task started is the `i`-th submitted |
| `Scheduling.NothingStartsWithoutCapacity` | server.js:36-38 | with a limit of zero or below, after any possible events nothing has started, every task waits and every promise is pending |
| `Scheduling.IdleIsSettled` | server.js:36-43 | with a positive limit, nothing running means nothing waiting and every promise settled |
| `Scheduling.DrainEvents` | server.js:24-26 | from any reachable state, completing the running tasks one at a time, with any mix of results and errors, is a possible sequence of events; with a positive limit it ends with nothing waiting, nothing running and every promise settled |
| `Server.Queue.constructor` | server.js:9-13 | the new object is the initial state for the given limit |
| `Server.Queue.Add` | server.js:16-32 | pushes a pending promise and a wrapper, attempts one admission, returns the new task's id and keeps the invariant |
| `Server.Queue.Next` | server.js:35-43 | performs exactly one admission attempt on the object's fields |
| `Server.Queue.Complete` | server.js:19-27 | resolves or rejects the task's promise according to its result, decrements `running`, attempts one admission and keeps the invariant |

## Left out

- The Express application: routes, body parsing, responses and `app.listen` (server.js:1-4, 54-84, 87-103, 106-109). They are HTTP plumbing around the queue.
- `processItem` and its `setTimeout` delay (server.js:47-51), and the `console.time` instrumentation. Timers and timing are not modelled. No property about wall-clock time or completion timing is stated.
- The JavaScript promise machinery. This includes `Promise.all` short-circuiting in the route (server.js:68) and the order in which the route collects results (server.js:72). A promise is modelled as an `Outcome` value. The end of a task's body is an explicit event whose order the caller chooses.
- The body of a task and the call `task()` that starts it (server.js:20, 42). The model does not run bodies. Their return value (an `int`) or thrown error (a `string`) is supplied with the completion event.
- The 20000-element fixture array (server.js:6) and the sequential loop driver (server.js:97-100). They drive a benchmark and are not scheduling logic.
- Non-numeric or fractional values of `concurrency`. The limit is modelled as an integer.
- A task that is a plain function and throws before its first `await` completes inside the `_next` call that starts it (server.js:20, 42): its own `add`'s when a slot is free, otherwise the one in the `finally` of the completion that frees the slot (server.js:26). The model shows that completion as a `Finished` event straight after the event that started the task. The state reached is the same, because the nested completion is the last action of `_next`.
- Call-stack depth is not modelled. A run of queued tasks that complete synchronously nests one `_next` → wrapper → `finally` → `_next` call per task in JavaScript (server.js:20-26, 42), so a long run can exhaust the stack; the model, `DrainEvents` included, treats the nesting as unbounded.
