/** The admission protocol of the bounded-concurrency `Queue` as a state
    machine on values: the state of the scheduler, the three transitions
    (admission, submission, completion), event traces, and the properties the
    protocol keeps.  The `Queue` class in module Server is proved to perform
    exactly these transitions. */
module Scheduling {

  /** A task is identified by its submission index: the first task added to a
      queue is 0, the next 1, and so on.  The same index names the promise
      that `add` returned for it. */
  type TaskId = nat

  /** What a task's body did: returned a value, or threw an error. */
  datatype TaskResult = Returned(value: int) | Threw(error: string)

  /** The state of the promise that `add` hands back to its caller. */
  datatype Outcome = Pending | Resolved(value: int) | Rejected(error: string)

  datatype Option<T> = None | Some(value: T)

  /** The scheduler's state.  `concurrency`, `queue` and `running` are the
      three fields of the JavaScript `Queue` class; `outcomes` holds the state of
      the promise returned for each submitted task, which belongs to the
      caller of `add`, not to the `Queue` object; `active` (the ids now
      running) and `admitted` (every id ever started, in starting order) are
      bookkeeping that the `Queue` class keeps only implicitly. */
  datatype State = State(
    concurrency: int,
    queue: seq<TaskId>,
    running: int,
    active: set<TaskId>,
    admitted: seq<TaskId>,
    outcomes: seq<Outcome>)

  /** The two things that can happen to a scheduler from outside: a caller
      adds a task, or a running task's body finishes. */
  datatype Event = Submitted | Finished(id: TaskId, result: TaskResult)

  /** How many tasks may run at once.  A limit of zero or below admits none. */
  function Capacity(concurrency: int): nat
  {
    if concurrency > 0 then concurrency else 0
  }

  function Min(a: int, b: int): int
  {
    if a <= b then a else b
  }

  /** `xs` is the run of consecutive ids `first, first + 1, ...`. */
  predicate Consecutive(xs: seq<TaskId>, first: nat)
  {
    forall i :: 0 <= i < |xs| ==> xs[i] == first + i
  }

  /** The protocol's invariant.  The running count matches the running tasks
      and never exceeds the limit; the tasks started so far followed by the
      tasks still waiting are all submitted tasks, in submission order; and a
      promise is still pending exactly when its task is waiting or running. */
  predicate Inv(s: State)
  {
    && 0 <= s.running == |s.active| <= Capacity(s.concurrency)
    && Consecutive(s.admitted, 0)
    && Consecutive(s.queue, |s.admitted|)
    && |s.admitted| + |s.queue| == |s.outcomes|
    && (forall id :: id in s.active ==> id < |s.admitted|)
    && (forall id :: 0 <= id < |s.outcomes| ==>
          (s.outcomes[id].Pending? <==> (|s.admitted| <= id || id in s.active)))
  }

  /** No free slot is left idle while work waits. */
  predicate WorkConserving(s: State)
  {
    s.queue != [] ==> s.running >= s.concurrency
  }

  /** The tasks whose bodies have finished. */
  function Completed(s: State): set<TaskId>
  {
    set id | 0 <= id < |s.admitted| && id !in s.active
  }

  /** A freshly constructed scheduler.  The limit is stored as given. */
  function Init(concurrency: int): (s: State)
    ensures Inv(s) && WorkConserving(s)
    ensures s.concurrency == concurrency
    ensures s.queue == [] && s.running == 0 && s.outcomes == []
  {
    State(concurrency, [], 0, {}, [], [])
  }

  /** What settling a promise with a task's result gives. */
  function Settle(r: TaskResult): Outcome
  {
    match r
    case Returned(v) => Resolved(v)
    case Threw(e) => Rejected(e)
  }

  /** One admission attempt: when a slot is free and work waits, start the
      oldest waiting task. */
  function Admit(s: State): (t: State)
    requires Inv(s)
    ensures Inv(t)
    ensures t.concurrency == s.concurrency && t.outcomes == s.outcomes
    ensures s.admitted <= t.admitted && |t.admitted| <= |s.admitted| + 1
  {
    if s.running >= s.concurrency || |s.queue| == 0 then s
    else
      var head := s.queue[0];
      s.(queue := s.queue[1..], running := s.running + 1,
         active := s.active + {head}, admitted := s.admitted + [head])
  }

  /** The first half of adding a task: a pending promise and a wrapper at the
      tail of the waiting queue. */
  function Push(s: State): State
  {
    s.(queue := s.queue + [|s.outcomes|], outcomes := s.outcomes + [Pending])
  }

  /** Adding a task: push it, then make one admission attempt.  The new task
      gets the next id, its promise is pending, and no earlier promise moves. */
  function AddTask(s: State): (t: State)
    requires Inv(s) && WorkConserving(s)
    ensures Inv(t) && WorkConserving(t)
    ensures t.concurrency == s.concurrency
    ensures t.outcomes == s.outcomes + [Pending]
    ensures s.admitted <= t.admitted
  {
    Admit(Push(s))
  }

  /** The first half of a task's completion: its promise is settled with its
      result, and it leaves the running tasks. */
  function Release(s: State, id: TaskId, r: TaskResult): State
    requires id < |s.outcomes|
  {
    s.(outcomes := s.outcomes[id := Settle(r)], running := s.running - 1,
       active := s.active - {id})
  }

  /** A running task's completion, whether its body returned or threw:
      settle its promise, free its slot, make one admission attempt. */
  function Finish(s: State, id: TaskId, r: TaskResult): (t: State)
    requires Inv(s) && WorkConserving(s) && id in s.active
    ensures Inv(t) && WorkConserving(t)
    ensures t.concurrency == s.concurrency
    ensures id !in t.active && id in Completed(t)
    ensures t.outcomes == s.outcomes[id := Settle(r)]
    ensures s.admitted <= t.admitted
  {
    Admit(Release(s, id, r))
  }

  /** An event can happen when it is a submission, or the completion of a
      task that is running. */
  predicate Enabled(s: State, e: Event)
  {
    e.Submitted? || e.id in s.active
  }

  function Step(s: State, e: Event): (t: State)
    requires Inv(s) && WorkConserving(s) && Enabled(s, e)
    ensures Inv(t) && WorkConserving(t)
  {
    match e
    case Submitted => AddTask(s)
    case Finished(id, r) => Finish(s, id, r)
  }

  /** `t` is a later state of `s`: the limit is the same, no promise has
      disappeared, a settled promise keeps its value, and the starting order
      so far is kept. */
  predicate Later(s: State, t: State)
  {
    && t.concurrency == s.concurrency
    && |s.outcomes| <= |t.outcomes|
    && (forall id :: 0 <= id < |s.outcomes| && !s.outcomes[id].Pending? ==>
          t.outcomes[id] == s.outcomes[id])
    && s.admitted <= t.admitted
  }

  /** The state after a sequence of events, or None when some event in it
      cannot happen (the completion of a task that is not running). */
  function Run(s: State, es: seq<Event>): (r: Option<State>)
    requires Inv(s) && WorkConserving(s)
    ensures r.Some? ==> Inv(r.value) && WorkConserving(r.value) && Later(s, r.value)
    decreases |es|
  {
    if es == [] then Some(s)
    else if !Enabled(s, es[0]) then None
    else Run(Step(s, es[0]), es[1..])
  }

  /** Adding `n` tasks in one synchronous burst, as a caller mapping `add`
      over an array does; for tasks that are async functions, none of them can
      complete before the burst ends. */
  function AddMany(s: State, n: nat): (t: State)
    requires Inv(s) && WorkConserving(s)
    ensures Inv(t) && WorkConserving(t)
    ensures |t.outcomes| == |s.outcomes| + n
    decreases n
  {
    if n == 0 then s else AddMany(AddTask(s), n - 1)
  }

  // ---------------------------------------------------------------------
  // Admission

  /** The admission gate: an attempt changes nothing exactly when the limit
      is reached or nothing waits. */
  lemma AdmitGate(s: State)
    requires Inv(s)
    ensures Admit(s) == s <==> (s.running >= s.concurrency || s.queue == [])
  {
  }

  /** An admission takes exactly the head of the queue, the oldest waiting
      task, keeps the rest in order and raises the running count by one. */
  lemma AdmitTakesOldest(s: State)
    requires Inv(s) && s.running < s.concurrency && s.queue != []
    ensures Admit(s).queue == s.queue[1..]
    ensures Admit(s).running == s.running + 1
    ensures Admit(s).admitted == s.admitted + [s.queue[0]]
    ensures Admit(s).active == s.active + {s.queue[0]}
    ensures forall id :: id in Admit(s).queue ==> s.queue[0] < id
  {
  }

  // ---------------------------------------------------------------------
  // Submission

  /** `add` appends at the tail before attempting admission: either the new
      task waits behind every earlier one, or nothing waited and it starts at
      once. */
  lemma AddAppendsAtTail(s: State)
    requires Inv(s) && WorkConserving(s)
    ensures var t := AddTask(s); var n := |s.outcomes|;
      || (t.queue == s.queue + [n] && t.running == s.running && t.admitted == s.admitted)
      || (s.queue == [] && t.queue == [] && t.running == s.running + 1
          && t.admitted == s.admitted + [n] && t.active == s.active + {n})
  {
  }

  /** One addition takes a free slot when there is one, and otherwise
      lengthens the queue by one. */
  lemma AddTakesFreeSlot(s: State)
    requires Inv(s) && WorkConserving(s)
    ensures var t := AddTask(s);
      var free := Capacity(s.concurrency) - s.running;
      && (free > 0 ==> t.running == s.running + 1 && |t.queue| == |s.queue|)
      && (free <= 0 ==> t.running == s.running && |t.queue| == |s.queue| + 1)
  {
  }

  /** A burst of `n` additions fills the free slots and queues the rest: with
      limit `c` and `c + k` tasks added to an idle scheduler, `c` run and `k`
      wait. */
  lemma {:induction false} AddManyFillsFreeSlots(s: State, n: nat)
    requires Inv(s) && WorkConserving(s)
    ensures var t := AddMany(s, n);
      var free := Capacity(s.concurrency) - s.running;
      && t.running == s.running + Min(n, free)
      && |t.queue| == |s.queue| + n - Min(n, free)
    decreases n
  {
    if n > 0 {
      var t := AddTask(s);
      AddTakesFreeSlot(s);
      AddManyFillsFreeSlots(t, n - 1);
      assert AddMany(s, n) == AddMany(t, n - 1);
      var free := Capacity(s.concurrency) - s.running;
      if free > 0 {
        assert Min(n, free) == 1 + Min(n - 1, free - 1);
      } else {
        assert Capacity(t.concurrency) - t.running == 0;
      }
    }
  }

  // ---------------------------------------------------------------------
  // Completion

  /** A completion frees one slot and immediately hands it to the oldest
      waiting task, if any; otherwise the running count drops by one. */
  lemma FinishFreesOneSlot(s: State, id: TaskId, r: TaskResult)
    requires Inv(s) && WorkConserving(s) && id in s.active
    ensures var t := Finish(s, id, r);
      && (s.queue == [] ==>
            t.queue == [] && t.running == s.running - 1
            && t.active == s.active - {id} && t.admitted == s.admitted)
      && (s.queue != [] ==>
            t.queue == s.queue[1..] && t.running == s.running
            && t.active == s.active - {id} + {s.queue[0]}
            && t.admitted == s.admitted + [s.queue[0]])
  {
  }

  /** A promise settles exactly once: it is pending while its task runs,
      completion resolves it with the returned value or rejects it with the
      thrown error, and afterwards the task is no longer running, so no
      second completion of it can happen. */
  lemma SettleOnce(s: State, id: TaskId, r: TaskResult)
    requires Inv(s) && WorkConserving(s) && id in s.active
    ensures s.outcomes[id] == Pending
    ensures var t := Finish(s, id, r);
      && (r.Returned? ==> t.outcomes[id] == Resolved(r.value))
      && (r.Threw? ==> t.outcomes[id] == Rejected(r.error))
      && forall r' :: !Enabled(t, Finished(id, r'))
  {
  }

  /** A task that throws leaves the scheduler in the same state as one that
      returns: the only difference is its own promise. */
  lemma FailureIsIsolated(s: State, id: TaskId, v: int, e: string)
    requires Inv(s) && WorkConserving(s) && id in s.active
    ensures var ok := Finish(s, id, Returned(v)); var bad := Finish(s, id, Threw(e));
      && bad.queue == ok.queue && bad.running == ok.running
      && bad.active == ok.active && bad.admitted == ok.admitted
      && (forall j :: 0 <= j < |ok.outcomes| && j != id ==> bad.outcomes[j] == ok.outcomes[j])
  {
  }

  // ---------------------------------------------------------------------
  // Whole traces

  /** Every submitted task is in exactly one place: waiting, running or
      completed; and its promise is settled exactly when it has completed. */
  lemma ExactlyOnePlace(s: State, id: TaskId)
    requires Inv(s) && id < |s.outcomes|
    ensures id in s.queue || id in s.active || id in Completed(s)
    ensures id in s.queue ==> id !in s.active && id !in Completed(s)
    ensures id in s.active ==> id !in Completed(s)
    ensures id in Completed(s) <==> !s.outcomes[id].Pending?
  {
    if |s.admitted| <= id {
      assert s.queue[id - |s.admitted|] == id;
    }
  }

  /** Tasks start in submission order: the tasks started so far are exactly
      the earliest submitted ones, so a task submitted before another starts
      before it. */
  lemma StartsInSubmissionOrder(c: int, es: seq<Event>, a: TaskId, b: TaskId)
    requires Run(Init(c), es).Some?
    ensures var t := Run(Init(c), es).value;
      forall i :: 0 <= i < |t.admitted| ==> t.admitted[i] == i
    ensures var t := Run(Init(c), es).value;
      a < b && b in t.admitted ==> a in t.admitted && t.admitted[a] == a && t.admitted[b] == b
  {
    var t := Run(Init(c), es).value;
    if a < b && b in t.admitted {
      var j :| 0 <= j < |t.admitted| && t.admitted[j] == b;
      assert t.admitted[a] == a;
    }
  }

  /** With a limit of zero or below nothing ever starts: whatever happens,
      every submitted task stays queued and every promise stays pending. */
  lemma {:induction false} NothingStartsWithoutCapacity(s: State, es: seq<Event>)
    requires Inv(s) && WorkConserving(s) && s.concurrency <= 0 && s.admitted == []
    requires Run(s, es).Some?
    ensures var t := Run(s, es).value;
      && t.admitted == [] && t.running == 0
      && |t.queue| == |t.outcomes|
      && forall id :: 0 <= id < |t.outcomes| ==> t.outcomes[id] == Pending
    decreases |es|
  {
    if es != [] {
      assert es[0].Submitted?;
      NothingStartsWithoutCapacity(AddTask(s), es[1..]);
    }
  }

  /** Running `e` and then `rest` is running `rest` from the state after `e`. */
  lemma RunCons(s: State, e: Event, rest: seq<Event>)
    requires Inv(s) && WorkConserving(s) && Enabled(s, e)
    ensures Run(s, [e] + rest) == Run(Step(s, e), rest)
  {
  }

  /** Nothing waits, nothing runs, and every promise is settled. */
  predicate Drained(s: State)
  {
    && s.queue == [] && s.running == 0
    && forall id :: 0 <= id < |s.outcomes| ==> !s.outcomes[id].Pending?
  }

  /** With a positive limit, a state with nothing running has nothing
      waiting, and then every promise is settled. */
  lemma IdleIsSettled(s: State)
    requires Inv(s) && WorkConserving(s) && s.concurrency > 0 && s.active == {}
    ensures Drained(s)
  {
  }

  /** A completion brings the scheduler strictly closer to idle. */
  lemma FinishProgresses(s: State, id: TaskId, r: TaskResult)
    requires Inv(s) && WorkConserving(s) && id in s.active
    ensures var t := Finish(s, id, r);
      2 * |t.queue| + t.running < 2 * |s.queue| + s.running
  {
  }

  /** No task is lost: from any reachable state, completing the running
      tasks one by one, whatever each returns or throws, is a possible
      sequence of events, and when the limit is positive it leaves nothing
      waiting, nothing running and every promise settled. */
  ghost function DrainEvents(s: State, resultOf: TaskId -> TaskResult): (es: seq<Event>)
    requires Inv(s) && WorkConserving(s)
    ensures forall i :: 0 <= i < |es| ==> es[i].Finished?
    ensures Run(s, es).Some?
    ensures s.concurrency > 0 ==> Drained(Run(s, es).value)
    decreases 2 * |s.queue| + s.running
  {
    if s.active == {} then
      if s.concurrency > 0 then IdleIsSettled(s); [] else []
    else
      var id :| id in s.active;
      var e := Finished(id, resultOf(id));
      var t := Finish(s, id, resultOf(id));
      FinishProgresses(s, id, resultOf(id));
      var rest := DrainEvents(t, resultOf);
      RunCons(s, e, rest);
      [e] + rest
  }
}
