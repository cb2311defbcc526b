/** The `Queue` object itself: a limit, a waiting list of task wrappers and a
    running counter that `add`, `_next` and each task's completion update in
    place.  Each method is proved to perform the matching transition of
    module Scheduling, so everything proved there holds of the object. */
module Server {
  import opened Scheduling

  class Queue {
    var concurrency: int
    var queue: seq<TaskId>
    var running: int
    /** The state of the promises handed out by `Add`, indexed by task id.
        The JavaScript `Queue` object holds no promises; they belong to the
        callers of `add`, and this field only records them for the proofs. */
    var promises: seq<Outcome>
    /** The ids of the tasks now running. */
    ghost var active: set<TaskId>
    /** Every id started so far, in starting order. */
    ghost var admitted: seq<TaskId>

    /** The object's state as a value of module Scheduling. */
    ghost function Model(): State
      reads this
    {
      State(concurrency, queue, running, active, admitted, promises)
    }

    /** The invariant every public operation keeps: the protocol's invariant,
        and no idle slot while work waits. */
    ghost predicate Valid()
      reads this
    {
      Inv(Model()) && WorkConserving(Model())
    }

    /** The limit is stored as given; no value is refused. */
    constructor(concurrency: int)
      ensures Valid()
      ensures Model() == Init(concurrency)
    {
      this.concurrency := concurrency;
      queue := [];
      running := 0;
      promises := [];
      active := {};
      admitted := [];
    }

    /** Adds a task: a pending promise and a wrapper at the tail of the
        queue, then one admission attempt.  Returns the id of the task, which
        names its promise. */
    method Add() returns (id: TaskId)
      requires Valid()
      modifies this
      ensures Valid()
      ensures id == |old(promises)| && id < |promises| && promises[id] == Pending
      ensures Model() == AddTask(old(Model()))
    {
      id := |promises|;
      promises := promises + [Pending];
      queue := queue + [id];
      Next();
    }

    /** One admission attempt: unless the limit is reached or nothing
        waits, take the head of the queue and count it as running.  Starting
        the task's body is left to the caller of this model; its end is the
        event `Complete`. */
    method Next()
      requires Inv(Model())
      modifies this
      ensures Inv(Model())
      ensures Model() == Admit(old(Model()))
    {
      if running >= concurrency || |queue| == 0 {
        return;
      }
      var task := queue[0];
      queue := queue[1..];
      running := running + 1;
      active := active + {task};
      admitted := admitted + [task];
    }

    /** The end of a running task's wrapper: resolve its promise with the
        returned value or reject it with the thrown error, then, in either
        case, free its slot and make one admission attempt. */
    method Complete(id: TaskId, r: TaskResult)
      requires Valid() && id in active
      modifies this
      ensures Valid()
      ensures id !in active
      ensures promises == old(promises)[id := Settle(r)]
      ensures Model() == Finish(old(Model()), id, r)
    {
      match r {
        case Returned(v) => promises := promises[id := Resolved(v)];
        case Threw(e) => promises := promises[id := Rejected(e)];
      }
      running := running - 1;
      active := active - {id};
      Next();
    }
  }

  /** A client: with a limit of 2, three additions start two tasks and queue
      the third; when the first ends with an error, the third starts anyway
      and the first's promise is rejected. */
  method ScenarioLimitTwo()
  {
    var q := new Queue(2);
    var a := q.Add();
    var b := q.Add();
    var c := q.Add();
    assert a == 0 && b == 1 && c == 2;
    assert q.running == 2 && q.queue == [2];
    q.Complete(a, Threw("boom"));
    assert q.running == 2 && q.queue == [] && c in q.active;
    assert q.promises[a] == Rejected("boom") && q.promises[c] == Pending;
  }
}
