/**
 The worker pool of core/tool_dispatcher.cpp as a state machine over its atomic sections: any number
 of callers run Dispatch at once, any number of workers run WorkerLoop, and the destructor may raise
 the stop flag once every batch is fully enqueued. What an executor returns is an arbitrary outcome.
 */
module ToolDispatcher {
  import opened Basics
  import opened Utf8

  datatype Call = Call(id: string, name: string, args: string)

  /** The status-or-text an execution ends with. */
  datatype Outcome = Done(output: Text) | Cancelled | Failed(message: Text)

  datatype ToolResult = ToolResult(id: string, name: string, output: Outcome)

  /** The closure queued for call `index` of batch `batch`. */
  datatype Task = Task(batch: nat, index: nat)

  /** What a worker is doing between its atomic sections. */
  datatype Worker =
    | Waiting
    | Taken(task: Task)                       // popped, cancellation not looked at yet
    | Cleared(task: Task)                     // found not cancelled, executor not entered yet
    | Running(task: Task)                     // inside the executor
    | Finished(task: Task, outcome: Outcome)  // result built, not stored yet
    | Exited

  /** One call of Dispatch with its shared state; `token` is the cancellation object, if any. */
  datatype Batch = Batch(
    calls: seq<Call>,
    token: Option<nat>,
    enqueued: nat,
    remaining: int,
    slots: seq<Option<ToolResult>>,
    returned: Option<seq<ToolResult>>)

  datatype State = State(
    tasks: seq<Task>,
    stop: bool,
    workers: seq<Worker>,
    batches: seq<Batch>,
    cancelled: set<nat>,
    // history, read only by the properties
    enqueueOrder: seq<Task>,
    takeOrder: seq<Task>,
    started: multiset<Task>,        // one entry each time the executor is entered
    produced: map<Task, Outcome>)   // what the executor returned

  datatype Action =
    | Begin(calls: seq<Call>, token: Option<nat>)  // Dispatch is called
    | Enqueue(batch: nat)                          // it queues its next task
    | Take(worker: nat)                            // a worker pops the front task
    | Check(worker: nat)                           // its closure looks at the cancellation object
    | Enter(worker: nat)                           // its closure calls the executor, no lock held
    | Finish(worker: nat, outcome: Outcome)        // the executor returns
    | Publish(worker: nat)                         // its closure stores the result
    | Return(batch: nat)                           // Dispatch sees remaining == 0
    | Stop                                         // the destructor raises the flag
    | Exit(worker: nat)                            // a worker leaves its loop
    | Cancel(request: nat)                         // somebody cancels

  predicate HasWorker(s: State, w: nat) {
    w < |s.workers|
  }

  predicate FullyEnqueued(s: State) {
    forall b :: 0 <= b < |s.batches| ==> s.batches[b].enqueued == |s.batches[b].calls|
  }

  predicate IsCancelled(s: State, b: Batch) {
    b.token.Some? && b.token.value in s.cancelled
  }

  predicate TaskExists(s: State, t: Task) {
    t.batch < |s.batches| && t.index < |s.batches[t.batch].calls|
  }

  predicate Enabled(s: State, a: Action) {
    match a
    case Begin(_, _) => !s.stop
    case Enqueue(b) => b < |s.batches| && s.batches[b].enqueued < |s.batches[b].calls|
    case Take(w) => HasWorker(s, w) && s.workers[w].Waiting? && s.tasks != []
    case Check(w) => HasWorker(s, w) && s.workers[w].Taken? && TaskExists(s, s.workers[w].task)
    case Enter(w) => HasWorker(s, w) && s.workers[w].Cleared?
    case Finish(w, _) => HasWorker(s, w) && s.workers[w].Running?
    case Publish(w) =>
      HasWorker(s, w) && s.workers[w].Finished? && TaskExists(s, s.workers[w].task)
      && |s.batches[s.workers[w].task.batch].slots| == |s.batches[s.workers[w].task.batch].calls|
    case Return(b) =>
      b < |s.batches| && s.batches[b].returned.None?
      && s.batches[b].enqueued == |s.batches[b].calls| && s.batches[b].remaining == 0
    case Stop => FullyEnqueued(s)
    case Exit(w) => HasWorker(s, w) && s.workers[w].Waiting? && s.stop && s.tasks == []
    case Cancel(_) => true
  }

  /** An empty batch returns at once; any other gets a counter and one empty slot per call. */
  function NewBatch(calls: seq<Call>, token: Option<nat>): Batch {
    Batch(calls, token, 0, |calls|, seq(|calls|, _ => None), if calls == [] then Some([]) else None)
  }

  function Stored(slots: seq<Option<ToolResult>>): seq<ToolResult> {
    if slots == [] then []
    else (if slots[0].Some? then [slots[0].value] else []) + Stored(slots[1..])
  }

  function Apply(s: State, a: Action): State
    requires Enabled(s, a)
  {
    match a
    case Begin(calls, token) =>
      s.(batches := s.batches + [NewBatch(calls, token)])
    case Enqueue(b) =>
      var batch := s.batches[b];
      var task := Task(b, batch.enqueued);
      s.(tasks := s.tasks + [task],
         batches := s.batches[b := batch.(enqueued := batch.enqueued + 1)],
         enqueueOrder := s.enqueueOrder + [task])
    case Take(w) =>
      s.(tasks := s.tasks[1..],
         workers := s.workers[w := Taken(s.tasks[0])],
         takeOrder := s.takeOrder + [s.tasks[0]])
    case Check(w) =>
      var task := s.workers[w].task;
      if IsCancelled(s, s.batches[task.batch]) then
        s.(workers := s.workers[w := Finished(task, Cancelled)])
      else
        s.(workers := s.workers[w := Cleared(task)])
    case Enter(w) =>
      var task := s.workers[w].task;
      s.(workers := s.workers[w := Running(task)], started := s.started + multiset{task})
    case Finish(w, outcome) =>
      var task := s.workers[w].task;
      s.(workers := s.workers[w := Finished(task, outcome)], produced := s.produced[task := outcome])
    case Publish(w) =>
      var task := s.workers[w].task;
      var batch := s.batches[task.batch];
      var call := batch.calls[task.index];
      var result := ToolResult(call.id, call.name, s.workers[w].outcome);
      s.(workers := s.workers[w := Waiting],
         batches := s.batches[task.batch :=
           batch.(slots := batch.slots[task.index := Some(result)], remaining := batch.remaining - 1)])
    case Return(b) =>
      s.(batches := s.batches[b := s.batches[b].(returned := Some(Stored(s.batches[b].slots)))])
    case Stop =>
      s.(stop := true)
    case Exit(w) =>
      s.(workers := s.workers[w := Exited])
    case Cancel(request) =>
      s.(cancelled := s.cancelled + {request})
  }

  function Initial(threads: nat): State {
    State([], false, seq(threads, _ => Waiting), [], {}, [], [], multiset{}, map[])
  }

  ghost predicate Feasible(s: State, run: seq<Action>)
    decreases |run|
  {
    run == [] || (Enabled(s, run[0]) && Feasible(Apply(s, run[0]), run[1..]))
  }

  ghost function After(s: State, run: seq<Action>): State
    requires Feasible(s, run)
    decreases |run|
  {
    if run == [] then s else After(Apply(s, run[0]), run[1..])
  }
}
