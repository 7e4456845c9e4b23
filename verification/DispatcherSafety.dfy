/** What every interleaving of the worker pool keeps, and what a returned batch holds. */
module DispatcherSafety {
  import opened Basics
  import opened ToolDispatcher

  // ----- Counting places -----

  datatype Stage = TakenStage | ClearedStage | RunningStage | FinishedStage

  function AtStage(w: Worker, t: Task, k: Stage): nat {
    match k
    case TakenStage => if w.Taken? && w.task == t then 1 else 0
    case ClearedStage => if w.Cleared? && w.task == t then 1 else 0
    case RunningStage => if w.Running? && w.task == t then 1 else 0
    case FinishedStage => if w.Finished? && w.task == t then 1 else 0
  }

  /** How many workers hold `t` at stage `k`. */
  function Held(ws: seq<Worker>, t: Task, k: Stage): nat {
    if ws == [] then 0 else AtStage(ws[0], t, k) + Held(ws[1..], t, k)
  }

  lemma {:induction false} HeldUpdate(ws: seq<Worker>, i: nat, w: Worker, t: Task, k: Stage)
    requires i < |ws|
    ensures Held(ws[i := w], t, k) + AtStage(ws[i], t, k) == Held(ws, t, k) + AtStage(w, t, k)
  {
    if i == 0 {
      assert ws[i := w][1..] == ws[1..];
    } else {
      assert ws[i := w][1..] == ws[1..][i - 1 := w];
      HeldUpdate(ws[1..], i - 1, w, t, k);
    }
  }

  lemma {:induction false} HeldPositive(ws: seq<Worker>, i: nat, t: Task, k: Stage)
    requires i < |ws|
    ensures Held(ws, t, k) >= AtStage(ws[i], t, k)
  {
    if i > 0 {
      HeldPositive(ws[1..], i - 1, t, k);
    }
  }

  /** Slots not filled yet. */
  function Unpublished(slots: seq<Option<ToolResult>>): nat {
    if slots == [] then 0 else (if slots[0].None? then 1 else 0) + Unpublished(slots[1..])
  }

  lemma {:induction false} FillSlot(slots: seq<Option<ToolResult>>, i: nat, r: ToolResult)
    requires i < |slots| && slots[i].None?
    ensures Unpublished(slots[i := Some(r)]) == Unpublished(slots) - 1
  {
    if i == 0 {
      assert slots[i := Some(r)][1..] == slots[1..];
    } else {
      assert slots[i := Some(r)][1..] == slots[1..][i - 1 := Some(r)];
      FillSlot(slots[1..], i - 1, r);
    }
  }

  lemma {:induction false} FreshSlots(n: nat)
    ensures Unpublished(seq(n, _ => None)) == n
  {
    var slots: seq<Option<ToolResult>> := seq(n, _ => None);
    if n > 0 {
      assert slots[1..] == seq(n - 1, _ => None);
      FreshSlots(n - 1);
    }
  }

  lemma {:induction false} AllPublished(slots: seq<Option<ToolResult>>)
    requires Unpublished(slots) == 0
    ensures |Stored(slots)| == |slots|
    ensures forall i :: 0 <= i < |slots| ==> slots[i] == Some(Stored(slots)[i])
  {
    if slots != [] {
      AllPublished(slots[1..]);
      forall i | 0 <= i < |slots| ensures slots[i] == Some(Stored(slots)[i]) {
        if i > 0 {
          assert slots[i] == slots[1..][i - 1];
        }
      }
    }
  }

  function NotEnqueued(s: State, t: Task): nat {
    if TaskExists(s, t) && s.batches[t.batch].enqueued <= t.index then 1 else 0
  }

  function Queued(s: State, t: Task): nat {
    multiset(s.tasks)[t]
  }

  function Published(s: State, t: Task): nat {
    if TaskExists(s, t) && t.index < |s.batches[t.batch].slots|
       && s.batches[t.batch].slots[t.index].Some? then 1 else 0
  }

  /** How many workers hold `t` at whatever stage. */
  function HeldAnyhow(ws: seq<Worker>, t: Task): nat {
    Held(ws, t, TakenStage) + Held(ws, t, ClearedStage) + Held(ws, t, RunningStage) + Held(ws, t, FinishedStage)
  }

  /** In how many places one call is at this moment. */
  function Places(s: State, t: Task): nat {
    NotEnqueued(s, t) + Queued(s, t) + HeldAnyhow(s.workers, t) + Published(s, t)
  }

  // ----- The invariant -----

  ghost predicate EachTaskInOnePlace(s: State) {
    forall t: Task :: Places(s, t) == if TaskExists(s, t) then 1 else 0
  }

  ghost predicate BatchOk(b: Batch) {
    && |b.slots| == |b.calls|
    && b.enqueued <= |b.calls|
    && b.remaining == Unpublished(b.slots)
    && (b.returned.Some? ==> b.remaining == 0 && b.enqueued == |b.calls| && b.returned.value == Stored(b.slots))
  }

  ghost predicate BatchesOk(s: State) {
    forall b :: 0 <= b < |s.batches| ==> BatchOk(s.batches[b])
  }

  /** The executor has been entered once for a task it is running or has answered, else never. */
  ghost predicate ExecutionOk(s: State, t: Task) {
    && s.started[t] == Held(s.workers, t, RunningStage) + (if t in s.produced then 1 else 0)
    && (t in s.produced ==> Held(s.workers, t, FinishedStage) + Published(s, t) == 1)
  }

  ghost predicate ExecutionsCounted(s: State) {
    forall t: Task :: ExecutionOk(s, t)
  }

  /** An outcome is what the executor returned for that very task, or a cancellation without running it. */
  ghost predicate OutcomeOk(s: State, t: Task, o: Outcome) {
    && TaskExists(s, t)
    && (t in s.produced ==> o == s.produced[t])
    && (t !in s.produced ==> o == Cancelled && IsCancelled(s, s.batches[t.batch]))
  }

  ghost predicate SlotOk(s: State, b: nat, i: nat)
    requires b < |s.batches| && i < |s.batches[b].slots|
  {
    s.batches[b].slots[i].Some? ==>
      var r := s.batches[b].slots[i].value;
      && OutcomeOk(s, Task(b, i), r.output)
      && r.id == s.batches[b].calls[i].id
      && r.name == s.batches[b].calls[i].name
  }

  ghost predicate OutcomesOk(s: State) {
    && (forall w :: 0 <= w < |s.workers| && s.workers[w].Finished? ==>
          OutcomeOk(s, s.workers[w].task, s.workers[w].outcome))
    && (forall b, i :: 0 <= b < |s.batches| && 0 <= i < |s.batches[b].slots| ==> SlotOk(s, b, i))
  }

  /** First in, first out. */
  ghost predicate FifoOk(s: State) {
    s.takeOrder + s.tasks == s.enqueueOrder
  }

  ghost predicate StopOk(s: State) {
    && (s.stop ==> FullyEnqueued(s))
    && (forall w :: 0 <= w < |s.workers| && s.workers[w].Exited? ==> s.stop && s.tasks == [])
  }

  ghost predicate Inv(s: State) {
    EachTaskInOnePlace(s) && BatchesOk(s) && ExecutionsCounted(s) && OutcomesOk(s) && FifoOk(s) && StopOk(s)
  }

  lemma {:induction false} NoneHeld(n: nat, t: Task, k: Stage)
    ensures Held(seq(n, _ => Waiting), t, k) == 0
  {
    if n > 0 {
      assert seq(n, _ => Waiting)[1..] == seq(n - 1, _ => Waiting);
      NoneHeld(n - 1, t, k);
    }
  }

  lemma InitialInv(threads: nat)
    ensures Inv(Initial(threads))
  {
    var s := Initial(threads);
    forall t: Task, k: Stage ensures Held(s.workers, t, k) == 0 {
      NoneHeld(threads, t, k);
    }
    assert EachTaskInOnePlace(s);
  }

  /** A held or queued task exists and has an empty slot. */
  lemma HeldTaskExists(s: State, w: nat)
    requires EachTaskInOnePlace(s) && w < |s.workers|
    requires s.workers[w].Taken? || s.workers[w].Cleared? || s.workers[w].Running? || s.workers[w].Finished?
    ensures TaskExists(s, s.workers[w].task) && Published(s, s.workers[w].task) == 0
  {
    var t := s.workers[w].task;
    HeldPositive(s.workers, w, t, TakenStage);
    HeldPositive(s.workers, w, t, ClearedStage);
    HeldPositive(s.workers, w, t, RunningStage);
    HeldPositive(s.workers, w, t, FinishedStage);
    assert Places(s, t) >= 1;
  }

  lemma WorkerMoves(ws: seq<Worker>, w: nat, x: Worker, t: Task)
    requires w < |ws|
    ensures forall k: Stage :: Held(ws[w := x], t, k) + AtStage(ws[w], t, k) == Held(ws, t, k) + AtStage(x, t, k)
  {
    forall k: Stage ensures Held(ws[w := x], t, k) + AtStage(ws[w], t, k) == Held(ws, t, k) + AtStage(x, t, k) {
      HeldUpdate(ws, w, x, t, k);
    }
  }

  function Holding(w: Worker, t: Task): nat {
    if (w.Taken? || w.Cleared? || w.Running? || w.Finished?) && w.task == t then 1 else 0
  }

  lemma HolderMoves(ws: seq<Worker>, w: nat, x: Worker, t: Task)
    requires w < |ws|
    ensures HeldAnyhow(ws[w := x], t) + Holding(ws[w], t) == HeldAnyhow(ws, t) + Holding(x, t)
  {
    HeldUpdate(ws, w, x, t, TakenStage);
    HeldUpdate(ws, w, x, t, ClearedStage);
    HeldUpdate(ws, w, x, t, RunningStage);
    HeldUpdate(ws, w, x, t, FinishedStage);
  }

  // ----- Each part is kept by every step -----

  lemma TakeKeepsPlaces(s: State, w: nat, t: Task)
    requires Enabled(s, Take(w))
    ensures Places(Apply(s, Take(w)), t) == Places(s, t)
  {
    var n := Apply(s, Take(w));
    HolderMoves(s.workers, w, n.workers[w], t);
    assert s.tasks == [s.tasks[0]] + n.tasks;
  }

  /** The section of a worker that leaves queue and batches alone moves its task to the next place. */
  lemma WorkerStepKeepsPlaces(s: State, a: Action, t: Task)
    requires Enabled(s, a) && (a.Check? || a.Enter? || a.Finish? || a.Exit?)
    ensures Places(Apply(s, a), t) == Places(s, t)
  {
    var n := Apply(s, a);
    assert n.tasks == s.tasks && n.batches == s.batches;
    HolderMoves(s.workers, a.worker, n.workers[a.worker], t);
  }

  lemma PublishKeepsPlaces(s: State, w: nat, t: Task)
    requires Enabled(s, Publish(w)) && EachTaskInOnePlace(s)
    ensures Places(Apply(s, Publish(w)), t) == Places(s, t)
  {
    var n := Apply(s, Publish(w));
    HolderMoves(s.workers, w, n.workers[w], t);
    HeldTaskExists(s, w);
  }

  lemma EnqueueKeepsPlaces(s: State, b: nat, t: Task)
    requires Enabled(s, Enqueue(b))
    ensures Places(Apply(s, Enqueue(b)), t) == Places(s, t)
  {
  }

  /** A new batch puts each of its calls in one place, "not enqueued yet", and moves no other task. */
  lemma BeginAddsPlaces(s: State, a: Action, t: Task)
    requires Enabled(s, a) && a.Begin? && BatchesOk(s)
    ensures Places(Apply(s, a), t)
            == Places(s, t) + if t.batch == |s.batches| && t.index < |a.calls| then 1 else 0
  {
  }

  lemma StepKeepsPlaces(s: State, a: Action)
    requires EachTaskInOnePlace(s) && BatchesOk(s) && Enabled(s, a)
    ensures EachTaskInOnePlace(Apply(s, a))
  {
    var n := Apply(s, a);
    forall t: Task ensures Places(n, t) == if TaskExists(n, t) then 1 else 0 {
      assert Places(s, t) == if TaskExists(s, t) then 1 else 0;
      if a.Begin? {
        BeginAddsPlaces(s, a, t);
      } else if a.Enqueue? {
        EnqueueKeepsPlaces(s, a.batch, t);
      } else if a.Publish? {
        PublishKeepsPlaces(s, a.worker, t);
      } else if a.Take? {
        TakeKeepsPlaces(s, a.worker, t);
      } else if a.Check? || a.Enter? || a.Finish? || a.Exit? {
        WorkerStepKeepsPlaces(s, a, t);
      }
    }
  }

  lemma StepKeepsBatches(s: State, a: Action)
    requires EachTaskInOnePlace(s) && BatchesOk(s) && Enabled(s, a)
    ensures BatchesOk(Apply(s, a))
  {
    match a
    case Begin(calls, token) => FreshSlots(|calls|);
    case Publish(w) =>
      HeldTaskExists(s, w);
      var t, batch := s.workers[w].task, s.batches[s.workers[w].task.batch];
      FillSlot(batch.slots, t.index, ToolResult(batch.calls[t.index].id, batch.calls[t.index].name, s.workers[w].outcome));
      if batch.returned.Some? {
        AllPublished(batch.slots);
      }
    case _ =>
  }

  /** These sections enter the executor once at most and give a result only to a task that was just taken. */
  lemma StageMoves(s: State, a: Action, t: Task)
    requires Enabled(s, a) && (a.Take? || a.Check? || a.Enter? || a.Exit?)
    ensures Held(Apply(s, a).workers, t, RunningStage) + s.started[t] == Held(s.workers, t, RunningStage) + Apply(s, a).started[t]
    ensures Held(s.workers, t, TakenStage) == 0 ==>
              Held(Apply(s, a).workers, t, FinishedStage) == Held(s.workers, t, FinishedStage)
  {
    var n := Apply(s, a);
    HeldUpdate(s.workers, a.worker, n.workers[a.worker], t, RunningStage);
    HeldUpdate(s.workers, a.worker, n.workers[a.worker], t, FinishedStage);
    HeldPositive(s.workers, a.worker, t, TakenStage);
  }

  lemma StageKeepsExecution(s: State, a: Action, t: Task)
    requires Places(s, t) <= 1 && Enabled(s, a) && ExecutionOk(s, t)
    requires a.Take? || a.Check? || a.Enter? || a.Exit?
    ensures ExecutionOk(Apply(s, a), t)
  {
    assert Published(Apply(s, a), t) == Published(s, t);
    StageMoves(s, a, t);
  }

  lemma FinishKeepsExecution(s: State, a: Action, t: Task)
    requires Places(s, t) <= 1 && Enabled(s, a) && ExecutionOk(s, t) && a.Finish?
    ensures ExecutionOk(Apply(s, a), t)
  {
    var n := Apply(s, a);
    assert Published(n, t) == Published(s, t);
    HeldUpdate(s.workers, a.worker, n.workers[a.worker], t, RunningStage);
    HeldUpdate(s.workers, a.worker, n.workers[a.worker], t, FinishedStage);
    HeldPositive(s.workers, a.worker, t, RunningStage);
  }

  lemma PublishKeepsExecution(s: State, w: nat, t: Task)
    requires EachTaskInOnePlace(s) && Enabled(s, Publish(w)) && ExecutionOk(s, t)
    ensures ExecutionOk(Apply(s, Publish(w)), t)
  {
    var n := Apply(s, Publish(w));
    WorkerMoves(s.workers, w, n.workers[w], t);
    HeldTaskExists(s, w);
  }

  lemma StepKeepsExecution(s: State, a: Action, t: Task)
    requires EachTaskInOnePlace(s) && BatchesOk(s) && Enabled(s, a) && ExecutionOk(s, t)
    ensures ExecutionOk(Apply(s, a), t)
  {
    assert Places(s, t) <= 1;
    if a.Take? || a.Check? || a.Enter? || a.Exit? {
      StageKeepsExecution(s, a, t);
    } else if a.Finish? {
      FinishKeepsExecution(s, a, t);
    } else if a.Publish? {
      PublishKeepsExecution(s, a.worker, t);
    } else {
      assert Apply(s, a).workers == s.workers;
      assert Published(Apply(s, a), t) == Published(s, t);
    }
  }

  /** A justified outcome stays justified: the executor is never entered again for that task. */
  lemma StepKeepsOutcome(s: State, a: Action, t: Task, o: Outcome)
    requires EachTaskInOnePlace(s) && Enabled(s, a) && OutcomeOk(s, t, o)
    requires Held(s.workers, t, FinishedStage) + Published(s, t) >= 1
    ensures OutcomeOk(Apply(s, a), t, o)
  {
    if a.Finish? {
      HeldPositive(s.workers, a.worker, s.workers[a.worker].task, RunningStage);
      assert Places(s, t) <= 1;
    }
  }

  lemma StepKeepsWorkerOutcome(s: State, a: Action, w: nat)
    requires EachTaskInOnePlace(s) && ExecutionsCounted(s) && Enabled(s, a)
    requires w < |s.workers| && (s.workers[w].Finished? ==> OutcomeOk(s, s.workers[w].task, s.workers[w].outcome))
    ensures Apply(s, a).workers[w].Finished? ==>
              OutcomeOk(Apply(s, a), Apply(s, a).workers[w].task, Apply(s, a).workers[w].outcome)
  {
    var n := Apply(s, a);
    if n.workers[w].Finished? {
      if n.workers[w] == s.workers[w] {
        HeldPositive(s.workers, w, s.workers[w].task, FinishedStage);
        StepKeepsOutcome(s, a, s.workers[w].task, s.workers[w].outcome);
      } else {
        HeldTaskExists(s, w);
        HeldPositive(s.workers, w, s.workers[w].task, TakenStage);
        assert Places(s, s.workers[w].task) == 1;
        assert ExecutionOk(s, s.workers[w].task);
      }
    }
  }

  lemma StepKeepsSlot(s: State, a: Action, b: nat, i: nat)
    requires EachTaskInOnePlace(s) && Enabled(s, a)
    requires a.Publish? ==> s.workers[a.worker].Finished? && OutcomeOk(s, s.workers[a.worker].task, s.workers[a.worker].outcome)
    requires b < |s.batches| && i < |s.batches[b].slots| && |s.batches[b].slots| == |s.batches[b].calls|
    requires SlotOk(s, b, i)
    ensures SlotOk(Apply(s, a), b, i)
  {
    if s.batches[b].slots[i].Some? {
      StepKeepsOutcome(s, a, Task(b, i), s.batches[b].slots[i].value.output);
      if a.Publish? {
        HeldTaskExists(s, a.worker);
      }
    } else if a.Publish? {
      HeldPositive(s.workers, a.worker, s.workers[a.worker].task, FinishedStage);
      StepKeepsOutcome(s, a, s.workers[a.worker].task, s.workers[a.worker].outcome);
    }
  }

  lemma StepKeepsHistory(s: State, a: Action)
    requires Inv(s) && Enabled(s, a)
    ensures ExecutionsCounted(Apply(s, a)) && OutcomesOk(Apply(s, a))
  {
    var n := Apply(s, a);
    forall t: Task ensures ExecutionOk(n, t) {
      assert ExecutionOk(s, t);
      StepKeepsExecution(s, a, t);
    }
    forall w | 0 <= w < |n.workers| && n.workers[w].Finished?
      ensures OutcomeOk(n, n.workers[w].task, n.workers[w].outcome)
    {
      StepKeepsWorkerOutcome(s, a, w);
    }
    forall b, i | 0 <= b < |n.batches| && 0 <= i < |n.batches[b].slots|
      ensures SlotOk(n, b, i)
    {
      if b < |s.batches| {
        assert BatchOk(s.batches[b]);
        assert SlotOk(s, b, i);
        StepKeepsSlot(s, a, b, i);
      }
    }
  }

  lemma StepKeepsFifo(s: State, a: Action)
    requires FifoOk(s) && Enabled(s, a)
    ensures FifoOk(Apply(s, a))
  {
    var n := Apply(s, a);
    match a
    case Enqueue(b) =>
      assert n.takeOrder + n.tasks == (s.takeOrder + s.tasks) + [Task(b, s.batches[b].enqueued)];
    case Take(w) =>
      assert n.takeOrder + n.tasks == s.takeOrder + s.tasks;
    case _ =>
  }

  lemma StepKeepsStop(s: State, a: Action)
    requires StopOk(s) && Enabled(s, a)
    ensures StopOk(Apply(s, a))
  {
    var n := Apply(s, a);
    forall w | 0 <= w < |n.workers| && n.workers[w].Exited? ensures n.stop && n.tasks == [] {
      if !a.Exit? {
        assert s.workers[w].Exited?;
      }
    }
  }

  lemma StepKeepsInv(s: State, a: Action)
    requires Inv(s) && Enabled(s, a)
    ensures Inv(Apply(s, a))
  {
    StepKeepsPlaces(s, a);
    StepKeepsBatches(s, a);
    StepKeepsHistory(s, a);
    StepKeepsFifo(s, a);
    StepKeepsStop(s, a);
  }

  lemma {:induction false} RunKeepsInv(s: State, run: seq<Action>)
    requires Inv(s) && Feasible(s, run)
    ensures Inv(After(s, run))
    decreases |run|
  {
    if run != [] {
      StepKeepsInv(s, run[0]);
      RunKeepsInv(Apply(s, run[0]), run[1..]);
    }
  }

  // ----- Main results -----

  /** Every call is in exactly one place, and `remaining` counts the unpublished slots, in every reachable state. */
  lemma EveryCallIsInOnePlace(threads: nat, run: seq<Action>, b: nat, i: nat)
    requires Feasible(Initial(threads), run)
    requires var s := After(Initial(threads), run); b < |s.batches| && i < |s.batches[b].calls|
    ensures var s := After(Initial(threads), run); var t := Task(b, i);
            && Places(s, t) == 1
            && s.started[t] <= 1
            && s.batches[b].remaining == Unpublished(s.batches[b].slots)
            && (s.started[t] == 1 <==> t in s.produced || Held(s.workers, t, RunningStage) == 1)
  {
    InitialInv(threads);
    RunKeepsInv(Initial(threads), run);
    var s, t := After(Initial(threads), run), Task(b, i);
    assert Places(s, t) == 1 && ExecutionOk(s, t) && BatchOk(s.batches[b]);
  }

  /** `rs` answers `calls` one for one, in order, under the calls' own ids and names. */
  ghost predicate AnswersInOrder(rs: seq<ToolResult>, calls: seq<Call>) {
    && |rs| == |calls|
    && (forall i :: 0 <= i < |calls| ==> rs[i].id == calls[i].id && rs[i].name == calls[i].name)
  }

  /**
   What Dispatch returns, over every interleaving: slot i answers call i under its id and name; it
   holds exactly what the executor returned for that call if the executor was entered, which it was
   once, and a cancellation only if it never was and the batch's own cancellation object was used.
   */
  lemma ReturnedBatchIsRight(threads: nat, run: seq<Action>, b: nat)
    requires Feasible(Initial(threads), run)
    requires var s := After(Initial(threads), run); b < |s.batches| && s.batches[b].returned.Some?
    ensures var s := After(Initial(threads), run); var batch := s.batches[b]; var rs := batch.returned.value;
            && AnswersInOrder(rs, batch.calls)
            && forall i :: 0 <= i < |rs| ==>
                 && s.started[Task(b, i)] == (if Task(b, i) in s.produced then 1 else 0)
                 && rs[i].output == (if Task(b, i) in s.produced then s.produced[Task(b, i)] else Cancelled)
                 && (Task(b, i) !in s.produced ==> IsCancelled(s, batch))
  {
    InitialInv(threads);
    RunKeepsInv(Initial(threads), run);
    var s := After(Initial(threads), run);
    var batch := s.batches[b];
    assert BatchOk(batch);
    AllPublished(batch.slots);
    forall i | 0 <= i < |batch.calls|
      ensures SlotOk(s, b, i) && batch.slots[i] == Some(batch.returned.value[i])
      ensures s.started[Task(b, i)] == if Task(b, i) in s.produced then 1 else 0
    {
      assert SlotOk(s, b, i) && ExecutionOk(s, Task(b, i)) && Places(s, Task(b, i)) == 1;
    }
  }

  /** Workers pop tasks in the order they were queued. */
  lemma FirstInFirstOut(threads: nat, run: seq<Action>)
    requires Feasible(Initial(threads), run)
    ensures var s := After(Initial(threads), run); s.takeOrder <= s.enqueueOrder
  {
    InitialInv(threads);
    RunKeepsInv(Initial(threads), run);
  }

  // ----- Cancellation against a running pool -----

  lemma StaysCancelled(s: State, a: Action, t: Task)
    requires Enabled(s, a) && TaskExists(s, t) && IsCancelled(s, s.batches[t.batch])
    ensures TaskExists(Apply(s, a), t) && IsCancelled(Apply(s, a), Apply(s, a).batches[t.batch])
  {
  }

  lemma CancelledStep(s: State, a: Action, t: Task)
    requires Enabled(s, a) && TaskExists(s, t) && IsCancelled(s, s.batches[t.batch])
    ensures Apply(s, a).started[t] + Held(Apply(s, a).workers, t, ClearedStage)
         == s.started[t] + Held(s.workers, t, ClearedStage)
    ensures Apply(s, a).started[t] >= s.started[t]
  {
    if a.Take? || a.Check? || a.Enter? || a.Finish? || a.Publish? || a.Exit? {
      var n := Apply(s, a);
      assert n.workers == s.workers[a.worker := n.workers[a.worker]];
      HeldUpdate(s.workers, a.worker, n.workers[a.worker], t, ClearedStage);
    }
  }

  /** Once its batch is cancelled, no call passes the look-up any more: starts only use up calls already past it. */
  lemma {:induction false} CancelledRunClearsNothing(s: State, run: seq<Action>, t: Task)
    requires Feasible(s, run) && TaskExists(s, t) && IsCancelled(s, s.batches[t.batch])
    ensures After(s, run).started[t] + Held(After(s, run).workers, t, ClearedStage)
         == s.started[t] + Held(s.workers, t, ClearedStage)
    ensures After(s, run).started[t] >= s.started[t]
    decreases |run|
  {
    if run != [] {
      StaysCancelled(s, run[0], t);
      CancelledStep(s, run[0], t);
      CancelledRunClearsNothing(Apply(s, run[0]), run[1..], t);
    }
  }

  ghost predicate IsCleared(s: State, t: Task) {
    exists w :: 0 <= w < |s.workers| && s.workers[w] == Cleared(t)
  }

  lemma {:induction false} ClearedIsHeld(ws: seq<Worker>, t: Task)
    ensures Held(ws, t, ClearedStage) > 0 <==> exists w :: 0 <= w < |ws| && ws[w] == Cleared(t)
  {
    if ws != [] {
      ClearedIsHeld(ws[1..], t);
      if w :| 0 <= w < |ws| && ws[w] == Cleared(t) {
        HeldPositive(ws, w, t, ClearedStage);
      } else {
        assert ws[0] != Cleared(t);
        assert forall w :: 0 <= w < |ws[1..]| ==> ws[1..][w] == ws[w + 1];
      }
    }
  }

  /**
   Cancellation does not stop a call that is already past its look-up. From the moment a batch is
   cancelled, its call starts, and then once, if and only if it was past the look-up at that moment
   and is not there any more.
   */
  lemma StartsAfterCancel(threads: nat, before: seq<Action>, run: seq<Action>, t: Task)
    requires Feasible(Initial(threads), before)
    requires var s := After(Initial(threads), before);
             Feasible(s, run) && TaskExists(s, t) && IsCancelled(s, s.batches[t.batch])
    ensures var s := After(Initial(threads), before); var n := After(s, run);
            n.started[t] == s.started[t] + if IsCleared(s, t) && !IsCleared(n, t) then 1 else 0
    ensures var s := After(Initial(threads), before); IsCleared(After(s, run), t) ==> IsCleared(s, t)
  {
    var s := After(Initial(threads), before);
    var n := After(s, run);
    InitialInv(threads);
    RunKeepsInv(Initial(threads), before);
    RunKeepsInv(s, run);
    CancelledRunClearsNothing(s, run, t);
    ClearedIsHeld(s.workers, t);
    ClearedIsHeld(n.workers, t);
    assert Places(s, t) <= 1 && Places(n, t) <= 1;
    assert ExecutionOk(s, t) && ExecutionOk(n, t);
  }

  /** One worker has looked at the object of a one-call batch and found it not cancelled. */
  function PastLookUp(call: Call): State {
    State([], false, [Cleared(Task(0, 0))], [NewBatch([call], Some(0)).(enqueued := 1)], {},
          [Task(0, 0)], [Task(0, 0)], multiset{}, map[])
  }

  lemma ReachPastLookUp(call: Call, rest: seq<Action>) returns (run: seq<Action>)
    requires Feasible(PastLookUp(call), rest)
    ensures Feasible(Initial(1), run) && After(Initial(1), run) == After(PastLookUp(call), rest)
  {
    var s1 := Apply(Initial(1), Begin([call], Some(0)));
    var s2 := Apply(s1, Enqueue(0));
    assert s1.workers == [Waiting] && s1.batches == [NewBatch([call], Some(0))];
    assert s2.tasks == [Task(0, 0)];
    var s3 := Apply(s2, Take(0));
    assert s3.workers == [Taken(Task(0, 0))];
    assert Apply(s3, Check(0)) == PastLookUp(call);
    run := Prepend(s3, Check(0), rest);
    run := Prepend(s2, Take(0), run);
    run := Prepend(s1, Enqueue(0), run);
    run := Prepend(Initial(1), Begin([call], Some(0)), run);
  }

  /** It does happen: the look-up finds nothing, the batch is cancelled, and the executor is entered. */
  lemma LateStart(call: Call) returns (before: seq<Action>)
    ensures Feasible(Initial(1), before)
    ensures var s, t := After(Initial(1), before), Task(0, 0);
            && TaskExists(s, t) && IsCancelled(s, s.batches[0]) && s.started[t] == 0
            && Enabled(s, Enter(0)) && Apply(s, Enter(0)).started[t] == 1
  {
    var rest := Prepend(PastLookUp(call), Cancel(0), []);
    before := ReachPastLookUp(call, rest);
  }

  lemma Prepend(s: State, a: Action, rest: seq<Action>) returns (run: seq<Action>)
    requires Enabled(s, a) && Feasible(Apply(s, a), rest)
    ensures run == [a] + rest && Feasible(s, run) && After(s, run) == After(Apply(s, a), rest)
  {
    run := [a] + rest;
    assert run[1..] == rest;
  }
}
