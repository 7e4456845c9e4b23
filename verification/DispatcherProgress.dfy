/** The pool makes progress under every schedule, drains its queue after Stop, and lets every worker go. */
module DispatcherProgress {
  import opened Basics
  import opened ToolDispatcher
  import opened DispatcherSafety

  /** Steps that the pool and its callers take on their own. */
  predicate Internal(a: Action) {
    !a.Begin? && !a.Stop? && !a.Cancel?
  }

  /** How many internal steps a worker's present task can still cost, its own exit included. */
  function WorkerWork(w: Worker): nat {
    match w
    case Exited => 0
    case Waiting => 1
    case Finished(_, _) => 2
    case Running(_) => 3
    case Cleared(_) => 4
    case Taken(_) => 5
  }

  function WorkersWork(ws: seq<Worker>): nat {
    if ws == [] then 0 else WorkerWork(ws[0]) + WorkersWork(ws[1..])
  }

  /** A batch owes six units for each call not queued yet and one for its return. */
  function BatchWork(b: Batch): nat {
    (if b.enqueued <= |b.calls| then 6 * (|b.calls| - b.enqueued) else 0) + if b.returned.None? then 1 else 0
  }

  function BatchesWork(bs: seq<Batch>): nat {
    if bs == [] then 0 else BatchWork(bs[0]) + BatchesWork(bs[1..])
  }

  /** The work left: unqueued calls, queued tasks, held tasks, unreturned batches, live workers. */
  function Measure(s: State): nat {
    BatchesWork(s.batches) + 5 * |s.tasks| + WorkersWork(s.workers)
  }

  lemma {:induction false} WorkersWorkUpdate(ws: seq<Worker>, i: nat, w: Worker)
    requires i < |ws|
    ensures WorkersWork(ws[i := w]) + WorkerWork(ws[i]) == WorkersWork(ws) + WorkerWork(w)
  {
    if i == 0 {
      assert ws[i := w][1..] == ws[1..];
    } else {
      assert ws[i := w][1..] == ws[1..][i - 1 := w];
      WorkersWorkUpdate(ws[1..], i - 1, w);
    }
  }

  lemma {:induction false} BatchesWorkUpdate(bs: seq<Batch>, i: nat, b: Batch)
    requires i < |bs|
    ensures BatchesWork(bs[i := b]) + BatchWork(bs[i]) == BatchesWork(bs) + BatchWork(b)
  {
    if i == 0 {
      assert bs[i := b][1..] == bs[1..];
    } else {
      assert bs[i := b][1..] == bs[1..][i - 1 := b];
      BatchesWorkUpdate(bs[1..], i - 1, b);
    }
  }

  /** Every internal step uses up work, whatever the scheduler picks. */
  lemma StepDecreasesMeasure(s: State, a: Action)
    requires Enabled(s, a) && Internal(a)
    ensures Measure(Apply(s, a)) < Measure(s)
  {
    var n := Apply(s, a);
    if a.Enqueue? || a.Return? {
      BatchesWorkUpdate(s.batches, a.batch, n.batches[a.batch]);
    } else {
      WorkersWorkUpdate(s.workers, a.worker, n.workers[a.worker]);
      if a.Publish? {
        var t := s.workers[a.worker].task;
        BatchesWorkUpdate(s.batches, t.batch, n.batches[t.batch]);
      }
    }
  }

  /** No schedule of internal steps is longer than the work there was: the pool cannot run for ever. */
  lemma {:induction false} RunsAreBounded(s: State, run: seq<Action>)
    requires Feasible(s, run)
    requires forall i :: 0 <= i < |run| ==> Internal(run[i])
    ensures Measure(After(s, run)) + |run| <= Measure(s)
    decreases |run|
  {
    if run != [] {
      StepDecreasesMeasure(s, run[0]);
      assert forall i :: 0 <= i < |run[1..]| ==> run[1..][i] == run[i + 1];
      RunsAreBounded(Apply(s, run[0]), run[1..]);
    }
  }

  /** The work that a step from outside brings: six units for each call of a new batch and one for its return. */
  function Brought(a: Action): nat {
    if a.Begin? then 6 * |a.calls| + 1 else 0
  }

  function BroughtBy(run: seq<Action>): nat {
    if run == [] then 0 else Brought(run[0]) + BroughtBy(run[1..])
  }

  function InternalSteps(run: seq<Action>): nat {
    if run == [] then 0 else (if Internal(run[0]) then 1 else 0) + InternalSteps(run[1..])
  }

  lemma {:induction false} OneMoreBatch(bs: seq<Batch>, b: Batch)
    ensures BatchesWork(bs + [b]) == BatchesWork(bs) + BatchWork(b)
  {
    if bs == [] {
      assert bs + [b] == [b] && [b][1..] == [];
    } else {
      assert (bs + [b])[1..] == bs[1..] + [b];
      OneMoreBatch(bs[1..], b);
    }
  }

  lemma OutsideStepBrings(s: State, a: Action)
    requires Enabled(s, a) && !Internal(a)
    ensures Measure(Apply(s, a)) <= Measure(s) + Brought(a)
  {
    if a.Begin? {
      OneMoreBatch(s.batches, NewBatch(a.calls, a.token));
    }
  }

  /**
   Whatever else happens in between, new batches, the flag and cancellations included: the internal steps
   of a run and the work left at its end are at most the work at its start and the work brought.
   */
  lemma {:induction false} WorkIsNeverCreated(s: State, run: seq<Action>)
    requires Feasible(s, run)
    ensures InternalSteps(run) + Measure(After(s, run)) <= Measure(s) + BroughtBy(run)
    decreases |run|
  {
    if run != [] {
      if Internal(run[0]) {
        StepDecreasesMeasure(s, run[0]);
      } else {
        OutsideStepBrings(s, run[0]);
      }
      WorkIsNeverCreated(Apply(s, run[0]), run[1..]);
    }
  }

  /** Nothing is left for the pool or its callers to do. */
  ghost predicate Quiescent(s: State) {
    forall a: Action :: Internal(a) ==> !Enabled(s, a)
  }

  ghost predicate Completed(s: State) {
    && s.tasks == []
    && (forall b :: 0 <= b < |s.batches| ==> s.batches[b].returned.Some?)
    && (forall w :: 0 <= w < |s.workers| ==> if s.stop then s.workers[w].Exited? else s.workers[w].Waiting?)
  }

  predicate Holds(w: Worker) {
    w.Taken? || w.Cleared? || w.Running? || w.Finished?
  }

  /** A worker that holds a task can always take its next step. */
  lemma HolderCanStep(s: State, w: nat) returns (a: Action)
    requires Inv(s) && w < |s.workers| && Holds(s.workers[w])
    ensures Internal(a) && Enabled(s, a)
  {
    HeldTaskExists(s, w);
    assert BatchOk(s.batches[s.workers[w].task.batch]);
    a := match s.workers[w]
         case Taken(_) => Check(w)
         case Cleared(_) => Enter(w)
         case Running(_) => Finish(w, Cancelled)
         case _ => Publish(w);
  }

  lemma QuiescentWorkers(s: State, w: nat)
    requires Inv(s) && Quiescent(s) && w < |s.workers|
    ensures !Holds(s.workers[w])
  {
    if Holds(s.workers[w]) {
      var a := HolderCanStep(s, w);
    }
  }

  lemma {:induction false} NobodyHolds(ws: seq<Worker>, t: Task, k: Stage)
    requires forall w :: 0 <= w < |ws| ==> ws[w].Waiting? || ws[w].Exited?
    ensures Held(ws, t, k) == 0
  {
    if ws != [] {
      assert ws[0].Waiting? || ws[0].Exited?;
      assert forall w :: 0 <= w < |ws[1..]| ==> ws[1..][w] == ws[w + 1];
      NobodyHolds(ws[1..], t, k);
    }
  }

  lemma {:induction false} AllFilled(slots: seq<Option<ToolResult>>)
    requires forall i :: 0 <= i < |slots| ==> slots[i].Some?
    ensures Unpublished(slots) == 0
  {
    if slots != [] {
      assert slots[0].Some?;
      assert forall i :: 0 <= i < |slots[1..]| ==> slots[1..][i] == slots[i + 1];
      AllFilled(slots[1..]);
    }
  }

  /** With the queue empty and every call queued and nobody holding one, every slot is filled. */
  lemma QuiescentBatchReturned(s: State, b: nat)
    requires Inv(s) && Quiescent(s) && s.tasks == [] && b < |s.batches|
    requires forall w :: 0 <= w < |s.workers| ==> s.workers[w].Waiting? || s.workers[w].Exited?
    ensures s.batches[b].returned.Some?
  {
    var batch := s.batches[b];
    assert BatchOk(batch);
    assert !Enabled(s, Enqueue(b));
    forall i | 0 <= i < |batch.slots| ensures batch.slots[i].Some? {
      var t := Task(b, i);
      assert Places(s, t) == 1;
      NobodyHolds(s.workers, t, TakenStage);
      NobodyHolds(s.workers, t, ClearedStage);
      NobodyHolds(s.workers, t, RunningStage);
      NobodyHolds(s.workers, t, FinishedStage);
    }
    AllFilled(batch.slots);
    assert !Enabled(s, Return(b));
  }

  /**
   The pool with at least one worker never gets stuck: while a batch has not returned, or after Stop
   while a worker is still there, some internal step is enabled.
   */
  lemma NeverStuck(s: State)
    requires Inv(s) && |s.workers| >= 1
    ensures Quiescent(s) <==> Completed(s)
  {
    if Quiescent(s) {
      forall w | 0 <= w < |s.workers| ensures s.workers[w].Waiting? || s.workers[w].Exited? {
        QuiescentWorkers(s, w);
      }
      assert s.workers[0].Waiting? ==> !Enabled(s, Take(0));
      assert s.tasks == [];
      forall b | 0 <= b < |s.batches| ensures s.batches[b].returned.Some? {
        QuiescentBatchReturned(s, b);
      }
      forall w | 0 <= w < |s.workers|
        ensures if s.stop then s.workers[w].Exited? else s.workers[w].Waiting?
      {
        assert !Enabled(s, Exit(w));
      }
    } else {
      var a: Action :| Internal(a) && Enabled(s, a);
      if a.Enqueue? {
        assert BatchOk(s.batches[a.batch]);
      }
    }
  }

  /**
   Whatever the schedule, a run that can take no further internal step has answered every batch in
   full, and if the destructor has raised the flag every worker has left.
   */
  lemma EveryMaximalRunCompletes(threads: nat, run: seq<Action>)
    requires threads >= 1 && Feasible(Initial(threads), run) && Quiescent(After(Initial(threads), run))
    ensures Completed(After(Initial(threads), run))
  {
    InitialInv(threads);
    RunKeepsInv(Initial(threads), run);
    WorkersStay(Initial(threads), run);
    NeverStuck(After(Initial(threads), run));
  }

  lemma {:induction false} WorkersStay(s: State, run: seq<Action>)
    requires Feasible(s, run)
    ensures |After(s, run).workers| == |s.workers|
    decreases |run|
  {
    if run != [] {
      WorkersStay(Apply(s, run[0]), run[1..]);
    }
  }

  /** No worker leaves while a task is queued or a call is still to be queued. */
  lemma NoWorkerLeavesEarly(threads: nat, run: seq<Action>, w: nat)
    requires Feasible(Initial(threads), run)
    requires var s := After(Initial(threads), run); w < |s.workers| && s.workers[w].Exited?
    ensures var s := After(Initial(threads), run); s.stop && s.tasks == [] && FullyEnqueued(s)
  {
    InitialInv(threads);
    RunKeepsInv(Initial(threads), run);
  }
}
