/**
 The dispatcher object with its fields. Each method is one section that the code runs atomically,
 under the pool's lock or under one batch's lock; a caller may run them in any order that the
 guards allow. Every method is proved to be one step of the state machine, so the results about
 runs hold of the object.
 */
module DispatcherObject {
  import opened Basics
  import opened ToolDispatcher
  import opened DispatcherSafety

  class Dispatcher {
    var tasks: seq<Task>
    var stop: bool
    var workers: seq<Worker>
    var batches: seq<Batch>
    var cancelled: set<nat>
    ghost var enqueueOrder: seq<Task>
    ghost var takeOrder: seq<Task>
    ghost var started: multiset<Task>
    ghost var produced: map<Task, Outcome>

    ghost function Model(): State
      reads this
    {
      State(tasks, stop, workers, batches, cancelled, enqueueOrder, takeOrder, started, produced)
    }

    constructor (threads: nat)
      ensures Model() == Initial(threads) && Inv(Model())
    {
      tasks, stop, workers, batches, cancelled := [], false, seq(threads, _ => Waiting), [], {};
      enqueueOrder, takeOrder, started, produced := [], [], multiset{}, map[];
      InitialInv(threads);
    }

    /** Dispatch is entered: the shared state of the batch is set up. */
    method BeginDispatch(calls: seq<Call>, token: Option<nat>) returns (b: nat)
      requires Inv(Model()) && Enabled(Model(), Begin(calls, token))
      modifies this
      ensures Model() == Apply(old(Model()), Begin(calls, token)) && Inv(Model())
      ensures b == old(|batches|)
    {
      StepKeepsInv(Model(), Begin(calls, token));
      b := |batches|;
      batches := batches + [NewBatch(calls, token)];
    }

    /** One round of the loop that queues the closures. */
    method EnqueueNext(b: nat)
      requires Inv(Model()) && Enabled(Model(), Enqueue(b))
      modifies this
      ensures Model() == Apply(old(Model()), Enqueue(b)) && Inv(Model())
    {
      StepKeepsInv(Model(), Enqueue(b));
      var i := batches[b].enqueued;
      tasks := tasks + [Task(b, i)];
      enqueueOrder := enqueueOrder + [Task(b, i)];
      batches := batches[b := batches[b].(enqueued := i + 1)];
    }

    /** A worker wakes up: it leaves if it must, else it pops the front task. */
    method WakeUp(w: nat) returns (left: bool)
      requires Inv(Model()) && w < |workers| && workers[w].Waiting? && (stop || tasks != [])
      modifies this
      ensures left == (old(stop) && old(tasks) == [])
      ensures left ==> Enabled(old(Model()), Exit(w)) && Model() == Apply(old(Model()), Exit(w))
      ensures !left ==> Enabled(old(Model()), Take(w)) && Model() == Apply(old(Model()), Take(w))
      ensures Inv(Model())
    {
      if stop && tasks == [] {
        StepKeepsInv(Model(), Exit(w));
        workers := workers[w := Exited];
        left := true;
      } else {
        StepKeepsInv(Model(), Take(w));
        workers := workers[w := Taken(tasks[0])];
        takeOrder := takeOrder + [tasks[0]];
        tasks := tasks[1..];
        left := false;
      }
    }

    /** The task looks at its cancellation object, under that object's lock only. */
    method CheckCancellation(w: nat) returns (cleared: bool)
      requires Inv(Model()) && Enabled(Model(), Check(w))
      modifies this
      ensures Model() == Apply(old(Model()), Check(w)) && Inv(Model())
      ensures cleared == workers[w].Cleared?
    {
      StepKeepsInv(Model(), Check(w));
      var t := workers[w].task;
      var token := batches[t.batch].token;
      if token.Some? && token.value in cancelled {
        workers := workers[w := Finished(t, Cancelled)];
        cleared := false;
      } else {
        workers := workers[w := Cleared(t)];
        cleared := true;
      }
    }

    /** The executor is called with no lock held; a cancellation may have come in between. */
    method EnterExecutor(w: nat)
      requires Inv(Model()) && Enabled(Model(), Enter(w))
      modifies this
      ensures Model() == Apply(old(Model()), Enter(w)) && Inv(Model())
    {
      StepKeepsInv(Model(), Enter(w));
      started := started + multiset{workers[w].task};
      workers := workers[w := Running(workers[w].task)];
    }

    method ExecutorReturns(w: nat, outcome: Outcome)
      requires Inv(Model()) && Enabled(Model(), Finish(w, outcome))
      modifies this
      ensures Model() == Apply(old(Model()), Finish(w, outcome)) && Inv(Model())
    {
      StepKeepsInv(Model(), Finish(w, outcome));
      produced := produced[workers[w].task := outcome];
      workers := workers[w := Finished(workers[w].task, outcome)];
    }

    /** The result goes into its slot and the counter drops. */
    method PublishResult(w: nat)
      requires Inv(Model()) && Enabled(Model(), Publish(w))
      modifies this
      ensures Model() == Apply(old(Model()), Publish(w)) && Inv(Model())
    {
      StepKeepsInv(Model(), Publish(w));
      var t := workers[w].task;
      var batch := batches[t.batch];
      var result := ToolResult(batch.calls[t.index].id, batch.calls[t.index].name, workers[w].outcome);
      batches := batches[t.batch :=
        batch.(slots := batch.slots[t.index := Some(result)], remaining := batch.remaining - 1)];
      workers := workers[w := Waiting];
    }

    /** Dispatch hands its results to the caller. */
    method ReturnResults(b: nat) returns (results: seq<ToolResult>)
      requires Inv(Model()) && Enabled(Model(), Return(b))
      modifies this
      ensures Model() == Apply(old(Model()), Return(b)) && Inv(Model())
      ensures AnswersInOrder(results, old(batches)[b].calls)
      ensures forall i :: 0 <= i < |results| ==> old(batches)[b].slots[i] == Some(results[i])
    {
      StepKeepsInv(Model(), Return(b));
      assert BatchOk(batches[b]);
      results := Stored(batches[b].slots);
      AllPublished(batches[b].slots);
      forall i | 0 <= i < |results|
        ensures batches[b].slots[i] == Some(results[i])
        ensures results[i].id == batches[b].calls[i].id && results[i].name == batches[b].calls[i].name
      {
        assert SlotOk(Model(), b, i);
      }
      batches := batches[b := batches[b].(returned := Some(results))];
    }

    method RaiseStop()
      requires Inv(Model()) && Enabled(Model(), Stop)
      modifies this
      ensures Model() == Apply(old(Model()), Stop) && Inv(Model())
    {
      StepKeepsInv(Model(), Stop);
      stop := true;
    }

    method CancelRequest(request: nat)
      requires Inv(Model())
      modifies this
      ensures Model() == Apply(old(Model()), Cancel(request)) && Inv(Model())
    {
      StepKeepsInv(Model(), Cancel(request));
      cancelled := cancelled + {request};
    }
  }
}
